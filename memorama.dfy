/** The game object: the script's module-level globals as fields, updated
    in place by one method per entry point. Each method's effect is the
    matching transition of `GameSpec`, whose properties are proved there;
    every method keeps `GameSpec.Inv`. Timers are not run: a method that
    calls `setTimeout` returns the request, and the caller later invokes
    `CheckMatch`, `Unflip` or `EndGame`; the one-second interval is the
    `Tick` method, which may be called while the clock is armed. */
module Memorama {
  import opened Options
  import opened Deck
  import opened Shuffle
  import opened TimeFormat
  import GameSpec

  class Game {
    var cards: seq<Symbol>
    var faces: seq<GameSpec.CardState>
    var flippedCards: seq<nat>
    var matchedPairs: nat
    var moves: nat
    var seconds: nat
    var gameStarted: bool
    var timerOn: bool
    var canFlip: bool
    var currentDifficulty: Level

    /** The globals as one value. */
    function Snapshot(): GameSpec.Round
      reads this
    {
      GameSpec.Round(cards, faces, flippedCards, matchedPairs, moves, seconds,
                     gameStarted, timerOn, canFlip, currentDifficulty)
    }

    ghost predicate Valid()
      reads this
    {
      GameSpec.Inv(Snapshot())
    }

    /** Page load: the globals take their declared values, then the first
      `initGame` deals an easy board. */
    constructor (choices: seq<int>)
      requires ValidChoices(choices, 2 * Pairs(Easy))
      ensures Valid()
      ensures Snapshot() == GameSpec.InitGame(GameSpec.Loaded(), choices)
    {
      cards, faces, flippedCards := [], [], [];
      matchedPairs, moves, seconds := 0, 0, 0;
      gameStarted, timerOn, canFlip := false, false, true;
      currentDifficulty := Easy;
      new;
      InitGame(choices);
      GameSpec.InitGameDeals(GameSpec.Loaded(), choices);
    }

    /** `initGame`. */
    method InitGame(choices: seq<int>)
      requires ValidChoices(choices, 2 * Pairs(currentDifficulty))
      modifies this
      ensures Snapshot() == GameSpec.InitGame(old(Snapshot()), choices)
      ensures old(timerOn == gameStarted) ==> Valid()
    {
      GameSpec.InitGameDeals(Snapshot(), choices);
      var numPairs := Pairs(currentDifficulty);
      cards := [];
      flippedCards := [];
      matchedPairs := 0;
      moves := 0;
      seconds := 0;
      canFlip := true;
      var gameCards := GameCards(numPairs);
      cards := ShuffleArray(gameCards, choices);
      // renderBoard: a fresh face-down element per card
      faces := seq(|cards|, _ => GameSpec.FaceDown);
    }

    /** `flipCard(index)`; returns the `checkMatch` timeout when one is
      armed. */
    method FlipCard(index: nat) returns (scheduled: Option<GameSpec.Timeout>)
      requires Valid() && index < |faces|
      modifies this
      ensures Valid()
      ensures GameSpec.Outcome(Snapshot(), scheduled) == GameSpec.FlipCard(old(Snapshot()), index)
    {
      GameSpec.FlipCardPreservesInv(Snapshot(), index);
      scheduled := None;
      if !gameStarted || !canFlip {
        return;
      }
      if faces[index] != GameSpec.FaceDown {
        return;
      }
      if |flippedCards| >= 2 {
        return;
      }
      faces := faces[index := GameSpec.Flipped];
      flippedCards := flippedCards + [index];
      if |flippedCards| == 2 {
        moves := moves + 1;
        canFlip := false;
        scheduled := Some(GameSpec.Timeout(GameSpec.CheckMatchDelay, GameSpec.CheckMatchTimer));
      }
    }

    /** `checkMatch`, run when its timeout fires; returns the `endGame` or
      un-flip timeout it arms. */
    method CheckMatch() returns (scheduled: Option<GameSpec.Timeout>)
      requires Valid() && |flippedCards| == 2
      modifies this
      ensures Valid()
      ensures GameSpec.PairPending(old(Snapshot()))
      ensures GameSpec.Outcome(Snapshot(), scheduled) == GameSpec.CheckMatch(old(Snapshot()))
    {
      ghost var before := Snapshot();
      GameSpec.CheckMatchPreservesInv(before);
      ghost var after := GameSpec.CheckMatch(before);
      var card1, card2 := flippedCards[0], flippedCards[1];
      if cards[card1] == cards[card2] {
        faces := faces[card1 := GameSpec.Matched][card2 := GameSpec.Matched];
        matchedPairs := matchedPairs + 1;
        if matchedPairs == Pairs(currentDifficulty) {
          scheduled := Some(GameSpec.Timeout(GameSpec.EndGameDelay, GameSpec.EndGameTimer));
        } else {
          scheduled := None;
        }
      } else {
        scheduled := Some(GameSpec.Timeout(GameSpec.UnflipDelay, GameSpec.UnflipTimer(card1, card2)));
      }
      flippedCards := [];
      canFlip := true;
      assert Snapshot() == after.next && scheduled == after.scheduled;
    }

    /** The closure armed by a mismatch, run when its timeout fires: both
      cards lose the `flipped` class. */
    method Unflip(first: nat, second: nat)
      requires Valid() && first < |faces| && second < |faces|
      requires first !in flippedCards && second !in flippedCards
      modifies this
      ensures Valid()
      ensures Snapshot() == GameSpec.Unflip(old(Snapshot()), first, second)
    {
      ghost var before := Snapshot();
      GameSpec.UnflipPreservesInv(before, first, second);
      ghost var after := GameSpec.Unflip(before, first, second);
      if faces[first] == GameSpec.Flipped {
        faces := faces[first := GameSpec.FaceDown];
      }
      assert faces == GameSpec.RemoveFlipped(before.faces, first);
      if faces[second] == GameSpec.Flipped {
        faces := faces[second := GameSpec.FaceDown];
      }
      assert faces == after.faces;
      assert Snapshot() == after;
    }

    /** The body of the one-second interval; returns the clock text. */
    method Tick() returns (display: string)
      requires Valid() && timerOn
      modifies this
      ensures Valid()
      ensures Snapshot() == GameSpec.Tick(old(Snapshot()))
      ensures display == FormatTime(seconds) && ParseTime(display) == Some(seconds)
    {
      seconds := seconds + 1;
      display := FormatTime(seconds);
      ParseFormatTime(seconds);
    }

    /** `startGame`. */
    method StartGame(choices: seq<int>)
      requires Valid() && ValidChoices(choices, 2 * Pairs(currentDifficulty))
      modifies this
      ensures Valid()
      ensures Snapshot() == GameSpec.StartGame(old(Snapshot()), choices)
    {
      GameSpec.StartGameLifecycle(Snapshot(), choices);
      if gameStarted {
        return;
      }
      gameStarted := true;
      InitGame(choices);
      // startTimer
      timerOn := true;
    }

    /** `restartGame`; valid from any state. */
    method RestartGame(choices: seq<int>)
      requires ValidChoices(choices, 2 * Pairs(currentDifficulty))
      modifies this
      ensures Valid()
      ensures Snapshot() == GameSpec.RestartGame(old(Snapshot()), choices)
    {
      GameSpec.RestartGameLifecycle(Snapshot(), choices);
      // stopTimer
      timerOn := false;
      gameStarted := false;
      InitGame(choices);
    }

    /** A difficulty button: set the level, then restart. */
    method ChangeDifficulty(level: Level, choices: seq<int>)
      requires ValidChoices(choices, 2 * Pairs(level))
      modifies this
      ensures Valid()
      ensures Snapshot() == GameSpec.ChangeDifficulty(old(Snapshot()), level, choices)
    {
      currentDifficulty := level;
      RestartGame(choices);
    }

    /** `endGame`, run when its timeout fires; returns the final clock text
      and move count shown in the win dialog. */
    method EndGame() returns (timeString: string, finalMoves: nat)
      requires Valid()
      modifies this
      ensures Valid()
      ensures Snapshot() == GameSpec.EndGame(old(Snapshot()))
      ensures timeString == FormatTime(seconds) && ParseTime(timeString) == Some(seconds)
      ensures finalMoves == moves
    {
      // stopTimer
      timerOn := false;
      gameStarted := false;
      timeString := FormatTime(seconds);
      ParseFormatTime(seconds);
      finalMoves := moves;
    }
  }
}
