# Memorama in Dafny

A model of the game logic of Memorama, a browser memory (concentration)
game written as one script, `memorama.js`. A board of face-down cards holds
two copies of each of `pairs` symbols; the player turns up two cards at a
time, a pair with equal symbols stays up as matched, a mismatched pair turns
back down, and the game ends when every pair is found. The script keeps its
state in module-level globals and drives everything from click handlers and
timers; only the state machine is modelled here.

The model has five modules:

- `Deck` (`deck.dfy`): the 16-symbol palette (symbols are opaque, modelled
  as the distinct integers 0..15), the `difficulties` table (easy 4 pairs,
  medium 6, hard 8, all 4 columns) and the unshuffled deck `GameCards(n)`:
  the first `n` symbols written twice.
- `Shuffle` (`shuffle.dfy`): `shuffleArray`, a Fisher-Yates countdown over
  an array copy of the argument. The random draw for position `i` is
  supplied as `choices[i]` in `[0, i]`. `ShuffleArray` is the imperative
  loop, proved equal to the recursive specification `Shuffled`, which is
  proved to be a permutation.
- `TimeFormat` (`time_format.dfy`): the `m:ss` clock text (decimal
  minutes, a colon, seconds padded on the left with `0` to two characters),
  with a parser `ParseTime` as its partner and a round-trip proof.
- `GameSpec` (`game_spec.dfy`): the globals as one `Round` value and one
  transition function per entry point (`InitGame`, `FlipCard`, `CheckMatch`,
  the deferred `Unflip`, `Tick`, `StartGame`, `RestartGame`,
  `ChangeDifficulty`, `EndGame`), the state invariant `Inv`, and the lemmas
  that state what the game promises. Each card's face is `FaceDown`,
  `Flipped` or `Matched`, read off the `flipped`/`matched` classes of its
  element; a matched card also keeps `flipped`. A transition that calls
  `setTimeout` returns the request (`Timeout(delay, callback)`) beside the
  new state.
- `Memorama` (`memorama.dfy`): class `Game` with the globals as fields and
  one method per entry point that updates them in place, each proved to
  have exactly the effect of the `GameSpec` transition and to keep
  `GameSpec.Inv`. The constructor is the page load: the declared initial
  values, then the first `initGame`.

Timers are not run. `flipCard` returns the 1000 ms `checkMatch` request;
`CheckMatch` returns the 500 ms `endGame` or un-flip request; the caller
plays the scheduler and later calls `CheckMatch`, `Unflip` or `EndGame`.
The one-second interval is the `Tick` method, callable while the clock is
armed (`timerOn`, the model of `timerInterval`).

The invariant `Inv` kept by every transition: the board holds `2 * pairs`
cards and, as a multiset, exactly the deck for the level; at most two cards
are pending, they are distinct and face up; the lock is closed exactly
when two are pending; the number of matched cards is `2 * matchedPairs`;
`matchedPairs` plus the pending pair is at most `moves`; the clock is armed
exactly while a game runs.

Notes on the script as written, which the model follows:

- The script releases the flip lock at the end of `checkMatch`
  (memorama.js:115-116), before the deferred un-flip of a mismatched pair
  runs (memorama.js:109-112). The still-face-up cards stay unflippable
  through the class check at memorama.js:81. `GameSpec.FlipCardGuard`
  states this, and `GameSpec.CheckMatchOnMismatch` and `GameSpec.Turn`
  state that the un-flip then restores exactly those two cards.
- The script has no phase variable, only the `gameStarted` and `canFlip`
  flags; a won game is a stopped one with every card matched
  (`GameSpec.WonIffAllMatched`, `GameSpec.EndGameLifecycle`).
- The script does not stamp timer callbacks with the round they belong
  to; callbacks left over from before a restart are excluded by
  preconditions (see "Left out").
- `startGame` deals a fresh board even though the page already shows one
  dealt at load or restart, as the script calls `initGame` again
  (memorama.js:146).

## Model

| member | source | states |
|---|---|---|
| `Deck.Palette` | memorama.js:11 | the palette has 16 entries, all pairwise distinct |
| `Deck.Difficulties` | memorama.js:13-17 | every level has between 1 and 8 pairs (so the deck fits the 16-symbol palette) and 4 columns |
| `Deck.PrefixOccurrences` | memorama.js:44 | the first n palette symbols hold each of the symbols 0..n-1 once and nothing else |
| `Deck.GameCardsCounts` | memorama.js:44-45 | the unshuffled deck for n pairs has 2n cards, each of the first n symbols exactly twice, no other symbol |
| `Shuffle.Swap` | memorama.js:56 | the destructuring swap exchanges the two entries and leaves every other entry and the length alone |
| `Shuffle.SwapPermutes` | memorama.js:56 | a swap keeps the multiset of entries |
| `Shuffle.ShuffleDownPermutes` | memorama.js:54-57 | the countdown loop from any index keeps the length and the multiset |
| `Shuffle.ShuffledPermutes` | memorama.js:52-59 | `shuffleArray` returns a permutation of its argument: same length, same multiset |
| `Shuffle.ShuffleArray` | memorama.js:52-59 | the in-place loop over the array copy returns exactly `Shuffled(deck, choices)`, a permutation of the argument, which is a value and stays unchanged |
| `TimeFormat.NatToStringValue` | memorama.js:124 | a number's decimal text is a non-empty digit string whose value is the number, one character below 10, at most two below 100 |
| `TimeFormat.LeadingZeroValue` | memorama.js:124 | padding a digit string with a leading '0' keeps its value |
| `TimeFormat.SecondsField` | memorama.js:123-124 | the padded seconds field always has two digits and is worth `seconds % 60` |
| `TimeFormat.FormatTimeParts` | memorama.js:122-124 | the clock text is `seconds / 60` in decimal, ':' and a two-digit field worth `seconds % 60 < 60`, and minutes * 60 + secs == seconds |
| `TimeFormat.ParseFormatTime` | memorama.js:163-165 | reading the clock text back gives the elapsed seconds |
| `GameSpec.UpdateCount` | memorama.js:100-101 | overwriting one card's face moves one occurrence from the old face to the new one |
| `GameSpec.CountAll` | memorama.js:105 | a face occurs as often as there are cards exactly when every card shows it |
| `GameSpec.InitGameDeals` | memorama.js:30-50 | `initGame` deals 2 * pairs face-down cards with each of the first `pairs` symbols exactly twice, empties the selection, zeroes matchedPairs, moves and seconds, opens the lock, keeps the level and the running flags, and establishes the invariant when the clock flag and the running flag agree |
| `GameSpec.FlipCardGuard` | memorama.js:79-82 | a flip changes the state if and only if the game runs, the lock is open, the card shows neither class and fewer than two cards are pending; a rejected flip arms nothing |
| `GameSpec.FlipCardMoves` | memorama.js:84-93 | moves rises by exactly one, the lock closes and the 1000 ms check is armed exactly when the second card is added, never on the first; an accepted flip turns just that card up and appends it to the selection |
| `GameSpec.FlipCardPreservesInv` | memorama.js:79-94 | a flip keeps the invariant, so at most two cards are ever pending |
| `GameSpec.CheckMatchOnPair` | memorama.js:99-107 | on equal symbols both cards become matched, no other card changes, matchedPairs rises by one, and the 500 ms end of game is armed exactly when that was the last pair |
| `GameSpec.CheckMatchOnMismatch` | memorama.js:108-113 | on different symbols board and pair count are unchanged and the un-flip of exactly those two cards is armed; when it fires those two go face down and no other card changes |
| `GameSpec.CheckMatchPreservesInv` | memorama.js:96-117 | `checkMatch` always ends with an empty selection and the lock open, and keeps the invariant |
| `GameSpec.PairFoundInv` | memorama.js:99-102 | the board with both cards of a found pair matched, one more pair counted and the selection cleared satisfies the invariant |
| `GameSpec.EndGameScheduled` | memorama.js:102-107 | `endGame` is armed exactly when matchedPairs goes from below the level's pair count to equal to it |
| `GameSpec.UnflipPreservesInv` | memorama.js:109-112 | the deferred un-flip of two cards that are not pending keeps the invariant |
| `GameSpec.MatchedBounds` | memorama.js:81-88 | under the invariant matchedPairs is at most the level's pairs and at most moves, and at most two cards are pending |
| `GameSpec.WonIffAllMatched` | memorama.js:105 | all pairs are found exactly when every card on the board is matched |
| `GameSpec.MatchedIsPermanent` | memorama.js:81 | a matched card stays matched through every flip, check and un-flip |
| `GameSpec.Turn` | memorama.js:79-117 | a turn of two flips and the check counts one move; equal symbols leave both matched and one more pair; different symbols leave the pair count alone and the un-flip restores the board exactly |
| `GameSpec.StartGameLifecycle` | memorama.js:140-148 | `startGame` is a no-op while a game runs; otherwise it deals afresh with every card face down and zeroed counters, marks the game running and arms the clock; it keeps the invariant |
| `GameSpec.RestartGameLifecycle` | memorama.js:150-157 | `restartGame` works from any state: clock and game stopped, fresh deal with every card face down, zeroed counters, invariant established, every later flip rejected |
| `GameSpec.ChangeDifficultyDeals` | memorama.js:184-187 | a difficulty change restarts at the new level with that level's number of cards, game stopped |
| `GameSpec.EndGameLifecycle` | memorama.js:159-161 | `endGame` stops clock and game, so later flips are rejected and no tick fires; board and counters are kept with the invariant |
| `GameSpec.TickPreservesInv` | memorama.js:120-121 | a tick adds one second, changes nothing else and keeps the invariant |
| `Memorama.Game.constructor` | memorama.js:1-9 | page load: the declared globals followed by the first `initGame`, satisfying the invariant |
| `Memorama.Game.InitGame` | memorama.js:30-50 | the fields become exactly `GameSpec.InitGame` of the old ones, and the object is valid afterwards when the clock flag and the running flag agreed |
| `Memorama.Game.FlipCard` | memorama.js:79-94 | fields and returned timeout are exactly `GameSpec.FlipCard` of the old state; the invariant is kept |
| `Memorama.Game.CheckMatch` | memorama.js:96-117 | fields and returned timeout are exactly `GameSpec.CheckMatch` of the old state; the invariant is kept |
| `Memorama.Game.Unflip` | memorama.js:109-112 | the fields become `GameSpec.Unflip` of the old ones; the invariant is kept |
| `Memorama.Game.Tick` | memorama.js:120-125 | seconds rises by one, the returned clock text is the m:ss text of the new count and reads back as it |
| `Memorama.Game.StartGame` | memorama.js:140-148 | the fields become `GameSpec.StartGame` of the old ones; the invariant is kept |
| `Memorama.Game.RestartGame` | memorama.js:150-157 | the fields become `GameSpec.RestartGame` of the old ones, from any state; the invariant is established |
| `Memorama.Game.ChangeDifficulty` | memorama.js:176-188 | the level is switched and the game restarted, as `GameSpec.ChangeDifficulty` |
| `Memorama.Game.EndGame` | memorama.js:159-174 | the fields become `GameSpec.EndGame` of the old ones; the returned time text and moves are the ones shown in the win dialog, and the text reads back as the seconds |

## Left out

- The DOM: element lookups, `renderBoard`'s HTML and click wiring (a fresh board is modelled as every card face down), `updateStats` text writes, button labels and the win-modal class toggling.
- The `confirm` dialog before a difficulty change while a game runs: a UI decision; only the resulting "set level, then restart" transition is modelled.
- Real timers and their interleaving: `setTimeout` requests are returned to the caller and the callbacks are explicit methods; `setInterval`/`clearInterval` are the `timerOn` flag and the `Tick` method.
- `Math.random`: its draws are the `choices` parameter, one value in `[0, i]` per position `i`.
- The emoji content of the palette: symbols are the distinct integers 0..15, since only equality is used.
- The symbol stored with each pending card: the selection holds indices and the symbol is read from `cards`, which no transition changes between the flip and the check.
- `Memorama.Game.CheckMatch`: requires two pending cards. A `checkMatch` left over from before a restart finds an empty selection and throws in the script; that stale case is excluded rather than modelled.
- `Memorama.Game.Unflip`: requires both indices to be on the board and outside the pending selection, which holds for every un-flip armed in the same round. A stale un-flip after a restart acts on detached elements in the script and changes nothing visible; the model does not represent detached elements.
- `Memorama.Game.Tick`: callable only while the clock is armed, as the interval runs only then.
