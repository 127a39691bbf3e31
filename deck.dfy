/** The fixed symbol palette, the difficulty table and the unshuffled deck
    that a new round is dealt from. */
module Deck {

  /** A card face. The game only ever compares two symbols for equality, so
      the palette entries are modelled as the distinct integers 0..15. */
  type Symbol = int

  /** Number of entries in the palette. */
  const PaletteSize: nat := 16

  /** The palette: 16 symbols, no two alike. */
  function Palette(): (p: seq<Symbol>)
    ensures |p| == PaletteSize
    ensures forall a, b :: 0 <= a < b < |p| ==> p[a] != p[b]
  {
    seq(PaletteSize, k => k)
  }

  /** The three levels a player can choose. */
  datatype Level = Easy | Medium | Hard

  /** One row of the difficulty table. */
  datatype Difficulty = Difficulty(pairs: nat, columns: nat)

  /** The difficulty table. */
  function Difficulties(level: Level): (d: Difficulty)
    ensures 1 <= d.pairs <= PaletteSize / 2 && d.columns == 4
  {
    match level
    case Easy => Difficulty(4, 4)
    case Medium => Difficulty(6, 4)
    case Hard => Difficulty(8, 4)
  }

  /** Number of pairs a round at `level` is played with. */
  function Pairs(level: Level): nat
  {
    Difficulties(level).pairs
  }

  /** The first `n` palette symbols, each written twice, before shuffling. */
  function GameCards(n: nat): seq<Symbol>
    requires n <= PaletteSize
  {
    Palette()[..n] + Palette()[..n]
  }

  /** The symbols 0..n-1 each occur once in the first `n` palette entries,
      and nothing else occurs. */
  lemma {:induction false} PrefixOccurrences(n: nat, x: Symbol)
    requires n <= PaletteSize
    ensures multiset(Palette()[..n])[x] == if 0 <= x < n then 1 else 0
  {
    if n > 0 {
      PrefixOccurrences(n - 1, x);
      assert Palette()[..n] == Palette()[..n - 1] + [n - 1];
    }
  }

  /** The deck for `n` pairs holds `2n` cards, each of the first `n` symbols
      exactly twice and no other symbol. */
  lemma GameCardsCounts(n: nat)
    requires n <= PaletteSize
    ensures |GameCards(n)| == 2 * n
    ensures forall x :: multiset(GameCards(n))[x] == if 0 <= x < n then 2 else 0
  {
    forall x ensures multiset(GameCards(n))[x] == if 0 <= x < n then 2 else 0 {
      PrefixOccurrences(n, x);
    }
  }
}
