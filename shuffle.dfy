/** `shuffleArray`: a Fisher-Yates pass over a copy of its argument. The random
    draw `Math.floor(Math.random() * (i + 1))` is supplied by the caller as
    `choices[i]`, a value in [0, i]. */
module Shuffle {
  import opened Deck

  /** `choices` supplies one in-range draw per position of a sequence of
      length `n`: the draw for position i lies in [0, i]. */
  predicate ValidChoices(choices: seq<int>, n: nat)
  {
    |choices| == n && forall i :: 0 <= i < n ==> 0 <= choices[i] <= i
  }

  /** `s` with the entries at `i` and `j` exchanged. */
  function Swap(s: seq<Symbol>, i: nat, j: nat): (r: seq<Symbol>)
    requires i < |s| && j < |s|
    ensures |r| == |s| && r[i] == s[j] && r[j] == s[i]
    ensures forall k :: 0 <= k < |s| && k != i && k != j ==> r[k] == s[k]
  {
    s[i := s[j]][j := s[i]]
  }

  /** The loop from index `i` down to 1: at each step the entry at the
      current index is exchanged with the one at the drawn index. */
  function ShuffleDown(s: seq<Symbol>, choices: seq<int>, i: int): seq<Symbol>
    requires i < |s| && |choices| == |s|
    requires forall k :: 0 <= k <= i ==> 0 <= choices[k] <= k
    decreases i
  {
    if i <= 0 then s
    else ShuffleDown(Swap(s, i, choices[i]), choices, i - 1)
  }

  /** What `shuffleArray(s)` returns for the draws `choices`. */
  function Shuffled(s: seq<Symbol>, choices: seq<int>): seq<Symbol>
    requires ValidChoices(choices, |s|)
  {
    ShuffleDown(s, choices, |s| - 1)
  }

  /** Exchanging two entries keeps the length and the multiset. */
  lemma SwapPermutes(s: seq<Symbol>, i: nat, j: nat)
    requires i < |s| && j < |s|
    ensures multiset(Swap(s, i, j)) == multiset(s)
  {
    var t := s[i := s[j]];
    assert multiset(t) == multiset(s) - multiset{s[i]} + multiset{s[j]};
    assert multiset(t[j := s[i]]) == multiset(t) - multiset{t[j]} + multiset{s[i]};
  }

  /** Every step of the loop is a swap, so the whole pass is a permutation. */
  lemma {:induction false} ShuffleDownPermutes(s: seq<Symbol>, choices: seq<int>, i: int)
    requires i < |s| && |choices| == |s|
    requires forall k :: 0 <= k <= i ==> 0 <= choices[k] <= k
    ensures |ShuffleDown(s, choices, i)| == |s|
    ensures multiset(ShuffleDown(s, choices, i)) == multiset(s)
    decreases i
  {
    if i > 0 {
      SwapPermutes(s, i, choices[i]);
      ShuffleDownPermutes(Swap(s, i, choices[i]), choices, i - 1);
    }
  }

  /** `shuffleArray` returns a permutation of its argument. */
  lemma ShuffledPermutes(s: seq<Symbol>, choices: seq<int>)
    requires ValidChoices(choices, |s|)
    ensures |Shuffled(s, choices)| == |s|
    ensures multiset(Shuffled(s, choices)) == multiset(s)
  {
    ShuffleDownPermutes(s, choices, |s| - 1);
  }

  /** `shuffleArray`: copies its argument into a fresh array and runs the
      countdown loop over the copy. The argument is a value, so it is left
      as it was. */
  method ShuffleArray(deck: seq<Symbol>, choices: seq<int>) returns (shuffled: seq<Symbol>)
    requires ValidChoices(choices, |deck|)
    ensures shuffled == Shuffled(deck, choices)
    ensures |shuffled| == |deck| && multiset(shuffled) == multiset(deck)
  {
    var a := new Symbol[|deck|](k requires 0 <= k < |deck| => deck[k]);
    assert a[..] == deck;
    var i := a.Length - 1;
    while i > 0
      invariant -1 <= i < a.Length
      invariant ShuffleDown(a[..], choices, i) == Shuffled(deck, choices)
    {
      var j := choices[i];
      ghost var before := a[..];
      a[i], a[j] := a[j], a[i];
      assert a[..] == Swap(before, i, j);
      i := i - 1;
    }
    ShuffledPermutes(deck, choices);
    shuffled := a[..];
  }
}
