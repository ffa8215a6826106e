/** The in-place random permutation behind Ruby's `Array#shuffle!`, with the random
    generator made an explicit stream: `rng(k)` is the k-th number it produces.
    Every shuffle in the model is one pass of this algorithm; the only property the
    game relies on is that the result is a permutation of the input. */
module Permute {

  /** Exchanges the elements at positions i and j. */
  function Swap(s: seq<int>, i: nat, j: nat): (r: seq<int>)
    requires i < |s| && j < |s|
    ensures |r| == |s|
    ensures r[i] == s[j] && r[j] == s[i]
    ensures forall k :: 0 <= k < |s| && k != i && k != j ==> r[k] == s[k]
    ensures multiset(r) == multiset(s)
  {
    s[i := s[j]][j := s[i]]
  }

  /** The Fisher–Yates pass over the first i positions: pick j below i from the
      next random number, step i down, and exchange positions i and j. Positions
      at or above i are already final. */
  function ShuffleFrom(s: seq<int>, i: nat, rng: nat -> nat): (r: seq<int>)
    requires i <= |s|
    ensures |r| == |s|
    ensures multiset(r) == multiset(s)
    ensures r[i..] == s[i..]
    decreases i
  {
    if i == 0 then s
    else
      var t := Swap(s, i - 1, rng(|s| - i) % i);
      assert t[i..] == s[i..];
      ShuffleFrom(t, i - 1, rng)
  }

  /** A full shuffle of s driven by the stream rng. */
  function FisherYates(s: seq<int>, rng: nat -> nat): (r: seq<int>)
    ensures |r| == |s|
    ensures multiset(r) == multiset(s)
  {
    ShuffleFrom(s, |s|, rng)
  }

  /** The same pass written as a loop, one exchange per iteration, as Ruby's
      runtime performs `shuffle!` in place. The model's shuffles use the
      functional FisherYates; this method shows that the in-place loop computes
      exactly that function, and therefore a permutation. */
  method Shuffle(s: seq<int>, rng: nat -> nat) returns (r: seq<int>)
    ensures r == FisherYates(s, rng)
    ensures multiset(r) == multiset(s)
  {
    r := s;
    var i: nat := |s|;
    while i > 0
      invariant i <= |r| == |s|
      invariant ShuffleFrom(r, i, rng) == FisherYates(s, rng)
      invariant multiset(r) == multiset(s)
      decreases i
    {
      var j := rng(|s| - i) % i;
      i := i - 1;
      r := Swap(r, i, j);
    }
  }
}
