/** The full card set of the game and its shuffle. A card is an integer: 0 is
    the wildcard, 1 to 12 are the ranked cards. */
module Deck {
  import Permute

  datatype Deck = Deck(cards: seq<int>)

  /** k copies of card c. */
  function Repeat(c: int, k: nat): (r: seq<int>)
    ensures |r| == k
  {
    if k == 0 then [] else Repeat(c, k - 1) + [c]
  }

  /** Twelve copies of each rank from 1 to m, rank by rank in ascending order. */
  function RankBlocks(m: nat): (r: seq<int>)
    ensures |r| == 12 * m
  {
    if m == 0 then [] else RankBlocks(m - 1) + Repeat(m, 12)
  }

  /** The full card set as the code builds it: eighteen wildcards followed by
      twelve copies of each rank 1 to 12. */
  function Composition(): seq<int> {
    Repeat(0, Wildcards) + RankBlocks(TopRank)
  }

  /** The number of wildcards and the highest rank of the full set. */
  const Wildcards: nat := 18
  const TopRank: nat := 12

  /** How many copies of card v the full set holds, as the game's rules state it. */
  function Copies(v: int): nat {
    if v == 0 then 18 else if 1 <= v <= 12 then 12 else 0
  }

  /** The count of v in a concatenation is the sum of its counts in the parts. */
  lemma CountConcat(a: seq<int>, b: seq<int>, v: int)
    ensures multiset(a + b)[v] == multiset(a)[v] + multiset(b)[v]
  {
  }

  /** k copies of c hold k of c and nothing else. */
  lemma {:induction false} RepeatCount(c: int, k: nat, v: int)
    ensures multiset(Repeat(c, k))[v] == if v == c then k else 0
  {
    if k > 0 {
      RepeatCount(c, k - 1, v);
      CountConcat(Repeat(c, k - 1), [c], v);
    }
  }

  /** The rank blocks up to m hold twelve of each rank 1..m and nothing else. */
  lemma {:induction false} RankBlocksCount(m: nat, v: int)
    ensures multiset(RankBlocks(m))[v] == if 1 <= v <= m then 12 else 0
  {
    if m > 0 {
      RankBlocksCount(m - 1, v);
      RepeatCount(m, 12, v);
      CountConcat(RankBlocks(m - 1), Repeat(m, 12), v);
    }
  }

  /** w wildcards followed by the rank blocks up to m hold w wildcards and twelve
      of each rank 1..m. */
  lemma BlocksCount(w: nat, m: nat, v: int)
    ensures multiset(Repeat(0, w) + RankBlocks(m))[v] == BlockCopies(w, m, v)
  {
    RepeatCount(0, w, v);
    RankBlocksCount(m, v);
    CountConcat(Repeat(0, w), RankBlocks(m), v);
  }

  /** The counts the full set is built to have: w wildcards and twelve of each
      rank 1..m. */
  function BlockCopies(w: nat, m: nat, v: int): nat {
    if v == 0 then w else if 1 <= v <= m then 12 else 0
  }

  /** w wildcards followed by the rank blocks up to m hold w wildcards and
      twelve of each rank 1..m, for every card value. */
  lemma BlocksCopies(w: nat, m: nat)
    ensures forall v :: multiset(Repeat(0, w) + RankBlocks(m))[v] == BlockCopies(w, m, v)
  {
    forall v
      ensures multiset(Repeat(0, w) + RankBlocks(m))[v] == BlockCopies(w, m, v)
    {
      BlocksCount(w, m, v);
    }
  }

  /** The counts the code builds agree with the counts the rules state. */
  lemma CopiesAgree(v: int)
    ensures BlockCopies(Wildcards, TopRank, v) == Copies(v)
  {
  }

  /** Every card of w wildcards and the rank blocks up to m lies in 0..m. */
  lemma BlocksRange(w: nat, m: nat)
    ensures forall i :: 0 <= i < |Repeat(0, w) + RankBlocks(m)| ==> 0 <= (Repeat(0, w) + RankBlocks(m))[i] <= m
  {
    var s := Repeat(0, w) + RankBlocks(m);
    forall i | 0 <= i < |s|
      ensures 0 <= s[i] <= m
    {
      BlocksCount(w, m, s[i]);
      assert s[i] in multiset(s);
    }
  }

  /** The full set has 162 cards, each in 0..12, with the counts of Copies. */
  lemma CompositionFacts()
    ensures |Composition()| == 162
    ensures forall v :: multiset(Composition())[v] == Copies(v)
    ensures forall i :: 0 <= i < |Composition()| ==> 0 <= Composition()[i] <= 12
  {
    BlocksCopies(Wildcards, TopRank);
    forall v
      ensures multiset(Composition())[v] == Copies(v)
    {
      CopiesAgree(v);
    }
    BlocksRange(Wildcards, TopRank);
  }

  /** `Deck.new`: a deck holding the full card set, 162 cards, each in 0..12,
      with the counts of Copies. */
  function New(): (d: Deck)
    ensures |d.cards| == 162
    ensures forall v :: multiset(d.cards)[v] == Copies(v)
    ensures forall i :: 0 <= i < |d.cards| ==> 0 <= d.cards[i] <= 12
  {
    CompositionFacts();
    Deck(Composition())
  }

  /** `shuffle!`: permutes the deck's cards, keeping length and contents. */
  function Shuffle(d: Deck, rng: nat -> nat): (r: Deck)
    ensures |r.cards| == |d.cards|
    ensures multiset(r.cards) == multiset(d.cards)
  {
    Deck(Permute.FisherYates(d.cards, rng))
  }
}
