/** A labelled container of named card groups ("placements"). Each placement is
    an ordered sequence of cards: index 0 is the front, the last index the back.
    The set of placement names is fixed when the container is built; every
    operation below keeps it and touches at most the placement it addresses.

    Ruby's catch-all forwarding of `push`, `pop`, `shift` and `unshift` becomes the
    closed operation set `PushBack`, `PopBack`, `PushFront` and `PopFront`, with
    `Send` standing for the forwarding method and its argument checks. */
module CardHolder {
  import opened Wrappers
  import Permute

  /** The errors the container raises: an unknown placement name, or no card
      handed to an operation that inserts one. */
  datatype Error = InvalidPlacement | NilCard

  /** A labelled container; `caption` is the Ruby `label` (a Dafny keyword) and
      the key set of `cards` is its set of placements. */
  datatype Holder<N> = Holder(caption: string, cards: map<N, seq<int>>)

  /** What a forwarded operation leaves behind: the new container and the card
      it hands back. None is the empty result, distinct from the card 0. */
  datatype Outcome<N> = Outcome(holder: Holder<N>, card: Option<int>)

  /** The place argument of `peek`; anything but the front or the back is Other. */
  datatype Place = Front | Back | Other(name: string)

  /** The four operations the container forwards to a placement. */
  datatype Op = Push | Pop | Shift | Unshift {
    /** The operations that insert a card and therefore need one. */
    predicate InsertsCard() {
      this == Push || this == Unshift
    }
  }

  /** h' differs from h at most in placement p: same caption, same placements,
      every other placement as it was. */
  ghost predicate OnlyChanged<N>(h: Holder<N>, h': Holder<N>, p: N) {
    && h'.caption == h.caption
    && h'.cards.Keys == h.cards.Keys
    && forall q :: q in h.cards && q != p ==> h'.cards[q] == h.cards[q]
  }

  /** Two changes confined to p make one change confined to p. */
  lemma OnlyChangedTrans<N>(h: Holder<N>, h1: Holder<N>, h2: Holder<N>, p: N)
    requires OnlyChanged(h, h1, p) && OnlyChanged(h1, h2, p)
    ensures OnlyChanged(h, h2, p)
  {
  }

  /** A container holding one empty placement per given name. */
  function New<N(!new)>(caption: string, names: seq<N>): (h: Holder<N>)
    ensures h.caption == caption
    ensures forall p :: p in h.cards <==> p in names
    ensures forall p :: p in names ==> h.cards[p] == []
  {
    Holder(caption, map p | p in names :: [])
  }

  /** The placement names the container was built with. */
  function Placements<N>(h: Holder<N>): set<N> {
    h.cards.Keys
  }

  /** The placements of a new container are exactly the names it was built
      with. */
  lemma PlacementsOfNew<N(!new)>(caption: string, names: seq<N>)
    ensures Placements(New(caption, names)) == set p | p in names
  {
  }

  /** The cards of placement p, or None when p is not one of the placements. */
  function Get<N>(h: Holder<N>, p: N): (r: Option<seq<int>>)
    ensures r.Some? <==> p in Placements(h)
    ensures r.Some? ==> r.value == h.cards[p]
  {
    if p in h.cards then Some(h.cards[p]) else None
  }

  /** `push`: appends the card at the back of placement p. */
  function PushBack<N>(h: Holder<N>, p: N, card: Option<int>): (r: Result<Holder<N>, Error>)
    ensures p !in h.cards ==> r == Err(InvalidPlacement)
    ensures p in h.cards && card.None? ==> r == Err(NilCard)
    ensures p in h.cards && card.Some? ==>
              && r.Ok?
              && OnlyChanged(h, r.value, p)
              && |r.value.cards[p]| == |h.cards[p]| + 1
              && r.value.cards[p][..|h.cards[p]|] == h.cards[p]
              && r.value.cards[p][|h.cards[p]|] == card.value
  {
    if p !in h.cards then Err(InvalidPlacement)
    else if card.None? then Err(NilCard)
    else Ok(h.(cards := h.cards[p := h.cards[p] + [card.value]]))
  }

  /** `pop`: removes and returns the card at the back of placement p; an empty
      placement gives the empty result and stays as it is. */
  function PopBack<N>(h: Holder<N>, p: N): (r: Result<Outcome<N>, Error>)
    ensures p !in h.cards ==> r == Err(InvalidPlacement)
    ensures p in h.cards && h.cards[p] == [] ==> r == Ok(Outcome(h, None))
    ensures p in h.cards && h.cards[p] != [] ==>
              && r.Ok?
              && OnlyChanged(h, r.value.holder, p)
              && r.value.card.Some?
              && |r.value.holder.cards[p]| == |h.cards[p]| - 1
              && r.value.holder.cards[p] + [r.value.card.value] == h.cards[p]
  {
    if p !in h.cards then Err(InvalidPlacement)
    else
      var s := h.cards[p];
      if s == [] then Ok(Outcome(h, None))
      else Ok(Outcome(h.(cards := h.cards[p := s[..|s| - 1]]), Some(s[|s| - 1])))
  }

  /** `unshift` as documented: inserts the card at the front of placement p.
      The forwarding code passes the card to `shift` and nothing to `unshift`
      (card_holder.rb:52-58), so literally `unshift` inserts nothing; this model
      follows the documented front insertion instead (see CardHolderAsWritten). */
  function PushFront<N>(h: Holder<N>, p: N, card: Option<int>): (r: Result<Holder<N>, Error>)
    ensures p !in h.cards ==> r == Err(InvalidPlacement)
    ensures p in h.cards && card.None? ==> r == Err(NilCard)
    ensures p in h.cards && card.Some? ==>
              && r.Ok?
              && OnlyChanged(h, r.value, p)
              && |r.value.cards[p]| == |h.cards[p]| + 1
              && r.value.cards[p][0] == card.value
              && r.value.cards[p][1..] == h.cards[p]
  {
    if p !in h.cards then Err(InvalidPlacement)
    else if card.None? then Err(NilCard)
    else Ok(h.(cards := h.cards[p := [card.value] + h.cards[p]]))
  }

  /** `shift` as documented: removes and returns the card at the front of
      placement p. Literally the forwarding code hands the card argument to
      `Array#shift` as a count (card_holder.rb:52-58); this model follows the
      documented single-card removal instead (see CardHolderAsWritten). */
  function PopFront<N>(h: Holder<N>, p: N): (r: Result<Outcome<N>, Error>)
    ensures p !in h.cards ==> r == Err(InvalidPlacement)
    ensures p in h.cards && h.cards[p] == [] ==> r == Ok(Outcome(h, None))
    ensures p in h.cards && h.cards[p] != [] ==>
              && r.Ok?
              && OnlyChanged(h, r.value.holder, p)
              && r.value.card.Some?
              && |r.value.holder.cards[p]| == |h.cards[p]| - 1
              && [r.value.card.value] + r.value.holder.cards[p] == h.cards[p]
  {
    if p !in h.cards then Err(InvalidPlacement)
    else
      var s := h.cards[p];
      if s == [] then Ok(Outcome(h, None))
      else Ok(Outcome(h.(cards := h.cards[p := s[1..]]), Some(s[0])))
  }

  /** The forwarding method: an unknown placement is an error for every
      operation; a missing card is an error for the operations that insert
      one, and is ignored by the removing ones. */
  function Send<N>(h: Holder<N>, op: Op, p: N, card: Option<int>): (r: Result<Outcome<N>, Error>)
    ensures p !in h.cards ==> r == Err(InvalidPlacement)
    ensures p in h.cards && op.InsertsCard() && card.None? ==> r == Err(NilCard)
    ensures r.Err? <==> p !in h.cards || (op.InsertsCard() && card.None?)
    ensures r.Ok? && op.InsertsCard() ==> r.value.card == None
    ensures r.Ok? ==> OnlyChanged(h, r.value.holder, p)
    ensures op == Pop ==> r == PopBack(h, p)
    ensures op == Shift ==> r == PopFront(h, p)
    ensures op == Push && r.Ok? ==> PushBack(h, p, card) == Ok(r.value.holder)
    ensures op == Unshift && r.Ok? ==> PushFront(h, p, card) == Ok(r.value.holder)
  {
    match op
    case Push =>
      var h' :- PushBack(h, p, card);
      Ok(Outcome(h', None))
    case Unshift =>
      var h' :- PushFront(h, p, card);
      Ok(Outcome(h', None))
    case Pop => PopBack(h, p)
    case Shift => PopFront(h, p)
  }

  /** `peek`: the card at the front or the back of placement p, without removing
      it; None for an unknown placement, an empty one, or any other place. */
  function Peek<N>(h: Holder<N>, p: N, place: Place): (r: Option<int>)
    ensures r.Some? <==> p in h.cards && h.cards[p] != [] && !place.Other?
    ensures r.Some? && place == Front ==> r.value == h.cards[p][0]
    ensures r.Some? && place == Back ==> r.value == h.cards[p][|h.cards[p]| - 1]
  {
    if p !in h.cards || place.Other? then None
    else
      var s := h.cards[p];
      if s == [] then None
      else if place == Front then Some(s[0])
      else Some(s[|s| - 1])
  }

  /** The position of the first occurrence of c in s, scanning front to back. */
  function IndexOf(s: seq<int>, c: int): (r: Option<nat>)
    ensures r.None? <==> c !in s
    ensures r.Some? ==> r.value < |s| && s[r.value] == c && c !in s[..r.value]
  {
    if s == [] then None
    else if s[0] == c then Some(0)
    else
      match IndexOf(s[1..], c)
      case None => None
      case Some(i) =>
        assert s[..i + 1] == [s[0]] + s[1..][..i];
        Some(i + 1)
  }

  /** `can_take?` as documented: whether card c occurs in placement p. The code
      at card_holder.rb:90 only tests that p is a placement; this model scans the
      placement's cards instead (see CardHolderAsWritten). */
  function CanTake<N>(h: Holder<N>, c: int, p: N): (r: bool)
    ensures r <==> p in h.cards && c in h.cards[p]
  {
    p in h.cards && IndexOf(h.cards[p], c).Some?
  }

  /** `take` as documented: removes the first occurrence of card c from placement
      p and returns it; when c is absent (or p unknown) nothing changes and the
      result is empty. The code at card_holder.rb:84 looks the index up in the
      whole Hash rather than in the placement; this model uses the placement's
      own index (see CardHolderAsWritten). */
  function Take<N>(h: Holder<N>, c: int, p: N): (r: Outcome<N>)
    ensures !CanTake(h, c, p) ==> r == Outcome(h, None)
    ensures CanTake(h, c, p) ==>
              && r.card == Some(c)
              && OnlyChanged(h, r.holder, p)
              && |r.holder.cards[p]| == |h.cards[p]| - 1
              && multiset(r.holder.cards[p]) == multiset(h.cards[p]) - multiset{c}
              && exists i :: 0 <= i < |h.cards[p]| && h.cards[p][i] == c && c !in h.cards[p][..i]
                                && r.holder.cards[p] == h.cards[p][..i] + h.cards[p][i + 1..]
  {
    if p !in h.cards then Outcome(h, None)
    else
      var s := h.cards[p];
      match IndexOf(s, c)
      case None => Outcome(h, None)
      case Some(i) =>
        assert s == s[..i] + [s[i]] + s[i + 1..];
        Outcome(h.(cards := h.cards[p := s[..i] + s[i + 1..]]), Some(c))
  }

  /** `shuffle!`: permutes placement p with one Fisher–Yates pass driven by rng. */
  function Shuffle<N>(h: Holder<N>, p: N, rng: nat -> nat): (r: Result<Holder<N>, Error>)
    ensures p !in h.cards ==> r == Err(InvalidPlacement)
    ensures p in h.cards ==>
              && r.Ok?
              && OnlyChanged(h, r.value, p)
              && |r.value.cards[p]| == |h.cards[p]|
              && multiset(r.value.cards[p]) == multiset(h.cards[p])
  {
    if p !in h.cards then Err(InvalidPlacement)
    else Ok(h.(cards := h.cards[p := Permute.FisherYates(h.cards[p], rng)]))
  }

  /** Pushing a card and popping it again gives the card back and restores the
      container exactly. */
  lemma PushPopRoundTrip<N>(h: Holder<N>, p: N, c: int)
    requires p in h.cards
    ensures PushBack(h, p, Some(c)).Ok?
    ensures PopBack(PushBack(h, p, Some(c)).value, p) == Ok(Outcome(h, Some(c)))
  {
    var h' := PushBack(h, p, Some(c)).value;
    assert h'.cards[p][..|h'.cards[p]| - 1] == h.cards[p];
    assert h'.cards[p := h.cards[p]] == h.cards;
  }

  /** Popping a card off a non-empty placement and pushing it back restores the
      container exactly. */
  lemma PopPushRoundTrip<N>(h: Holder<N>, p: N)
    requires p in h.cards && h.cards[p] != []
    ensures var o := PopBack(h, p).value; PushBack(o.holder, p, o.card) == Ok(h)
  {
    var s := h.cards[p];
    var o := PopBack(h, p).value;
    assert o.holder.cards[p] + [s[|s| - 1]] == s;
    assert o.holder.cards[p := s] == h.cards;
  }

  /** Inserting a card at the front and shifting it off again gives the card back
      and restores the container exactly. */
  lemma UnshiftShiftRoundTrip<N>(h: Holder<N>, p: N, c: int)
    requires p in h.cards
    ensures PushFront(h, p, Some(c)).Ok?
    ensures PopFront(PushFront(h, p, Some(c)).value, p) == Ok(Outcome(h, Some(c)))
  {
    var h' := PushFront(h, p, Some(c)).value;
    assert h'.cards[p][1..] == h.cards[p];
    assert h'.cards[p := h.cards[p]] == h.cards;
  }

  /** Shifting a card off a non-empty placement and inserting it back at the front
      restores the container exactly. */
  lemma ShiftUnshiftRoundTrip<N>(h: Holder<N>, p: N)
    requires p in h.cards && h.cards[p] != []
    ensures var o := PopFront(h, p).value; PushFront(o.holder, p, o.card) == Ok(h)
  {
    var s := h.cards[p];
    var o := PopFront(h, p).value;
    assert [s[0]] + o.holder.cards[p] == s;
    assert o.holder.cards[p := s] == h.cards;
  }

  /** Peeking at a side shows exactly the card that removing from that side would
      hand back, and the empty result exactly when removal gives none. */
  lemma PeekMatchesRemoval<N>(h: Holder<N>, p: N)
    requires p in h.cards
    ensures Peek(h, p, Back) == PopBack(h, p).value.card
    ensures Peek(h, p, Front) == PopFront(h, p).value.card
  {
  }

  /** Taking a card that occurs removes one copy only: every other card value
      keeps its count, and c loses exactly one. */
  lemma TakeRemovesOneCopy<N>(h: Holder<N>, c: int, p: N)
    requires p in h.cards && c in h.cards[p]
    ensures var s' := Take(h, c, p).holder.cards[p];
              && multiset(s')[c] == multiset(h.cards[p])[c] - 1
              && forall d :: d != c ==> multiset(s')[d] == multiset(h.cards[p])[d]
  {
  }
}
