/** The three container operations whose code does not do what their
    documentation says, modelled literally, each beside a lemma that exhibits
    the difference from the documented behaviour in module CardHolder. */
module CardHolderAsWritten {
  import opened Wrappers
  import CH = CardHolder

  /** What the literal code raises: the container's own errors, the failure of
      the index lookup in `take`, and the negative count `Array#shift` rejects. */
  datatype Error = HolderError(cause: CH.Error) | IndexLookupFailed | NegativeCount

  /** `can_take?` as written (card_holder.rb:90): true whenever p is a
      placement, whatever its cards. */
  function CanTake<N>(h: CH.Holder<N>, c: int, p: N): (r: bool)
    ensures r <==> p in CH.Placements(h)
  {
    var placement := CH.Get(h, p);
    !placement.None? && placement.Some?
  }

  /** `take` as written (card_holder.rb:82-85): when p is a placement, the index
      is looked up among the Hash's values, which are card arrays and never equal
      a card, so the lookup yields nil and `delete_at(nil)` raises. */
  function Take<N>(h: CH.Holder<N>, c: int, p: N): (r: Result<CH.Outcome<N>, Error>)
    ensures r.Err? <==> p in CH.Placements(h)
    ensures r.Ok? ==> r.value == CH.Outcome(h, None)
  {
    if !CanTake(h, c, p) then Ok(CH.Outcome(h, None))
    else Err(IndexLookupFailed)
  }

  /** `unshift(p, c)` as written (card_holder.rb:49-58): the placement is checked,
      the card is not, and `Array#unshift` is called with no argument, so
      nothing is inserted. */
  function Unshift<N>(h: CH.Holder<N>, p: N, card: Option<int>): (r: Result<CH.Holder<N>, Error>)
    ensures r.Err? <==> p !in CH.Placements(h)
    ensures r.Ok? ==> r.value == h
  {
    if p !in h.cards then Err(HolderError(CH.InvalidPlacement)) else Ok(h)
  }

  /** `shift(p, n)` as written (card_holder.rb:49-58): a card is demanded, and it
      is handed to `Array#shift` as a count, which removes and returns the first
      n cards (all of them when fewer remain) and rejects a negative n. */
  function Shift<N>(h: CH.Holder<N>, p: N, card: Option<int>): (r: Result<(CH.Holder<N>, seq<int>), Error>)
    ensures p !in h.cards ==> r == Err(HolderError(CH.InvalidPlacement))
    ensures p in h.cards && card.None? ==> r == Err(HolderError(CH.NilCard))
    ensures p in h.cards && card.Some? && card.value < 0 ==> r == Err(NegativeCount)
    ensures r.Ok? <==> p in h.cards && card.Some? && card.value >= 0
    ensures r.Ok? ==>
              && CH.OnlyChanged(h, r.value.0, p)
              && r.value.1 + r.value.0.cards[p] == h.cards[p]
              && |r.value.1| == if card.value < |h.cards[p]| then card.value else |h.cards[p]|
  {
    if p !in h.cards then Err(HolderError(CH.InvalidPlacement))
    else if card.None? then Err(HolderError(CH.NilCard))
    else if card.value < 0 then Err(NegativeCount)
    else
      var s := h.cards[p];
      var n := if card.value < |s| then card.value else |s|;
      assert s[..n] + s[n..] == s;
      Ok((h.(cards := h.cards[p := s[n..]]), s[..n]))
  }

  /** The literal existence check answers true for a card that is not there,
      where the documented check answers false. */
  lemma CanTakeAnswersForAbsentCard()
    ensures var h := CH.New("t", [1]);
            && CanTake(h, 5, 1)
            && !CH.CanTake(h, 5, 1)
  {
  }

  /** Wherever the documented `take` hands a card back, the literal one raises. */
  lemma TakeRaisesWhereDocumentedTakeSucceeds<N>(h: CH.Holder<N>, c: int, p: N)
    requires CH.CanTake(h, c, p)
    ensures Take(h, c, p).Err?
    ensures CH.Take(h, c, p).card == Some(c)
  {
  }

  /** Literally, `unshift(p, c)` followed by `shift(p)` neither inserts c nor
      gives it back: the shift raises for want of a card. The documented pair
      hands c back and restores the container. */
  lemma FrontRoundTripBroken<N>(h: CH.Holder<N>, p: N, c: int)
    requires p in h.cards
    ensures Unshift(h, p, Some(c)) == Ok(h)
    ensures Shift(h, p, None) == Err(HolderError(CH.NilCard))
    ensures CH.PopFront(CH.PushFront(h, p, Some(c)).value, p) == Ok(CH.Outcome(h, Some(c)))
  {
    CH.UnshiftShiftRoundTrip(h, p, c);
  }
}
