/** What `Jumpbo.new(n)` leaves behind: the outcome for every player count, and
    for the counts the stock-size table covers, the shape of the dealt game and
    the cards it holds. */
module InitFacts {
  import opened Wrappers
  import CH = CardHolder
  import Permute
  import Deck
  import opened Jumpbo
  import opened JumpboFacts

  /** The cards m deals of k cards each take are m times k. */
  lemma {:induction false} DealtIsProduct(m: nat, k: nat)
    ensures Dealt(m, k) == m * k
  {
    if m > 0 {
      DealtIsProduct(m - 1, k);
      assert (m - 1) * k + k == m * k;
    }
  }

  /** With no players, the new game holds every card on the draw pile, in the
      order given, and nothing else. */
  lemma InitWithoutPlayers(n: int, shuffled: seq<int>)
    requires n <= 0
    ensures Init(n, shuffled).Ok?
    ensures var g := Init(n, shuffled).value;
            && g.players == [] && IsTable(g.table)
            && Cards(g.table, Draw) == shuffled
            && Total(g) == multiset(shuffled)
  {
    var t := FreshTable(shuffled);
    assert FreshPlayers(n) == [];
    assert Init(n, shuffled) == Ok(Game(t, [], 0, None));
    FreshHoldings(t, [], shuffled);
  }

  /** With players but a count the stock-size table has no entry for, setting
      up fails on the lookup. */
  lemma InitWithoutStockSize(n: int, shuffled: seq<int>)
    requires n >= 1 && !(2 <= n <= 5)
    ensures Init(n, shuffled) == Err(NoStockSize(n))
  {
  }

  /** A successful set-up with players is the deal of the stock size to fresh
      players from a fresh table. */
  lemma InitSplit(n: int, shuffled: seq<int>, g: Game) returns (k: nat, dealt: (Holder, seq<Holder>))
    requires n >= 1 && Init(n, shuffled) == Ok(g)
    ensures StockSize(n) == Some(k)
    ensures DealAll(FreshTable(shuffled), FreshPlayers(n), k) == Ok(dealt)
    ensures g == Game(dealt.0, dealt.1, 0, None)
  {
    k := StockSize(n).value;
    dealt := DealAll(FreshTable(shuffled), FreshPlayers(n), k).value;
  }

  /** For two to five players and enough cards for every stock, setting up
      succeeds. */
  lemma InitSucceeds(n: int, shuffled: seq<int>)
    requires 2 <= n <= 5 && n * StockSize(n).value <= |shuffled|
    ensures Init(n, shuffled).Ok?
  {
    var k := StockSize(n).value;
    var table, players := FreshTable(shuffled), FreshPlayers(n);
    DealtIsProduct(n, k);
    assert Stock in PlayerNames;
    DealAllSucceeds(table, players, k);
  }

  /** Player i as set-up leaves it: labelled "Player i+1", with k cards in the
      stock and every other pile empty. */
  ghost predicate DealtPlayer(p: Holder, i: nat, k: nat) {
    && p.caption == PlayerLabel(i) && IsPlayer(p)
    && |Cards(p, Stock)| == k
    && forall q :: q in PlayerNames && q != Stock ==> Cards(p, q) == []
  }

  /** After setting up with n players: n players labelled "Player 1" onwards,
      each with a stock of the size the table gives for n and every other pile
      empty. */
  lemma InitPlayers(n: int, shuffled: seq<int>, g: Game)
    requires n >= 1 && Init(n, shuffled) == Ok(g)
    ensures 2 <= n <= 5 && |g.players| == n
    ensures forall i :: 0 <= i < n ==> DealtPlayer(g.players[i], i, StockSize(n).value)
  {
    var k, dealt := InitSplit(n, shuffled, g);
    var ps := FreshPlayers(n);
    DealAllPlayers(FreshTable(shuffled), ps, k, dealt);
    DealtToFresh(ps, dealt.1, k);
  }

  /** Fresh players, once each stock has grown by k cards, are labelled as
      before, hold k cards in their stocks and nothing elsewhere. */
  lemma DealtToFresh(ps: seq<Holder>, ps': seq<Holder>, k: nat)
    requires StocksGrown(ps, ps', k)
    requires forall i :: 0 <= i < |ps| ==> ps[i].caption == PlayerLabel(i) && IsPlayer(ps[i])
    requires forall i, q :: 0 <= i < |ps| && q in PlayerNames ==> Cards(ps[i], q) == []
    ensures |ps'| == |ps|
    ensures forall i :: 0 <= i < |ps| ==> DealtPlayer(ps'[i], i, k)
  {
    assert Stock in PlayerNames;
    forall i | 0 <= i < |ps|
      ensures DealtPlayer(ps'[i], i, k)
    {
      assert CH.OnlyChanged(ps[i], ps'[i], Stock);
    }
  }

  /** Setting up with n players starts a game nobody has won, on turn 0, with
      every stock holding cards. */
  lemma InitInProgress(n: int, shuffled: seq<int>, g: Game)
    requires n >= 1 && Init(n, shuffled) == Ok(g)
    ensures g.turn == 0 && g.winner == None
    ensures InProgress(g)
  {
    InitPlayers(n, shuffled, g);
    InitTable(n, shuffled, g);
    DealtInProgress(g, StockSize(n).value);
  }

  /** A game whose table has its five piles and whose players are as set-up
      leaves them, with stocks of k > 0 cards, is in progress. */
  lemma DealtInProgress(g: Game, k: nat)
    requires IsTable(g.table) && |g.players| > 0 && k > 0
    requires forall i :: 0 <= i < |g.players| ==> DealtPlayer(g.players[i], i, k)
    ensures InProgress(g)
  {
  }

  /** The table as set-up leaves it, m cards having been dealt from the given
      ones: only the draw pile holds cards, and it is the given cards without
      the top m. */
  ghost predicate DealtTable(t: Holder, shuffled: seq<int>, m: int) {
    && IsTable(t) && t.caption == "Game Cards"
    && (forall b :: b in TableNames && b != Draw ==> Cards(t, b) == [])
    && 0 <= m <= |shuffled|
    && Cards(t, Draw) == shuffled[..|shuffled| - m]
  }

  /** After setting up with n players: the building piles are empty and the draw
      pile is the given cards without the n stocks dealt from its top. */
  lemma InitTable(n: int, shuffled: seq<int>, g: Game)
    requires n >= 1 && Init(n, shuffled) == Ok(g)
    ensures 2 <= n <= 5 && DealtTable(g.table, shuffled, n * StockSize(n).value)
  {
    var k, dealt := InitSplit(n, shuffled, g);
    var t, ps := FreshTable(shuffled), FreshPlayers(n);
    DealAllTable(t, ps, k, dealt);
    DealAllDraw(t, ps, k, dealt);
    DealtIsProduct(n, k);
    TakenFromFresh(t, dealt.0, shuffled, Dealt(n, k));
  }

  /** A fresh table with only its draw pile changed, the top m cards taken. */
  lemma TakenFromFresh(t: Holder, t': Holder, shuffled: seq<int>, m: nat)
    requires t == FreshTable(shuffled)
    requires CH.OnlyChanged(t, t', Draw) && DrawTaken(t, t', m)
    ensures DealtTable(t', shuffled, m)
  {
  }

  /** Setting up keeps every card: the draw pile and the stocks together hold
      exactly the given cards. */
  lemma InitConserves(n: int, shuffled: seq<int>, g: Game)
    requires Init(n, shuffled) == Ok(g)
    ensures Total(g) == multiset(shuffled)
  {
    if n <= 0 {
      InitWithoutPlayers(n, shuffled);
    } else {
      var k, dealt := InitSplit(n, shuffled, g);
      var t, ps := FreshTable(shuffled), FreshPlayers(n);
      DealAllConserves(t, ps, k, dealt);
      FreshHoldings(t, ps, shuffled);
    }
  }

  /** A fresh table holds the given cards and fresh players hold none. */
  lemma FreshHoldings(t: Holder, ps: seq<Holder>, shuffled: seq<int>)
    requires t == FreshTable(shuffled)
    requires forall i, q :: 0 <= i < |ps| && q in PlayerNames ==> Cards(ps[i], q) == []
    ensures TableHeld(t) + PlayersHeld(ps) == multiset(shuffled)
  {
    assert Build1 in TableNames && Build2 in TableNames && Build3 in TableNames && Build4 in TableNames;
    EmptyPlayersHold(ps);
  }

  /** Players whose piles are all empty hold no cards. */
  lemma {:induction false} EmptyPlayersHold(ps: seq<Holder>)
    requires forall i, q :: 0 <= i < |ps| && q in PlayerNames ==> Cards(ps[i], q) == []
    ensures PlayersHeld(ps) == multiset{}
  {
    if ps != [] {
      assert forall q :: q in PlayerNames ==> Cards(ps[0], q) == [];
      assert Hand in PlayerNames && Stock in PlayerNames && Discard1 in PlayerNames;
      assert Discard2 in PlayerNames && Discard3 in PlayerNames && Discard4 in PlayerNames;
      EmptyPlayersHold(ps[1..]);
    }
  }

  /** The full card set has 162 cards. */
  lemma FullSetSize()
    ensures |GameCards()| == 162
  {
    Deck.CompositionFacts();
  }

  /** Every entry of the stock-size table leaves cards on the draw pile of the
      full card set once all stocks are dealt. */
  lemma StocksFit(n: int)
    requires StockSize(n).Some?
    ensures n * StockSize(n).value < |GameCards()|
  {
    FullSetSize();
  }

  /** A game just set up for n players from the given cards: in progress on
      turn 0 with no winner, holding exactly those cards, n stocks of them dealt
      off the draw pile, player i labelled "Player i+1" with a stock of the size
      the table gives for n and every other pile empty. */
  ghost predicate StartedWith(g: Game, n: int, cards: multiset<int>) {
    && InProgress(g) && g.turn == 0 && g.winner == None
    && |g.players| == n && StockSize(n).Some?
    && Total(g) == cards
    && |Cards(g.table, Draw)| == |cards| - n * StockSize(n).value
    && forall i :: 0 <= i < n ==> DealtPlayer(g.players[i], i, StockSize(n).value)
  }

  /** `Jumpbo.new(n)` for two to five players: a game in progress whose cards
      are the 162 of the full card set, each player's stock holding the number
      of cards the table gives for n (30 for two or three players, 20 for four
      or five) and the draw pile the 162 less n such stocks. */
  lemma NewGame(n: int, rng: nat -> nat)
    requires 2 <= n <= 5
    ensures New(n, rng).Ok?
    ensures StartedWith(New(n, rng).value, n, multiset(GameCards()))
    ensures |multiset(GameCards())| == 162
  {
    var shuffled := Permute.FisherYates(GameCards(), rng);
    FullSetSize();
    NewGameFrom(n, shuffled);
    assert New(n, rng) == Init(n, shuffled);
    assert multiset(shuffled) == multiset(GameCards());
  }

  /** The set-up of NewGame from any 162 cards. */
  lemma NewGameFrom(n: int, shuffled: seq<int>)
    requires 2 <= n <= 5 && |shuffled| == 162
    ensures Init(n, shuffled).Ok?
    ensures StartedWith(Init(n, shuffled).value, n, multiset(shuffled))
  {
    InitSucceeds(n, shuffled);
    var g := Init(n, shuffled).value;
    InitInProgress(n, shuffled, g);
    InitPlayers(n, shuffled, g);
    InitTable(n, shuffled, g);
    InitConserves(n, shuffled, g);
    var m := n * StockSize(n).value;
    assert DealtTable(g.table, shuffled, m);
  }
}
