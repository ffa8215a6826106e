/** The Jumpbo game engine: one table container (the draw pile and four
    building piles) and one container per player (hand, stock and four discard
    piles), a turn counter and the winner once there is one.

    Randomness is a parameter: a shuffle is a Fisher–Yates pass driven by a
    stream `rng` of random numbers, and the engine's coin `rand(2)` is a stream
    `coin` of booleans, `coin(k)` true when the k-th toss of a turn comes up 0. */
module Jumpbo {
  import opened Wrappers
  import CH = CardHolder
  import Permute
  import Deck

  /** The placement names the game uses. */
  datatype Name =
    | Draw | Build1 | Build2 | Build3 | Build4
    | Hand | Stock | Discard1 | Discard2 | Discard3 | Discard4

  const TableNames: seq<Name> := [Draw, Build1, Build2, Build3, Build4]
  const PlayerNames: seq<Name> := [Hand, Stock, Discard1, Discard2, Discard3, Discard4]

  type Holder = CH.Holder<Name>

  /** Errors that end a game: one raised by a container, or a player count the
      stock-size table has no entry for. */
  datatype Error = HolderError(cause: CH.Error) | NoStockSize(playerCount: int)

  /** The game state; `winner` is the index of the winning player. */
  datatype Game = Game(table: Holder, players: seq<Holder>, turn: nat, winner: Option<nat>)

  /** `GAME_CARDS`: the same eighteen wildcards and twelve copies of each rank
      as a fresh deck. */
  function GameCards(): (r: seq<int>)
    ensures |r| == 162
    ensures forall v :: multiset(r)[v] == Deck.Copies(v)
  {
    Deck.CompositionFacts();
    Deck.Composition()
  }

  /** `CARDS_PER_PLAYER`: the stock each player is dealt, by player count. */
  const CardsPerPlayer: map<int, nat> := map[2 := 30, 3 := 30, 4 := 20, 5 := 20]

  /** The stock size for n players, None where the table has no entry. */
  function StockSize(n: int): (r: Option<nat>)
    ensures r.Some? <==> 2 <= n <= 5
    ensures n == 2 || n == 3 ==> r == Some(30)
    ensures n == 4 || n == 5 ==> r == Some(20)
  {
    if n in CardsPerPlayer then Some(CardsPerPlayer[n]) else None
  }

  /** The cards of placement p, or none when p is not a placement. */
  function Cards(h: Holder, p: Name): seq<int> {
    CH.Get(h, p).GetOr([])
  }

  /** A container with exactly the table's placements. */
  ghost predicate IsTable(h: Holder) {
    forall p :: p in h.cards <==> p in TableNames
  }

  /** A container with exactly a player's placements. */
  ghost predicate IsPlayer(h: Holder) {
    forall p :: p in h.cards <==> p in PlayerNames
  }

  /** The shape every game has once it is set up with at least one player. */
  ghost predicate WellFormed(g: Game) {
    && IsTable(g.table)
    && |g.players| > 0
    && forall i :: 0 <= i < |g.players| ==> IsPlayer(g.players[i])
  }

  /** A game nobody has won: every stock still holds a card. */
  ghost predicate InProgress(g: Game) {
    && WellFormed(g)
    && forall i :: 0 <= i < |g.players| ==> Cards(g.players[i], Stock) != []
  }

  /** Every card on the building piles. */
  function BuildHeld(h: Holder): multiset<int> {
    multiset(Cards(h, Build1)) + multiset(Cards(h, Build2))
      + multiset(Cards(h, Build3)) + multiset(Cards(h, Build4))
  }

  /** Every card on the table. */
  function TableHeld(h: Holder): multiset<int> {
    multiset(Cards(h, Draw)) + BuildHeld(h)
  }

  /** Every card a player holds outside the stock. */
  function OffStockHeld(h: Holder): multiset<int> {
    multiset(Cards(h, Hand))
      + multiset(Cards(h, Discard1)) + multiset(Cards(h, Discard2))
      + multiset(Cards(h, Discard3)) + multiset(Cards(h, Discard4))
  }

  /** Every card a player holds. */
  function PlayerHeld(h: Holder): multiset<int> {
    multiset(Cards(h, Stock)) + OffStockHeld(h)
  }

  /** Every card the given players hold. */
  function PlayersHeld(ps: seq<Holder>): multiset<int> {
    if ps == [] then multiset{} else PlayerHeld(ps[0]) + PlayersHeld(ps[1..])
  }

  /** Every card in the game. */
  function Total(g: Game): multiset<int> {
    TableHeld(g.table) + PlayersHeld(g.players)
  }

  /** Changing only the draw pile leaves the building piles as they were. */
  lemma DrawOnlyChange(h: Holder, h': Holder)
    requires CH.OnlyChanged(h, h', Draw)
    ensures BuildHeld(h') == BuildHeld(h)
  {
    assert forall q :: q in [Build1, Build2, Build3, Build4] ==> Cards(h', q) == Cards(h, q);
  }

  /** Changing only the stock leaves the player's other piles as they were. */
  lemma StockOnlyChange(h: Holder, h': Holder)
    requires CH.OnlyChanged(h, h', Stock)
    ensures OffStockHeld(h') == OffStockHeld(h)
  {
    assert forall q :: q in [Hand, Discard1, Discard2, Discard3, Discard4] ==> Cards(h', q) == Cards(h, q);
  }

  /** Moving the cards m from the draw pile to a stock keeps the cards of table
      and player together. */
  lemma Transfer(table: Holder, table': Holder, player: Holder, player': Holder, m: multiset<int>)
    requires CH.OnlyChanged(table, table', Draw) && CH.OnlyChanged(player, player', Stock)
    requires multiset(Cards(table, Draw)) == multiset(Cards(table', Draw)) + m
    requires multiset(Cards(player', Stock)) == multiset(Cards(player, Stock)) + m
    ensures TableHeld(table') + PlayerHeld(player') == TableHeld(table) + PlayerHeld(player)
  {
    DrawOnlyChange(table, table');
    StockOnlyChange(player, player');
  }

  /** The decimal digits of n. */
  function NatToString(n: nat): string {
    if n < 10 then ["0123456789"[n]] else NatToString(n / 10) + ["0123456789"[n % 10]]
  }

  /** The label of the player at index k. */
  function PlayerLabel(k: nat): string {
    "Player " + NatToString(k + 1)
  }

  /** The cards in reverse order. */
  function Reverse(s: seq<int>): (r: seq<int>)
    ensures |r| == |s|
  {
    if s == [] then [] else [s[|s| - 1]] + Reverse(s[..|s| - 1])
  }

  /** Reversal keeps every card. */
  lemma {:induction false} ReverseKeepsCards(s: seq<int>)
    ensures multiset(Reverse(s)) == multiset(s)
  {
    if s != [] {
      ReverseKeepsCards(s[..|s| - 1]);
      assert s == s[..|s| - 1] + [s[|s| - 1]];
    }
  }

  /** Pushes the cards one by one onto the back of placement p, so that they end
      up there in the same order. */
  function PushEach(h: Holder, p: Name, cs: seq<int>): (r: Result<Holder, CH.Error>)
    ensures p !in h.cards && cs != [] ==> r == Err(CH.InvalidPlacement)
    ensures p in h.cards ==> r.Ok? && CH.OnlyChanged(h, r.value, p) && r.value.cards[p] == h.cards[p] + cs
    decreases |cs|
  {
    if cs == [] then Ok(h)
    else
      var h' :- CH.PushBack(h, p, Some(cs[0]));
      assert p in h.cards ==> h.cards[p] + cs == h'.cards[p] + cs[1..];
      PushEach(h', p, cs[1..])
  }

  /** Deals k cards to a player's stock, one at a time, each popped off the back
      of the draw pile and pushed onto the back of the stock. A pop from an empty
      draw pile yields no card, and pushing no card raises. */
  function DealStock(table: Holder, player: Holder, k: nat): (r: Result<(Holder, Holder), CH.Error>)
    ensures r.Ok? <==> k == 0 || (Draw in table.cards && Stock in player.cards && k <= |table.cards[Draw]|)
    ensures k > 0 && Draw in table.cards && Stock in player.cards && k > |table.cards[Draw]| ==>
              r == Err(CH.NilCard)
    decreases k
  {
    if k == 0 then Ok((table, player))
    else
      var o :- CH.PopBack(table, Draw);
      var p1 :- CH.PushBack(player, Stock, o.card);
      DealStock(o.holder, p1, k - 1)
  }

  /** The effect of dealing k cards, computed in one step: the stock receives
      the top k cards of the draw pile, the topmost first, and the draw pile
      keeps the cards beneath them. */
  function DealTop(table: Holder, player: Holder, k: nat): (r: Result<(Holder, Holder), CH.Error>)
    ensures r.Ok? <==> k == 0 || (Draw in table.cards && Stock in player.cards && k <= |table.cards[Draw]|)
    ensures r.Ok? ==> CH.OnlyChanged(table, r.value.0, Draw) && CH.OnlyChanged(player, r.value.1, Stock)
    ensures r.Ok? ==> var draw := Cards(table, Draw);
              && Cards(r.value.0, Draw) == draw[..|draw| - k]
              && Cards(r.value.1, Stock) == Cards(player, Stock) + Reverse(draw[|draw| - k..])
  {
    if k == 0 then
      var draw := Cards(table, Draw);
      assert draw[..|draw|] == draw && draw[|draw|..] == [];
      Ok((table, player))
    else if Draw !in table.cards || Stock !in player.cards then Err(CH.InvalidPlacement)
    else
      var draw := table.cards[Draw];
      if k > |draw| then Err(CH.NilCard)
      else
        Ok((table.(cards := table.cards[Draw := draw[..|draw| - k]]),
            player.(cards := player.cards[Stock := player.cards[Stock] + Reverse(draw[|draw| - k..])])))
  }

  /** Popping c off the back of a pile leaves `rest`: dealing the top k - 1
      cards of rest after c deals the top k cards of the pile. */
  lemma PopSlices(draw: seq<int>, rest: seq<int>, c: int, k: nat, stock: seq<int>)
    requires rest + [c] == draw && 0 < k <= |draw|
    ensures rest[..|rest| - (k - 1)] == draw[..|draw| - k]
    ensures (stock + [c]) + Reverse(rest[|rest| - (k - 1)..]) == stock + Reverse(draw[|draw| - k..])
  {
    assert rest == draw[..|draw| - 1];
    var tail := draw[|draw| - k..];
    assert tail[|tail| - 1] == c;
    assert tail[..|tail| - 1] == rest[|rest| - (k - 1)..];
    var below := Reverse(rest[|rest| - (k - 1)..]);
    assert Reverse(tail) == [c] + below;
    assert (stock + [c]) + below == stock + ([c] + below);
  }

  /** Dealing k cards is moving the back card of the draw pile onto the back
      of the stock and then dealing k - 1. */
  lemma DealTopStep(table: Holder, player: Holder, k: nat, t1: Holder, p1: Holder)
    requires Draw in table.cards && Stock in player.cards && 0 < k && table.cards[Draw] != []
    requires var draw := table.cards[Draw];
             && t1 == table.(cards := table.cards[Draw := draw[..|draw| - 1]])
             && p1 == player.(cards := player.cards[Stock := player.cards[Stock] + [draw[|draw| - 1]]])
    ensures DealTop(t1, p1, k - 1) == DealTop(table, player, k)
  {
    var draw, stock := table.cards[Draw], player.cards[Stock];
    var c, rest := draw[|draw| - 1], draw[..|draw| - 1];
    if k <= |draw| {
      PopSlices(draw, rest, c, k, stock);
      assert t1.cards[Draw := rest[..|rest| - (k - 1)]] == table.cards[Draw := draw[..|draw| - k]];
      assert p1.cards[Stock := (stock + [c]) + Reverse(rest[|rest| - (k - 1)..])]
          == player.cards[Stock := stock + Reverse(draw[|draw| - k..])];
    }
  }

  /** The first round of the card-by-card deal moves the back card of the draw
      pile onto the back of the stock. */
  lemma DealStockStep(table: Holder, player: Holder, k: nat, t1: Holder, p1: Holder)
    requires Draw in table.cards && Stock in player.cards && 0 < k && table.cards[Draw] != []
    requires var draw := table.cards[Draw];
             && t1 == table.(cards := table.cards[Draw := draw[..|draw| - 1]])
             && p1 == player.(cards := player.cards[Stock := player.cards[Stock] + [draw[|draw| - 1]]])
    ensures DealStock(table, player, k) == DealStock(t1, p1, k - 1)
  {
  }

  /** The card-by-card deal of the code has exactly the one-step effect. */
  lemma {:induction false} DealStockMovesTop(table: Holder, player: Holder, k: nat)
    ensures DealStock(table, player, k) == DealTop(table, player, k)
    decreases k
  {
    if k > 0 && Draw in table.cards && Stock in player.cards && table.cards[Draw] != [] {
      var draw := table.cards[Draw];
      var t1 := table.(cards := table.cards[Draw := draw[..|draw| - 1]]);
      var p1 := player.(cards := player.cards[Stock := player.cards[Stock] + [draw[|draw| - 1]]]);
      DealStockStep(table, player, k, t1, p1);
      DealStockMovesTop(t1, p1, k - 1);
      DealTopStep(table, player, k, t1, p1);
    }
  }

  /** Taking the top k cards off the draw pile and adding them, reversed, to a
      stock keeps the cards of table and player together. */
  lemma DealtConserves(table: Holder, table': Holder, player: Holder, player': Holder, k: nat)
    requires CH.OnlyChanged(table, table', Draw) && CH.OnlyChanged(player, player', Stock)
    requires k <= |Cards(table, Draw)|
    requires var draw := Cards(table, Draw);
             && Cards(table', Draw) == draw[..|draw| - k]
             && Cards(player', Stock) == Cards(player, Stock) + Reverse(draw[|draw| - k..])
    ensures TableHeld(table') + PlayerHeld(player') == TableHeld(table) + PlayerHeld(player)
  {
    var draw := Cards(table, Draw);
    var kept, moved := draw[..|draw| - k], draw[|draw| - k..];
    ReverseKeepsCards(moved);
    assert draw == kept + moved;
    assert multiset(Cards(player', Stock)) == multiset(Cards(player, Stock)) + multiset(moved);
    Transfer(table, table', player, player', multiset(moved));
  }

  /** m times k, as the cards m deals of k cards each take off the draw pile,
      counted deal by deal. Written as a sum rather than `m * k` so that the
      dealing proofs stay linear; InitFacts.DealtIsProduct shows it is m * k. */
  function Dealt(m: nat, k: nat): nat {
    if m == 0 then 0 else Dealt(m - 1, k) + k
  }

  /** Deals k cards to each player's stock in turn, starting with the first. */
  function DealAll(table: Holder, ps: seq<Holder>, k: nat): (r: Result<(Holder, seq<Holder>), CH.Error>)
    ensures r.Ok? ==> |r.value.1| == |ps|
    decreases |ps|
  {
    if ps == [] then Ok((table, []))
    else
      var d :- DealStock(table, ps[0], k);
      var rest :- DealAll(d.0, ps[1..], k);
      Ok((rest.0, [d.1] + rest.1))
  }

  /** The table of a new game: the given cards pushed one by one onto the draw
      pile, which cannot fail because the draw pile exists; the building piles
      start empty. */
  function FreshTable(shuffled: seq<int>): (r: Holder)
    ensures IsTable(r) && r.caption == "Game Cards"
    ensures Cards(r, Draw) == shuffled
    ensures forall b :: b in TableNames && b != Draw ==> Cards(r, b) == []
  {
    PushEach(CH.New("Game Cards", TableNames), Draw, shuffled).value
  }

  /** The players of a new game: n containers labelled "Player 1" to
      "Player n", with every pile empty; none when n is not positive. */
  function FreshPlayers(n: int): (ps: seq<Holder>)
    ensures |ps| == if n > 0 then n else 0
    ensures forall i :: 0 <= i < |ps| ==> ps[i].caption == PlayerLabel(i) && IsPlayer(ps[i])
    ensures forall i, q :: 0 <= i < |ps| && q in PlayerNames ==> Cards(ps[i], q) == []
  {
    var m: nat := if n > 0 then n else 0;
    seq(m, i requires 0 <= i => CH.New(PlayerLabel(i), PlayerNames))
  }

  /** `Jumpbo.new(n)` once the full card set has been shuffled into `shuffled`:
      pushes the cards onto the draw pile, builds n players and deals each a
      stock of the size the table gives for n. With no players there is
      nothing to deal; with players but no table entry the stock size lookup
      fails. */
  function Init(n: int, shuffled: seq<int>): (r: Result<Game, Error>)
    ensures r.Ok? ==> r.value.turn == 0 && r.value.winner == None
    ensures r.Ok? ==> |r.value.players| == if n > 0 then n else 0
  {
    var table := FreshTable(shuffled);
    var players := FreshPlayers(n);
    if players == [] then Ok(Game(table, [], 0, None))
    else
      match StockSize(n)
      case None => Err(NoStockSize(n))
      case Some(k) =>
        var dealt :- DealAll(table, players, k).MapFailure(e => HolderError(e));
        Ok(Game(dealt.0, dealt.1, 0, None))
  }

  /** `Jumpbo.new(n)` with the shuffle driven by rng. */
  function New(n: int, rng: nat -> nat): (r: Result<Game, Error>)
    ensures r.Ok? ==> r.value.turn == 0 && r.value.winner == None
  {
    Init(n, Permute.FisherYates(GameCards(), rng))
  }

  /** `player_i`: the index of the player whose turn it is. */
  function PlayerIndex(g: Game): (i: nat)
    requires |g.players| > 0
    ensures i < |g.players|
    ensures g.turn < |g.players| ==> i == g.turn
  {
    g.turn % |g.players|
  }

  /** `_apply_move`: when the coin comes up, the current player pops the back
      card of their stock, and that card is the result; otherwise, or when the
      stock is empty, the result is None and the game is unchanged. The popped
      card is not placed anywhere. */
  function ApplyMove(g: Game, heads: bool): (r: (Game, Option<int>))
    requires WellFormed(g)
    ensures WellFormed(r.0)
    ensures r.0.table == g.table && r.0.turn == g.turn && r.0.winner == g.winner
    ensures |r.0.players| == |g.players|
    ensures forall j :: 0 <= j < |g.players| && j != PlayerIndex(g) ==> r.0.players[j] == g.players[j]
    ensures CH.OnlyChanged(g.players[PlayerIndex(g)], r.0.players[PlayerIndex(g)], Stock)
    ensures r.1.Some? <==> heads && Cards(g.players[PlayerIndex(g)], Stock) != []
    ensures r.1.None? ==> r.0 == g
    ensures r.1.Some? ==>
              Cards(r.0.players[PlayerIndex(g)], Stock) + [r.1.value] == Cards(g.players[PlayerIndex(g)], Stock)
  {
    var i := PlayerIndex(g);
    if !heads then (g, None)
    else
      var o := CH.PopBack(g.players[i], Stock).value;
      if o.card.None? then (g, None)
      else (g.(players := g.players[i := o.holder]), o.card)
  }

  /** The loop of `_take_turn`: apply moves, the k-th with the k-th toss, until
      one yields no card. It ends because every move that yields a card takes
      it from the current player's stock. */
  function TurnLoop(g: Game, coin: nat -> bool, k: nat): (r: Game)
    requires WellFormed(g)
    ensures WellFormed(r)
    ensures r.table == g.table && r.turn == g.turn && r.winner == g.winner
    ensures |r.players| == |g.players|
    ensures forall j :: 0 <= j < |g.players| && j != PlayerIndex(g) ==> r.players[j] == g.players[j]
    ensures CH.OnlyChanged(g.players[PlayerIndex(g)], r.players[PlayerIndex(g)], Stock)
    ensures var s, s' := Cards(g.players[PlayerIndex(g)], Stock), Cards(r.players[PlayerIndex(g)], Stock);
            |s'| <= |s| && s' == s[..|s'|]
    decreases |Cards(g.players[PlayerIndex(g)], Stock)|
  {
    var (g', card) := ApplyMove(g, coin(k));
    if card.None? then g'
    else
      var i := PlayerIndex(g);
      var s, s1 := Cards(g.players[i], Stock), Cards(g'.players[i], Stock);
      var r := TurnLoop(g', coin, k + 1);
      var s' := Cards(r.players[i], Stock);
      assert s1 == s[..|s| - 1];
      assert s' == s[..|s'|];
      r
  }

  /** `_take_turn`: the current player moves until a move yields no card, then
      the turn counter advances by one, however many moves there were. */
  function TakeTurn(g: Game, coin: nat -> bool): (r: Game)
    requires WellFormed(g)
    ensures WellFormed(r)
    ensures r.turn == g.turn + 1
    ensures r.table == g.table && r.winner == g.winner
    ensures |r.players| == |g.players|
    ensures forall j :: 0 <= j < |g.players| && j != PlayerIndex(g) ==> r.players[j] == g.players[j]
    ensures CH.OnlyChanged(g.players[PlayerIndex(g)], r.players[PlayerIndex(g)], Stock)
    ensures var s, s' := Cards(g.players[PlayerIndex(g)], Stock), Cards(r.players[PlayerIndex(g)], Stock);
            |s'| <= |s| && s' == s[..|s'|]
  {
    var g' := TurnLoop(g, coin, 0);
    g'.(turn := g'.turn + 1)
  }

  /** `_take_turn` written as the loop the engine runs. */
  method PlayTurn(g: Game, coin: nat -> bool) returns (r: Game)
    requires WellFormed(g)
    ensures r == TakeTurn(g, coin)
    ensures r.turn == g.turn + 1
  {
    var cur := g;
    var k: nat := 0;
    while true
      invariant WellFormed(cur)
      invariant cur.turn == g.turn && |cur.players| == |g.players|
      invariant TurnLoop(cur, coin, k) == TurnLoop(g, coin, 0)
      decreases |Cards(cur.players[PlayerIndex(cur)], Stock)|
    {
      var (next, card) := ApplyMove(cur, coin(k));
      if card.None? {
        break;
      }
      cur, k := next, k + 1;
    }
    r := cur.(turn := cur.turn + 1);
  }

  /** `detect`: the first player whose stock is empty. */
  function FirstEmptyStock(ps: seq<Holder>): (r: Option<nat>)
    ensures r.Some? ==> r.value < |ps| && Cards(ps[r.value], Stock) == []
    ensures r.Some? ==> forall j :: 0 <= j < r.value ==> Cards(ps[j], Stock) != []
    ensures r.None? ==> forall j :: 0 <= j < |ps| ==> Cards(ps[j], Stock) != []
  {
    if ps == [] then None
    else if Cards(ps[0], Stock) == [] then Some(0)
    else
      match FirstEmptyStock(ps[1..])
      case None => None
      case Some(i) => Some(i + 1)
  }

  /** `_game_over?`: records the first player with an empty stock as the winner
      (or no winner) and answers whether there is one. */
  function GameOver(g: Game): (r: (Game, bool))
    requires WellFormed(g)
    ensures r.1 <==> exists i :: 0 <= i < |g.players| && Cards(g.players[i], Stock) == []
    ensures r.1 <==> r.0.winner.Some?
    ensures r.0.winner.Some? ==>
              && r.0.winner.value < |g.players|
              && Cards(g.players[r.0.winner.value], Stock) == []
              && forall j :: 0 <= j < r.0.winner.value ==> Cards(g.players[j], Stock) != []
    ensures r.0.table == g.table && r.0.players == g.players && r.0.turn == g.turn
  {
    var w := FirstEmptyStock(g.players);
    (g.(winner := w), w.Some?)
  }

  /** `play_game` over a bounded horizon: one turn per coin stream, stopping as
      soon as the game is over. */
  function Play(g: Game, coins: seq<nat -> bool>): (r: Game)
    requires WellFormed(g)
    ensures WellFormed(r)
    ensures g.turn <= r.turn <= g.turn + |coins|
    ensures coins != [] ==> r.turn > g.turn
    ensures r.winner.None? ==> r.turn == g.turn + |coins|
    decreases |coins|
  {
    if coins == [] then g
    else
      var (g', over) := GameOver(TakeTurn(g, coins[0]));
      if over then g' else Play(g', coins[1..])
  }

  /** The index `players[player_i - 1]` picks, with Ruby's negative indexing
      from the end of the list. */
  function PreviousPlayer(g: Game): (i: nat)
    requires |g.players| > 0
    ensures i < |g.players|
  {
    var j := PlayerIndex(g) - 1;
    if j < 0 then j + |g.players| else j
  }

  /** The top (back) card of a pile, as a pile of at most one card. */
  function Top(s: seq<int>): (r: seq<int>)
    ensures |r| <= 1
  {
    if s == [] then [] else [s[|s| - 1]]
  }

  /** Everything in a pile under its top card. */
  function Under(s: seq<int>): (r: seq<int>)
    ensures r + Top(s) == s
  {
    if s == [] then [] else s[..|s| - 1]
  }

  /** Every building-pile card except each pile's top card. */
  function Gathered(table: Holder): seq<int> {
    Under(Cards(table, Build1)) + Under(Cards(table, Build2))
      + Under(Cards(table, Build3)) + Under(Cards(table, Build4))
  }

  /** Replenishing the draw pile, as documented but not implemented: when the
      draw pile is empty, every building-pile card but each pile's top card is
      gathered, shuffled and made the new draw pile. */
  function Replenish(table: Holder, rng: nat -> nat): (r: Holder)
    requires IsTable(table)
    ensures IsTable(r) && r.caption == table.caption
    ensures Cards(table, Draw) != [] ==> r == table
    ensures Cards(table, Draw) == [] ==> multiset(Cards(r, Draw)) == multiset(Gathered(table))
    ensures Cards(table, Draw) == [] ==>
              && Cards(r, Build1) == Top(Cards(table, Build1)) && Cards(r, Build2) == Top(Cards(table, Build2))
              && Cards(r, Build3) == Top(Cards(table, Build3)) && Cards(r, Build4) == Top(Cards(table, Build4))
  {
    if Cards(table, Draw) != [] then table
    else
      var t := table.cards;
      var draw := Permute.FisherYates(Gathered(table), rng);
      var r := table.(cards := map[Draw := draw,
                                   Build1 := Top(t[Build1]), Build2 := Top(t[Build2]),
                                   Build3 := Top(t[Build3]), Build4 := Top(t[Build4])]);
      TablePiles(r, draw, Top(t[Build1]), Top(t[Build2]), Top(t[Build3]), Top(t[Build4]));
      r
  }

  /** The piles of a table built from the five given piles. */
  lemma TablePiles(r: Holder, draw: seq<int>, b1: seq<int>, b2: seq<int>, b3: seq<int>, b4: seq<int>)
    requires r.cards == map[Draw := draw, Build1 := b1, Build2 := b2, Build3 := b3, Build4 := b4]
    ensures IsTable(r)
    ensures Cards(r, Draw) == draw
    ensures Cards(r, Build1) == b1 && Cards(r, Build2) == b2 && Cards(r, Build3) == b3 && Cards(r, Build4) == b4
  {
  }
}
