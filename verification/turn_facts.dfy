/** What one turn and a run of turns do: whose turn comes next, how many cards
    a turn takes off the mover's stock, which cards leave the game, and who
    wins. */
module TurnFacts {
  import opened Wrappers
  import CH = CardHolder
  import opened Jumpbo

  /** A nonzero multiple of n is at least n away from zero. */
  lemma MultipleBound(n: int, x: int)
    requires n > 0
    ensures x >= 1 ==> n * x >= n
    ensures x <= -1 ==> n * x <= -n
  {
    if x >= 1 {
      assert n * x == n * (x - 1) + n;
    } else if x <= -1 {
      assert n * x == n * (x + 1) - n;
    }
  }

  /** The remainder of a by n is the r of any a == n * q + r with 0 <= r < n. */
  lemma ModUnique(a: int, n: int, q: int, r: int)
    requires n > 0 && a == n * q + r && 0 <= r < n
    ensures a % n == r
  {
    var q', r' := a / n, a % n;
    assert a == n * q' + r';
    assert n * (q - q') == r' - r;
    MultipleBound(n, q - q');
  }

  /** The position after t in a cycle of n. */
  lemma ModSucc(t: nat, n: nat)
    requires n > 0
    ensures (t + 1) % n == if t % n == n - 1 then 0 else t % n + 1
  {
    var q, r := t / n, t % n;
    assert t == n * q + r;
    if r == n - 1 {
      ModUnique(t + 1, n, q + 1, 0);
    } else {
      ModUnique(t + 1, n, q, r + 1);
    }
  }

  /** After a turn, the next player in order moves, wrapping from the last to
      the first. */
  lemma TurnRotates(g: Game, coin: nat -> bool)
    requires WellFormed(g)
    ensures var i, n := PlayerIndex(g), |g.players|;
            PlayerIndex(TakeTurn(g, coin)) == if i == n - 1 then 0 else i + 1
  {
    ModSucc(g.turn, |g.players|);
  }

  /** After a turn, `players[player_i - 1]` is the player who has just moved. */
  lemma PreviousIsMover(g: Game, coin: nat -> bool)
    requires WellFormed(g)
    ensures PreviousPlayer(TakeTurn(g, coin)) == PlayerIndex(g)
  {
    ModSucc(g.turn, |g.players|);
  }

  /** The stock of the player whose turn it is. */
  function MoverStock(g: Game): seq<int>
    requires WellFormed(g)
  {
    Cards(g.players[PlayerIndex(g)], Stock)
  }

  /** How many cards a turn loop takes off a stock of n cards, starting with
      the k-th toss: one per toss that comes up, until a toss does not or the
      stock is empty. */
  function Popped(coin: nat -> bool, k: nat, n: nat): (r: nat)
    ensures r <= n
    decreases n
  {
    if n == 0 || !coin(k) then 0 else 1 + Popped(coin, k + 1, n - 1)
  }

  /** The turn loop from the k-th toss leaves the mover's stock Popped cards
      shorter. */
  lemma {:induction false} LoopLeaves(g: Game, coin: nat -> bool, k: nat)
    requires WellFormed(g)
    ensures |Cards(TurnLoop(g, coin, k).players[PlayerIndex(g)], Stock)|
            == |MoverStock(g)| - Popped(coin, k, |MoverStock(g)|)
    decreases |MoverStock(g)|
  {
    var g' := LoopStep(g, coin, k);
    if coin(k) && MoverStock(g) != [] {
      LoopLeaves(g', coin, k + 1);
    }
  }

  /** When the j tosses from the k-th on come up and the one after them does
      not, a stock of at least j cards loses exactly j, and a smaller one all
      its cards. */
  lemma {:induction false} PoppedRun(coin: nat -> bool, k: nat, n: nat, j: nat)
    requires forall m :: k <= m < k + j ==> coin(m)
    requires j <= n ==> !coin(k + j)
    ensures Popped(coin, k, n) == if j <= n then j else n
    decreases n
  {
    if n > 0 && coin(k) {
      PoppedRun(coin, k + 1, n - 1, j - 1);
    }
  }

  /** One iteration of the turn loop: when the k-th toss comes up over a
      nonempty stock, the loop goes on from a game with one card fewer on the
      same player's stock; otherwise the loop stops where it is. */
  lemma LoopStep(g: Game, coin: nat -> bool, k: nat) returns (g': Game)
    requires WellFormed(g)
    ensures coin(k) && MoverStock(g) != [] ==>
              && WellFormed(g') && PlayerIndex(g') == PlayerIndex(g)
              && |MoverStock(g')| == |MoverStock(g)| - 1
              && TurnLoop(g, coin, k) == TurnLoop(g', coin, k + 1)
    ensures !(coin(k) && MoverStock(g) != []) ==> TurnLoop(g, coin, k) == g
  {
    g' := ApplyMove(g, coin(k)).0;
  }

  /** A turn whose first j tosses come up and whose next does not takes exactly
      j cards off the mover's stock, or all of them when it holds fewer; in
      particular a turn whose first toss does not come up takes none. */
  lemma TurnPops(g: Game, coin: nat -> bool, j: nat)
    requires WellFormed(g)
    requires forall m :: 0 <= m < j ==> coin(m)
    requires j <= |MoverStock(g)| ==> !coin(j)
    ensures var s' := Cards(TakeTurn(g, coin).players[PlayerIndex(g)], Stock);
            |s'| == if j <= |MoverStock(g)| then |MoverStock(g)| - j else 0
  {
    LoopLeaves(g, coin, 0);
    PoppedRun(coin, 0, |MoverStock(g)|, j);
  }

  /** A turn whose first toss does not come up changes nothing but the turn
      counter. */
  lemma IdleTurn(g: Game, coin: nat -> bool)
    requires WellFormed(g) && !coin(0)
    ensures TakeTurn(g, coin) == g.(turn := g.turn + 1)
  {
  }

  /** The cards a game holds: a player's cards replaced, the others as before. */
  lemma {:induction false} PlayersHeldUpdate(ps: seq<Holder>, i: nat, p: Holder)
    requires i < |ps|
    ensures PlayersHeld(ps[i := p]) + PlayerHeld(ps[i]) == PlayersHeld(ps) + PlayerHeld(p)
  {
    var ps' := ps[i := p];
    if i == 0 {
      assert ps'[1..] == ps[1..];
    } else {
      PlayersHeldUpdate(ps[1..], i - 1, p);
      assert ps'[1..] == ps[1..][i - 1 := p];
      assert ps'[0] == ps[0] && ps[1..][i - 1] == ps[i];
      assert PlayersHeld(ps') == PlayerHeld(ps[0]) + PlayersHeld(ps'[1..]);
      assert PlayersHeld(ps) == PlayerHeld(ps[0]) + PlayersHeld(ps[1..]);
      AddLeft(PlayerHeld(ps[0]), PlayersHeld(ps'[1..]), PlayerHeld(ps[i]), PlayersHeld(ps[1..]), PlayerHeld(p));
    }
  }

  /** Adding the same cards to both sides of an equation of holdings. */
  lemma AddLeft(a: multiset<int>, b': multiset<int>, x: multiset<int>, b: multiset<int>, y: multiset<int>)
    requires b' + x == b + y
    ensures (a + b') + x == (a + b) + y
  {
    assert (a + b') + x == a + (b' + x);
  }

  /** Cards d leaving one player's holdings leave the holdings of all. */
  lemma ReplacePlayer(ps: seq<Holder>, ps': seq<Holder>, i: nat, d: multiset<int>)
    requires i < |ps| == |ps'|
    requires forall j :: 0 <= j < |ps| && j != i ==> ps'[j] == ps[j]
    requires PlayerHeld(ps'[i]) + d == PlayerHeld(ps[i])
    ensures PlayersHeld(ps') + d == PlayersHeld(ps)
  {
    assert ps' == ps[i := ps'[i]];
    PlayersHeldUpdate(ps, i, ps'[i]);
    Cancel(PlayersHeld(ps'), PlayersHeld(ps), PlayerHeld(ps'[i]), d);
  }

  /** From a + (c + d) == b + c, a + d == b. */
  lemma Cancel(a: multiset<int>, b: multiset<int>, c: multiset<int>, d: multiset<int>)
    requires a + (c + d) == b + c
    ensures a + d == b
  {
    forall v
      ensures (a + d)[v] == b[v]
    {
      assert (a + (c + d))[v] == (b + c)[v];
    }
    assert a + d == b;
  }

  /** Cards d leaving the back of a stock leave the player's holdings. */
  lemma StockDrop(p: Holder, p': Holder, d: seq<int>)
    requires CH.OnlyChanged(p, p', Stock)
    requires Cards(p, Stock) == Cards(p', Stock) + d
    ensures PlayerHeld(p') + multiset(d) == PlayerHeld(p)
  {
    StockOnlyChange(p, p');
  }

  /** A turn removes from the game exactly the cards it takes off the mover's
      stock: the table and every other pile keep their cards. */
  lemma TurnDrops(g: Game, coin: nat -> bool)
    requires WellFormed(g)
    ensures var r, s := TakeTurn(g, coin), MoverStock(g);
            var s' := Cards(r.players[PlayerIndex(g)], Stock);
            Total(r) + multiset(s[|s'|..]) == Total(g)
  {
    var r, i := TakeTurn(g, coin), PlayerIndex(g);
    var s, s' := MoverStock(g), Cards(r.players[i], Stock);
    assert s == s' + s[|s'|..];
    StockDrop(g.players[i], r.players[i], s[|s'|..]);
    ReplacePlayer(g.players, r.players, i, multiset(s[|s'|..]));
  }

  /** After a turn of a game in progress, the game is over exactly when the
      mover's stock is empty; the winner is then the mover, whom
      `players[player_i - 1]` names, and otherwise the game is still in
      progress. */
  lemma WinnerIsMover(g: Game, coin: nat -> bool)
    requires InProgress(g)
    ensures var t := TakeTurn(g, coin);
            var (g', over) := GameOver(t);
            && (over <==> Cards(t.players[PlayerIndex(g)], Stock) == [])
            && (over ==> g'.winner == Some(PlayerIndex(g)) && PreviousPlayer(g') == PlayerIndex(g))
            && (!over ==> InProgress(g') && g'.winner == None)
  {
    var t, i := TakeTurn(g, coin), PlayerIndex(g);
    PreviousIsMover(g, coin);
    assert forall j :: 0 <= j < |g.players| && j != i ==> Cards(t.players[j], Stock) != [];
  }

  /** Playing a game in progress with no winner yet over any number of turns:
      either it ends with a winner, whose stock is empty and whom
      `players[player_i - 1]` names, or it is still in progress after one turn
      per coin stream. */
  lemma {:induction false} PlayOutcome(g: Game, coins: seq<nat -> bool>)
    requires InProgress(g) && g.winner == None
    ensures var r := Play(g, coins);
            && (r.winner.Some? ==>
                  && r.winner.value < |r.players|
                  && Cards(r.players[r.winner.value], Stock) == []
                  && r.winner.value == PreviousPlayer(r))
            && (r.winner.None? ==> InProgress(r) && r.turn == g.turn + |coins|)
    decreases |coins|
  {
    if coins != [] {
      WinnerIsMover(g, coins[0]);
      var (g', over) := GameOver(TakeTurn(g, coins[0]));
      if !over {
        PlayOutcome(g', coins[1..]);
      }
    }
  }
}
