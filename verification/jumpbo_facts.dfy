/** Properties of the game engine that relate several of its operations. */
module JumpboFacts {
  import opened Wrappers
  import CH = CardHolder
  import opened Jumpbo

  /** Dealing keeps the cards of table and player together: the cards leaving
      the draw pile are the cards arriving on the stock. */
  lemma DealStockConserves(table: Holder, player: Holder, k: nat, r: (Holder, Holder))
    requires DealStock(table, player, k) == Ok(r)
    ensures CH.OnlyChanged(table, r.0, Draw) && CH.OnlyChanged(player, r.1, Stock)
    ensures TableHeld(r.0) + PlayerHeld(r.1) == TableHeld(table) + PlayerHeld(player)
  {
    DealStockMovesTop(table, player, k);
    DealtConserves(table, r.0, player, r.1, k);
  }

  /** A successful deal to a nonempty list of players is a deal to the first
      followed by a deal to the others. */
  lemma DealAllSplit(table: Holder, ps: seq<Holder>, k: nat, r: (Holder, seq<Holder>))
      returns (d: (Holder, Holder), rest: (Holder, seq<Holder>))
    requires DealAll(table, ps, k) == Ok(r) && ps != []
    ensures DealStock(table, ps[0], k) == Ok(d)
    ensures DealAll(d.0, ps[1..], k) == Ok(rest)
    ensures r == (rest.0, [d.1] + rest.1)
  {
    d := DealStock(table, ps[0], k).value;
    rest := DealAll(d.0, ps[1..], k).value;
  }

  /** t' is t with the top n cards of its draw pile taken off. */
  predicate DrawTaken(t: Holder, t': Holder, n: nat) {
    var draw := Cards(t, Draw);
    n <= |draw| && Cards(t', Draw) == draw[..|draw| - n]
  }

  /** Dealing one stock takes the top k cards off the draw pile. */
  lemma DealStockDraw(table: Holder, player: Holder, k: nat, r: (Holder, Holder))
    requires DealStock(table, player, k) == Ok(r)
    ensures DrawTaken(table, r.0, k)
  {
    DealStockMovesTop(table, player, k);
  }

  /** Taking the top k cards and then the top Dealt(m - 1, k) of what remains
      takes the top Dealt(m, k). */
  lemma DrawTakenTwice(t: Holder, t1: Holder, t2: Holder, k: nat, m: nat)
    requires 0 < m && DrawTaken(t, t1, k) && DrawTaken(t1, t2, Dealt(m - 1, k))
    ensures DrawTaken(t, t2, Dealt(m, k))
  {
    var draw, mid := Cards(t, Draw), Cards(t1, Draw);
    assert Cards(t2, Draw) == mid[..|mid| - Dealt(m - 1, k)];
  }

  /** Dealing to every player succeeds when the draw pile holds enough cards
      for all of them. */
  lemma {:induction false} DealAllSucceeds(table: Holder, ps: seq<Holder>, k: nat)
    requires Draw in table.cards && forall i :: 0 <= i < |ps| ==> Stock in ps[i].cards
    requires Dealt(|ps|, k) <= |table.cards[Draw]|
    ensures DealAll(table, ps, k).Ok?
    decreases |ps|
  {
    if ps != [] {
      var d := DealStock(table, ps[0], k).value;
      DealStockDraw(table, ps[0], k, d);
      DealStockFrame(table, ps[0], k, d);
      assert forall i :: 0 <= i < |ps[1..]| ==> ps[1..][i] == ps[i + 1];
      DealAllSucceeds(d.0, ps[1..], k);
    }
  }

  /** Dealing to every player changes nothing on the table but the draw pile. */
  lemma {:induction false} DealAllTable(table: Holder, ps: seq<Holder>, k: nat, r: (Holder, seq<Holder>))
    requires DealAll(table, ps, k) == Ok(r)
    ensures CH.OnlyChanged(table, r.0, Draw)
    decreases |ps|
  {
    if ps != [] {
      var d, rest := DealAllSplit(table, ps, k, r);
      DealStockFrame(table, ps[0], k, d);
      DealAllTable(d.0, ps[1..], k, rest);
      CH.OnlyChangedTrans(table, d.0, rest.0, Draw);
    }
  }

  /** Dealing to every player takes the top Dealt(|ps|, k) cards off the draw
      pile. */
  lemma {:induction false} DealAllDraw(table: Holder, ps: seq<Holder>, k: nat, r: (Holder, seq<Holder>))
    requires DealAll(table, ps, k) == Ok(r)
    ensures DrawTaken(table, r.0, Dealt(|ps|, k))
    decreases |ps|
  {
    if ps == [] {
      var draw := Cards(table, Draw);
      assert draw[..|draw|] == draw;
    } else {
      var d, rest := DealAllSplit(table, ps, k, r);
      DealStockDraw(table, ps[0], k, d);
      DealAllDraw(d.0, ps[1..], k, rest);
      DrawTakenTwice(table, d.0, rest.0, k, |ps|);
    }
  }

  /** Each of ps' is the player of ps at the same index with only the stock
      changed, and k cards longer. */
  ghost predicate StocksGrown(ps: seq<Holder>, ps': seq<Holder>, k: nat) {
    && |ps'| == |ps|
    && forall i :: 0 <= i < |ps| ==>
         CH.OnlyChanged(ps[i], ps'[i], Stock) && |Cards(ps'[i], Stock)| == |Cards(ps[i], Stock)| + k
  }

  /** StocksGrown extends by one player at the front. */
  lemma StocksGrownCons(p: Holder, p': Holder, ps: seq<Holder>, ps': seq<Holder>, k: nat)
    requires CH.OnlyChanged(p, p', Stock) && |Cards(p', Stock)| == |Cards(p, Stock)| + k
    requires StocksGrown(ps, ps', k)
    ensures StocksGrown([p] + ps, [p'] + ps', k)
  {
    assert forall i :: 1 <= i < |ps| + 1 ==> ([p] + ps)[i] == ps[i - 1] && ([p'] + ps')[i] == ps'[i - 1];
  }

  /** Dealing one stock changes only the draw pile and the stock, and the stock
      grows by k cards. */
  lemma DealStockFrame(table: Holder, player: Holder, k: nat, r: (Holder, Holder))
    requires DealStock(table, player, k) == Ok(r)
    ensures CH.OnlyChanged(table, r.0, Draw) && CH.OnlyChanged(player, r.1, Stock)
    ensures |Cards(r.1, Stock)| == |Cards(player, Stock)| + k
  {
    DealStockMovesTop(table, player, k);
  }

  /** Dealing to every player changes only their stocks, and each stock grows
      by k cards. */
  lemma {:induction false} DealAllPlayers(table: Holder, ps: seq<Holder>, k: nat, r: (Holder, seq<Holder>))
    requires DealAll(table, ps, k) == Ok(r)
    ensures StocksGrown(ps, r.1, k)
    decreases |ps|
  {
    if ps != [] {
      var d, rest := DealAllSplit(table, ps, k, r);
      DealStockFrame(table, ps[0], k, d);
      DealAllPlayers(d.0, ps[1..], k, rest);
      StocksGrownCons(ps[0], d.1, ps[1..], rest.1, k);
      assert ps == [ps[0]] + ps[1..];
    }
  }

  /** Dealing to every player keeps every card of the table and the players. */
  lemma {:induction false} DealAllConserves(table: Holder, ps: seq<Holder>, k: nat, r: (Holder, seq<Holder>))
    requires DealAll(table, ps, k) == Ok(r)
    ensures TableHeld(r.0) + PlayersHeld(r.1) == TableHeld(table) + PlayersHeld(ps)
    decreases |ps|
  {
    if ps != [] {
      var d, rest := DealAllSplit(table, ps, k, r);
      DealStockConserves(table, ps[0], k, d);
      DealAllConserves(d.0, ps[1..], k, rest);
      assert r.1[1..] == rest.1;
      Rebalance(TableHeld(table), PlayerHeld(ps[0]), PlayersHeld(ps[1..]),
                TableHeld(d.0), PlayerHeld(d.1), TableHeld(rest.0), PlayersHeld(rest.1));
    }
  }

  /** Two transfers in a row, the first between the table and one player, the
      second between the table and the others, keep the sum of all holdings. */
  lemma Rebalance(t: multiset<int>, p: multiset<int>, q: multiset<int>,
                  t1: multiset<int>, p1: multiset<int>, t2: multiset<int>, q2: multiset<int>)
    requires t1 + p1 == t + p && t2 + q2 == t1 + q
    ensures t2 + (p1 + q2) == t + (p + q)
  {
    calc {
      t2 + (p1 + q2);
      (t2 + q2) + p1;
      (t1 + q) + p1;
      (t1 + p1) + q;
      (t + p) + q;
    }
  }

  /** Replenishing keeps every card on the table: the gathered cards go to the
      draw pile and each building pile keeps its top card. */
  lemma ReplenishConserves(table: Holder, rng: nat -> nat)
    requires IsTable(table)
    ensures TableHeld(Replenish(table, rng)) == TableHeld(table)
  {
    if Cards(table, Draw) == [] {
      var r := Replenish(table, rng);
      var b1, b2, b3, b4 := Cards(table, Build1), Cards(table, Build2), Cards(table, Build3), Cards(table, Build4);
      assert multiset(b1) == multiset(Under(b1)) + multiset(Top(b1)) by { assert b1 == Under(b1) + Top(b1); }
      assert multiset(b2) == multiset(Under(b2)) + multiset(Top(b2)) by { assert b2 == Under(b2) + Top(b2); }
      assert multiset(b3) == multiset(Under(b3)) + multiset(Top(b3)) by { assert b3 == Under(b3) + Top(b3); }
      assert multiset(b4) == multiset(Under(b4)) + multiset(Top(b4)) by { assert b4 == Under(b4) + Top(b4); }
      assert multiset(Gathered(table))
          == multiset(Under(b1)) + multiset(Under(b2)) + multiset(Under(b3)) + multiset(Under(b4));
      Regroup(multiset(Under(b1)), multiset(Under(b2)), multiset(Under(b3)), multiset(Under(b4)),
              multiset(Top(b1)), multiset(Top(b2)), multiset(Top(b3)), multiset(Top(b4)));
    }
  }

  /** Four piles split in two parts each hold, together, the parts' cards. */
  lemma Regroup(u1: multiset<int>, u2: multiset<int>, u3: multiset<int>, u4: multiset<int>,
                t1: multiset<int>, t2: multiset<int>, t3: multiset<int>, t4: multiset<int>)
    ensures (u1 + u2 + u3 + u4) + (t1 + t2 + t3 + t4) == (u1 + t1) + (u2 + t2) + (u3 + t3) + (u4 + t4)
  {
    assert forall v :: ((u1 + u2 + u3 + u4) + (t1 + t2 + t3 + t4))[v] == ((u1 + t1) + (u2 + t2) + (u3 + t3) + (u4 + t4))[v];
  }
}
