/** Properties of one call of the matching function and of the queue operations. */
module MatchingLaws {
  import opened Types
  import opened Matching

  // ---------- What a match does, without recursion ----------

  /** A trade of these two, each on its own side, at the resting price; side 0 is the buying one. */
  predicate IsBetween(t: Trade, incoming: OrderData, resting: OrderData) {
    && t.buyId == (if incoming.side == 0 then incoming.id else resting.id)
    && t.sellId == (if incoming.side == 0 then resting.id else incoming.id)
    && t.symbol == incoming.symbol
    && t.price == resting.price
  }

  /**
    The k-th trade of a call is with the k-th order in priority, at that order's price, with the k-th
    next id and stamped with the k-th reading of the clock.
   */
  ghost predicate TradesInPriorityOrder(
    incoming: OrderData, resting: seq<OrderData>, nextId: nat, clock: Clock, tick: nat, trades: seq<Trade>)
    ensures TradesInPriorityOrder(incoming, resting, nextId, clock, tick, trades) ==> |trades| <= |resting|
  {
    && |trades| <= |resting|
    && forall k | 0 <= k < |trades| ::
         && IsBetween(trades[k], incoming, resting[k])
         && trades[k].id == nextId + k && trades[k].timestamp == clock(tick + k)
         && PricesCross(incoming, resting[k].price)
  }

  /** All orders a call touches are used up, except possibly the last one. */
  ghost predicate OnlyLastPartial(resting: seq<OrderData>, trades: seq<Trade>, left: seq<OrderData>)
    requires |trades| <= |resting|
  {
    var n := |trades|;
    && (forall k | 0 <= k < n - 1 :: trades[k].quantity == resting[k].remaining)
    && (|| (left == resting[n..] && (n > 0 ==> trades[n - 1].quantity == resting[n - 1].remaining))
        || (&& n > 0
            && left == [resting[n - 1].ApplyFill(trades[n - 1].quantity)] + resting[n..]
            && left[0].remaining != 0))
  }

  function Filled(trades: seq<Trade>): int {
    if trades == [] then 0 else trades[0].quantity + Filled(trades[1..])
  }

  lemma ExtendPriorityOrder(
    incoming: OrderData, resting: seq<OrderData>, nextId: nat, clock: Clock, tick: nat, fill: int, later: seq<Trade>)
    requires resting != [] && PricesCross(incoming, resting[0].price)
    requires TradesInPriorityOrder(incoming.ApplyFill(fill), resting[1..], nextId + 1, clock, tick + 1, later)
    ensures TradesInPriorityOrder(incoming, resting, nextId, clock, tick,
                                  [MakeTrade(nextId, incoming, resting[0], fill, clock(tick))] + later)
  {
    var trades := [MakeTrade(nextId, incoming, resting[0], fill, clock(tick))] + later;
    forall k | 0 <= k < |trades|
      ensures && IsBetween(trades[k], incoming, resting[k])
              && trades[k].id == nextId + k && trades[k].timestamp == clock(tick + k)
              && PricesCross(incoming, resting[k].price)
    {
      if k > 0 {
        assert trades[k] == later[k - 1] && resting[k] == resting[1..][k - 1];
        assert nextId + 1 + (k - 1) == nextId + k && tick + 1 + (k - 1) == tick + k;
      }
    }
  }

  lemma ExtendOnlyLastPartial(resting: seq<OrderData>, trade: Trade, later: seq<Trade>, left: seq<OrderData>)
    requires resting != [] && trade.quantity == resting[0].remaining
    requires |later| < |resting| && OnlyLastPartial(resting[1..], later, left)
    ensures OnlyLastPartial(resting, [trade] + later, left)
  {
    var trades, n := [trade] + later, |later|;
    assert resting[1..][n..] == resting[n + 1..];
    forall k | 0 <= k < n ensures trades[k].quantity == resting[k].remaining {
      if k > 0 {
        assert trades[k] == later[k - 1] && resting[k] == resting[1..][k - 1];
      }
    }
    if n > 0 {
      assert trades[n] == later[n - 1] && resting[n] == resting[1..][n - 1];
    }
  }

  lemma {:induction false} MatchTakesPriorityPrefix(
    incoming: OrderData, resting: seq<OrderData>, nextId: nat, clock: Clock, tick: nat)
    ensures var m := Match(incoming, resting, nextId, clock, tick);
            && TradesInPriorityOrder(incoming, resting, nextId, clock, tick, m.trades)
            && OnlyLastPartial(resting, m.trades, m.resting)
    decreases |resting|
  {
    if !(incoming.remaining == 0 || resting == [] || !PricesCross(incoming, resting[0].price)) {
      var fill := Min(incoming.remaining, resting[0].remaining);
      if resting[0].ApplyFill(fill).remaining == 0 {
        hide TradesInPriorityOrder, OnlyLastPartial, PricesCross;
        MatchTakesPriorityPrefix(incoming.ApplyFill(fill), resting[1..], nextId + 1, clock, tick + 1);
        var rest := Match(incoming.ApplyFill(fill), resting[1..], nextId + 1, clock, tick + 1);
        var trade := MakeTrade(nextId, incoming, resting[0], fill, clock(tick));
        ExtendPriorityOrder(incoming, resting, nextId, clock, tick, fill, rest.trades);
        ExtendOnlyLastPartial(resting, trade, rest.trades, rest.resting);
      }
    }
  }

  /** A call stops only when the incoming order is filled or nothing that crosses is left. */
  lemma {:induction false} MatchStopsOnlyWhenDone(
    incoming: OrderData, resting: seq<OrderData>, nextId: nat, clock: Clock, tick: nat)
    ensures var m := Match(incoming, resting, nextId, clock, tick);
            || m.incoming.remaining == 0
            || m.resting == []
            || !PricesCross(incoming, m.resting[0].price)
    decreases |resting|
  {
    if !(incoming.remaining == 0 || resting == [] || !PricesCross(incoming, resting[0].price)) {
      var fill := Min(incoming.remaining, resting[0].remaining);
      if resting[0].ApplyFill(fill).remaining == 0 {
        MatchStopsOnlyWhenDone(incoming.ApplyFill(fill), resting[1..], nextId + 1, clock, tick + 1);
      }
    }
  }

  /** What the incoming order loses, the trades carry and the opposite side loses. */
  lemma {:induction false} MatchConservesQuantity(
    incoming: OrderData, resting: seq<OrderData>, nextId: nat, clock: Clock, tick: nat)
    ensures var m := Match(incoming, resting, nextId, clock, tick);
            && m.incoming == incoming.ApplyFill(Filled(m.trades))
            && Volume(m.resting) == Volume(resting) - Filled(m.trades)
    decreases |resting|
  {
    if !(incoming.remaining == 0 || resting == [] || !PricesCross(incoming, resting[0].price)) {
      var fill := Min(incoming.remaining, resting[0].remaining);
      var m := Match(incoming, resting, nextId, clock, tick);
      if resting[0].ApplyFill(fill).remaining == 0 {
        MatchConservesQuantity(incoming.ApplyFill(fill), resting[1..], nextId + 1, clock, tick + 1);
        assert m.trades[1..] == Match(incoming.ApplyFill(fill), resting[1..], nextId + 1, clock, tick + 1).trades;
      } else {
        assert m.resting[1..] == resting[1..];
        assert m.trades[1..] == [];
      }
    }
  }

  /** With positive quantities every trade is positive and no side is left with an empty order. */
  lemma {:induction false} MatchKeepsPositive(
    incoming: OrderData, resting: seq<OrderData>, nextId: nat, clock: Clock, tick: nat)
    requires incoming.remaining >= 0 && Positive(resting)
    ensures var m := Match(incoming, resting, nextId, clock, tick);
            && m.incoming.remaining >= 0
            && Positive(m.resting)
            && forall t <- m.trades :: t.quantity > 0
    decreases |resting|
  {
    if !(incoming.remaining == 0 || resting == [] || !PricesCross(incoming, resting[0].price)) {
      var fill := Min(incoming.remaining, resting[0].remaining);
      if resting[0].ApplyFill(fill).remaining == 0 {
        assert Positive(resting[1..]);
        MatchKeepsPositive(incoming.ApplyFill(fill), resting[1..], nextId + 1, clock, tick + 1);
      }
    }
  }

  // ---------- Maximal fill ----------

  /** All open quantity that crosses the incoming price, wherever it stands in the queue. */
  function CrossingVolume(incoming: OrderData, q: seq<OrderData>): int {
    if q == [] then 0
    else (if PricesCross(incoming, q[0].price) then q[0].remaining else 0) + CrossingVolume(incoming, q[1..])
  }

  lemma {:induction false} NothingCrossesBehind(incoming: OrderData, q: seq<OrderData>)
    requires Sorted(!IsBuy(incoming.side), q)
    requires q != [] ==> !PricesCross(incoming, q[0].price)
    ensures CrossingVolume(incoming, q) == 0
  {
    if q != [] {
      assert Sorted(!IsBuy(incoming.side), q[1..]);
      if q[1..] != [] {
        assert !Before(!IsBuy(incoming.side), q[1].price, q[0].price);
      }
      NothingCrossesBehind(incoming, q[1..]);
    }
  }

  lemma {:induction false} CrossingVolumeNonNegative(incoming: OrderData, q: seq<OrderData>)
    requires Positive(q)
    ensures CrossingVolume(incoming, q) >= 0
  {
    if q != [] {
      CrossingVolumeNonNegative(incoming, q[1..]);
    }
  }

  lemma {:induction false} CrossingVolumeSame(a: OrderData, b: OrderData, q: seq<OrderData>)
    requires a.side == b.side && a.price == b.price
    ensures CrossingVolume(a, q) == CrossingVolume(b, q)
  {
    if q != [] {
      CrossingVolumeSame(a, b, q[1..]);
    }
  }

  /** One submission trades the smaller of what it wants and everything on offer at its price. */
  lemma {:induction false} FillIsMaximal(
    incoming: OrderData, resting: seq<OrderData>, nextId: nat, clock: Clock, tick: nat)
    requires incoming.remaining >= 0
    requires Positive(resting) && Sorted(!IsBuy(incoming.side), resting)
    ensures var m := Match(incoming, resting, nextId, clock, tick);
            Filled(m.trades) == Min(incoming.remaining, CrossingVolume(incoming, resting))
    decreases |resting|
  {
    CrossingVolumeNonNegative(incoming, resting);
    if resting == [] || !PricesCross(incoming, resting[0].price) {
      NothingCrossesBehind(incoming, resting);
    } else if incoming.remaining != 0 {
      var fill := Min(incoming.remaining, resting[0].remaining);
      var taker := incoming.ApplyFill(fill);
      var m := Match(incoming, resting, nextId, clock, tick);
      assert Sorted(!IsBuy(taker.side), resting[1..]);
      CrossingVolumeNonNegative(incoming, resting[1..]);
      if resting[0].ApplyFill(fill).remaining == 0 {
        FillIsMaximal(taker, resting[1..], nextId + 1, clock, tick + 1);
        CrossingVolumeSame(incoming, taker, resting[1..]);
        assert m.trades[1..] == Match(taker, resting[1..], nextId + 1, clock, tick + 1).trades;
      } else {
        assert m.trades[1..] == [];
      }
    }
  }

  // ---------- Prices ----------

  /** Within a call prices only move away from the best, and no trade is worse than either limit. */
  lemma TradePricesAreFair(incoming: OrderData, resting: seq<OrderData>, nextId: nat, clock: Clock, tick: nat)
    requires Sorted(!IsBuy(incoming.side), resting)
    ensures var trades := Match(incoming, resting, nextId, clock, tick).trades;
            && |trades| <= |resting|
            && (forall k | 0 <= k < |trades| ::
                  && trades[k].price == resting[k].price
                  && (if IsBuy(incoming.side) then trades[k].price <= incoming.price
                      else trades[k].price >= incoming.price))
            && (forall j, k | 0 <= j < k < |trades| :: !Before(!IsBuy(incoming.side), trades[k].price, trades[j].price))
  {
    MatchTakesPriorityPrefix(incoming, resting, nextId, clock, tick);
  }

  /** The number of trades is the number of orders removed, plus one if the last one survives in part. */
  lemma TradeCount(incoming: OrderData, resting: seq<OrderData>, nextId: nat, clock: Clock, tick: nat)
    requires UniqueIds(resting)
    ensures var m := Match(incoming, resting, nextId, clock, tick);
            var removed := |resting| - |m.resting|;
            && Ids(m.resting) <= Ids(resting)
            && 0 <= removed <= |m.trades| <= removed + 1
            && (|m.trades| == removed + 1 ==>
                  && m.resting != []
                  && m.resting[0].id == resting[removed].id
                  && m.resting[0].remaining != 0)
  {
    MatchTakesPriorityPrefix(incoming, resting, nextId, clock, tick);
  }

  // ---------- Queue operations ----------

  lemma {:induction false} InsertAt(forBuys: bool, q: seq<OrderData>, o: OrderData, p: nat)
    requires p <= |q|
    requires forall i | 0 <= i < p :: !Before(forBuys, o.price, q[i].price)
    requires p < |q| ==> Before(forBuys, o.price, q[p].price)
    ensures Insert(forBuys, q, o) == q[..p] + [o] + q[p..]
  {
    if p > 0 {
      InsertAt(forBuys, q[1..], o, p - 1);
      assert q == [q[0]] + q[1..];
    }
  }

  /** In a sorted queue there is exactly one place for a new order: behind its equals, before all worse. */
  lemma {:induction false} InsertPlace(forBuys: bool, q: seq<OrderData>, o: OrderData) returns (p: nat)
    requires Sorted(forBuys, q)
    ensures p <= |q|
    ensures Insert(forBuys, q, o) == q[..p] + [o] + q[p..]
    ensures forall i | 0 <= i < p :: !Before(forBuys, o.price, q[i].price)
    ensures forall i | p <= i < |q| :: Before(forBuys, o.price, q[i].price)
  {
    if q == [] || Before(forBuys, o.price, q[0].price) {
      p := 0;
    } else {
      assert Sorted(forBuys, q[1..]);
      var r := InsertPlace(forBuys, q[1..], o);
      p := r + 1;
      assert q == [q[0]] + q[1..];
      InsertAt(forBuys, q, o, p);
      forall i | p <= i < |q| ensures Before(forBuys, o.price, q[i].price) {
        assert q[i] == q[1..][i - 1];
      }
    }
  }

  lemma {:induction false} RemoveAt(q: seq<OrderData>, p: nat)
    requires p < |q| && UniqueIds(q)
    ensures Remove(q, q[p].id) == q[..p] + q[p + 1..]
    ensures Find(q, q[p].id) == Some(q[p])
  {
    if p > 0 {
      RemoveAt(q[1..], p - 1);
      assert q[0].id != q[p].id;
    }
  }

  lemma {:induction false} ResizeAt(q: seq<OrderData>, p: nat, newQuantity: int)
    requires p < |q| && UniqueIds(q)
    ensures Resize(q, q[p].id, newQuantity) == q[p := q[p].Modify(q[p].price, newQuantity)]
  {
    if p > 0 {
      ResizeAt(q[1..], p - 1, newQuantity);
      assert q[0].id != q[p].id;
    }
  }

  lemma {:induction false} AbsentUnchanged(q: seq<OrderData>, id: nat)
    requires id !in Ids(q)
    ensures Remove(q, id) == q && Find(q, id) == None
    ensures forall n :: Resize(q, id, n) == q
  {
    if q != [] {
      assert q[0].id in Ids(q);
      assert forall o <- q[1..] :: o.id in Ids(q);
      AbsentUnchanged(q[1..], id);
      assert q == [q[0]] + q[1..];
    }
  }

  /** Looking an order up by id finds the only queued order with that id. */
  lemma {:induction false} FindIsScan(q: seq<OrderData>, id: nat)
    ensures Find(q, id).Some? <==> id in Ids(q)
    ensures Find(q, id).Some? ==> Find(q, id).value in q && Find(q, id).value.id == id
  {
    if q != [] {
      FindIsScan(q[1..], id);
      assert forall o <- q :: o == q[0] || o in q[1..];
      assert q[0].id in Ids(q);
      assert forall o <- q[1..] :: o in q;
    }
  }

  /** The position of a queued order. */
  lemma PositionOf(q: seq<OrderData>, id: nat) returns (p: nat)
    requires id in Ids(q)
    ensures p < |q| && q[p].id == id
  {
    var o :| o in q && o.id == id;
    p :| p < |q| && q[p] == o;
  }
}
