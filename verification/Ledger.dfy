/** What the trades of one engine cost, and what they leave tied up in resting buys. */
module Ledger {
  import opened Types
  import opened Matching
  import opened MatchingLaws
  import opened EngineLaws

  // ---------- What trades cost ----------

  function Value(trades: seq<Trade>): int {
    if trades == [] then 0 else trades[0].price * trades[0].quantity + Value(trades[1..])
  }

  /** What a buyer with this limit pays less than the limit. */
  function Saved(limit: int, trades: seq<Trade>): int {
    if trades == [] then 0 else (limit - trades[0].price) * trades[0].quantity + Saved(limit, trades[1..])
  }

  lemma {:induction false} PaidAndSaved(limit: int, trades: seq<Trade>)
    ensures Value(trades) + Saved(limit, trades) == limit * Filled(trades)
  {
    if trades != [] {
      PaidAndSaved(limit, trades[1..]);
      var t := trades[0];
      assert (limit - t.price) * t.quantity == limit * t.quantity - t.price * t.quantity;
      assert limit * (t.quantity + Filled(trades[1..])) == limit * t.quantity + limit * Filled(trades[1..]);
    }
  }

  lemma {:induction false} NeverOverpays(limit: int, trades: seq<Trade>)
    requires forall t <- trades :: t.price <= limit && t.quantity > 0
    ensures Saved(limit, trades) >= 0
  {
    if trades != [] {
      NeverOverpays(limit, trades[1..]);
      Product(limit - trades[0].price, trades[0].quantity);
    }
  }

  lemma Product(a: int, b: int)
    requires a >= 0 && b >= 0
    ensures a * b >= 0
  {
  }

  lemma Distribute(p: int, a: int, b: int)
    ensures p * (a - b) == p * a - p * b
  {
  }

  /** Resting orders trade at their own price, so what they lose in notional is what is executed. */
  lemma {:induction false} MatchValue(
    incoming: OrderData, resting: seq<OrderData>, nextId: nat, clock: Clock, tick: nat)
    ensures var m := Match(incoming, resting, nextId, clock, tick);
            Value(m.trades) + Notional(m.resting) == Notional(resting)
    decreases |resting|
  {
    if !(incoming.remaining == 0 || resting == [] || !PricesCross(incoming, resting[0].price)) {
      var fill := Min(incoming.remaining, resting[0].remaining);
      var taker := incoming.ApplyFill(fill);
      var m := Match(incoming, resting, nextId, clock, tick);
      Distribute(resting[0].price, resting[0].remaining, fill);
      if resting[0].ApplyFill(fill).remaining == 0 {
        MatchValue(taker, resting[1..], nextId + 1, clock, tick + 1);
        assert m.trades[1..] == Match(taker, resting[1..], nextId + 1, clock, tick + 1).trades;
      } else {
        assert m.trades[1..] == [] && m.resting[1..] == resting[1..];
      }
    }
  }

  /** Filling part of an order never costs more than it frees. */
  lemma FillFrees(price: int, remaining: int, fill: int)
    requires 0 <= fill <= remaining
    ensures price * fill + Max(0, price * (remaining - fill)) <= Max(0, price * remaining)
  {
    Distribute(price, remaining, fill);
    if price >= 0 {
      Product(price, remaining - fill);
      Product(price, remaining);
    } else {
      Product(-price, fill);
      Product(-price, remaining - fill);
      Product(-price, remaining);
      assert price * fill == -(-price * fill);
      assert price * (remaining - fill) == -(-price * (remaining - fill));
    }
  }

  lemma {:induction false} MatchFrees(
    incoming: OrderData, resting: seq<OrderData>, nextId: nat, clock: Clock, tick: nat)
    requires incoming.remaining >= 0 && Positive(resting)
    ensures var m := Match(incoming, resting, nextId, clock, tick);
            Value(m.trades) + Reserved(m.resting) <= Reserved(resting)
    decreases |resting|
  {
    if !(incoming.remaining == 0 || resting == [] || !PricesCross(incoming, resting[0].price)) {
      var fill := Min(incoming.remaining, resting[0].remaining);
      var taker := incoming.ApplyFill(fill);
      var m := Match(incoming, resting, nextId, clock, tick);
      FillFrees(resting[0].price, resting[0].remaining, fill);
      if resting[0].ApplyFill(fill).remaining == 0 {
        assert Positive(resting[1..]);
        MatchFrees(taker, resting[1..], nextId + 1, clock, tick + 1);
        assert m.trades[1..] == Match(taker, resting[1..], nextId + 1, clock, tick + 1).trades;
      } else {
        assert m.trades[1..] == [] && m.resting[1..] == resting[1..];
      }
    }
  }

  // ---------- One engine ----------

  /** Savings of the incoming side: only a buy can pay less than its limit. */
  function SavedBy(side: Side, limit: int, trades: seq<Trade>): int {
    if IsBuy(side) then Saved(limit, trades) else 0
  }

  /** What a buy ties up at its limit; sells tie up nothing. */
  function BuyCost(side: Side, price: int, quantity: int): int {
    if IsBuy(side) then price * quantity else 0
  }

  lemma SubmitLedger(e: Engine, o: OrderData, clock: Clock, tick: nat)
    requires WellFormed(e)
    ensures var (e', trades) := Submit(e, o, clock, tick);
            Notional(e'.buys) + Value(trades) + SavedBy(o.side, o.price, trades)
            == Notional(e.buys) + BuyCost(o.side, o.price, o.remaining)
  {
    var own := IsBuy(o.side);
    var m := Match(o, e.Queue(!own), e.nextTradeId, clock, tick);
    MatchConservesQuantity(o, e.Queue(!own), e.nextTradeId, clock, tick);
    if own {
      PaidAndSaved(o.price, m.trades);
      InsertSums(true, e.buys, m.incoming);
      Distribute(o.price, o.remaining, Filled(m.trades));
    } else {
      MatchValue(o, e.buys, e.nextTradeId, clock, tick);
    }
  }

  lemma {:induction false} SubmitFrees(e: Engine, o: OrderData, clock: Clock, tick: nat)
    requires WellFormed(e) && Positive(e.buys) && Positive(e.sells) && o.remaining >= 0
    ensures var (e', trades) := Submit(e, o, clock, tick);
            Reserved(e'.buys) + Value(trades) <= Reserved(e.buys) + Max(0, BuyCost(o.side, o.price, o.remaining))
  {
    var own := IsBuy(o.side);
    var m := Match(o, e.Queue(!own), e.nextTradeId, clock, tick);
    MatchConservesQuantity(o, e.Queue(!own), e.nextTradeId, clock, tick);
    if own {
      MatchKeepsPositive(o, e.sells, e.nextTradeId, clock, tick);
      BuyerPaysAtMost(o, e.sells, e.nextTradeId, clock, tick);
      FilledNonNegative(m.trades);
      FillFrees(o.price, o.remaining, Filled(m.trades));
      InsertSums(true, e.buys, m.incoming);
    } else {
      MatchFrees(o, e.buys, e.nextTradeId, clock, tick);
    }
  }

  lemma {:induction false} FilledNonNegative(trades: seq<Trade>)
    requires forall t <- trades :: t.quantity > 0
    ensures Filled(trades) >= 0
  {
    if trades != [] {
      FilledNonNegative(trades[1..]);
    }
  }

  lemma BuyerPaysAtMost(o: OrderData, sells: seq<OrderData>, nextId: nat, clock: Clock, tick: nat)
    requires IsBuy(o.side) && o.remaining >= 0 && Positive(sells)
    ensures var trades := Match(o, sells, nextId, clock, tick).trades;
            Saved(o.price, trades) >= 0 && Value(trades) <= o.price * Filled(trades)
  {
    var trades := Match(o, sells, nextId, clock, tick).trades;
    MatchTakesPriorityPrefix(o, sells, nextId, clock, tick);
    MatchKeepsPositive(o, sells, nextId, clock, tick);
    forall t <- trades ensures t.price <= o.price {
      var k :| 0 <= k < |trades| && trades[k] == t;
    }
    NeverOverpays(o.price, trades);
    PaidAndSaved(o.price, trades);
  }

  lemma CancelSums(e: Engine, id: nat)
    requires WellFormed(e) && FindOrder(e, id).Some?
    ensures var o := FindOrder(e, id).value;
            && Notional(Cancel(e, id).buys) == Notional(e.buys) - BuyCost(o.side, o.price, o.remaining)
            && Reserved(Cancel(e, id).buys) == Reserved(e.buys) - Max(0, BuyCost(o.side, o.price, o.remaining))
  {
    FindOrderLaw(e, id);
    if IsBuy(FindOrder(e, id).value.side) {
      RemoveSums(e.buys, id);
    } else {
      AbsentUnchanged(e.buys, id);
    }
  }

  lemma ModifyLedger(e: Engine, id: nat, newPrice: int, newQuantity: int, clock: Clock)
    requires WellFormed(e) && FindOrder(e, id).Some?
    ensures var (e', result) := Modify(e, id, newPrice, newQuantity, clock);
            var o := FindOrder(e, id).value;
            && result.Some?
            && Notional(e'.buys) + Value(result.value) + SavedBy(o.side, newPrice, result.value)
               == Notional(e.buys) - BuyCost(o.side, o.price, o.remaining) + BuyCost(o.side, newPrice, newQuantity)
  {
    var o := FindOrder(e, id).value;
    if LosesPriority(o, newPrice, newQuantity) {
      CancelLaw(e, id);
      CancelSums(e, id);
      SubmitLedger(Cancel(e, id), NewOrder(id, o.symbol, o.side, newPrice, newQuantity, clock(0)), clock, 1);
    } else {
      FindOrderLaw(e, id);
      if IsBuy(o.side) {
        ResizeSums(e.buys, id, newQuantity);
      } else {
        AbsentUnchanged(e.buys, id);
      }
    }
  }

  lemma ModifyFrees(e: Engine, id: nat, newPrice: int, newQuantity: int, clock: Clock)
    requires WellFormed(e) && Positive(e.buys) && Positive(e.sells) && FindOrder(e, id).Some?
    requires newQuantity > 0
    ensures var (e', result) := Modify(e, id, newPrice, newQuantity, clock);
            var o := FindOrder(e, id).value;
            && result.Some?
            && Reserved(e'.buys) + Value(result.value)
               <= Reserved(e.buys) - Max(0, BuyCost(o.side, o.price, o.remaining))
                  + Max(0, BuyCost(o.side, newPrice, newQuantity))
  {
    var o := FindOrder(e, id).value;
    FindOrderLaw(e, id);
    if LosesPriority(o, newPrice, newQuantity) {
      CancelLaw(e, id);
      CancelSums(e, id);
      CancelKeepsPositive(e, id);
      SubmitFrees(Cancel(e, id), NewOrder(id, o.symbol, o.side, newPrice, newQuantity, clock(0)), clock, 1);
    } else {
      if IsBuy(o.side) {
        ResizeSums(e.buys, id, newQuantity);
      } else {
        AbsentUnchanged(e.buys, id);
      }
    }
  }

  lemma NothingTraded(side: Side, limit: int)
    ensures Value([]) == 0 && SavedBy(side, limit, []) == 0
  {
  }
}
