/**
  Where reserved buying power goes over whole runs of the risk gate and all engines: an exact ledger,
  and what each request will add to it, read before it is served.
 */
module Accounting {
  import opened Types
  import opened Matching
  import opened EngineLaws
  import opened MatchingLaws
  import opened Codec
  import opened Messages
  import opened Exchange
  import opened Risk
  import opened Sums
  import opened Ledger

  // ---------- The ledger over whole runs ----------

  /**
    `executed` is the value of all trades, `saved` what buyers paid less than their limits, `released`
    what cancels and shrinking modifies let go, `raised` what growing modifies took on unchecked, and
    `slipped` what the gate's 64-bit arithmetic added or lost.
   */
  datatype Books = Books(
    buyingPower: int, engines: Engines, executed: int, saved: int, released: int, raised: int,
    slipped: int)

  /** The resting order an id names, wherever it rests. */
  ghost function Held(es: Engines, id: nat): Option<OrderData> {
    var owner := OwnerOf(es, id);
    if owner.None? then None else FindOrder(es[owner.value], id)
  }

  function CostOf(o: OrderData): int {
    BuyCost(o.side, o.price, o.remaining)
  }

  /** What a modify asks to tie up, less what its order ties up now. */
  ghost function Change(es: Engines, request: Message): int {
    if !request.ModifyMsg? then 0
    else
      var o := Held(es, request.orderId);
      if o.None? then 0 else BuyCost(o.value.side, request.newPrice, request.newQuantity) - CostOf(o.value)
  }

  ghost function Savings(es: Engines, request: Message, trades: seq<Trade>): int {
    match request
    case NewOrderMsg(o) => SavedBy(o.side, o.price, trades)
    case ModifyMsg(id, newPrice, _) =>
      var o := Held(es, id);
      if o.None? then 0 else SavedBy(o.value.side, newPrice, trades)
    case _ => 0
  }

  ghost function Cancelled(es: Engines, request: Message): int {
    if !request.CancelMsg? then 0
    else
      var o := Held(es, request.orderId);
      if o.None? then 0 else CostOf(o.value)
  }

  ghost function Settle(config: RiskConfig, b: Books, event: Event): Books {
    var (left, es', response) := Process(config, b.buyingPower, b.engines, event.request, event.clock);
    var trades := TradesOf(response);
    var change := Change(b.engines, event.request);
    Books(
      left, es',
      b.executed + Value(trades),
      b.saved + Savings(b.engines, event.request, trades),
      b.released + Cancelled(b.engines, event.request) + Max(0, -change),
      b.raised + Max(0, change),
      b.slipped + if event.request.NewOrderMsg? then Slip(config, event.request.order, b.buyingPower) else 0)
  }

  ghost function SettleAll(config: RiskConfig, b: Books, events: seq<Event>): Books
    decreases |events|
  {
    if events == [] then b else SettleAll(config, Settle(config, b, events[0]), events[1..])
  }

  /** Requests as they come off the wire: fresh ids, and orders with their whole quantity open. */
  ghost predicate Proper(es: Engines, request: Message) {
    && FreshRequest(es, request)
    && (request.NewOrderMsg? ==> request.order.remaining == request.order.quantity)
  }

  ghost predicate AllProper(config: RiskConfig, b: Books, events: seq<Event>)
    decreases |events|
  {
    events != [] ==>
      Proper(b.engines, events[0].request) && AllProper(config, Settle(config, b, events[0]), events[1..])
  }

  ghost function Opening(buyingPower: int): Books {
    Books(buyingPower, map[], 0, 0, 0, 0, 0)
  }

  /** Free buying power, executed value and open buys together. */
  ghost function Exposure(b: Books): int {
    b.buyingPower + b.executed + RestingBuys(b.engines)
  }

  /** What the accumulators do not account for. */
  ghost function Unexplained(b: Books): int {
    Exposure(b) + b.saved + b.released - b.raised - b.slipped
  }

  lemma OwnedHeld(es: Engines, id: nat)
    requires ExchangeOk(es)
    ensures OwnerOf(es, id).Some? <==> Held(es, id).Some?
    ensures OwnerOf(es, id).Some? ==> WellFormed(es[OwnerOf(es, id).value])
  {
    var owner := OwnerOf(es, id);
    if owner.Some? {
      FindOrderLaw(es[owner.value], id);
    }
  }

  lemma NewOrderBalances(config: RiskConfig, b: Books, o: OrderData, clock: Clock)
    requires ExchangeOk(b.engines) && o.remaining == o.quantity
    ensures var b' := Settle(config, b, Event(NewOrderMsg(o), clock));
            Exposure(b') + b'.saved - b'.slipped == Exposure(b) + b.saved - b.slipped
  {
    hide Submit;
    var e := EngineFor(b.engines, o.symbol);
    EngineForOk(b.engines, o.symbol);
    SubmitLedger(e, o, clock, 0);
    PutEngineNotional(b.engines, o.symbol, Submit(e, o, clock, 0).0);
    NothingTraded(o.side, o.price);
  }

  lemma CancelBalances(config: RiskConfig, b: Books, id: nat, clock: Clock)
    requires ExchangeOk(b.engines)
    ensures var b' := Settle(config, b, Event(CancelMsg(id), clock));
            Exposure(b') + b'.released == Exposure(b) + b.released
  {
    hide Cancel, FindOrder;
    OwnedHeld(b.engines, id);
    var owner := OwnerOf(b.engines, id);
    if owner.Some? {
      CancelSums(b.engines[owner.value], id);
      PutEngineNotional(b.engines, owner.value, Cancel(b.engines[owner.value], id));
    }
  }

  lemma ModifyBalances(config: RiskConfig, b: Books, id: nat, newPrice: int, newQuantity: int, clock: Clock)
    requires ExchangeOk(b.engines)
    ensures var request := ModifyMsg(id, newPrice, newQuantity);
            var b' := Settle(config, b, Event(request, clock));
            && Exposure(b') + (b'.saved - b.saved) == Exposure(b) + Change(b.engines, request)
            && b'.raised - b.raised - (b'.released - b.released) == Change(b.engines, request)
  {
    hide Modify, FindOrder;
    OwnedHeld(b.engines, id);
    var owner := OwnerOf(b.engines, id);
    NothingTraded(BUY, newPrice);
    if owner.Some? {
      var e := b.engines[owner.value];
      ModifyLedger(e, id, newPrice, newQuantity, clock);
      PutEngineNotional(b.engines, owner.value, Modify(e, id, newPrice, newQuantity, clock).0);
    }
  }

  lemma SettleBalances(config: RiskConfig, b: Books, event: Event)
    requires ExchangeOk(b.engines) && Proper(b.engines, event.request)
    ensures var b' := Settle(config, b, event);
            && ExchangeOk(b'.engines)
            && Unexplained(b') == Unexplained(b)
  {
    hide ExchangeOk, Serve, Held, SavedBy, CheckOrder, FreshRequest, Slip, Exposure;
    SettleKeepsOk(config, b, event);
    match event.request
    case NewOrderMsg(o) => NewOrderBalances(config, b, o, event.clock);
    case CancelMsg(id) => CancelBalances(config, b, id, event.clock);
    case ModifyMsg(id, newPrice, newQuantity) => ModifyBalances(config, b, id, newPrice, newQuantity, event.clock);
    case _ => QuietSettle(config, b, event);
  }

  lemma {:induction false} RunBalances(config: RiskConfig, b: Books, events: seq<Event>)
    requires ExchangeOk(b.engines) && AllProper(config, b, events)
    ensures var b' := SettleAll(config, b, events);
            Unexplained(b') == Unexplained(b)
    decreases |events|
  {
    if events != [] {
      SettleBalances(config, b, events[0]);
      RunBalances(config, Settle(config, b, events[0]), events[1..]);
    }
  }

  // ---------- What a request will add, read before it is served ----------

  /**
    What a buyer with this limit and quantity will pay less than the limit, read off the asks in their
    order: each ask up to the limit gives its distance from it for what it can fill.
   */
  function Improvement(limit: int, quantity: int, asks: seq<OrderData>): int
    decreases |asks|
  {
    if quantity == 0 || asks == [] || limit < asks[0].price then 0
    else
      var fill := Min(quantity, asks[0].remaining);
      (limit - asks[0].price) * fill
      + if fill == asks[0].remaining then Improvement(limit, quantity - fill, asks[1..]) else 0
  }

  lemma {:induction false} SavedIsImprovement(
    o: OrderData, asks: seq<OrderData>, nextId: nat, clock: Clock, tick: nat)
    requires IsBuy(o.side)
    ensures Saved(o.price, Match(o, asks, nextId, clock, tick).trades) == Improvement(o.price, o.remaining, asks)
    decreases |asks|
  {
    if o.remaining != 0 && asks != [] && asks[0].price <= o.price {
      var fill := Min(o.remaining, asks[0].remaining);
      var taker := o.ApplyFill(fill);
      var trades := Match(o, asks, nextId, clock, tick).trades;
      if fill == asks[0].remaining {
        SavedIsImprovement(taker, asks[1..], nextId + 1, clock, tick + 1);
        assert trades[1..] == Match(taker, asks[1..], nextId + 1, clock, tick + 1).trades;
      } else {
        assert trades[1..] == [];
      }
    }
  }

  lemma SubmitImproves(e: Engine, o: OrderData, clock: Clock, tick: nat)
    ensures SavedBy(o.side, o.price, Submit(e, o, clock, tick).1)
         == if IsBuy(o.side) then Improvement(o.price, o.remaining, e.sells) else 0
  {
    hide Match, Saved, Improvement, Insert;
    if IsBuy(o.side) {
      SavedIsImprovement(o, e.sells, e.nextTradeId, clock, tick);
    }
  }

  /** The improvement a modify will find: only a buy that loses its place trades again. */
  function ModifyImprovement(e: Engine, o: OrderData, newPrice: int, newQuantity: int): int {
    if IsBuy(o.side) && (newPrice != o.price || newQuantity > o.remaining)
    then Improvement(newPrice, newQuantity, e.sells) else 0
  }

  /** The same for the order an id names. */
  ghost function RequestImprovement(es: Engines, id: nat, newPrice: int, newQuantity: int): int {
    var o := Held(es, id);
    if o.None? then 0 else ModifyImprovement(es[OwnerOf(es, id).value], o.value, newPrice, newQuantity)
  }

  lemma ModifyImproves(e: Engine, id: nat, newPrice: int, newQuantity: int, clock: Clock)
    requires WellFormed(e) && FindOrder(e, id).Some?
    ensures var result := Modify(e, id, newPrice, newQuantity, clock).1;
            var o := FindOrder(e, id).value;
            result.Some? && SavedBy(o.side, newPrice, result.value) == ModifyImprovement(e, o, newPrice, newQuantity)
  {
    hide Submit, Improvement, FindOrder, Ids, WellFormed;
    var o := FindOrder(e, id).value;
    FindOrderLaw(e, id);
    NothingTraded(o.side, newPrice);
    if LosesPriority(o, newPrice, newQuantity) {
      AbsentUnchanged(e.Queue(!IsBuy(o.side)), id);
      SubmitImproves(Cancel(e, id), NewOrder(id, o.symbol, o.side, newPrice, newQuantity, clock(0)), clock, 1);
    }
  }

  /** What a request will add to the exposure, computed from the state it arrives in. */
  ghost function Demand(config: RiskConfig, b: Books, request: Message): int {
    match request
    case NewOrderMsg(o) =>
      if IsBuy(o.side) && CheckOrder(config, o, b.buyingPower).0 == Accepted
      then Slip(config, o, b.buyingPower) - Improvement(o.price, o.quantity, EngineFor(b.engines, o.symbol).sells)
      else 0
    case CancelMsg(id) =>
      var o := Held(b.engines, id);
      if o.None? then 0 else -CostOf(o.value)
    case ModifyMsg(id, newPrice, newQuantity) =>
      var o := Held(b.engines, id);
      if o.None? then 0 else Change(b.engines, request) - RequestImprovement(b.engines, id, newPrice, newQuantity)
    case _ => 0
  }

  lemma NewOrderDemands(config: RiskConfig, b: Books, o: OrderData, clock: Clock)
    requires ExchangeOk(b.engines) && o.remaining == o.quantity
    ensures Exposure(Settle(config, b, Event(NewOrderMsg(o), clock))) == Exposure(b) + Demand(config, b, NewOrderMsg(o))
  {
    hide Submit, Exposure, Improvement, SavedBy, ToInt64;
    NewOrderBalances(config, b, o, clock);
    SubmitImproves(EngineFor(b.engines, o.symbol), o, clock, 0);
    NothingTraded(o.side, o.price);
  }

  lemma CancelDemands(config: RiskConfig, b: Books, id: nat, clock: Clock)
    requires ExchangeOk(b.engines)
    ensures Exposure(Settle(config, b, Event(CancelMsg(id), clock))) == Exposure(b) + Demand(config, b, CancelMsg(id))
  {
    hide Exposure, Cancel, Held;
    CancelBalances(config, b, id, clock);
  }

  lemma ModifyDemands(config: RiskConfig, b: Books, id: nat, newPrice: int, newQuantity: int, clock: Clock)
    requires ExchangeOk(b.engines)
    ensures var request := ModifyMsg(id, newPrice, newQuantity);
            Exposure(Settle(config, b, Event(request, clock))) == Exposure(b) + Demand(config, b, request)
  {
    hide Exposure, Modify, FindOrder, ModifyImprovement, SavedBy, ExchangeOk, WellFormed;
    ModifyBalances(config, b, id, newPrice, newQuantity, clock);
    OwnedHeld(b.engines, id);
    NothingTraded(BUY, newPrice);
    var owner := OwnerOf(b.engines, id);
    if owner.Some? {
      ModifyImproves(b.engines[owner.value], id, newPrice, newQuantity, clock);
    }
  }

  /** Every request adds exactly what could be computed before it. */
  lemma SettleDemands(config: RiskConfig, b: Books, event: Event)
    requires ExchangeOk(b.engines) && Proper(b.engines, event.request)
    ensures ExchangeOk(Settle(config, b, event).engines)
    ensures Exposure(Settle(config, b, event)) == Exposure(b) + Demand(config, b, event.request)
  {
    hide ExchangeOk, Serve, Change, Held, SavedBy, ModifyImprovement, Improvement, CheckOrder, FreshRequest;
    SettleKeepsOk(config, b, event);
    NothingTraded(BUY, 0);
    match event.request
    case NewOrderMsg(o) => NewOrderDemands(config, b, o, event.clock);
    case CancelMsg(id) => CancelDemands(config, b, id, event.clock);
    case ModifyMsg(id, newPrice, newQuantity) => ModifyDemands(config, b, id, newPrice, newQuantity, event.clock);
    case _ => QuietSettle(config, b, event);
  }

  /** Queries, and messages that are not requests, leave the books as they are. */
  lemma QuietSettle(config: RiskConfig, b: Books, event: Event)
    requires !event.request.NewOrderMsg? && !event.request.CancelMsg? && !event.request.ModifyMsg?
    ensures Settle(config, b, event) == b
  {
  }

  lemma SettleKeepsOk(config: RiskConfig, b: Books, event: Event)
    requires ExchangeOk(b.engines) && Proper(b.engines, event.request)
    ensures ExchangeOk(Settle(config, b, event).engines)
  {
    hide ExchangeOk, Serve, FreshRequest, CheckOrder;
    ServeKeepsOk(b.engines, event.request, event.clock);
  }

  // ---------- When exposure stays within the initial balance ----------

  /** It is within the balance now and after every further request. */
  ghost predicate StaysWithin(config: RiskConfig, b: Books, events: seq<Event>, balance: int)
    decreases |events|
  {
    && Exposure(b) <= balance
    && (events != [] ==> StaysWithin(config, Settle(config, b, events[0]), events[1..], balance))
  }

  /** A gate in front of the exchange would have let every request through. */
  ghost predicate AllCovered(config: RiskConfig, b: Books, events: seq<Event>, balance: int)
    decreases |events|
  {
    events != [] ==>
      && Exposure(b) + Demand(config, b, events[0].request) <= balance
      && AllCovered(config, Settle(config, b, events[0]), events[1..], balance)
  }

  lemma {:induction false} StaysWithinIff(config: RiskConfig, b: Books, events: seq<Event>, balance: int)
    requires ExchangeOk(b.engines) && AllProper(config, b, events) && Exposure(b) <= balance
    ensures StaysWithin(config, b, events, balance) <==> AllCovered(config, b, events, balance)
    decreases |events|
  {
    hide ExchangeOk, Exposure, Demand, Settle, Proper;
    if events != [] {
      SettleDemands(config, b, events[0]);
      var b' := Settle(config, b, events[0]);
      if Exposure(b') <= balance {
        StaysWithinIff(config, b', events[1..], balance);
      } else {
        assert !StaysWithin(config, b', events[1..], balance);
      }
    }
  }

  /**
    Every unit of buying power is accounted for after every run, across all symbols; and what is free,
    executed and resting never exceeds the initial balance exactly when each request, before it is
    served, asks for no more than the balance still leaves.
   */
  lemma EveryRunBalances(config: RiskConfig, initial: int, events: seq<Event>)
    requires AllProper(config, Opening(initial), events)
    ensures var b := SettleAll(config, Opening(initial), events);
            Exposure(b) + b.saved + b.released == initial + b.raised + b.slipped
    ensures StaysWithin(config, Opening(initial), events, initial)
            <==> AllCovered(config, Opening(initial), events, initial)
  {
    hide Settle, Proper, AllProper, StaysWithin, AllCovered;
    EmptyExchange();
    RunBalances(config, Opening(initial), events);
    StaysWithinIff(config, Opening(initial), events, initial);
  }

  /** No resting sell meets the new price of a modified buy. */
  ghost predicate ModifyCrossesNothing(es: Engines, id: nat, newPrice: int) {
    var o := Held(es, id);
    o.Some? && IsBuy(o.value.side) ==> forall x <- es[OwnerOf(es, id).value].sells :: x.price > newPrice
  }

  /**
    A modify keeps exposure within any balance exactly when what it asks for on top, less the price
    improvement that the asks offer it, fits; where it crosses nothing there is no improvement.
   */
  lemma ModifyWithinReserveIff(
    config: RiskConfig, b: Books, id: nat, newPrice: int, newQuantity: int, clock: Clock, balance: int)
    requires ExchangeOk(b.engines)
    ensures var request := ModifyMsg(id, newPrice, newQuantity);
            var b' := Settle(config, b, Event(request, clock));
            var improvement := RequestImprovement(b.engines, id, newPrice, newQuantity);
            && (Exposure(b') <= balance <==> Exposure(b) + Change(b.engines, request) <= balance + improvement)
            && (ModifyCrossesNothing(b.engines, id, newPrice) ==> improvement == 0)
  {
    hide Exposure, FindOrder, ExchangeOk, Settle, BuyCost;
    ModifyDemands(config, b, id, newPrice, newQuantity, clock);
    var o := Held(b.engines, id);
    if o.Some? {
      var asks := b.engines[OwnerOf(b.engines, id).value].sells;
      assert asks != [] ==> asks[0] in asks;
    }
  }

  /**
    A new order raises exposure exactly when it is an accepted buy that finds less improvement than
    the wraps of its reservation give away; if that is in range, one of a negative quantity above the
    best ask.
   */
  lemma NewOrderRaisesIff(config: RiskConfig, b: Books, o: OrderData, clock: Clock)
    requires ExchangeOk(b.engines) && o.remaining == o.quantity
    ensures var asks := EngineFor(b.engines, o.symbol).sells;
            var bought := CheckOrder(config, o, b.buyingPower).0 == Accepted && IsBuy(o.side);
            var raised := Exposure(Settle(config, b, Event(NewOrderMsg(o), clock))) > Exposure(b);
            && (raised <==> bought && Improvement(o.price, o.quantity, asks) < Slip(config, o, b.buyingPower))
            && (IsI64(b.buyingPower - o.price * o.quantity) && Positive(asks) ==>
                  (raised <==> bought && o.quantity < 0 && asks != [] && asks[0].price < o.price))
  {
    hide Exposure, ExchangeOk, Settle, CheckOrder, Slip, Improvement;
    var asks := EngineFor(b.engines, o.symbol).sells;
    NewOrderDemands(config, b, o, clock);
    SlipIff(config, o, b.buyingPower);
    if Positive(asks) {
      ImprovementSign(o.price, o.quantity, asks);
    }
  }

  lemma {:induction false} ImprovementSign(limit: int, quantity: int, asks: seq<OrderData>)
    requires Positive(asks)
    ensures Improvement(limit, quantity, asks) < 0 <==> quantity < 0 && asks != [] && asks[0].price < limit
  {
    if quantity != 0 && asks != [] && asks[0].price <= limit {
      assert asks[0] in asks;
      var fill := Min(quantity, asks[0].remaining);
      if quantity > 0 {
        Product(limit - asks[0].price, fill);
        assert forall x <- asks[1..] :: x in asks;
        ImprovementSign(limit, quantity - fill, asks[1..]);
      } else if asks[0].price < limit {
        Product(limit - asks[0].price - 1, -fill);
        assert (limit - asks[0].price) * fill == -((limit - asks[0].price - 1) * -fill) + fill;
      }
    }
  }
}
