/**
  When the risk gate keeps accounts solvent over whole runs: buying power that never becomes negative,
  and exposure that never exceeds the initial balance.
 */
module Solvency {
  import opened Types
  import opened Matching
  import opened EngineLaws
  import opened Codec
  import opened Messages
  import opened Exchange
  import opened Risk
  import opened Sums
  import opened Ledger
  import opened Accounting

  // ---------- Buying power ----------

  /** It is not negative now and after every further request. */
  ghost predicate StaysNonNegative(config: RiskConfig, b: Books, events: seq<Event>)
    decreases |events|
  {
    && b.buyingPower >= 0
    && (events != [] ==> StaysNonNegative(config, Settle(config, b, events[0]), events[1..]))
  }

  /** No accepted buy gives back more than still fits the 64 bits of the balance. */
  ghost predicate RefundFits(config: RiskConfig, buyingPower: int, request: Message) {
    request.NewOrderMsg? ==>
      var o := request.order;
      IsBuy(o.side) && o.price > 0 && o.quantity <= config.maxOrderQuantity ==>
        buyingPower - ToInt64(o.price * o.quantity) < I64
  }

  ghost predicate AllRefundsFit(config: RiskConfig, b: Books, events: seq<Event>)
    decreases |events|
  {
    events != [] ==>
      && RefundFits(config, b.buyingPower, events[0].request)
      && AllRefundsFit(config, Settle(config, b, events[0]), events[1..])
  }

  lemma SettleKeepsPower(config: RiskConfig, b: Books, event: Event)
    requires 0 <= b.buyingPower < I64
    ensures var left := Settle(config, b, event).buyingPower;
            && IsI64(left)
            && (left >= 0 <==> RefundFits(config, b.buyingPower, event.request))
  {
    hide Serve, ToInt64;
    if event.request.NewOrderMsg? {
      GateOverflowsIff(config, event.request.order, b.buyingPower);
    }
  }

  /** Over every run buying power stays at zero or above exactly when every refund fits. */
  lemma {:induction false} BuyingPowerNeverNegativeIff(config: RiskConfig, b: Books, events: seq<Event>)
    requires 0 <= b.buyingPower < I64
    ensures StaysNonNegative(config, b, events) <==> AllRefundsFit(config, b, events)
    decreases |events|
  {
    hide Settle, RefundFits;
    if events != [] {
      SettleKeepsPower(config, b, events[0]);
      var b' := Settle(config, b, events[0]);
      if b'.buyingPower >= 0 {
        BuyingPowerNeverNegativeIff(config, b', events[1..]);
      } else {
        assert !StaysNonNegative(config, b', events[1..]);
      }
    }
  }

  /** So it does where every cost is calculated in range and no quantity is negative. */
  lemma {:induction false} BuyingPowerNeverNegative(config: RiskConfig, b: Books, events: seq<Event>)
    requires 0 <= b.buyingPower < I64
    requires forall e <- events :: e.request.NewOrderMsg? ==>
               e.request.order.quantity >= 0 && CostFits(config, e.request.order)
    ensures 0 <= SettleAll(config, b, events).buyingPower < I64
    decreases |events|
  {
    hide Settle;
    if events != [] {
      var request := events[0].request;
      SettleKeepsPower(config, b, events[0]);
      if request.NewOrderMsg? && request.order.price > 0 {
        Product(request.order.price, request.order.quantity);
      }
      BuyingPowerNeverNegative(config, Settle(config, b, events[0]), events[1..]);
    }
  }

  // ---------- Runs that cannot overspend ----------

  ghost predicate AllPositive(es: Engines) {
    forall s <- es.Keys :: Positive(es[s].buys) && Positive(es[s].sells)
  }

  /** Positive quantities, costs that fit 64 bits, and no modify that raises what its buy ties up. */
  ghost predicate Prudent(config: RiskConfig, es: Engines, request: Message) {
    && Proper(es, request)
    && (request.NewOrderMsg? ==> request.order.quantity > 0 && CostFits(config, request.order))
    && (request.ModifyMsg? ==> request.newQuantity > 0)
    && Change(es, request) <= 0
  }

  ghost predicate AllPrudent(config: RiskConfig, b: Books, events: seq<Event>)
    decreases |events|
  {
    events != [] ==>
      Prudent(config, b.engines, events[0].request) && AllPrudent(config, Settle(config, b, events[0]), events[1..])
  }

  ghost predicate SolventWithin(b: Books, initial: int) {
    && ExchangeOk(b.engines)
    && AllPositive(b.engines)
    && 0 <= b.buyingPower <= initial < I64
    && b.buyingPower + b.executed + ReservedBuys(b.engines) <= initial
  }

  lemma EngineOkFacts(e: Engine)
    requires EngineOk(e)
    ensures WellFormed(e)
  {
  }

  lemma NewOrderStaysSolvent(config: RiskConfig, b: Books, o: OrderData, clock: Clock, initial: int)
    requires SolventWithin(b, initial) && Prudent(config, b.engines, NewOrderMsg(o))
    ensures SolventWithin(Settle(config, b, Event(NewOrderMsg(o), clock)), initial)
  {
    hide Submit, Notional, Reserved, ReservedBuys, EngineOk, UniqueOwners;
    var e := EngineFor(b.engines, o.symbol);
    EngineForOk(b.engines, o.symbol);
    EngineOkFacts(e);
    ServeKeepsOk(b.engines, NewOrderMsg(o), clock);
    SubmitFrees(e, o, clock, 0);
    SubmitKeepsPositive(e, o, clock, 0);
    PutEngineReserved(b.engines, o.symbol, Submit(e, o, clock, 0).0);
    NothingTraded(o.side, o.price);
    if o.price > 0 {
      Product(o.price, o.quantity);
      if IsBuy(o.side) {
        GateIsExact(config, o, b.buyingPower);
      }
    }
  }

  lemma {:induction false} CancelStaysSolvent(config: RiskConfig, b: Books, id: nat, clock: Clock, initial: int)
    requires SolventWithin(b, initial)
    ensures SolventWithin(Settle(config, b, Event(CancelMsg(id), clock)), initial)
  {
    hide Cancel, FindOrder;
    OwnedHeld(b.engines, id);
    ServeKeepsOk(b.engines, CancelMsg(id), clock);
    var owner := OwnerOf(b.engines, id);
    if owner.Some? {
      CancelSums(b.engines[owner.value], id);
      CancelKeepsPositive(b.engines[owner.value], id);
      PutEngineReserved(b.engines, owner.value, Cancel(b.engines[owner.value], id));
    }
  }

  lemma {:induction false} ModifyStaysSolvent(
    config: RiskConfig, b: Books, id: nat, newPrice: int, newQuantity: int, clock: Clock, initial: int)
    requires SolventWithin(b, initial) && Prudent(config, b.engines, ModifyMsg(id, newPrice, newQuantity))
    ensures SolventWithin(Settle(config, b, Event(ModifyMsg(id, newPrice, newQuantity), clock)), initial)
  {
    hide Modify, FindOrder;
    OwnedHeld(b.engines, id);
    ServeKeepsOk(b.engines, ModifyMsg(id, newPrice, newQuantity), clock);
    var owner := OwnerOf(b.engines, id);
    if owner.Some? {
      var e := b.engines[owner.value];
      ModifyFrees(e, id, newPrice, newQuantity, clock);
      ModifyKeepsPositiveIff(e, id, newPrice, newQuantity, clock);
      PutEngineReserved(b.engines, owner.value, Modify(e, id, newPrice, newQuantity, clock).0);
    }
  }

  lemma SettleStaysSolvent(config: RiskConfig, b: Books, event: Event, initial: int)
    requires SolventWithin(b, initial) && Prudent(config, b.engines, event.request)
    ensures SolventWithin(Settle(config, b, event), initial)
  {
    match event.request
    case NewOrderMsg(o) => NewOrderStaysSolvent(config, b, o, event.clock, initial);
    case CancelMsg(id) => CancelStaysSolvent(config, b, id, event.clock, initial);
    case ModifyMsg(id, newPrice, newQuantity) =>
      ModifyStaysSolvent(config, b, id, newPrice, newQuantity, event.clock, initial);
    case QueryMsg(_) =>
    case AckMsg(_, _) =>
    case RejectMsg(_, _) =>
    case SnapshotMsg(_, _, _) =>
    case TradeMsg(_) =>
  }

  lemma {:induction false} RunStaysSolvent(config: RiskConfig, b: Books, events: seq<Event>, initial: int)
    requires SolventWithin(b, initial) && AllPrudent(config, b, events)
    ensures SolventWithin(SettleAll(config, b, events), initial)
    decreases |events|
  {
    if events != [] {
      SettleStaysSolvent(config, b, events[0], initial);
      RunStaysSolvent(config, Settle(config, b, events[0]), events[1..], initial);
    }
  }

  /**
    Over every run of positive quantities whose costs fit 64 bits and in which no modify raises what its
    buy ties up, what is free, executed and resting on the buy side of all symbols never exceeds the
    initial balance.
   */
  lemma EveryPrudentRunIsSolvent(config: RiskConfig, initial: nat, events: seq<Event>)
    requires initial < I64 && AllPrudent(config, Opening(initial), events)
    ensures var b := SettleAll(config, Opening(initial), events);
            b.buyingPower >= 0 && Exposure(b) <= initial
  {
    EmptyExchange();
    RunStaysSolvent(config, Opening(initial), events, initial);
    var es := SettleAll(config, Opening(initial), events).engines;
    forall s <- es.Keys ensures Notionals(es)[s] <= Reservations(es)[s] {
      ReservedCoversNotional(es[s].buys);
    }
    assert Notionals(es).Keys == Reservations(es).Keys;
    SumAtMost(Notionals(es).Keys, Notionals(es), Reservations(es));
  }
}
