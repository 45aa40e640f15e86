/** Runs of requests, each accepted by the code as it stands, that break solvency. */
module Overspending {
  import opened Types
  import opened Matching
  import opened Codec
  import opened Messages
  import opened Exchange
  import opened Risk
  import opened Sums
  import opened Ledger
  import opened Accounting

  const SYMBOL: Symbol := [65]

  /** The first order of an empty exchange, if it is an accepted buy, rests alone. */
  lemma AfterFirstBuy(config: RiskConfig, buyingPower: int, o: OrderData, clock: Clock)
    requires IsBuy(o.side) && o.remaining != 0 && CheckOrder(config, o, buyingPower).0 == Accepted
    ensures Settle(config, Opening(buyingPower), Event(NewOrderMsg(o), clock))
         == Books(CheckOrder(config, o, buyingPower).1, map[o.symbol := Engine(o.symbol, [o], [], 1)], 0, 0, 0, 0,
                  Slip(config, o, buyingPower))
  {
    hide Improvement, ToInt64;
    var e := NewEngine(o.symbol);
    assert Match(o, [], 1, clock, 0) == MatchResult(o, [], []);
    assert Insert(true, [], o) == [o];
    assert Submit(e, o, clock, 0) == (Engine(o.symbol, [o], [], 1), []);
    NothingTraded(o.side, o.price);
  }

  /** That order is the one its id names. */
  lemma FirstBuyHeld(o: OrderData)
    requires IsBuy(o.side)
    ensures var es := map[o.symbol := Engine(o.symbol, [o], [], 1)];
            OwnerOf(es, o.id) == Some(o.symbol) && Held(es, o.id) == Some(o)
  {
    var e := Engine(o.symbol, [o], [], 1);
    var es := map[o.symbol := e];
    assert o in e.buys;
    assert RestsAt(es, o.symbol, o.id);
    assert OwnerOf(es, o.id) == Some(o.symbol);
    assert FindOrder(e, o.id) == Some(o);
  }

  /** After that order, a further request adds its demand. */
  lemma AfterFirstBuyThen(buyingPower: int, o: OrderData, request: Message, clock: Clock)
    requires IsBuy(o.side) && o.remaining == o.quantity != 0
    requires CheckOrder(CONFIG, o, buyingPower).0 == Accepted
    requires request.NewOrderMsg? ==>
               request.order.id != o.id && request.order.remaining == request.order.quantity
    ensures var b1 := Settle(CONFIG, Opening(buyingPower), Event(NewOrderMsg(o), clock));
            var b2 := Settle(CONFIG, b1, Event(request, clock));
            && AllProper(CONFIG, Opening(buyingPower), [Event(NewOrderMsg(o), clock), Event(request, clock)])
            && b1.buyingPower == CheckOrder(CONFIG, o, buyingPower).1
            && b1.engines == map[o.symbol := Engine(o.symbol, [o], [], 1)]
            && Exposure(b1) == buyingPower + Slip(CONFIG, o, buyingPower)
            && Exposure(b2) == Exposure(b1) + Demand(CONFIG, b1, request)
  {
    hide Settle, Exposure, Demand, CheckOrder, Slip;
    var first, second := Event(NewOrderMsg(o), clock), Event(request, clock);
    var b1 := Settle(CONFIG, Opening(buyingPower), first);
    EmptyExchange();
    EmptyExposure(buyingPower);
    AfterFirstBuy(CONFIG, buyingPower, o, clock);
    SettleDemands(CONFIG, Opening(buyingPower), first);
    OnlyOneRests(o, request);
    SettleDemands(CONFIG, b1, second);
    NothingOffered(CONFIG, buyingPower, o);
    assert [first, second][1..] == [second] && [second][1..] == [];
    assert AllProper(CONFIG, Settle(CONFIG, b1, second), []);
    assert AllProper(CONFIG, b1, [second]);
  }

  lemma EmptyExposure(buyingPower: int)
    ensures Exposure(Opening(buyingPower)) == buyingPower
  {
    EmptyExchange();
  }

  lemma NothingOffered(config: RiskConfig, buyingPower: int, o: OrderData)
    ensures Demand(config, Opening(buyingPower), NewOrderMsg(o)) == Slip(config, o, buyingPower)
  {
    hide ToInt64;
  }

  /** Any other id is free. */
  lemma OnlyOneRests(o: OrderData, request: Message)
    requires request.NewOrderMsg? ==>
               request.order.id != o.id && request.order.remaining == request.order.quantity
    ensures Proper(map[o.symbol := Engine(o.symbol, [o], [], 1)], request)
  {
  }

  const CONFIG := RiskConfig(10000)

  /** Buy 10 at 1. */
  const BUY_TEN: OrderData := NewOrder(1, SYMBOL, BUY, 1, 10, 0)

  /** Modifies are not checked: with a balance of 10, buy 10 at 1, then ask for a price of 2. */
  lemma RaisingModifyBreaksSolvency(clock: Clock)
    ensures var events := [Event(NewOrderMsg(BUY_TEN), clock), Event(ModifyMsg(1, 2, 10), clock)];
            && AllProper(CONFIG, Opening(10), events)
            && Exposure(SettleAll(CONFIG, Opening(10), events)) == 20
  {
    hide Settle, Exposure, AllProper, Held;
    GateIsExact(CONFIG, BUY_TEN, 10);
    SlipIff(CONFIG, BUY_TEN, 10);
    AfterFirstBuyThen(10, BUY_TEN, ModifyMsg(1, 2, 10), clock);
    FirstBuyHeld(BUY_TEN);
    SettleTwo(CONFIG, Opening(10), Event(NewOrderMsg(BUY_TEN), clock), Event(ModifyMsg(1, 2, 10), clock));
  }

  /** Buy 10 less than nothing at 1. */
  const BUY_MINUS_TEN: OrderData := NewOrder(1, SYMBOL, BUY, 1, -10, 0)

  /**
    Negative quantities are not checked either: with a balance of 10, buying -10 at 1 leaves a buying
    power of 20, and cancelling that order lets it be kept.
   */
  lemma NegativeQuantityBreaksSolvency(clock: Clock)
    ensures var events := [Event(NewOrderMsg(BUY_MINUS_TEN), clock), Event(CancelMsg(1), clock)];
            && AllProper(CONFIG, Opening(10), events)
            && Settle(CONFIG, Opening(10), events[0]).buyingPower == 20
            && Exposure(SettleAll(CONFIG, Opening(10), events)) == 20
  {
    hide Settle, Exposure, AllProper, Held;
    GateIsExact(CONFIG, BUY_MINUS_TEN, 10);
    SlipIff(CONFIG, BUY_MINUS_TEN, 10);
    AfterFirstBuyThen(10, BUY_MINUS_TEN, CancelMsg(1), clock);
    FirstBuyHeld(BUY_MINUS_TEN);
    SettleTwo(CONFIG, Opening(10), Event(NewOrderMsg(BUY_MINUS_TEN), clock), Event(CancelMsg(1), clock));
  }

  lemma SettleTwo(config: RiskConfig, b: Books, first: Event, second: Event)
    ensures SettleAll(config, b, [first, second]) == Settle(config, Settle(config, b, first), second)
  {
    hide Settle;
    var b1 := Settle(config, b, first);
    assert [first, second][1..] == [second] && [second][1..] == [];
    assert SettleAll(config, b1, [second]) == SettleAll(config, Settle(config, b1, second), []);
  }

  /** Buy 4 at 2^62: a price that travels on the wire like any other. */
  const BUY_WRAPPED: OrderData := NewOrder(1, SYMBOL, BUY, 0x4000_0000_0000_0000, 4, 0)

  /**
    The cost is calculated in 64 bits: buying 4 at 2^62 costs 2^64, which wraps to nothing. It is
    accepted on a balance of 10, nothing is reserved, and 2^64 rests.
   */
  lemma WrappedCostBreaksSolvency(clock: Clock)
    ensures var event := Event(NewOrderMsg(BUY_WRAPPED), clock);
            var b := Settle(CONFIG, Opening(10), event);
            && OrderFits(BUY_WRAPPED) && BUY_WRAPPED.quantity > 0
            && AllProper(CONFIG, Opening(10), [event])
            && b.buyingPower == 10
            && Exposure(b) == 10 + U64
  {
    hide Settle, Exposure, AllProper, Held, Demand, ToInt64;
    SameWrap(BUY_WRAPPED.price * BUY_WRAPPED.quantity, 0, 1);
    assert ToInt64(0) == 0 && ToInt64(10) == 10 by { Small(0); Small(10); }
    AfterFirstBuyThen(10, BUY_WRAPPED, QueryMsg(SYMBOL), clock);
    OneEvent(CONFIG, Opening(10), Event(NewOrderMsg(BUY_WRAPPED), clock), Event(QueryMsg(SYMBOL), clock));
  }

  lemma Small(x: int)
    requires IsI64(x)
    ensures ToInt64(x) == x
  {
  }

  lemma OneEvent(config: RiskConfig, b: Books, first: Event, second: Event)
    requires AllProper(config, b, [first, second])
    ensures AllProper(config, b, [first])
  {
    hide Settle, Proper;
    var b1 := Settle(config, b, first);
    assert [first, second][1..] == [second] && [first][1..] == [];
    assert AllProper(config, b1, []);
  }

  /** Buy 3 at 2^62. */
  const BUY_REFUNDED: OrderData := NewOrder(1, SYMBOL, BUY, 0x4000_0000_0000_0000, 3, 0)

  /** A positive quantity can be given back for: the cost 3 * 2^62 wraps to -2^62. */
  lemma WrappedCostRaisesBuyingPower()
    ensures CheckOrder(CONFIG, BUY_REFUNDED, 10) == (Accepted, 10 + 0x4000_0000_0000_0000)
  {
    hide ToInt64;
    SameWrap(BUY_REFUNDED.price * BUY_REFUNDED.quantity, -0x4000_0000_0000_0000, 1);
    Small(-0x4000_0000_0000_0000);
    Small(10 + 0x4000_0000_0000_0000);
  }

  /** Buy -2^22 at 2^40, twice: both costs fit. */
  const FIRST_REFUND: OrderData := NewOrder(1, SYMBOL, BUY, 0x100_0000_0000, -0x40_0000, 0)
  const SECOND_REFUND: OrderData := NewOrder(2, SYMBOL, BUY, 0x100_0000_0000, -0x40_0000, 0)

  /** Two such refunds take a balance of 10 past the top of 64 bits, and so below zero. */
  lemma TwoRefundsMakeBuyingPowerNegative(clock: Clock)
    ensures var events := [Event(NewOrderMsg(FIRST_REFUND), clock), Event(NewOrderMsg(SECOND_REFUND), clock)];
            && CostFits(CONFIG, FIRST_REFUND) && CostFits(CONFIG, SECOND_REFUND)
            && AllProper(CONFIG, Opening(10), events)
            && SettleAll(CONFIG, Opening(10), events).buyingPower == 10 - I64
  {
    hide Settle, Exposure, AllProper, Held, Demand, ToInt64, Slip;
    var refund := 0x4000_0000_0000_0000;
    var first, second := Event(NewOrderMsg(FIRST_REFUND), clock), Event(NewOrderMsg(SECOND_REFUND), clock);
    Small(-refund);
    Small(10 + refund);
    Small(10 - I64);
    SameWrap(10 + refund + refund, 10 - I64, 1);
    AfterFirstBuyThen(10, FIRST_REFUND, NewOrderMsg(SECOND_REFUND), clock);
    var b1 := Settle(CONFIG, Opening(10), first);
    PowerLeft(CONFIG, b1, SECOND_REFUND, clock);
    SettleTwo(CONFIG, Opening(10), first, second);
  }

  lemma PowerLeft(config: RiskConfig, b: Books, o: OrderData, clock: Clock)
    ensures Settle(config, b, Event(NewOrderMsg(o), clock)).buyingPower == CheckOrder(config, o, b.buyingPower).1
  {
    hide Serve, ToInt64;
  }
}
