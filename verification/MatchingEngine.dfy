/** The matching engine object: nested loops over levels and queues, updated in place. */
module MatchingEngines {
  import opened Types
  import opened Matching
  import opened MatchingLaws
  import opened EngineLaws
  import opened EngineRuns
  import opened Levels
  import opened Book

  /** What is left to match, prefixed by the trades already made, is the whole match. */
  ghost predicate Continues(
    whole: MatchResult, done: seq<Trade>, incoming: OrderData, left: seq<OrderData>, nextId: nat, clock: Clock,
        tick: nat)
  {
    var m := Match(incoming, left, nextId, clock, tick);
    whole == m.(trades := done + m.trades)
  }

  lemma NothingDone(incoming: OrderData, left: seq<OrderData>, nextId: nat, clock: Clock, tick: nat)
    ensures Continues(Match(incoming, left, nextId, clock, tick), [], incoming, left, nextId, clock, tick)
  {
  }

  /** One fill against the front of the queue. */
  lemma OneFill(
    whole: MatchResult, done: seq<Trade>, incoming: OrderData, left: seq<OrderData>, nextId: nat, clock: Clock,
        tick: nat)
    requires Continues(whole, done, incoming, left, nextId, clock, tick)
    requires incoming.remaining != 0 && left != [] && PricesCross(incoming, left[0].price)
    ensures var fill := Min(incoming.remaining, left[0].remaining);
            var trade := MakeTrade(nextId, incoming, left[0], fill, clock(tick));
            var maker := left[0].ApplyFill(fill);
            Continues(whole, done + [trade], incoming.ApplyFill(fill),
                      if maker.remaining == 0 then left[1..] else [maker] + left[1..], nextId + 1, clock, tick + 1)
  {
    var fill := Min(incoming.remaining, left[0].remaining);
    var trade := MakeTrade(nextId, incoming, left[0], fill, clock(tick));
    var taker := incoming.ApplyFill(fill);
    if left[0].ApplyFill(fill).remaining == 0 {
      var m := Match(taker, left[1..], nextId + 1, clock, tick + 1);
      assert done + ([trade] + m.trades) == (done + [trade]) + m.trades;
    } else {
      assert done + [trade] == done + [trade] + [];
    }
  }

  class MatchingEngine {
    const book: OrderBook
    var nextTradeId: nat
    ghost var Repr: set<object>

    constructor (symbol: Symbol)
      ensures Valid() && fresh(Repr)
      ensures View() == NewEngine(symbol)
    {
      book := new OrderBook(symbol);
      nextTradeId := 1;
      new;
      Repr := {this} + book.Repr();
    }

    ghost predicate Valid()
      reads this, Repr
      ensures Valid() ==> this in Repr
    {
      && this in Repr && book in Repr && book.buys in Repr && book.sells in Repr
      && Repr == {this} + book.Repr()
      && this !in book.Repr()
      && book.Valid()
      && nextTradeId >= 1
    }

    ghost function View(): Engine
      requires Valid()
      reads this, Repr
    {
      Engine(book.symbol, book.buys.Flat(), book.sells.Flat(), nextTradeId)
    }

    lemma ViewWellFormed()
      requires Valid()
      ensures WellFormed(View())
      ensures forall id :: id in book.index <==> id in View().RestingIds()
    {
    }

    /** One pass of the inner loop: fill the oldest order of the best level, and erase it if it is done. */
    method FillFront(incoming: Order, forBuys: bool, clock: Clock, tick: nat) returns (trade: Trade)
      requires book.Sound() && this !in book.Repr() && incoming !in book.Repr()
      requires book.SideFor(forBuys).levels != [] && book.SideFor(forBuys).levels[0].orders != []
      modifies `nextTradeId, book`index, book`buyCatalog, book`sellCatalog, incoming
      modifies book.SideFor(forBuys).levels[0], book.SideFor(forBuys).levels[0].orders[0]
      ensures book.Sound() && nextTradeId == old(nextTradeId) + 1
      ensures var level := book.SideFor(forBuys).levels[0];
              var flat := old(book.SideFor(forBuys).Flat());
              && |flat| > 0
              && flat[0].price == level.price
              && var fill := Min(old(incoming.Data()).remaining, flat[0].remaining);
                 var maker := flat[0].ApplyFill(fill);
              && incoming.Data() == old(incoming.Data()).ApplyFill(fill)
              && trade == (
                   if incoming.side == 0
                   then Trade(old(nextTradeId), incoming.id, flat[0].id,
                              incoming.symbol, level.price, fill, clock(tick))
                   else Trade(old(nextTradeId), flat[0].id, incoming.id,
                              incoming.symbol, level.price, fill, clock(tick)))
              && (if maker.remaining == 0
                  then && level.orders == old(level.orders)[1..]
                       && book.SideFor(forBuys).Flat() == flat[1..]
                  else && level.orders == old(level.orders)
                       && book.SideFor(forBuys).Flat() == [maker] + flat[1..]
                       && incoming.remaining == 0)
    {
      hide OrderBook.Sound, BookSide.Flat;
      var level := book.SideFor(forBuys).levels[0];
      var resting := level.orders[0];
      var fill := Min(incoming.remaining, resting.remaining);

      book.FrontIndexed(forBuys);
      incoming.ApplyFill(fill);
      book.FillFront(forBuys, fill);
      trade := MakeTrade(nextTradeId, incoming.Data(), resting.Data(), fill, clock(tick));
      nextTradeId := nextTradeId + 1;

      if resting.IsFullyFilled() {
        book.EraseFront(forBuys);
      }
    }

    /**
      The inner loop over the best level's queue. The queue position moves on only past an order
      that survives its fill, and then the incoming order is used up.
     */
    method MatchLevel(
        incoming: Order, forBuys: bool, clock: Clock, tick: nat, done: seq<Trade>, ghost whole: MatchResult)
      returns (trades: seq<Trade>)
      requires book.Valid() && this !in book.Repr() && incoming !in book.Repr()
      requires book.SideFor(forBuys).levels != []
      requires PricesCross(incoming.Data(), book.SideFor(forBuys).levels[0].price)
      requires Continues(whole, done, incoming.Data(), book.SideFor(forBuys).Flat(), nextTradeId, clock, tick + |done|)
      modifies `nextTradeId, book`index, book`buyCatalog, book`sellCatalog, incoming
      modifies book.SideFor(forBuys).levels[0], book.SideFor(forBuys).levels[0].orders
      ensures book.Sound() && book.SideFor(forBuys).NonEmptyFrom(1) && book.SideFor(!forBuys).NonEmptyFrom(0)
      ensures Continues(whole, trades, incoming.Data(), book.SideFor(forBuys).Flat(), nextTradeId, clock,
          tick + |trades|)
      ensures book.SideFor(forBuys).levels[0].orders == [] || incoming.remaining == 0
      ensures |trades| >= |done| && nextTradeId == old(nextTradeId) + |trades| - |done|
      ensures incoming.Data().(remaining := 0) == old(incoming.Data()).(remaining := 0)
    {
      hide SideOk, BookSide.Catalogued, BookSide.Flat, Continues, Match;
      trades := done;
      var level := book.SideFor(forBuys).levels[0];
      var next := 0;
      book.SideFor(forBuys).DistinctLevels();
      while next < |level.orders| && !incoming.IsFullyFilled()
        invariant book.Sound() && this !in book.Repr() && incoming !in book.Repr()
        invariant book.SideFor(forBuys).NonEmptyFrom(1) && book.SideFor(!forBuys).NonEmptyFrom(0)
        invariant forall o <- level.orders :: o in old(level.orders)
        invariant next <= |level.orders|
        invariant next == 0 || incoming.remaining == 0
        invariant Continues(whole, trades, incoming.Data(), book.SideFor(forBuys).Flat(), nextTradeId, clock,
            tick + |trades|)
        invariant |trades| >= |done| && nextTradeId == old(nextTradeId) + |trades| - |done|
        invariant incoming.Data().(remaining := 0) == old(incoming.Data()).(remaining := 0)
        decreases |level.orders| - next
      {
        ghost var left, taker := book.SideFor(forBuys).Flat(), incoming.Data();
        var count := |level.orders|;
        assert level.orders[0] in old(level.orders);
        ghost var id := nextTradeId;
        var trade := FillFront(incoming, forBuys, clock, tick + |trades|);
        OneFill(whole, trades, taker, left, id, clock, tick + |trades|);
        trades := trades + [trade];
        if |level.orders| == count {
          next := next + 1;
        }
      }
    }

    /** Where the best level does not cross, the front order does not. */
    lemma BestDoesNotCross(incoming: OrderData, forBuys: bool)
      requires Valid()
      requires var levels := book.SideFor(forBuys).levels;
               incoming.remaining == 0 || levels == [] || !PricesCross(incoming, levels[0].price)
      ensures var flat := book.SideFor(forBuys).Flat();
              incoming.remaining == 0 || flat == [] || !PricesCross(incoming, flat[0].price)
    {
      hide SideOk, BookSide.Catalogued, BookSide.Flat;
      book.FrontPrice(forBuys);
    }

    /** The best level: matched until one of the two is used up, then erased if it is empty. */
    method ConsumeLevel(
        incoming: Order, forBuys: bool, clock: Clock, tick: nat, done: seq<Trade>, ghost whole: MatchResult)
      returns (trades: seq<Trade>, erased: bool)
      requires Valid() && incoming !in Repr
      requires book.SideFor(forBuys).levels != []
      requires PricesCross(incoming.Data(), book.SideFor(forBuys).levels[0].price)
      requires Continues(whole, done, incoming.Data(), book.SideFor(forBuys).Flat(), nextTradeId, clock, tick + |done|)
      modifies `nextTradeId, book`index, book`buyCatalog, book`sellCatalog, incoming
      modifies book.SideFor(forBuys).Repr
      ensures Valid() && book.SideFor(forBuys).Repr == old(book.SideFor(forBuys).Repr)
      ensures Continues(whole, trades, incoming.Data(),
                        book.SideFor(forBuys).Flat(), nextTradeId, clock, tick + |trades|)
      ensures |trades| >= |done| && nextTradeId == old(nextTradeId) + |trades| - |done|
      ensures erased ==> book.SideFor(forBuys).levels == old(book.SideFor(forBuys).levels)[1..]
      ensures !erased ==> book.SideFor(forBuys).levels == old(book.SideFor(forBuys).levels)
      ensures !erased ==> incoming.remaining == 0
    {
      hide SideOk, BookSide.Catalogued, BookSide.Flat, Continues, Match, PricesCross;
      var level := book.SideFor(forBuys).levels[0];
      trades := MatchLevel(incoming, forBuys, clock, tick, done, whole);
      erased := level.orders == [];
      if erased {
        book.EraseLevel(forBuys);
      }
    }

    /** The outer loop over price levels; `forBuys` says which side is opposite. */
    method MatchAgainst(incoming: Order, forBuys: bool, clock: Clock, tick: nat) returns (trades: seq<Trade>)
      requires Valid() && incoming !in Repr
      modifies `nextTradeId, book`index, book`buyCatalog, book`sellCatalog, incoming
      modifies book.SideFor(forBuys).Repr
      ensures Valid() && book.SideFor(forBuys).Repr == old(book.SideFor(forBuys).Repr)
      ensures MatchResult(incoming.Data(), book.SideFor(forBuys).Flat(), trades)
           == Match(old(incoming.Data()), old(book.SideFor(forBuys).Flat()), old(nextTradeId), clock, tick)
      ensures nextTradeId == old(nextTradeId) + |trades|
    {
      hide SideOk, BookSide.Catalogued, BookSide.Flat, BookSide.NonEmptyFrom, Continues, Match;
      ghost var whole := Match(incoming.Data(), book.SideFor(forBuys).Flat(), nextTradeId, clock, tick);
      ghost var side := book.SideFor(forBuys);
      trades := [];
      NothingDone(incoming.Data(), book.SideFor(forBuys).Flat(), nextTradeId, clock, tick);
      var next := 0;
      while next < |book.SideFor(forBuys).levels| && !incoming.IsFullyFilled()
        invariant Valid() && incoming !in Repr && side.Repr == old(side.Repr)
        invariant next <= |side.levels|
        invariant next == 0 || incoming.remaining == 0
        invariant Continues(whole, trades, incoming.Data(), side.Flat(), nextTradeId, clock, tick + |trades|)
        invariant nextTradeId == old(nextTradeId) + |trades|
        decreases |side.levels| - next
      {
        var level := book.SideFor(forBuys).levels[next];
        if !PricesCross(incoming.Data(), level.price) {
          break;
        }
        var erased;
        trades, erased := ConsumeLevel(incoming, forBuys, clock, tick, trades, whole);
        if !erased {
          next := next + 1;
        }
      }
      BestDoesNotCross(incoming.Data(), forBuys);
      Exhausted(whole, trades, incoming.Data(), side.Flat(), nextTradeId, clock, tick + |trades|);
    }

    /** Matches against whichever side is opposite; the order's own side is left alone. */
    method MatchIncoming(incoming: Order, clock: Clock, tick: nat) returns (trades: seq<Trade>)
      requires Valid() && incoming !in Repr
      modifies Repr, incoming
      ensures Valid() && Repr == old(Repr)
      ensures var e := old(View());
              var own := IsBuy(incoming.side);
              var m := Match(old(incoming.Data()), e.Queue(!own), e.nextTradeId, clock, tick);
              && trades == m.trades
              && incoming.Data() == m.incoming
              && View() == e.WithQueue(!own, m.resting).(nextTradeId := e.nextTradeId + |m.trades|)
    {
      hide SideOk, BookSide.Catalogued, BookSide.Flat, BookSide.NonEmptyFrom, Match;
      if IsBuy(incoming.side) {
        trades := MatchAgainst(incoming, false, clock, tick);
      } else {
        trades := MatchAgainst(incoming, true, clock, tick);
      }
    }

    method Rest(incoming: OrderData)
      requires Valid() && incoming.id !in View().RestingIds()
      modifies Repr
      ensures Valid() && fresh(Repr - old(Repr))
      ensures var own := IsBuy(incoming.side);
              View() == old(View()).WithQueue(own, Insert(own, old(View()).Queue(own), incoming))
    {
      hide SideOk, BookSide.Catalogued, BookSide.Flat, BookSide.NonEmptyFrom, Insert;
      ViewWellFormed();
      book.AddOrder(incoming);
      Repr := {this} + book.Repr();
    }

    /** Matches a new order at once and rests whatever is left of it. */
    method SubmitOrder(order: OrderData, clock: Clock, tick: nat) returns (trades: seq<Trade>)
      requires Valid() && order.id !in View().RestingIds()
      modifies Repr
      ensures Valid() && fresh(Repr - old(Repr))
      ensures (View(), trades) == Submit(old(View()), order, clock, tick)
    {
      hide MatchingEngine.Valid, MatchingEngine.View, Match, Insert;
      StillFresh(View(), order, clock, tick);
      var incoming := new Order(order);
      trades := MatchIncoming(incoming, clock, tick);
      if !incoming.IsFullyFilled() {
        Rest(incoming.Data());
      }
    }

    /** True if the order was resting. */
    method CancelOrder(id: nat) returns (cancelled: bool)
      requires Valid()
      modifies Repr
      ensures Valid() && fresh(Repr - old(Repr))
      ensures View() == Cancel(old(View()), id)
      ensures cancelled <==> id in old(View()).RestingIds()
    {
      cancelled := book.CancelOrder(id);
    }

    /** None if the order is not resting; otherwise the trades its new terms caused. */
    method ModifyOrder(id: nat, newPrice: int, newQuantity: int, clock: Clock) returns (result: Option<seq<Trade>>)
      requires Valid()
      modifies Repr
      ensures Valid() && fresh(Repr - old(Repr))
      ensures (View(), result) == Modify(old(View()), id, newPrice, newQuantity, clock)
    {
      hide MatchingEngine.Valid, MatchingEngine.View, Submit;
      var existing := Lookup(id);
      if existing.None? {
        return None;
      }
      var current := existing.value;
      var priceChanged := current.price != newPrice;
      var quantityIncreased := newQuantity > current.remaining;
      if priceChanged || quantityIncreased {
        var now := clock(0);
        CancelKeepsOthers(id);
        var cancelled := CancelOrder(id);
        var trades := SubmitOrder(NewOrder(id, current.symbol, current.side, newPrice, newQuantity, now), clock, 1);
        return Some(trades);
      }
      Shrink(id, newQuantity);
      return Some([]);
    }

    /** A copy of what findOrder refers to. */
    method Lookup(id: nat) returns (found: Option<OrderData>)
      requires Valid()
      ensures found == FindOrder(View(), id)
    {
      ViewWellFormed();
      FindOrderLaw(View(), id);
      var existing := book.FindOrder(id);
      found := if existing.Some? then Some(existing.value.Data()) else None;
    }

    method Shrink(id: nat, newQuantity: int)
      requires Valid()
      modifies Repr
      ensures Valid() && Repr == old(Repr)
      ensures View() == ResizeOrder(old(View()), id, newQuantity)
    {
      hide SideOk, BookSide.Catalogued, BookSide.Flat, BookSide.NonEmptyFrom, Resize;
      var modified := book.ModifyRestingOrderQuantity(id, newQuantity);
    }

    lemma CancelKeepsOthers(id: nat)
      requires Valid()
      ensures id !in Cancel(View(), id).RestingIds()
    {
      ViewWellFormed();
      CancelLaw(View(), id);
    }
  }

  /** Matching leaves no order with the incoming id on the other side. */
  lemma StillFresh(e: Engine, o: OrderData, clock: Clock, tick: nat)
    requires o.id !in e.RestingIds()
    ensures var m := Match(o, e.Queue(!IsBuy(o.side)), e.nextTradeId, clock, tick);
            m.incoming.id == o.id && m.incoming.side == o.side && o.id !in Ids(m.resting)
  {
    MatchConservesQuantity(o, e.Queue(!IsBuy(o.side)), e.nextTradeId, clock, tick);
    MatchLeavesSuffix(o, e.Queue(!IsBuy(o.side)), e.nextTradeId, clock, tick);
    SuffixIds(Match(o, e.Queue(!IsBuy(o.side)), e.nextTradeId, clock, tick).resting, e.Queue(!IsBuy(o.side)));
  }

  /** Where the loops stop there is nothing left to match. */
  lemma Exhausted(
    whole: MatchResult, done: seq<Trade>, incoming: OrderData, left: seq<OrderData>, nextId: nat, clock: Clock,
        tick: nat)
    requires Continues(whole, done, incoming, left, nextId, clock, tick)
    requires incoming.remaining == 0 || left == [] || !PricesCross(incoming, left[0].price)
    ensures whole == MatchResult(incoming, left, done)
  {
  }

  // ---------- Whole runs of the object ----------

  /** What one step of a run does to the engine and to the trades made so far. */
  lemma StepServes(r: Run, op: Op)
    requires WellFormed(r.engine)
    ensures match op
            case SubmitOp(o, clock) =>
              && Step(r, op).engine == Submit(r.engine, o, clock, 0).0
              && Step(r, op).trades == r.trades + Submit(r.engine, o, clock, 0).1
            case CancelOp(id) => Step(r, op).engine == Cancel(r.engine, id) && Step(r, op).trades == r.trades
            case ModifyOp(id, newPrice, newQuantity, clock) =>
              var (e', result) := Modify(r.engine, id, newPrice, newQuantity, clock);
              && Step(r, op).engine == e'
              && Step(r, op).trades == r.trades + if result.Some? then result.value else []
  {
    hide Submit, Cancel, WellFormed;
    if op.CancelOp? {
      CancelLaw(r.engine, op.id);
    }
    assert r.trades + [] == r.trades;
  }

  /** Any operations, one after another, take the object through the run they stand for. */
  method ExecuteAll(engine: MatchingEngine, ops: seq<Op>, ghost r: Run) returns (trades: seq<Trade>)
    requires engine.Valid() && r.engine == engine.View() && Legal(r, ops)
    modifies engine.Repr
    ensures engine.Valid() && fresh(engine.Repr - old(engine.Repr))
    ensures engine.View() == Execute(r, ops).engine
    ensures r.trades + trades == Execute(r, ops).trades
  {
    hide MatchingEngine.Valid, MatchingEngine.View, Submit, Cancel, Modify, Step, WellFormed;
    trades := [];
    ghost var run := r;
    assert ops[0..] == ops;
    for i := 0 to |ops|
      invariant engine.Valid() && fresh(engine.Repr - old(engine.Repr))
      invariant run.engine == engine.View() && run.trades == r.trades + trades
      invariant Legal(run, ops[i..])
      invariant Execute(run, ops[i..]) == Execute(r, ops)
    {
      assert ops[i..][1..] == ops[i + 1..];
      engine.ViewWellFormed();
      StepServes(run, ops[i]);
      match ops[i] {
        case SubmitOp(o, clock) =>
          var made := engine.SubmitOrder(o, clock, 0);
          trades := trades + made;
        case CancelOp(id) =>
          var cancelled := engine.CancelOrder(id);
        case ModifyOp(id, newPrice, newQuantity, clock) =>
          var made := engine.ModifyOrder(id, newPrice, newQuantity, clock);
          trades := trades + if made.Some? then made.value else [];
      }
      run := Step(run, ops[i]);
    }
  }
}
