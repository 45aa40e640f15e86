/**
  The table of engines by symbol, as both the in-process processor and the matching dispatcher keep
  it: engines are made on first use, and requests by id try them one after another in any order.
 */
module EngineTables {
  import opened Types
  import opened Sequences
  import opened Matching
  import opened EngineLaws
  import opened Levels
  import opened Book
  import opened MatchingEngines
  import opened Codec
  import opened Messages
  import opened Exchange

  // ---------- Snapshots of one side ----------

  function SnapshotLevels(prices: seq<int>, qs: seq<seq<OrderData>>): seq<LevelSnapshot>
    requires |prices| == |qs|
  {
    seq(|qs|, i requires 0 <= i < |qs| => LevelSnapshot(prices[i], Volume(qs[i]), |qs[i]|))
  }

  lemma {:induction false} RunIsLevel(q: seq<OrderData>, rest: seq<OrderData>, price: int)
    requires forall o <- q :: o.price == price
    requires rest != [] ==> rest[0].price != price
    ensures RunLength(q + rest, price) == |q|
  {
    if q == [] {
      assert q + rest == rest;
    } else {
      assert (q + rest)[1..] == q[1..] + rest;
      RunIsLevel(q[1..], rest, price);
    }
  }

  /** The first level is the first run of equal prices. */
  lemma FirstLevel(forBuys: bool, prices: seq<int>, qs: seq<seq<OrderData>>)
    requires PricesOrdered(forBuys, prices) && PricedAt(prices, qs) && forall q <- qs :: q != []
    requires qs != []
    ensures var flat := Concat(qs);
            && flat != []
            && prices[0] == flat[0].price
            && |qs[0]| == RunLength(flat, flat[0].price)
            && qs[0] == flat[..|qs[0]|]
  {
    var q, rest := qs[0], Concat(qs[1..]);
    assert q in qs && q[0] in q;
    if qs[1..] != [] {
      assert qs[1] in qs && qs[1][0] in qs[1];
      assert rest[0] == qs[1][0] && Before(forBuys, prices[0], prices[1]);
    }
    RunIsLevel(q, rest, prices[0]);
  }

  ghost predicate Listed(forBuys: bool, prices: seq<int>, qs: seq<seq<OrderData>>) {
    && PricesOrdered(forBuys, prices)
    && PricedAt(prices, qs)
    && forall q <- qs :: q != []
  }

  /** Behind the first level stand the others. */
  lemma OtherLevels(forBuys: bool, prices: seq<int>, qs: seq<seq<OrderData>>)
    requires Listed(forBuys, prices, qs) && qs != []
    ensures |prices| == |qs| && Listed(forBuys, prices[1..], qs[1..])
    ensures var flat := Concat(qs);
            && flat != []
            && prices[0] == flat[0].price
            && |qs[0]| == RunLength(flat, flat[0].price)
            && qs[0] == flat[..|qs[0]|]
            && Concat(qs[1..]) == flat[|qs[0]|..]
  {
    hide RunLength, Concat;
    assert forall q <- qs[1..] :: q in qs;
    FirstLevel(forBuys, prices, qs);
    ConcatFirst(qs);
  }

  /** Aggregating the flat list by price is listing the levels. */
  lemma {:induction false} LevelsAggregate(forBuys: bool, prices: seq<int>, qs: seq<seq<OrderData>>)
    requires Listed(forBuys, prices, qs) && |prices| == |qs|
    ensures Aggregate(Concat(qs)) == SnapshotLevels(prices, qs)
  {
    hide Concat, Volume, Listed, RunLength;
    if qs == [] {
      ConcatNone(qs);
    } else {
      OtherLevels(forBuys, prices, qs);
      LevelsAggregate(forBuys, prices[1..], qs[1..]);
      var first := LevelSnapshot(prices[0], Volume(qs[0]), |qs[0]|);
      assert SnapshotLevels(prices, qs) == [first] + SnapshotLevels(prices[1..], qs[1..]);
    }
  }

  lemma ConcatNone(qs: seq<seq<OrderData>>)
    requires qs == []
    ensures Concat(qs) == []
  {
  }

  /** The flat list loses nothing: only one list of non-empty price levels flattens to it. */
  lemma {:induction false} FlatDeterminesLevels(
    forBuys: bool, prices: seq<int>, qs: seq<seq<OrderData>>, prices': seq<int>, qs': seq<seq<OrderData>>)
    requires Listed(forBuys, prices, qs) && |prices| == |qs|
    requires Listed(forBuys, prices', qs') && |prices'| == |qs'|
    requires Concat(qs) == Concat(qs')
    ensures prices == prices' && qs == qs'
  {
    hide Concat, Listed, RunLength;
    ConcatNone([]);
    if qs == [] {
      if qs' != [] { OtherLevels(forBuys, prices', qs'); }
    } else {
      OtherLevels(forBuys, prices, qs);
      if qs' != [] {
        OtherLevels(forBuys, prices', qs');
        FlatDeterminesLevels(forBuys, prices[1..], qs[1..], prices'[1..], qs'[1..]);
        assert qs == [qs[0]] + qs[1..] && qs' == [qs'[0]] + qs'[1..];
        assert prices == [prices[0]] + prices[1..] && prices' == [prices'[0]] + prices'[1..];
      }
    }
  }

  lemma SideListed(side: BookSide)
    requires side.Valid()
    ensures Listed(side.forBuys, side.Prices(), side.Queues())
    ensures side.Flat() == Concat(side.Queues())
  {
    assert forall i | 0 <= i < |side.levels| :: |side.Queues()[i]| == |side.levels[i].orders|;
  }

  method SnapshotSide(side: BookSide) returns (levels: seq<LevelSnapshot>)
    requires side.Valid()
    ensures levels == Aggregate(side.Flat())
  {
    hide SideOk, Concat, Aggregate, Volume, BookSide.Flat;
    levels := [];
    ghost var prices, qs := side.Prices(), side.Queues();
    for i := 0 to |side.levels|
      invariant levels == SnapshotLevels(prices, qs)[..i]
    {
      var level := side.levels[i];
      var total := level.TotalQuantity();
      assert qs[i] == level.Values() && prices[i] == level.price;
      levels := levels + [LevelSnapshot(level.price, total, |level.orders|)];
    }
    SideListed(side);
    LevelsAggregate(side.forBuys, prices, qs);
  }

  method SnapshotBook(engine: MatchingEngine) returns (bids: seq<LevelSnapshot>, asks: seq<LevelSnapshot>)
    requires engine.Valid()
    ensures bids == Aggregate(engine.View().buys) && asks == Aggregate(engine.View().sells)
  {
    hide SideOk, BookSide.Catalogued, BookSide.Flat, BookSide.NonEmptyFrom, Aggregate;
    bids := SnapshotSide(engine.book.buys);
    asks := SnapshotSide(engine.book.sells);
  }

  lemma EmptySnapshot()
    ensures Aggregate([]) == []
  {
  }

  class EngineTable {
    var engines: map<Symbol, MatchingEngine>
    ghost var Repr: set<object>

    constructor ()
      ensures Valid() && fresh(Repr) && View() == map[]
    {
      engines := map[];
      Repr := {this};
    }

    ghost predicate Sound()
      reads this, Repr
      ensures Sound() ==> this in Repr
    {
      && this in Repr
      && (forall s <- engines.Keys ::
            var e := engines[s];
            e in Repr && e.Repr <= Repr && this !in e.Repr && e.Valid())
      && forall s <- engines.Keys, t <- engines.Keys :: s != t ==> engines[s].Repr !! engines[t].Repr
    }

    ghost function View(): (view: Engines)
      requires Sound()
      reads this, Repr
      ensures view.Keys == engines.Keys
    {
      map s | s in engines :: engines[s].View()
    }

    ghost predicate Valid()
      reads this, Repr
    {
      Sound() && ExchangeOk(View())
    }

    /** The objects of each engine. */
    ghost function Parts(): map<Symbol, set<object>>
      requires Sound()
      reads this, Repr
    {
      map s | s in engines :: engines[s].Repr
    }

    /** An engine of the table, with the state and the objects it had before. */
    ghost predicate AsBefore(t: Symbol, view: Engine, parts: set<object>)
      requires t in engines && engines[t] in Repr
      reads this, Repr, engines[t].Repr
    {
      engines[t].Valid() && engines[t].View() == view && engines[t].Repr == parts
    }

    /** The table differs from `before` in one entry only. */
    lemma ViewAt(before: Engines, s: Symbol)
      requires Sound() && s in engines && engines.Keys == before.Keys + {s}
      requires forall t <- engines.Keys | t != s :: engines[t].View() == before[t]
      ensures View() == before[s := engines[s].View()]
    {
      hide MatchingEngine.Valid, MatchingEngine.View;
    }

    /** What the frame of a change to one engine leaves of the table. */
    lemma OneChanged(s: Symbol, before: Engines, parts: map<Symbol, set<object>>)
      requires this in Repr && s in engines && engines.Keys == before.Keys + {s} && before.Keys == parts.Keys
      requires forall t <- engines.Keys :: engines[t] in Repr
      requires engines[s].Repr <= Repr && this !in engines[s].Repr && engines[s].Valid()
      requires forall t <- engines.Keys | t != s :: AsBefore(t, before[t], parts[t])
      requires forall t <- engines.Keys | t != s ::
                 parts[t] <= Repr && this !in parts[t] && parts[t] !! engines[s].Repr
      requires forall t <- parts.Keys, u <- parts.Keys | t != s && u != s && t != u :: parts[t] !! parts[u]
      ensures Sound()
      ensures View() == before[s := engines[s].View()]
    {
      hide MatchingEngine.Valid, MatchingEngine.View, EngineTable.View;
      assert forall t <- engines.Keys | t != s :: engines[t].Repr == parts[t];
      ViewAt(before, s);
    }

    /** Each engine's objects are its own. */
    lemma Separated()
      requires Sound()
      ensures Parts().Keys == View().Keys == engines.Keys
      ensures forall t <- engines.Keys ::
                && engines[t] in Repr
                && AsBefore(t, View()[t], Parts()[t])
                && Parts()[t] <= Repr && this !in Parts()[t]
      ensures forall t <- engines.Keys, u <- engines.Keys | t != u :: Parts()[t] !! Parts()[u]
    {
      hide MatchingEngine.Valid, MatchingEngine.View;
    }

    /** Makes the engine of a symbol if it is new. */
    method EnsureEngine(symbol: Symbol)
      requires Sound()
      modifies this
      ensures Sound() && fresh(Repr - old(Repr))
      ensures symbol in engines
      ensures View() == old(View())[symbol := EngineFor(old(View()), symbol)]
    {
      hide MatchingEngine.Valid, MatchingEngine.View, EngineTable.View, EngineTable.Sound, EngineTable.Parts;
      ghost var before, parts := View(), Parts();
      Separated();
      if symbol !in engines {
        var engine := new MatchingEngine(symbol);
        engines := engines[symbol := engine];
        Repr := Repr + engine.Repr;
        forall t <- engines.Keys | t != symbol
          ensures AsBefore(t, before[t], parts[t])
          ensures parts[t] <= Repr && this !in parts[t] && parts[t] !! engine.Repr
        {
          assert parts[t] <= old(Repr);
        }
        OneChanged(symbol, before, parts);
      } else {
        assert before[symbol := before[symbol]] == before;
      }
    }

    method SubmitAt(s: Symbol, o: OrderData, clock: Clock) returns (trades: seq<Trade>)
      requires Sound() && s in engines && o.id !in View()[s].RestingIds()
      modifies Repr
      ensures Sound() && fresh(Repr - old(Repr))
      ensures View() == old(View())[s := Submit(old(View())[s], o, clock, 0).0]
      ensures trades == Submit(old(View())[s], o, clock, 0).1
    {
      hide MatchingEngine.Valid, MatchingEngine.View, Submit, Ids,
           EngineTable.View, EngineTable.Sound, EngineTable.Parts;
      ghost var before, parts := View(), Parts();
      Separated();
      trades := engines[s].SubmitOrder(o, clock, 0);
      Repr := Repr + engines[s].Repr;
      forall t <- engines.Keys | t != s
        ensures AsBefore(t, before[t], parts[t])
        ensures parts[t] <= Repr && this !in parts[t] && parts[t] !! engines[s].Repr
      {
        assert parts[t] !! parts[s];
      }
      OneChanged(s, before, parts);
    }

    method CancelAt(s: Symbol, id: nat) returns (cancelled: bool)
      requires Sound() && s in engines
      modifies Repr
      ensures Sound() && fresh(Repr - old(Repr)) && engines == old(engines)
      ensures View() == old(View())[s := Cancel(old(View())[s], id)]
      ensures cancelled <==> id in old(View())[s].RestingIds()
    {
      hide MatchingEngine.Valid, MatchingEngine.View, Cancel, Ids,
           EngineTable.View, EngineTable.Sound, EngineTable.Parts;
      ghost var before, parts := View(), Parts();
      Separated();
      cancelled := engines[s].CancelOrder(id);
      Repr := Repr + engines[s].Repr;
      forall t <- engines.Keys | t != s
        ensures AsBefore(t, before[t], parts[t])
        ensures parts[t] <= Repr && this !in parts[t] && parts[t] !! engines[s].Repr
      {
        assert parts[t] !! parts[s];
      }
      OneChanged(s, before, parts);
    }

    method ModifyAt(s: Symbol, id: nat, newPrice: int, newQuantity: int, clock: Clock)
      returns (result: Option<seq<Trade>>)
      requires Sound() && s in engines
      modifies Repr
      ensures Sound() && fresh(Repr - old(Repr)) && engines == old(engines)
      ensures View() == old(View())[s := Modify(old(View())[s], id, newPrice, newQuantity, clock).0]
      ensures result == Modify(old(View())[s], id, newPrice, newQuantity, clock).1
    {
      hide MatchingEngine.Valid, MatchingEngine.View, Modify, EngineTable.View, EngineTable.Sound, EngineTable.Parts;
      ghost var before, parts := View(), Parts();
      Separated();
      result := engines[s].ModifyOrder(id, newPrice, newQuantity, clock);
      Repr := Repr + engines[s].Repr;
      forall t <- engines.Keys | t != s
        ensures AsBefore(t, before[t], parts[t])
        ensures parts[t] <= Repr && this !in parts[t] && parts[t] !! engines[s].Repr
      {
        assert parts[t] !! parts[s];
      }
      OneChanged(s, before, parts);
    }

    // ---------- What the dispatchers do with the table ----------

    method SubmitOrder(o: OrderData, clock: Clock) returns (trades: seq<Trade>)
      requires Valid() && FreshRequest(View(), NewOrderMsg(o))
      modifies Repr
      ensures Valid() && fresh(Repr - old(Repr))
      ensures (View(), AckMsg(o.id, trades)) == Serve(old(View()), NewOrderMsg(o), clock)
    {
      hide Submit, EngineTable.Sound, EngineTable.View, ExchangeOk;
      ghost var before := View();
      EngineForOk(before, o.symbol);
      ServeKeepsOk(before, NewOrderMsg(o), clock);
      EnsureEngine(o.symbol);
      trades := SubmitAt(o.symbol, o, clock);
      assert View() == before[o.symbol := Submit(EngineFor(before, o.symbol), o, clock, 0).0];
    }

    /** Tries the engines one after another, in any order, until one knows the id. */
    method CancelOrder(id: nat, ghost clock: Clock) returns (cancelled: bool)
      requires Valid()
      modifies Repr
      ensures Valid() && fresh(Repr - old(Repr))
      ensures (View(), if cancelled then AckMsg(id, []) else RejectMsg(id, Text("order not found")))
           == Serve(old(View()), CancelMsg(id), clock)
    {
      hide EngineTable.Sound, EngineTable.View, EngineOk, WellFormed, Cancel;
      ghost var before := View();
      ServeKeepsOk(before, CancelMsg(id), clock);
      var untried := engines.Keys;
      while untried != {}
        invariant Sound() && engines == old(engines) && fresh(Repr - old(Repr)) && View() == before
        invariant untried <= engines.Keys == before.Keys
        invariant forall s <- before.Keys - untried :: !RestsAt(before, s, id)
        decreases |untried|
      {
        var s :| s in untried;
        var found := CancelAt(s, id);
        if found {
          OwnerIsUnique(before, s, id);
          return true;
        }
        NothingToCancel(before, s, id);
        untried := untried - {s};
      }
      return false;
    }

    method ModifyOrder(id: nat, newPrice: int, newQuantity: int, clock: Clock) returns (result: Option<seq<Trade>>)
      requires Valid()
      modifies Repr
      ensures Valid() && fresh(Repr - old(Repr))
      ensures (View(), if result.Some? then AckMsg(id, result.value) else RejectMsg(id, Text("order not found")))
           == Serve(old(View()), ModifyMsg(id, newPrice, newQuantity), clock)
    {
      hide EngineTable.Sound, EngineTable.View, EngineOk, WellFormed, Modify;
      ghost var before := View();
      ServeKeepsOk(before, ModifyMsg(id, newPrice, newQuantity), clock);
      var untried := engines.Keys;
      while untried != {}
        invariant Sound() && engines == old(engines) && fresh(Repr - old(Repr)) && View() == before
        invariant untried <= engines.Keys == before.Keys
        invariant forall s <- before.Keys - untried :: !RestsAt(before, s, id)
        decreases |untried|
      {
        var s :| s in untried;
        NothingToModify(before, s, id, newPrice, newQuantity, clock);
        result := ModifyAt(s, id, newPrice, newQuantity, clock);
        if result.Some? {
          OwnerIsUnique(before, s, id);
          return;
        }
        untried := untried - {s};
      }
      return None;
    }

    method QueryBook(symbol: Symbol) returns (bids: seq<LevelSnapshot>, asks: seq<LevelSnapshot>)
      requires Valid()
      ensures SnapshotMsg(symbol, bids, asks) == SnapshotOf(View(), symbol)
    {
      hide ExchangeOk, MatchingEngine.Valid, MatchingEngine.View, Aggregate;
      EmptySnapshot();
      if symbol !in engines {
        return [], [];
      }
      bids, asks := SnapshotBook(engines[symbol]);
    }
  }

  lemma NothingToCancel(es: Engines, s: Symbol, id: nat)
    requires ExchangeOk(es) && s in es && id !in es[s].RestingIds()
    ensures es[s := Cancel(es[s], id)] == es
    ensures !RestsAt(es, s, id)
  {
    CancelLaw(es[s], id);
  }

  /** A modify answers nothing, and changes nothing, exactly where the order does not rest. */
  lemma NothingToModify(es: Engines, s: Symbol, id: nat, newPrice: int, newQuantity: int, clock: Clock)
    requires ExchangeOk(es) && s in es
    ensures var (e', result) := Modify(es[s], id, newPrice, newQuantity, clock);
            && (result.Some? <==> RestsAt(es, s, id))
            && (result.None? ==> es[s := e'] == es)
  {
    ModifyKeepsInvariants(es[s], id, newPrice, newQuantity, clock);
    FindOrderLaw(es[s], id);
  }
}
