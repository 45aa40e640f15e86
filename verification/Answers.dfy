/**
  What each request is answered with and what it changes, in a client's terms: by the fields of the
  order, by what rests where, and by the texts of the refusals.
 */
module Answers {
  import opened Types
  import opened Matching
  import opened MatchingLaws
  import opened EngineLaws
  import opened Codec
  import opened Messages
  import opened Exchange
  import opened Risk

  /** A refusal's text travels as the codes of its characters. */
  lemma TextBytes(s: string)
    requires forall c <- s :: c as int < 256
    ensures |Text(s)| == |s| && forall i | 0 <= i < |s| :: Text(s)[i] == s[i] as int
  {
    assert forall i | 0 <= i < |s| :: s[i] in s;
  }

  // ---------- New orders ----------

  /** What a new order does once it has passed the gate, and how it is acknowledged. */
  ghost predicate Served(es: Engines, o: OrderData, clock: Clock, es': Engines, response: Message) {
    var (e', trades) := Submit(EngineFor(es, o.symbol), o, clock, 0);
    && es' == es[o.symbol := e']
    && response == AckMsg(o.id, trades)
    && forall k | 0 <= k < |trades| :: trades[k].timestamp == clock(k)
  }

  /**
    The first failed check refuses an order by name, and then neither balance nor engines change; every
    other order is served and acknowledged, and only a buy pays.
   */
  lemma NewOrderAnswers(config: RiskConfig, buyingPower: int, es: Engines, o: OrderData, clock: Clock)
    ensures var (left, es', response) := Process(config, buyingPower, es, NewOrderMsg(o), clock);
            var cost := ToInt64(o.price * o.quantity);
            if o.price <= 0 then
              left == buyingPower && es' == es && response == RejectMsg(o.id, Text("REJECTED_NON_POSITIVE_PRICE"))
            else if o.quantity > config.maxOrderQuantity then
              left == buyingPower && es' == es && response == RejectMsg(o.id, Text("REJECTED_MAX_QUANTITY_EXCEEDED"))
            else if o.side == 0 && cost > buyingPower then
              && left == buyingPower && es' == es
              && response == RejectMsg(o.id, Text("REJECTED_INSUFFICIENT_BUYING_POWER"))
            else
              && left == (if o.side == 0 then ToInt64(buyingPower - cost) else buyingPower)
              && Served(es, o, clock, es', response)
  {
    hide Submit, Text, ToInt64;
    TradeParties(EngineFor(es, o.symbol), o, clock, 0);
  }

  // ---------- Requests by id ----------

  /** Some order under this id rests somewhere. */
  ghost predicate Rests(es: Engines, id: nat) {
    exists s <- es.Keys, o <- es[s].buys + es[s].sells :: o.id == id
  }

  lemma RestsIff(es: Engines, id: nat)
    ensures Rests(es, id) <==> OwnerOf(es, id).Some?
  {
    var owner := OwnerOf(es, id);
    if owner.Some? {
      var e := es[owner.value];
      var o :| o in e.buys + e.sells && o.id == id;
    }
    if Rests(es, id) {
      var s, o :| s in es.Keys && o in es[s].buys + es[s].sells && o.id == id;
      assert o in es[s].buys || o in es[s].sells;
      assert RestsAt(es, s, id);
    }
  }

  /** The same queue but for the order under this id: the others keep their places. */
  ghost predicate Without(q: seq<OrderData>, r: seq<OrderData>, id: nat) {
    && (id !in Ids(q) ==> r == q)
    && forall k | 0 <= k < |q| && q[k].id == id :: r == q[..k] + q[k + 1..]
  }

  lemma RemoveLeavesOthers(q: seq<OrderData>, id: nat)
    requires UniqueIds(q)
    ensures Without(q, Remove(q, id), id)
  {
    if id !in Ids(q) {
      AbsentUnchanged(q, id);
      assert forall k | 0 <= k < |q| :: q[k].id in Ids(q);
    } else {
      forall k: nat | k < |q| && q[k].id == id ensures Remove(q, id) == q[..k] + q[k + 1..] {
        RemoveAt(q, k);
      }
    }
  }

  /**
    A cancel is acknowledged exactly when the order rests. Then it rests no more and every other order
    stays where it is, in every engine; otherwise nothing changes. No cancel moves buying power.
   */
  lemma CancelAnswers(config: RiskConfig, buyingPower: int, es: Engines, id: nat, clock: Clock)
    requires ExchangeOk(es)
    ensures var (left, es', response) := Process(config, buyingPower, es, CancelMsg(id), clock);
            && left == buyingPower
            && (if Rests(es, id) then response == AckMsg(id, [])
                else response == RejectMsg(id, Text("order not found")) && es' == es)
            && !Rests(es', id)
            && es'.Keys == es.Keys
            && forall s <- es.Keys ::
                 && es'[s].nextTradeId == es[s].nextTradeId && es'[s].symbol == es[s].symbol
                 && Without(es[s].buys, es'[s].buys, id)
                 && Without(es[s].sells, es'[s].sells, id)
  {
    hide Text, Remove, Without, Rests;
    RestsIff(es, id);
    var es' := Serve(es, CancelMsg(id), clock).0;
    RestsIff(es', id);
    forall s <- es.Keys
      ensures es'[s] == Cancel(es[s], id)
      ensures Without(es[s].buys, es'[s].buys, id) && Without(es[s].sells, es'[s].sells, id)
    {
      CancelElsewhere(es, s, id);
      RemoveLeavesOthers(es[s].buys, id);
      RemoveLeavesOthers(es[s].sells, id);
    }
    CancelledNowhere(es, es', id);
  }

  /** In an engine that is not the owner, a cancel would change nothing. */
  lemma CancelElsewhere(es: Engines, s: Symbol, id: nat)
    requires ExchangeOk(es) && s in es
    ensures OwnerOf(es, id) != Some(s) ==> Cancel(es[s], id) == es[s]
  {
    CancelLaw(es[s], id);
    if RestsAt(es, s, id) {
      OwnerIsUnique(es, s, id);
    }
  }

  lemma CancelledNowhere(es: Engines, es': Engines, id: nat)
    requires ExchangeOk(es) && es'.Keys == es.Keys
    requires forall s <- es.Keys :: es'[s] == Cancel(es[s], id)
    ensures OwnerOf(es', id).None?
  {
    forall s ensures !RestsAt(es', s, id) {
      if s in es {
        CancelLaw(es[s], id);
      }
    }
  }

  /**
    A modify is acknowledged exactly when the order rests; otherwise nothing changes. Its trades are
    stamped after the reading that stamps the renewed order. No modify moves buying power.
   */
  lemma ModifyAnswers(
    config: RiskConfig, buyingPower: int, es: Engines, id: nat, newPrice: int, newQuantity: int, clock: Clock)
    requires ExchangeOk(es)
    ensures var (left, es', response) := Process(config, buyingPower, es, ModifyMsg(id, newPrice, newQuantity), clock);
            && left == buyingPower
            && (if Rests(es, id)
                then && response.AckMsg? && response.orderId == id
                     && forall k | 0 <= k < |response.trades| :: response.trades[k].timestamp == clock(1 + k)
                else response == RejectMsg(id, Text("order not found")) && es' == es)
  {
    hide Text, Modify, Rests;
    RestsIff(es, id);
    var owner := OwnerOf(es, id);
    if owner.Some? {
      ModifyTimes(es[owner.value], id, newPrice, newQuantity, clock);
    }
  }

  /** The resting order an id names. */
  ghost predicate IsResting(es: Engines, o: OrderData) {
    exists s <- es.Keys :: o in es[s].buys + es[s].sells
  }

  lemma RestingAt(es: Engines, o: OrderData) returns (s: Symbol)
    requires ExchangeOk(es) && IsResting(es, o)
    ensures s in es && OwnerOf(es, o.id) == Some(s) && FindOrder(es[s], o.id) == Some(o) && o.symbol == s
  {
    hide Find, Remove, UniqueOwners, Uncrossed;
    s :| s in es.Keys && o in es[s].buys + es[s].sells;
    FindQueued(es[s], o);
    OwnerIsUnique(es, s, o.id);
  }

  lemma FindQueued(e: Engine, o: OrderData)
    requires WellFormed(e) && o in e.buys + e.sells
    ensures FindOrder(e, o.id) == Some(o) && o.id in e.RestingIds()
  {
    hide Find, Remove, Sorted;
    var own := o in e.buys;
    var q := e.Queue(own);
    assert o in q;
    var k :| 0 <= k < |q| && q[k] == o;
    RemoveAt(q, k);
    if !own {
      assert o.id in Ids(e.sells);
      AbsentUnchanged(e.buys, o.id);
    }
  }

  /** A modify that asks for no more at the same price trades nothing and changes only that quantity. */
  lemma SmallerModifyAnswers(es: Engines, o: OrderData, newQuantity: int, clock: Clock)
    requires ExchangeOk(es) && IsResting(es, o) && newQuantity <= o.remaining
    ensures var (es', response) := Serve(es, ModifyMsg(o.id, o.price, newQuantity), clock);
            && response == AckMsg(o.id, [])
            && es'.Keys == es.Keys
            && forall s <- es.Keys ::
                 && es'[s].nextTradeId == es[s].nextTradeId && es'[s].symbol == es[s].symbol
                 && SameButFor(es[s].buys, es'[s].buys, o.id, newQuantity)
                 && SameButFor(es[s].sells, es'[s].sells, o.id, newQuantity)
  {
    hide ResizeOrder, Modify, FindOrder, SameButFor, Ids, IsResting, WellFormed, Uncrossed, SymbolsOk;
    var owner := RestingAt(es, o);
    ResizedQueues(es[owner], o.id, o.price, newQuantity, clock);
    forall s <- es.Keys | s != owner
      ensures SameButFor(es[s].buys, es[s].buys, o.id, newQuantity)
      ensures SameButFor(es[s].sells, es[s].sells, o.id, newQuantity)
    {
      if RestsAt(es, s, o.id) {
        OwnerIsUnique(es, s, o.id);
      }
      NothingResized(es[s].buys, o.id, newQuantity);
      NothingResized(es[s].sells, o.id, newQuantity);
    }
    assert Serve(es, ModifyMsg(o.id, o.price, newQuantity), clock).0
        == es[owner := ResizeOrder(es[owner], o.id, newQuantity)];
  }

  lemma NothingResized(q: seq<OrderData>, id: nat, newQuantity: int)
    requires id !in Ids(q)
    ensures SameButFor(q, q, id, newQuantity)
  {
    assert forall i | 0 <= i < |q| :: q[i].id in Ids(q);
  }

  lemma ResizedQueues(e: Engine, id: nat, newPrice: int, newQuantity: int, clock: Clock)
    requires WellFormed(e) && FindOrder(e, id).Some?
    requires newPrice == FindOrder(e, id).value.price && newQuantity <= FindOrder(e, id).value.remaining
    ensures var (e', result) := Modify(e, id, newPrice, newQuantity, clock);
            && e' == ResizeOrder(e, id, newQuantity) && result == Some([])
            && e'.nextTradeId == e.nextTradeId && e'.symbol == e.symbol
            && SameButFor(e.buys, e'.buys, id, newQuantity) && SameButFor(e.sells, e'.sells, id, newQuantity)
  {
    ResizeInPlace(e, id, newPrice, newQuantity, clock);
  }

  /**
    Any other modify leaves the engines, and is acknowledged with the trades, of two requests in its
    place: the cancel, and a new order under the same id past the gate.
   */
  lemma OtherModifyAnswers(es: Engines, o: OrderData, newPrice: int, newQuantity: int, clock: Clock)
    requires ExchangeOk(es) && IsResting(es, o)
    requires newPrice != o.price || newQuantity > o.remaining
    ensures var renewed := NewOrder(o.id, o.symbol, o.side, newPrice, newQuantity, clock(0));
            var cancelled := Serve(es, CancelMsg(o.id), clock).0;
            Serve(es, ModifyMsg(o.id, newPrice, newQuantity), clock)
            == Serve(cancelled, NewOrderMsg(renewed), Later(clock))
  {
    hide Modify, FindOrder, Submit, Cancel, Later;
    var s := RestingAt(es, o);
    ModifyIsCancelThenSubmit(es[s], o.id, newPrice, newQuantity, clock);
    var e' := Submit(Cancel(es[s], o.id), NewOrder(o.id, o.symbol, o.side, newPrice, newQuantity, clock(0)),
                     Later(clock), 0).0;
    assert es[s := Cancel(es[s], o.id)][s := e'] == es[s := e'];
  }

  // ---------- Book queries ----------

  /** How many orders of a queue have this price, and what they have open. */
  function CountAt(q: seq<OrderData>, price: int): int {
    if q == [] then 0 else (if q[0].price == price then 1 else 0) + CountAt(q[1..], price)
  }

  function OpenAt(q: seq<OrderData>, price: int): int {
    if q == [] then 0 else (if q[0].price == price then q[0].remaining else 0) + OpenAt(q[1..], price)
  }

  lemma {:induction false} AtConcat(a: seq<OrderData>, b: seq<OrderData>, price: int)
    ensures CountAt(a + b, price) == CountAt(a, price) + CountAt(b, price)
    ensures OpenAt(a + b, price) == OpenAt(a, price) + OpenAt(b, price)
  {
    if a == [] {
      assert a + b == b;
    } else {
      AtConcat(a[1..], b, price);
      assert (a + b)[0] == a[0] && (a + b)[1..] == a[1..] + b;
    }
  }

  lemma {:induction false} AllAt(q: seq<OrderData>, price: int)
    requires forall o <- q :: o.price == price
    ensures CountAt(q, price) == |q| && OpenAt(q, price) == Volume(q)
  {
    if q != [] {
      assert q[0] in q;
      assert forall o <- q[1..] :: o in q;
      AllAt(q[1..], price);
    }
  }

  lemma {:induction false} NoneAt(q: seq<OrderData>, price: int)
    requires forall o <- q :: o.price != price
    ensures CountAt(q, price) == 0 && OpenAt(q, price) == 0
  {
    if q != [] {
      assert q[0] in q;
      assert forall o <- q[1..] :: o in q;
      NoneAt(q[1..], price);
    }
  }

  ghost predicate Priced(q: seq<OrderData>, price: int) {
    exists o <- q :: o.price == price
  }

  ghost predicate Shown(levels: seq<LevelSnapshot>, price: int) {
    exists l <- levels :: l.price == price
  }

  ghost predicate Counted(levels: seq<LevelSnapshot>, q: seq<OrderData>) {
    forall l <- levels :: l.orderCount == CountAt(q, l.price) && l.totalQuantity == OpenAt(q, l.price)
  }

  /** A list of price levels shows exactly the prices of a queue, each with its orders and their open quantity. */
  ghost predicate Shows(levels: seq<LevelSnapshot>, q: seq<OrderData>) {
    && (forall price: int :: Shown(levels, price) <==> Priced(q, price))
    && Counted(levels, q)
  }

  lemma PricedConcat(a: seq<OrderData>, b: seq<OrderData>, price: int)
    ensures Priced(a + b, price) <==> Priced(a, price) || Priced(b, price)
  {
    assert forall o :: o in a + b <==> o in a || o in b;
  }

  lemma ShownFirst(first: LevelSnapshot, levels: seq<LevelSnapshot>, price: int)
    ensures Shown([first] + levels, price) <==> first.price == price || Shown(levels, price)
  {
    assert forall l :: l in [first] + levels <==> l == first || l in levels;
  }

  lemma CountedFirst(first: LevelSnapshot, run: seq<OrderData>, levels: seq<LevelSnapshot>, rest: seq<OrderData>)
    requires Counted(levels, rest) && !Priced(rest, first.price) && !Shown(levels, first.price)
    requires forall o <- run :: o.price == first.price
    requires first.orderCount == |run| && first.totalQuantity == Volume(run)
    ensures Counted([first] + levels, run + rest)
  {
    hide CountAt, OpenAt;
    forall l <- [first] + levels
      ensures l.orderCount == CountAt(run + rest, l.price) && l.totalQuantity == OpenAt(run + rest, l.price)
    {
      AtConcat(run, rest, l.price);
      if l in levels {
        NoneAt(run, l.price);
      } else {
        AllAt(run, l.price);
        NoneAt(rest, l.price);
      }
    }
  }

  /** One more level in front, for orders at a price that no other order has. */
  lemma ShowsOneMore(first: LevelSnapshot, run: seq<OrderData>, levels: seq<LevelSnapshot>, rest: seq<OrderData>)
    requires Shows(levels, rest)
    requires run != [] && forall o <- run :: o.price == first.price
    requires !Priced(rest, first.price)
    requires first.orderCount == |run| && first.totalQuantity == Volume(run)
    ensures Shows([first] + levels, run + rest)
  {
    hide Shown, Counted;
    assert run[0] in run;
    forall price: int ensures Shown([first] + levels, price) <==> Priced(run + rest, price) {
      ShownFirst(first, levels, price);
      PricedConcat(run, rest, price);
    }
    CountedFirst(first, run, levels, rest);
  }

  lemma {:induction false} AggregateShows(forBuys: bool, q: seq<OrderData>)
    requires Sorted(forBuys, q)
    ensures Shows(Aggregate(q), q)
    decreases |q|
  {
    hide Shows, RunLength, Sorted, Volume;
    if q == [] {
      NothingShown();
    } else {
      var n := RunLength(q, q[0].price);
      var run, rest := q[..n], q[n..];
      BehindRun(forBuys, q);
      AggregateShows(forBuys, rest);
      assert n > 0;
      assert q == run + rest;
      ShowsOneMore(LevelSnapshot(q[0].price, Volume(run), n), run, Aggregate(rest), rest);
    }
  }

  lemma NothingShown()
    ensures Shows(Aggregate([]), [])
  {
  }

  /**
    A book query is answered with the buys of its symbol as bids, highest price first, and the sells as
    asks, lowest first; an unknown symbol has neither. Nothing changes.
   */
  lemma QueryAnswers(config: RiskConfig, buyingPower: int, es: Engines, symbol: Symbol, clock: Clock)
    requires ExchangeOk(es)
    ensures var (left, es', response) := Process(config, buyingPower, es, QueryMsg(symbol), clock);
            && left == buyingPower && es' == es
            && response.SnapshotMsg? && response.symbol == symbol
            && (forall i, j | 0 <= i < j < |response.bids| :: response.bids[i].price > response.bids[j].price)
            && (forall i, j | 0 <= i < j < |response.asks| :: response.asks[i].price < response.asks[j].price)
            && (symbol in es ==> Shows(response.bids, es[symbol].buys) && Shows(response.asks, es[symbol].sells))
            && (symbol !in es ==> response.bids == [] && response.asks == [])
  {
    hide Shows, Aggregate;
    var e := EngineFor(es, symbol);
    SnapshotOrdered(true, e.buys);
    SnapshotOrdered(false, e.sells);
    AggregateShows(true, e.buys);
    AggregateShows(false, e.sells);
    EmptyBook();
  }

  lemma EmptyBook()
    ensures Aggregate([]) == []
  {
  }

  // ---------- What is left of a new order ----------

  /** What a new order does not trade rests as it was sent, on its own side: among the buys for side 0. */
  lemma RemainderRests(e: Engine, o: OrderData, clock: Clock, tick: nat)
    requires WellFormed(e) && o.id !in e.RestingIds()
    ensures var (e', trades) := Submit(e, o, clock, tick);
            var left := o.remaining - Filled(trades);
            && (left != 0 ==> o.(remaining := left) in if o.side == 0 then e'.buys else e'.sells)
            && (left == 0 ==> o.id !in e'.RestingIds())
  {
    hide Match, Insert, Ids, QueueOk, SuffixOf;
    var own := IsBuy(o.side);
    var m := Match(o, e.Queue(!own), e.nextTradeId, clock, tick);
    MatchConservesQuantity(o, e.Queue(!own), e.nextTradeId, clock, tick);
    MatchLeavesSuffix(o, e.Queue(!own), e.nextTradeId, clock, tick);
    SuffixOk(!own, m.resting, e.Queue(!own));
    if m.incoming.remaining != 0 {
      InsertLaw(own, e.Queue(own), m.incoming);
    }
  }
}
