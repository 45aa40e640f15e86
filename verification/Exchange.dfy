/** Many engines, one per symbol: what the matching service and the in-process processor both do. */
module Exchange {
  import opened Types
  import opened Matching
  import opened MatchingLaws
  import opened EngineLaws
  import opened EngineRuns
  import opened Codec
  import opened Messages

  type Engines = map<Symbol, Engine>

  /** Engines are created when a symbol is first seen. */
  function EngineFor(es: Engines, symbol: Symbol): Engine {
    if symbol in es then es[symbol] else NewEngine(symbol)
  }

  function ByteOf(c: char): Byte {
    c as int % 256
  }

  function Text(s: string): Bytes {
    seq(|s|, i requires 0 <= i < |s| => ByteOf(s[i]))
  }

  // ---------- Book snapshots ----------

  /** Length of the run of equal prices at the front. */
  function RunLength(q: seq<OrderData>, price: int): (n: nat)
    ensures n <= |q|
    ensures forall i | 0 <= i < n :: q[i].price == price
    ensures n < |q| ==> q[n].price != price
  {
    if q == [] || q[0].price != price then 0 else 1 + RunLength(q[1..], price)
  }

  /** One entry per price level, best first. */
  function Aggregate(q: seq<OrderData>): seq<LevelSnapshot>
    decreases |q|
  {
    if q == [] then []
    else
      var n := RunLength(q, q[0].price);
      [LevelSnapshot(q[0].price, Volume(q[..n]), n)] + Aggregate(q[n..])
  }

  function SnapshotOf(es: Engines, symbol: Symbol): Message {
    var e := EngineFor(es, symbol);
    SnapshotMsg(symbol, Aggregate(e.buys), Aggregate(e.sells))
  }

  function TotalVolume(ls: seq<LevelSnapshot>): int {
    if ls == [] then 0 else ls[0].totalQuantity + TotalVolume(ls[1..])
  }

  function TotalOrders(ls: seq<LevelSnapshot>): int {
    if ls == [] then 0 else ls[0].orderCount + TotalOrders(ls[1..])
  }

  /** A snapshot accounts for every order and its quantity, and shows no empty level. */
  lemma {:induction false} SnapshotCounts(q: seq<OrderData>)
    ensures TotalVolume(Aggregate(q)) == Volume(q)
    ensures TotalOrders(Aggregate(q)) == |q|
    ensures forall l <- Aggregate(q) :: l.orderCount > 0
    decreases |q|
  {
    if q != [] {
      var n := RunLength(q, q[0].price);
      SnapshotCounts(q[n..]);
      assert q == q[..n] + q[n..];
      SumsConcat(q[..n], q[n..]);
      assert Aggregate(q)[1..] == Aggregate(q[n..]);
    }
  }

  lemma {:induction false} SnapshotPrices(q: seq<OrderData>)
    ensures forall l <- Aggregate(q) :: exists o <- q :: o.price == l.price
    ensures q != [] ==> Aggregate(q) != [] && Aggregate(q)[0].price == q[0].price
    decreases |q|
  {
    if q != [] {
      var n := RunLength(q, q[0].price);
      SnapshotPrices(q[n..]);
      forall l <- Aggregate(q) ensures exists o <- q :: o.price == l.price {
        if l in Aggregate(q[n..]) {
          var o :| o in q[n..] && o.price == l.price;
          assert o in q;
        } else {
          assert q[0] in q && q[0].price == l.price;
        }
      }
    }
  }

  /** The orders behind the first run of equal prices are all strictly worse. */
  lemma BehindRun(forBuys: bool, q: seq<OrderData>)
    requires Sorted(forBuys, q) && q != []
    ensures var n := RunLength(q, q[0].price);
            Sorted(forBuys, q[n..]) && forall o <- q[n..] :: Before(forBuys, q[0].price, o.price)
  {
    var n := RunLength(q, q[0].price);
    forall k | n <= k < |q| ensures Before(forBuys, q[0].price, q[k].price) {
      assert !Before(forBuys, q[n].price, q[0].price);
      assert k > n ==> !Before(forBuys, q[k].price, q[n].price);
    }
  }

  /** A snapshot shows each price once, best first. */
  lemma {:induction false} SnapshotOrdered(forBuys: bool, q: seq<OrderData>)
    requires Sorted(forBuys, q)
    ensures var ls := Aggregate(q);
            forall i, j | 0 <= i < j < |ls| :: Before(forBuys, ls[i].price, ls[j].price)
    decreases |q|
  {
    if q != [] {
      var n := RunLength(q, q[0].price);
      var rest := Aggregate(q[n..]);
      BehindRun(forBuys, q);
      SnapshotOrdered(forBuys, q[n..]);
      SnapshotPrices(q[n..]);
      forall j | 0 <= j < |rest| ensures Before(forBuys, q[0].price, rest[j].price) {
        assert rest[j] in rest;
      }
      assert Aggregate(q)[1..] == rest;
    }
  }

  // ---------- Serving requests ----------

  ghost predicate RestsAt(es: Engines, symbol: Symbol, id: nat) {
    symbol in es && id in es[symbol].RestingIds()
  }

  /** Any symbol whose engine knows the id: the code tries the engines in hash order. */
  ghost function OwnerOf(es: Engines, id: nat): (owner: Option<Symbol>)
    ensures owner.Some? ==> RestsAt(es, owner.value, id)
    ensures owner.None? ==> forall s :: !RestsAt(es, s, id)
  {
    if s :| RestsAt(es, s, id) then Some(s) else None
  }

  /** The order in which engines are tried does not matter: only one of them can know the id. */
  lemma OwnerIsUnique(es: Engines, s: Symbol, id: nat)
    requires UniqueOwners(es) && RestsAt(es, s, id)
    ensures OwnerOf(es, id) == Some(s)
  {
    var owner := OwnerOf(es, id);
    assert owner.Some? ==> RestsAt(es, owner.value, id);
  }

  ghost function Serve(es: Engines, request: Message, clock: Clock): (Engines, Message) {
    match request
    case NewOrderMsg(o) =>
      var (e', trades) := Submit(EngineFor(es, o.symbol), o, clock, 0);
      (es[o.symbol := e'], AckMsg(o.id, trades))
    case CancelMsg(id) => (
      match OwnerOf(es, id)
      case None => (es, RejectMsg(id, Text("order not found")))
      case Some(s) => (es[s := Cancel(es[s], id)], AckMsg(id, []))
    )
    case ModifyMsg(id, newPrice, newQuantity) => (
      match OwnerOf(es, id)
      case None => (es, RejectMsg(id, Text("order not found")))
      case Some(s) =>
        var (e', result) := Modify(es[s], id, newPrice, newQuantity, clock);
        (es[s := e'], AckMsg(id, if result.Some? then result.value else []))
    )
    case QueryMsg(symbol) => (es, SnapshotOf(es, symbol))
    case _ => (es, RejectMsg(0, Text("unknown message type")))
  }

  // ---------- Invariants ----------

  ghost predicate SymbolsOk(e: Engine) {
    && (forall o <- e.buys :: o.symbol == e.symbol)
    && (forall o <- e.sells :: o.symbol == e.symbol)
  }

  ghost predicate EngineOk(e: Engine) {
    WellFormed(e) && Uncrossed(e) && SymbolsOk(e)
  }

  ghost predicate UniqueOwners(es: Engines) {
    forall s, t, id :: RestsAt(es, s, id) && RestsAt(es, t, id) ==> s == t
  }

  ghost predicate ExchangeOk(es: Engines) {
    && (forall s <- es.Keys :: EngineOk(es[s]) && es[s].symbol == s)
    && UniqueOwners(es)
  }

  /** The code relies on the client for this: a submitted id rests nowhere. */
  ghost predicate FreshRequest(es: Engines, request: Message) {
    request.NewOrderMsg? ==> forall s :: !RestsAt(es, s, request.order.id)
  }

  lemma EngineForOk(es: Engines, symbol: Symbol)
    requires ExchangeOk(es)
    ensures EngineOk(EngineFor(es, symbol)) && EngineFor(es, symbol).symbol == symbol
    ensures forall id :: id in EngineFor(es, symbol).RestingIds() <==> RestsAt(es, symbol, id)
  {
  }

  /** Replacing one engine by one whose ids were its own, or rested nowhere, keeps everything. */
  lemma PutEngineOk(es: Engines, s: Symbol, e: Engine)
    requires ExchangeOk(es) && EngineOk(e) && e.symbol == s
    requires forall id <- e.RestingIds(), t :: RestsAt(es, t, id) ==> t == s
    ensures ExchangeOk(es[s := e])
  {
    var es' := es[s := e];
    forall t, u, id | RestsAt(es', t, id) && RestsAt(es', u, id) ensures t == u {
      assert t != s ==> RestsAt(es, t, id);
      assert u != s ==> RestsAt(es, u, id);
    }
  }

  lemma SubmitKeepsEngineOk(e: Engine, o: OrderData, clock: Clock, tick: nat)
    requires EngineOk(e) && o.id !in e.RestingIds() && o.symbol == e.symbol
    ensures var e' := Submit(e, o, clock, tick).0;
            EngineOk(e') && e'.symbol == e.symbol && e'.RestingIds() <= e.RestingIds() + {o.id}
  {
    SubmitKeepsWellFormed(e, o, clock, tick);
    SubmitKeepsUncrossed(e, o, clock, tick);
    var own := IsBuy(o.side);
    var m := Match(o, e.Queue(!own), e.nextTradeId, clock, tick);
    MatchConservesQuantity(o, e.Queue(!own), e.nextTradeId, clock, tick);
    MatchLeavesSuffix(o, e.Queue(!own), e.nextTradeId, clock, tick);
    SuffixOk(!own, m.resting, e.Queue(!own));
    InsertLaw(own, e.Queue(own), m.incoming);
  }

  lemma CancelKeepsEngineOk(e: Engine, id: nat)
    requires EngineOk(e)
    ensures EngineOk(Cancel(e, id))
  {
    CancelLaw(e, id);
    if id in Ids(e.buys) { RemoveLaw(true, e.buys, id); } else { AbsentUnchanged(e.buys, id); }
    if id in Ids(e.sells) { RemoveLaw(false, e.sells, id); } else { AbsentUnchanged(e.sells, id); }
  }

  lemma ModifyKeepsEngineOk(e: Engine, id: nat, newPrice: int, newQuantity: int, clock: Clock)
    requires EngineOk(e)
    ensures var e' := Modify(e, id, newPrice, newQuantity, clock).0;
            EngineOk(e') && e'.symbol == e.symbol && e'.RestingIds() <= e.RestingIds()
  {
    hide WellFormed, Uncrossed, Submit, Cancel, FindOrder, ResizeOrder, SameButFor, Ids;
    ModifyKeepsInvariants(e, id, newPrice, newQuantity, clock);
    FindOrderLaw(e, id);
    var found := FindOrder(e, id);
    if found.Some? {
      if LosesPriority(found.value, newPrice, newQuantity) {
        CancelLaw(e, id);
        CancelKeepsEngineOk(e, id);
        SubmitKeepsEngineOk(Cancel(e, id),
          NewOrder(id, found.value.symbol, found.value.side, newPrice, newQuantity, clock(0)), clock, 1);
      } else {
        ResizeInPlace(e, id, newPrice, newQuantity, clock);
        SameButForKeepsSymbols(e, ResizeOrder(e, id, newQuantity), id, newQuantity);
      }
    }
  }

  lemma SameButForKeepsSymbols(e: Engine, e': Engine, id: nat, newQuantity: int)
    requires SameButFor(e.buys, e'.buys, id, newQuantity) && SameButFor(e.sells, e'.sells, id, newQuantity)
    requires SymbolsOk(e) && e'.symbol == e.symbol
    ensures SymbolsOk(e')
  {
  }

  /** Whatever is asked, every engine stays well-formed and uncrossed and every id rests in one engine at most. */
  lemma {:induction false} ServeKeepsOk(es: Engines, request: Message, clock: Clock)
    requires ExchangeOk(es) && FreshRequest(es, request)
    ensures ExchangeOk(Serve(es, request, clock).0)
  {
    match request
    case NewOrderMsg(o) =>
      EngineForOk(es, o.symbol);
      SubmitKeepsEngineOk(EngineFor(es, o.symbol), o, clock, 0);
      PutEngineOk(es, o.symbol, Submit(EngineFor(es, o.symbol), o, clock, 0).0);
    case CancelMsg(id) =>
      var owner := OwnerOf(es, id);
      if owner.Some? {
        CancelLaw(es[owner.value], id);
        CancelKeepsEngineOk(es[owner.value], id);
        OwnIds(es, owner.value);
        PutEngineOk(es, owner.value, Cancel(es[owner.value], id));
      }
    case ModifyMsg(id, newPrice, newQuantity) =>
      var owner := OwnerOf(es, id);
      if owner.Some? {
        ModifyKeepsEngineOk(es[owner.value], id, newPrice, newQuantity, clock);
        OwnIds(es, owner.value);
        PutEngineOk(es, owner.value, Modify(es[owner.value], id, newPrice, newQuantity, clock).0);
      }
    case QueryMsg(_) =>
    case AckMsg(_, _) =>
    case RejectMsg(_, _) =>
    case SnapshotMsg(_, _, _) =>
    case TradeMsg(_) =>
  }

  lemma OwnIds(es: Engines, s: Symbol)
    requires ExchangeOk(es) && s in es
    ensures forall id <- es[s].RestingIds(), t :: RestsAt(es, t, id) ==> t == s
  {
    forall id <- es[s].RestingIds(), t | RestsAt(es, t, id) ensures t == s {
      assert RestsAt(es, s, id);
    }
  }

  /** The engine a request is about. */
  ghost function Target(es: Engines, request: Message): Option<Symbol> {
    match request
    case NewOrderMsg(o) => Some(o.symbol)
    case CancelMsg(id) => OwnerOf(es, id)
    case ModifyMsg(id, _, _) => OwnerOf(es, id)
    case QueryMsg(_) => None
    case AckMsg(_, _) => None
    case RejectMsg(_, _) => None
    case SnapshotMsg(_, _, _) => None
    case TradeMsg(_) => None
  }

  function TradesOf(response: Message): seq<Trade> {
    if response.AckMsg? then response.trades else []
  }

  /** Requests about one symbol leave every other engine alone; the trades all carry that symbol. */
  lemma {:induction false} OnlyTargetChanges(es: Engines, request: Message, clock: Clock)
    requires ExchangeOk(es)
    ensures var (es', response) := Serve(es, request, clock);
            var target := Target(es, request);
            && (forall s :: target != Some(s) ==> EngineFor(es', s) == EngineFor(es, s) && (s in es' <==> s in es))
            && (target.None? ==> TradesOf(response) == [])
            && (target.Some? ==>
                  && (forall t <- TradesOf(response) :: t.symbol == target.value)
                  && NumberedFrom(TradesOf(response), EngineFor(es, target.value).nextTradeId)
                  && EngineFor(es', target.value).nextTradeId
                     == EngineFor(es, target.value).nextTradeId + |TradesOf(response)|)
  {
    match request
    case NewOrderMsg(o) =>
      SubmitTrades(EngineFor(es, o.symbol), o, clock, 0);
    case ModifyMsg(id, newPrice, newQuantity) =>
      var owner := OwnerOf(es, id);
      if owner.Some? {
        ModifyTrades(es[owner.value], id, newPrice, newQuantity, clock);
      }
    case CancelMsg(_) =>
    case QueryMsg(_) =>
    case AckMsg(_, _) =>
    case RejectMsg(_, _) =>
    case SnapshotMsg(_, _, _) =>
    case TradeMsg(_) =>
  }

  lemma SubmitTrades(e: Engine, o: OrderData, clock: Clock, tick: nat)
    ensures var (e', trades) := Submit(e, o, clock, tick);
            && (forall t <- trades :: t.symbol == o.symbol)
            && NumberedFrom(trades, e.nextTradeId)
            && e'.nextTradeId == e.nextTradeId + |trades|
  {
    SubmitNumbers(e, o, clock, tick);
    MatchTakesPriorityPrefix(o, e.Queue(!IsBuy(o.side)), e.nextTradeId, clock, tick);
    var trades := Submit(e, o, clock, tick).1;
    forall t <- trades ensures t.symbol == o.symbol {
      var k :| 0 <= k < |trades| && trades[k] == t;
    }
  }

  lemma ModifyTrades(e: Engine, id: nat, newPrice: int, newQuantity: int, clock: Clock)
    requires EngineOk(e)
    ensures var (e', result) := Modify(e, id, newPrice, newQuantity, clock);
            var trades := if result.Some? then result.value else [];
            && (forall t <- trades :: t.symbol == e.symbol)
            && NumberedFrom(trades, e.nextTradeId)
            && e'.nextTradeId == e.nextTradeId + |trades|
  {
    var found := FindOrder(e, id);
    FindOrderLaw(e, id);
    if found.Some? && LosesPriority(found.value, newPrice, newQuantity) {
      SubmitTrades(Cancel(e, id),
        NewOrder(id, found.value.symbol, found.value.side, newPrice, newQuantity, clock(0)), clock, 1);
    }
  }

  // ---------- The published trade stream ----------

  /** The trades of one symbol, in the order they were published. */
  function StreamOf(trades: seq<Trade>, symbol: Symbol): seq<Trade> {
    if trades == [] then []
    else (if trades[0].symbol == symbol then [trades[0]] else []) + StreamOf(trades[1..], symbol)
  }

  lemma StreamFirst(trades: seq<Trade>, symbol: Symbol)
    ensures trades == [] ==> StreamOf(trades, symbol) == []
    ensures trades != [] ==>
              StreamOf(trades, symbol)
              == (if trades[0].symbol == symbol then [trades[0]] else []) + StreamOf(trades[1..], symbol)
  {
  }

  lemma {:induction false} StreamConcat(a: seq<Trade>, b: seq<Trade>, symbol: Symbol)
    ensures StreamOf(a + b, symbol) == StreamOf(a, symbol) + StreamOf(b, symbol)
  {
    hide StreamOf;
    if a == [] {
      assert a + b == b;
      StreamFirst(a, symbol);
    } else {
      StreamConcat(a[1..], b, symbol);
      assert (a + b)[0] == a[0] && (a + b)[1..] == a[1..] + b;
      StreamFirst(a, symbol);
      StreamFirst(a + b, symbol);
    }
  }

  lemma {:induction false} StreamPure(a: seq<Trade>, symbol: Symbol, owner: Symbol)
    requires forall t <- a :: t.symbol == owner
    ensures StreamOf(a, symbol) == if symbol == owner then a else []
  {
    if a != [] {
      StreamPure(a[1..], symbol, owner);
    }
  }

  /** A trade stands in its symbol's stream behind those of its symbol published before it. */
  lemma PlaceInStream(trades: seq<Trade>, i: nat)
    requires i < |trades|
    ensures var s := trades[i].symbol;
            var k := |StreamOf(trades[..i], s)|;
            k < |StreamOf(trades, s)| && StreamOf(trades, s)[k] == trades[i]
  {
    var s := trades[i].symbol;
    assert trades == trades[..i] + trades[i..];
    StreamConcat(trades[..i], trades[i..], s);
    assert trades[i..][0] == trades[i];
  }

  /** Numbering every symbol's stream from 1 makes symbol and trade id a key. */
  lemma {:induction false} NumberingIsKey(trades: seq<Trade>, i: nat, j: nat)
    requires i < j < |trades| && trades[i].symbol == trades[j].symbol
    requires NumberedFrom(StreamOf(trades, trades[i].symbol), 1)
    ensures trades[i].id < trades[j].id
  {
    hide StreamOf;
    PlaceInStream(trades, i);
    PlaceInStream(trades, j);
    assert trades[..j][i] == trades[i] && trades[..j][..i] == trades[..i];
    PlaceInStream(trades[..j], i);
  }

  /** A request as it reaches the engines, with the clock readings made while serving it. */
  datatype Event = Event(request: Message, clock: Clock)

  datatype Service = Service(engines: Engines, published: seq<Trade>, responses: seq<Message>)

  ghost function ServeEvent(v: Service, event: Event): Service {
    var (es', response) := Serve(v.engines, event.request, event.clock);
    Service(es', v.published + TradesOf(response), v.responses + [response])
  }

  ghost function ServeAll(v: Service, events: seq<Event>): Service
    decreases |events|
  {
    if events == [] then v else ServeAll(ServeEvent(v, events[0]), events[1..])
  }

  ghost predicate AllFresh(v: Service, events: seq<Event>)
    decreases |events|
  {
    events != [] ==> FreshRequest(v.engines, events[0].request) && AllFresh(ServeEvent(v, events[0]), events[1..])
  }

  function Acked(responses: seq<Message>): seq<Trade> {
    if responses == [] then [] else Acked(responses[..|responses| - 1]) + TradesOf(responses[|responses| - 1])
  }

  ghost predicate ServiceOk(v: Service) {
    && ExchangeOk(v.engines)
    && v.published == Acked(v.responses)
    && forall s: Symbol ::
         && NumberedFrom(StreamOf(v.published, s), 1)
         && EngineFor(v.engines, s).nextTradeId == |StreamOf(v.published, s)| + 1
  }

  lemma NumberedOn(before: seq<Trade>, more: seq<Trade>, next: nat)
    requires NumberedFrom(before, 1) && next == |before| + 1
    ensures NumberedFrom(more, next) ==> NumberedFrom(before + more, 1)
  {
  }

  lemma ServeEventKeepsOk(v: Service, event: Event)
    requires ServiceOk(v) && FreshRequest(v.engines, event.request)
    ensures ServiceOk(ServeEvent(v, event))
  {
    hide ExchangeOk, FreshRequest, Serve, NumberedFrom, Target;
    var (es', response) := Serve(v.engines, event.request, event.clock);
    var v' := ServeEvent(v, event);
    ServeKeepsOk(v.engines, event.request, event.clock);
    OnlyTargetChanges(v.engines, event.request, event.clock);
    assert v'.responses[..|v.responses|] == v.responses;
    var trades := TradesOf(response);
    var target := Target(v.engines, event.request);
    forall s: Symbol
      ensures NumberedFrom(StreamOf(v'.published, s), 1)
      ensures EngineFor(v'.engines, s).nextTradeId == |StreamOf(v'.published, s)| + 1
    {
      var before := StreamOf(v.published, s);
      assert NumberedFrom(before, 1) && EngineFor(v.engines, s).nextTradeId == |before| + 1;
      StreamConcat(v.published, trades, s);
      if target.Some? {
        StreamPure(trades, s, target.value);
        NumberedOn(before, trades, EngineFor(v.engines, s).nextTradeId);
      }
      assert before + [] == before;
    }
  }

  lemma {:induction false} ServeAllKeepsOk(v: Service, events: seq<Event>)
    requires ServiceOk(v) && AllFresh(v, events)
    ensures ServiceOk(ServeAll(v, events))
    decreases |events|
  {
    if events != [] {
      ServeEventKeepsOk(v, events[0]);
      ServeAllKeepsOk(ServeEvent(v, events[0]), events[1..]);
    }
  }

  /**
    Over every run of the service, the published stream is the concatenation of the acknowledged
    trades, and each symbol's part of it is numbered 1, 2, 3, ... without gap or repeat.
   */
  lemma EveryServiceRun(events: seq<Event>)
    requires AllFresh(Service(map[], [], []), events)
    ensures ServiceOk(ServeAll(Service(map[], [], []), events))
  {
    ServeAllKeepsOk(Service(map[], [], []), events);
  }
}
