/**
  Whole runs of one engine: any sequence of submits, cancels and modifies, with the history needed
  to state what such a run guarantees (who was placed when, what each order was given and traded).
 */
module EngineRuns {
  import opened Types
  import opened Matching
  import opened MatchingLaws
  import opened EngineLaws

  datatype Op =
    | SubmitOp(order: OrderData, clock: Clock)
    | CancelOp(id: nat)
    | ModifyOp(id: nat, newPrice: int, newQuantity: int, clock: Clock)

  /** Quantity that entered and left one side of the book. */
  datatype Flow = Flow(submitted: int, adjusted: int, executed: int, cancelled: int)

  /**
    `placed` records the step at which an order last gained its place in a queue; `given` the
    quantity ever granted to an id, net of cancels and of what modifies added or took away.
   */
  datatype Run = Run(
    engine: Engine, trades: seq<Trade>, now: nat, placed: map<nat, nat>, given: map<nat, int>,
    buyFlow: Flow, sellFlow: Flow)

  function Start(symbol: Symbol): Run {
    Run(NewEngine(symbol), [], 0, map[], map[], Flow(0, 0, 0, 0), Flow(0, 0, 0, 0))
  }

  /** The code relies on the caller for this: a submitted id is not already resting. */
  ghost predicate Admissible(e: Engine, op: Op) {
    op.SubmitOp? ==> op.order.id !in e.RestingIds()
  }

  function Given(r: Run, id: nat): int {
    if id in r.given then r.given[id] else 0
  }

  function FlowOf(r: Run, buys: bool): Flow {
    if buys then r.buyFlow else r.sellFlow
  }

  function Executed(r: Run, traded: int): Run {
    r.(buyFlow := r.buyFlow.(executed := r.buyFlow.executed + traded),
       sellFlow := r.sellFlow.(executed := r.sellFlow.executed + traded))
  }

  function WithFlow(r: Run, buys: bool, f: Flow): Run {
    if buys then r.(buyFlow := f) else r.(sellFlow := f)
  }

  function SubmitStep(r: Run, o: OrderData, clock: Clock): Run {
    var (e', trades) := Submit(r.engine, o, clock, 0);
    var f := FlowOf(r, IsBuy(o.side));
    Executed(
      WithFlow(
        r.(engine := e', trades := r.trades + trades, now := r.now + 1,
           placed := r.placed[o.id := r.now], given := r.given[o.id := Given(r, o.id) + o.remaining]),
        IsBuy(o.side), f.(submitted := f.submitted + o.remaining)),
      Filled(trades))
  }

  function CancelStep(r: Run, id: nat): Run {
    var found := FindOrder(r.engine, id);
    if found.None? then r.(now := r.now + 1)
    else
      var f := FlowOf(r, IsBuy(found.value.side));
      WithFlow(
        r.(engine := Cancel(r.engine, id), now := r.now + 1,
           given := r.given[id := Given(r, id) - found.value.remaining]),
        IsBuy(found.value.side), f.(cancelled := f.cancelled + found.value.remaining))
  }

  function ModifyStep(r: Run, id: nat, newPrice: int, newQuantity: int, clock: Clock): Run {
    var found := FindOrder(r.engine, id);
    var (e', result) := Modify(r.engine, id, newPrice, newQuantity, clock);
    if found.None? || result.None? then r.(now := r.now + 1)
    else
      var f := FlowOf(r, IsBuy(found.value.side));
      var change := newQuantity - found.value.remaining;
      Executed(
        WithFlow(
          r.(engine := e', trades := r.trades + result.value, now := r.now + 1,
             placed := if LosesPriority(found.value, newPrice, newQuantity) then r.placed[id := r.now] else r.placed,
             given := r.given[id := Given(r, id) + change]),
          IsBuy(found.value.side), f.(adjusted := f.adjusted + change)),
        Filled(result.value))
  }

  function Step(r: Run, op: Op): Run {
    match op
    case SubmitOp(o, clock) => SubmitStep(r, o, clock)
    case CancelOp(id) => CancelStep(r, id)
    case ModifyOp(id, newPrice, newQuantity, clock) => ModifyStep(r, id, newPrice, newQuantity, clock)
  }

  function Execute(r: Run, ops: seq<Op>): Run
    decreases |ops|
  {
    if ops == [] then r else Execute(Step(r, ops[0]), ops[1..])
  }

  ghost predicate Legal(r: Run, ops: seq<Op>)
    decreases |ops|
  {
    ops != [] ==> Admissible(r.engine, ops[0]) && Legal(Step(r, ops[0]), ops[1..])
  }

  // ---------- What every run guarantees ----------

  /** Among equal prices, whoever was placed earlier stands in front. */
  ghost predicate InPriority(q: seq<OrderData>, placed: map<nat, nat>, now: nat) {
    && (forall i | 0 <= i < |q| :: q[i].id in placed && placed[q[i].id] < now)
    && forall i, j | 0 <= i < j < |q| && q[i].price == q[j].price :: placed[q[i].id] < placed[q[j].id]
  }

  ghost predicate Balanced(f: Flow, q: seq<OrderData>) {
    f.submitted + f.adjusted == f.executed + Volume(q) + f.cancelled
  }

  function Open(q: seq<OrderData>, id: nat): int {
    var o := Find(q, id);
    if o.Some? then o.value.remaining else 0
  }

  function OpenIn(e: Engine, id: nat): int {
    Open(e.buys, id) + Open(e.sells, id)
  }

  /** What order `id` has bought or sold. */
  function Traded(trades: seq<Trade>, id: nat): int {
    if trades == [] then 0
    else
      (if trades[0].buyId == id then trades[0].quantity else 0)
      + (if trades[0].sellId == id then trades[0].quantity else 0)
      + Traded(trades[1..], id)
  }

  ghost predicate NumberedFrom(trades: seq<Trade>, first: nat) {
    forall k | 0 <= k < |trades| :: trades[k].id == first + k
  }

  ghost predicate Structural(r: Run) {
    && WellFormed(r.engine)
    && Uncrossed(r.engine)
    && InPriority(r.engine.buys, r.placed, r.now)
    && InPriority(r.engine.sells, r.placed, r.now)
  }

  ghost predicate Accounted(r: Run) {
    && Balanced(r.buyFlow, r.engine.buys)
    && Balanced(r.sellFlow, r.engine.sells)
    && (forall id: nat :: Given(r, id) == Traded(r.trades, id) + OpenIn(r.engine, id))
    && NumberedFrom(r.trades, 1)
    && r.engine.nextTradeId == |r.trades| + 1
  }

  // ---------- Priority ----------

  lemma PlacedLater(q: seq<OrderData>, placed: map<nat, nat>, now: nat, id: nat)
    requires InPriority(q, placed, now) && id !in Ids(q)
    ensures InPriority(q, placed[id := now], now)
  {
    assert forall i | 0 <= i < |q| :: q[i].id in Ids(q);
  }

  lemma SuffixInPriority(left: seq<OrderData>, q: seq<OrderData>, placed: map<nat, nat>, now: nat)
    requires SuffixOf(left, q) && InPriority(q, placed, now)
    ensures InPriority(left, placed, now)
  {
    var d := |q| - |left|;
    forall i, j | 0 <= i < j < |left| && left[i].price == left[j].price
      ensures left[i].id in placed && left[j].id in placed && placed[left[i].id] < placed[left[j].id]
    {
      assert SamePlace(left[i], q[d + i]) && SamePlace(left[j], q[d + j]);
    }
    forall i | 0 <= i < |left| ensures left[i].id in placed && placed[left[i].id] < now {
      assert SamePlace(left[i], q[d + i]);
    }
  }

  lemma InsertInPriority(forBuys: bool, q: seq<OrderData>, o: OrderData, placed: map<nat, nat>, now: nat)
    requires Sorted(forBuys, q) && InPriority(q, placed, now)
    requires o.id in placed && placed[o.id] == now
    ensures InPriority(Insert(forBuys, q, o), placed, now + 1)
  {
    var p := InsertPlace(forBuys, q, o);
    var r := Insert(forBuys, q, o);
    assert forall i | 0 <= i < |r| && i != p :: r[i] == q[if i < p then i else i - 1];
  }

  lemma RemoveInPriority(q: seq<OrderData>, id: nat, placed: map<nat, nat>, now: nat)
    requires UniqueIds(q) && InPriority(q, placed, now)
    ensures InPriority(Remove(q, id), placed, now)
    ensures id !in Ids(Remove(q, id))
  {
    hide Remove, Ids, Find, Resize, UniqueIds;
    if id in Ids(q) {
      var a, o, b := Around(q, id);
      SplitUniqueIds(a, o, b);
      assert forall i | 0 <= i < |a + b| :: (a + b)[i] == q[if i < |a| then i else i + 1];
    } else {
      AbsentUnchanged(q, id);
    }
  }

  lemma SubmitInPriority(e: Engine, o: OrderData, clock: Clock, tick: nat, placed: map<nat, nat>, now: nat)
    requires WellFormed(e) && o.id !in e.RestingIds()
    requires InPriority(e.buys, placed, now) && InPriority(e.sells, placed, now)
    ensures var e' := Submit(e, o, clock, tick).0;
            InPriority(e'.buys, placed[o.id := now], now + 1) && InPriority(e'.sells, placed[o.id := now], now + 1)
  {
    hide InPriority, Insert, Ids, Sorted, UniqueIds, Match, SuffixOf;
    var own := IsBuy(o.side);
    var opp := e.Queue(!own);
    var m := Match(o, opp, e.nextTradeId, clock, tick);
    MatchLeavesSuffix(o, opp, e.nextTradeId, clock, tick);
    MatchConservesQuantity(o, opp, e.nextTradeId, clock, tick);
    PlacedLater(opp, placed, now, o.id);
    SuffixInPriority(m.resting, opp, placed[o.id := now], now);
    PlacedLater(e.Queue(own), placed, now, o.id);
    InsertInPriority(own, e.Queue(own), m.incoming, placed[o.id := now], now);
    LaterInPriority(m.resting, placed[o.id := now], now);
    LaterInPriority(e.Queue(own), placed[o.id := now], now);
  }

  lemma LaterInPriority(q: seq<OrderData>, placed: map<nat, nat>, now: nat)
    requires InPriority(q, placed, now)
    ensures InPriority(q, placed, now + 1)
  {
  }

  lemma ResizedInPriority(
    q: seq<OrderData>, r: seq<OrderData>, id: nat, newQuantity: int, placed: map<nat, nat>, now: nat)
    requires SameButFor(q, r, id, newQuantity) && InPriority(q, placed, now)
    ensures InPriority(r, placed, now + 1)
  {
    assert forall i | 0 <= i < |r| :: r[i].id == q[i].id && r[i].price == q[i].price;
  }

  lemma CancelInPriority(e: Engine, id: nat, placed: map<nat, nat>, now: nat)
    requires WellFormed(e)
    requires InPriority(e.buys, placed, now) && InPriority(e.sells, placed, now)
    ensures InPriority(Cancel(e, id).buys, placed, now) && InPriority(Cancel(e, id).sells, placed, now)
  {
    hide InPriority, Ids;
    RemoveInPriority(e.buys, id, placed, now);
    RemoveInPriority(e.sells, id, placed, now);
  }

  lemma ModifyInPriority(
    e: Engine, id: nat, newPrice: int, newQuantity: int, clock: Clock, placed: map<nat, nat>, now: nat)
    requires WellFormed(e)
    requires InPriority(e.buys, placed, now) && InPriority(e.sells, placed, now)
    ensures var e' := Modify(e, id, newPrice, newQuantity, clock).0;
            var found := FindOrder(e, id);
            var placed' := if found.Some? && LosesPriority(found.value, newPrice, newQuantity)
                           then placed[id := now] else placed;
            InPriority(e'.buys, placed', now + 1) && InPriority(e'.sells, placed', now + 1)
  {
    hide InPriority, Submit, Cancel, Ids, Sorted, UniqueIds, SameButFor, Uncrossed, ResizeOrder, FindOrder;
    var found := FindOrder(e, id);
    if found.Some? {
      if LosesPriority(found.value, newPrice, newQuantity) {
        var c := Cancel(e, id);
        CancelLaw(e, id);
        CancelInPriority(e, id, placed, now);
        var replacement := NewOrder(id, found.value.symbol, found.value.side, newPrice, newQuantity, clock(0));
        SubmitInPriority(c, replacement, clock, 1, placed, now);
      } else {
        ResizeInPlace(e, id, newPrice, newQuantity, clock);
        ResizedInPriority(e.buys, ResizeOrder(e, id, newQuantity).buys, id, newQuantity, placed, now);
        ResizedInPriority(e.sells, ResizeOrder(e, id, newQuantity).sells, id, newQuantity, placed, now);
      }
    } else {
      LaterInPriority(e.buys, placed, now);
      LaterInPriority(e.sells, placed, now);
    }
  }

  lemma {:induction false} SubmitStepKeepsStructure(r: Run, o: OrderData, clock: Clock)
    requires Structural(r) && o.id !in r.engine.RestingIds()
    ensures Structural(SubmitStep(r, o, clock))
  {
    hide InPriority, Submit, Uncrossed, WellFormed;
    SubmitKeepsWellFormed(r.engine, o, clock, 0);
    SubmitKeepsUncrossed(r.engine, o, clock, 0);
    SubmitInPriority(r.engine, o, clock, 0, r.placed, r.now);
  }

  lemma CancelStepKeepsStructure(r: Run, id: nat)
    requires Structural(r)
    ensures Structural(CancelStep(r, id))
  {
    hide InPriority, Cancel, Uncrossed, WellFormed, FindOrder;
    CancelLaw(r.engine, id);
    CancelInPriority(r.engine, id, r.placed, r.now);
    LaterInPriority(r.engine.buys, r.placed, r.now);
    LaterInPriority(r.engine.sells, r.placed, r.now);
    LaterInPriority(Cancel(r.engine, id).buys, r.placed, r.now);
    LaterInPriority(Cancel(r.engine, id).sells, r.placed, r.now);
  }

  lemma {:induction false} ModifyStepKeepsStructure(r: Run, id: nat, newPrice: int, newQuantity: int, clock: Clock)
    requires Structural(r)
    ensures Structural(ModifyStep(r, id, newPrice, newQuantity, clock))
  {
    hide InPriority, Modify, Uncrossed, WellFormed, FindOrder, LosesPriority;
    ModifyKeepsInvariants(r.engine, id, newPrice, newQuantity, clock);
    FindOrderLaw(r.engine, id);
    LaterInPriority(r.engine.buys, r.placed, r.now);
    LaterInPriority(r.engine.sells, r.placed, r.now);
    ModifyInPriority(r.engine, id, newPrice, newQuantity, clock, r.placed, r.now);
  }

  // ---------- Conservation ----------

  lemma {:induction false} FilledConcat(a: seq<Trade>, b: seq<Trade>, id: nat)
    ensures Filled(a + b) == Filled(a) + Filled(b)
    ensures Traded(a + b, id) == Traded(a, id) + Traded(b, id)
  {
    if a == [] {
      assert a + b == b;
    } else {
      FilledConcat(a[1..], b, id);
      assert (a + b)[1..] == a[1..] + b;
    }
  }

  lemma {:induction false} InsertOpen(forBuys: bool, q: seq<OrderData>, o: OrderData, id: nat)
    requires o.id !in Ids(q)
    ensures Open(Insert(forBuys, q, o), id) == if id == o.id then o.remaining else Open(q, id)
  {
    var r := Insert(forBuys, q, o);
    if q == [] || Before(forBuys, o.price, q[0].price) {
      assert r[0] == o && r[1..] == q;
    } else {
      assert q[0].id in Ids(q);
      assert forall x <- q[1..] :: x.id in Ids(q);
      InsertOpen(forBuys, q[1..], o, id);
      assert r[0] == q[0] && r[1..] == Insert(forBuys, q[1..], o);
    }
  }

  lemma {:induction false} RemoveOpen(q: seq<OrderData>, id: nat, other: nat)
    requires UniqueIds(q)
    ensures Open(Remove(q, id), other) == if other == id then 0 else Open(q, other)
  {
    if q != [] {
      var r := Remove(q, id);
      if q[0].id == id {
        assert id !in Ids(q[1..]);
        AbsentUnchanged(q[1..], id);
      } else {
        RemoveOpen(q[1..], id, other);
        assert r[0] == q[0] && r[1..] == Remove(q[1..], id);
      }
    }
  }

  lemma {:induction false} ResizeOpen(q: seq<OrderData>, id: nat, n: int, other: nat)
    requires id in Ids(q)
    ensures Open(Resize(q, id, n), other) == if other == id then n else Open(q, other)
  {
    var r := Resize(q, id, n);
    if q[0].id == id {
      assert r[0] == q[0].Modify(q[0].price, n) && r[1..] == q[1..];
    } else {
      assert exists x <- q[1..] :: x.id == id;
      ResizeOpen(q[1..], id, n, other);
      assert r[0] == q[0] && r[1..] == Resize(q[1..], id, n);
    }
  }

  /** Each resting order loses exactly what it traded; the incoming order is in every trade. */
  lemma {:induction false} MatchOpen(
    incoming: OrderData, resting: seq<OrderData>, nextId: nat, clock: Clock, tick: nat, id: nat)
    requires UniqueIds(resting) && incoming.id !in Ids(resting)
    ensures var m := Match(incoming, resting, nextId, clock, tick);
            Open(resting, id) == Open(m.resting, id)
                                 + if id == incoming.id then 0 else Traded(m.trades, id)
    ensures var m := Match(incoming, resting, nextId, clock, tick);
            Traded(m.trades, incoming.id) == Filled(m.trades)
    decreases |resting|
  {
    if !(incoming.remaining == 0 || resting == [] || !PricesCross(incoming, resting[0].price)) {
      var fill := Min(incoming.remaining, resting[0].remaining);
      var taker := incoming.ApplyFill(fill);
      var m := Match(incoming, resting, nextId, clock, tick);
      assert resting[0].id in Ids(resting);
      if resting[0].ApplyFill(fill).remaining == 0 {
        assert forall x <- resting[1..] :: x.id in Ids(resting);
        assert resting[0].id !in Ids(resting[1..]);
        MatchOpen(taker, resting[1..], nextId + 1, clock, tick + 1, id);
        var rest := Match(taker, resting[1..], nextId + 1, clock, tick + 1);
        assert m.trades[1..] == rest.trades;
        FrontGone(taker, resting, nextId + 1, clock, tick + 1);
      } else {
        assert m.trades[1..] == [];
        assert m.resting[1..] == resting[1..];
      }
    }
  }

  /** A fully filled front order is no longer open and does not trade again. */
  lemma FrontGone(taker: OrderData, resting: seq<OrderData>, nextId: nat, clock: Clock, tick: nat)
    requires UniqueIds(resting) && resting != [] && taker.id !in Ids(resting)
    ensures var rest := Match(taker, resting[1..], nextId, clock, tick);
            Open(rest.resting, resting[0].id) == 0 && Traded(rest.trades, resting[0].id) == 0
  {
    assert resting[0].id in Ids(resting);
    assert forall x <- resting[1..] :: x.id != resting[0].id;
    StrangerUntouched(taker, resting[1..], nextId, clock, tick, resting[0].id);
  }

  lemma StrangerUntouched(
    incoming: OrderData, resting: seq<OrderData>, nextId: nat, clock: Clock, tick: nat, id: nat)
    requires id != incoming.id && id !in Ids(resting)
    ensures var m := Match(incoming, resting, nextId, clock, tick);
            Open(m.resting, id) == 0 && Traded(m.trades, id) == 0
  {
    var m := Match(incoming, resting, nextId, clock, tick);
    assert forall i | 0 <= i < |resting| :: resting[i].id in Ids(resting);
    MatchLeavesSuffix(incoming, resting, nextId, clock, tick);
    SuffixIds(m.resting, resting);
    AbsentUnchanged(m.resting, id);
    MatchTakesPriorityPrefix(incoming, resting, nextId, clock, tick);
    NotAParty(m.trades, id);
  }

  lemma {:induction false} NotAParty(trades: seq<Trade>, id: nat)
    requires forall k | 0 <= k < |trades| :: trades[k].buyId != id && trades[k].sellId != id
    ensures Traded(trades, id) == 0
  {
    if trades != [] {
      NotAParty(trades[1..], id);
    }
  }

  lemma SubmitOpen(e: Engine, o: OrderData, clock: Clock, tick: nat, id: nat)
    requires WellFormed(e) && o.id !in e.RestingIds()
    ensures var (e', trades) := Submit(e, o, clock, tick);
            OpenIn(e', id) + Traded(trades, id) == OpenIn(e, id) + if id == o.id then o.remaining else 0
  {
    var own := IsBuy(o.side);
    var opp := e.Queue(!own);
    var m := Match(o, opp, e.nextTradeId, clock, tick);
    MatchOpen(o, opp, e.nextTradeId, clock, tick, id);
    MatchConservesQuantity(o, opp, e.nextTradeId, clock, tick);
    InsertOpen(own, e.Queue(own), m.incoming, id);
    AbsentUnchanged(e.buys, o.id);
    AbsentUnchanged(e.sells, o.id);
    if id == o.id {
      MatchLeavesSuffix(o, opp, e.nextTradeId, clock, tick);
      SuffixOk(!own, m.resting, opp);
      AbsentUnchanged(m.resting, id);
    }
  }

  lemma SubmitVolumes(e: Engine, o: OrderData, clock: Clock, tick: nat)
    requires WellFormed(e) && o.id !in e.RestingIds()
    ensures var (e', trades) := Submit(e, o, clock, tick);
            var own := IsBuy(o.side);
            && Volume(e'.Queue(own)) == Volume(e.Queue(own)) + o.remaining - Filled(trades)
            && Volume(e'.Queue(!own)) == Volume(e.Queue(!own)) - Filled(trades)
  {
    var own := IsBuy(o.side);
    var m := Match(o, e.Queue(!own), e.nextTradeId, clock, tick);
    MatchConservesQuantity(o, e.Queue(!own), e.nextTradeId, clock, tick);
    InsertSums(own, e.Queue(own), m.incoming);
  }

  lemma SubmitNumbers(e: Engine, o: OrderData, clock: Clock, tick: nat)
    ensures var (e', trades) := Submit(e, o, clock, tick);
            NumberedFrom(trades, e.nextTradeId) && e'.nextTradeId == e.nextTradeId + |trades|
  {
    MatchTakesPriorityPrefix(o, e.Queue(!IsBuy(o.side)), e.nextTradeId, clock, tick);
  }

  lemma CancelOpen(e: Engine, id: nat, other: nat)
    requires WellFormed(e)
    ensures OpenIn(Cancel(e, id), other) == if other == id then 0 else OpenIn(e, other)
  {
    RemoveOpen(e.buys, id, other);
    RemoveOpen(e.sells, id, other);
  }

  lemma FoundOpen(e: Engine, id: nat)
    requires WellFormed(e) && FindOrder(e, id).Some?
    ensures OpenIn(e, id) == FindOrder(e, id).value.remaining
  {
    FindOrderLaw(e, id);
    var own := IsBuy(FindOrder(e, id).value.side);
    AbsentUnchanged(e.Queue(!own), id);
  }

  lemma CancelVolumes(e: Engine, id: nat)
    requires WellFormed(e) && FindOrder(e, id).Some?
    ensures var o := FindOrder(e, id).value;
            var own := IsBuy(o.side);
            && Volume(Cancel(e, id).Queue(own)) == Volume(e.Queue(own)) - o.remaining
            && Volume(Cancel(e, id).Queue(!own)) == Volume(e.Queue(!own))
  {
    FindOrderLaw(e, id);
    var own := IsBuy(FindOrder(e, id).value.side);
    RemoveSums(e.Queue(own), id);
    AbsentUnchanged(e.Queue(!own), id);
  }

  /** The trades of a modify, its effect on both volumes, on every order's open quantity, and its numbering. */
  lemma ModifyAccounts(e: Engine, id: nat, newPrice: int, newQuantity: int, clock: Clock, other: nat)
    requires WellFormed(e) && FindOrder(e, id).Some?
    ensures var (e', result) := Modify(e, id, newPrice, newQuantity, clock);
            var o := FindOrder(e, id).value;
            var own := IsBuy(o.side);
            && result.Some?
            && Volume(e'.Queue(own)) == Volume(e.Queue(own)) + newQuantity - o.remaining - Filled(result.value)
            && Volume(e'.Queue(!own)) == Volume(e.Queue(!own)) - Filled(result.value)
            && OpenIn(e', other) + Traded(result.value, other)
               == OpenIn(e, other) + (if other == id then newQuantity - o.remaining else 0)
            && NumberedFrom(result.value, e.nextTradeId)
            && e'.nextTradeId == e.nextTradeId + |result.value|
  {
    var o := FindOrder(e, id).value;
    var own := IsBuy(o.side);
    FindOrderLaw(e, id);
    FoundOpen(e, id);
    if LosesPriority(o, newPrice, newQuantity) {
      var c := Cancel(e, id);
      var replacement := NewOrder(id, o.symbol, o.side, newPrice, newQuantity, clock(0));
      CancelLaw(e, id);
      CancelVolumes(e, id);
      CancelOpen(e, id, other);
      SubmitVolumes(c, replacement, clock, 1);
      SubmitOpen(c, replacement, clock, 1, other);
      SubmitNumbers(c, replacement, clock, 1);
    } else {
      ResizeInPlace(e, id, newPrice, newQuantity, clock);
      ResizeSums(e.Queue(own), id, newQuantity);
      AbsentUnchanged(e.Queue(!own), id);
      ResizeOpen(e.Queue(own), id, newQuantity, other);
    }
  }

  lemma SubmitStepKeepsAccounts(r: Run, o: OrderData, clock: Clock)
    requires WellFormed(r.engine) && Accounted(r) && o.id !in r.engine.RestingIds()
    ensures Accounted(SubmitStep(r, o, clock))
  {
    var r' := SubmitStep(r, o, clock);
    SubmitVolumes(r.engine, o, clock, 0);
    SubmitNumbers(r.engine, o, clock, 0);
    forall id: nat ensures Given(r', id) == Traded(r'.trades, id) + OpenIn(r'.engine, id) {
      assert Given(r, id) == Traded(r.trades, id) + OpenIn(r.engine, id);
      SubmitOpen(r.engine, o, clock, 0, id);
      FilledConcat(r.trades, Submit(r.engine, o, clock, 0).1, id);
    }
  }

  lemma CancelStepKeepsAccounts(r: Run, id: nat)
    requires WellFormed(r.engine) && Accounted(r)
    ensures Accounted(CancelStep(r, id))
  {
    if FindOrder(r.engine, id).Some? {
      var r' := CancelStep(r, id);
      CancelVolumes(r.engine, id);
      FoundOpen(r.engine, id);
      forall x: nat ensures Given(r', x) == Traded(r'.trades, x) + OpenIn(r'.engine, x) {
        assert Given(r, x) == Traded(r.trades, x) + OpenIn(r.engine, x);
        CancelOpen(r.engine, id, x);
      }
    }
  }

  lemma ModifyStepKeepsAccounts(r: Run, id: nat, newPrice: int, newQuantity: int, clock: Clock)
    requires WellFormed(r.engine) && Accounted(r)
    ensures Accounted(ModifyStep(r, id, newPrice, newQuantity, clock))
  {
    if FindOrder(r.engine, id).Some? {
      var r' := ModifyStep(r, id, newPrice, newQuantity, clock);
      ModifyAccounts(r.engine, id, newPrice, newQuantity, clock, id);
      forall x: nat ensures Given(r', x) == Traded(r'.trades, x) + OpenIn(r'.engine, x) {
        assert Given(r, x) == Traded(r.trades, x) + OpenIn(r.engine, x);
        ModifyAccounts(r.engine, id, newPrice, newQuantity, clock, x);
        FilledConcat(r.trades, Modify(r.engine, id, newPrice, newQuantity, clock).1.value, x);
      }
    }
  }

  lemma StepKeeps(r: Run, op: Op)
    requires Structural(r) && Accounted(r) && Admissible(r.engine, op)
    ensures Structural(Step(r, op)) && Accounted(Step(r, op))
  {
    match op
    case SubmitOp(o, clock) =>
      SubmitStepKeepsStructure(r, o, clock);
      SubmitStepKeepsAccounts(r, o, clock);
    case CancelOp(id) =>
      CancelStepKeepsStructure(r, id);
      CancelStepKeepsAccounts(r, id);
    case ModifyOp(id, newPrice, newQuantity, clock) =>
      ModifyStepKeepsStructure(r, id, newPrice, newQuantity, clock);
      ModifyStepKeepsAccounts(r, id, newPrice, newQuantity, clock);
  }

  // ---------- A modify as two requests ----------

  /** The cancel and the new order a client could send instead of a modify that loses priority. */
  function AsTwoRequests(e: Engine, id: nat, newPrice: int, newQuantity: int, clock: Clock): seq<Op>
    requires FindOrder(e, id).Some?
  {
    var current := FindOrder(e, id).value;
    var renewed := NewOrder(id, current.symbol, current.side, newPrice, newQuantity, clock(0));
    [CancelOp(id), SubmitOp(renewed, Later(clock))]
  }

  lemma ExecuteTwo(r: Run, a: Op, b: Op)
    ensures Execute(r, [a, b]) == Step(Step(r, a), b)
    ensures Legal(r, [a, b]) <==> Admissible(r.engine, a) && Admissible(Step(r, a).engine, b)
  {
    hide Step, Admissible;
    var r' := Step(r, a);
    assert [a, b][1..] == [b] && [b][1..] == [];
    assert Execute(r', [b]) == Execute(Step(r', b), []);
    assert Legal(r', [b]) <==> Admissible(r'.engine, b) && Legal(Step(r', b), []);
  }

  /**
    A run cannot tell a modify that loses priority from the two requests: same engine, same trades,
    same quantity given to every id.
   */
  lemma ModifyRunsAsTwoRequests(r: Run, id: nat, newPrice: int, newQuantity: int, clock: Clock)
    requires WellFormed(r.engine) && FindOrder(r.engine, id).Some?
    requires newPrice != FindOrder(r.engine, id).value.price || newQuantity > FindOrder(r.engine, id).value.remaining
    ensures var ops := AsTwoRequests(r.engine, id, newPrice, newQuantity, clock);
            var one, two := Execute(r, [ModifyOp(id, newPrice, newQuantity, clock)]), Execute(r, ops);
            && Legal(r, ops)
            && one.engine == two.engine && one.trades == two.trades
            && forall other: nat :: Given(one, other) == Given(two, other)
  {
    hide WellFormed, FindOrder, Cancel, Submit, Modify, Later, Execute, Legal;
    var current := FindOrder(r.engine, id).value;
    var renewed := NewOrder(id, current.symbol, current.side, newPrice, newQuantity, clock(0));
    ModifyIsCancelThenSubmit(r.engine, id, newPrice, newQuantity, clock);
    ExecuteTwo(r, CancelOp(id), SubmitOp(renewed, Later(clock)));
    ExecuteOne(r, ModifyOp(id, newPrice, newQuantity, clock));
  }

  lemma ExecuteOne(r: Run, op: Op)
    ensures Execute(r, [op]) == Step(r, op)
  {
    hide Step;
    assert [op][1..] == [];
    assert Execute(Step(r, op), []) == Step(r, op);
  }

  // ---------- The theorem ----------

  lemma {:induction false} RunKeeps(r: Run, ops: seq<Op>)
    requires Structural(r) && Accounted(r) && Legal(r, ops)
    ensures Structural(Execute(r, ops)) && Accounted(Execute(r, ops))
    decreases |ops|
  {
    if ops != [] {
      StepKeeps(r, ops[0]);
      RunKeeps(Step(r, ops[0]), ops[1..]);
    }
  }

  /**
    After any run from an empty book: the book is sorted and uncrossed, every queue is in the order
    in which its members gained their places, both sides and every single order balance, and the
    trades carry the ids 1, 2, 3, ... without gap or repeat.
   */
  lemma {:induction false} EveryRun(symbol: Symbol, ops: seq<Op>)
    requires Legal(Start(symbol), ops)
    ensures Structural(Execute(Start(symbol), ops))
    ensures Accounted(Execute(Start(symbol), ops))
  {
    RunKeeps(Start(symbol), ops);
  }

  // ---------- Positive quantities ----------

  ghost predicate PositiveOp(op: Op) {
    match op
    case SubmitOp(o, _) => 0 < o.remaining <= o.quantity
    case CancelOp(_) => true
    case ModifyOp(_, _, newQuantity, _) => newQuantity > 0
  }

  /** No order is used up, and none has more open than it asked for. */
  ghost predicate Whole(q: seq<OrderData>) {
    forall o <- q :: 0 < o.remaining <= o.quantity
  }

  ghost predicate AllTrade(trades: seq<Trade>) {
    forall t <- trades :: t.quantity > 0
  }

  lemma {:induction false} MatchKeepsWhole(
    incoming: OrderData, resting: seq<OrderData>, nextId: nat, clock: Clock, tick: nat)
    requires 0 <= incoming.remaining <= incoming.quantity && Whole(resting)
    ensures var m := Match(incoming, resting, nextId, clock, tick);
            && 0 <= m.incoming.remaining <= m.incoming.quantity
            && Whole(m.resting) && AllTrade(m.trades)
    decreases |resting|
  {
    if !(incoming.remaining == 0 || resting == [] || !PricesCross(incoming, resting[0].price)) {
      var fill := Min(incoming.remaining, resting[0].remaining);
      assert resting[0] in resting;
      assert forall x <- resting[1..] :: x in resting;
      if resting[0].ApplyFill(fill).remaining == 0 {
        MatchKeepsWhole(incoming.ApplyFill(fill), resting[1..], nextId + 1, clock, tick + 1);
      }
    }
  }

  lemma SubmitKeepsWhole(e: Engine, o: OrderData, clock: Clock, tick: nat)
    requires WellFormed(e) && Whole(e.buys) && Whole(e.sells)
    requires o.id !in e.RestingIds() && 0 <= o.remaining <= o.quantity
    ensures var (e', trades) := Submit(e, o, clock, tick);
            Whole(e'.buys) && Whole(e'.sells) && AllTrade(trades)
  {
    hide Match, Insert, Ids, QueueOk;
    var own := IsBuy(o.side);
    var m := Match(o, e.Queue(!own), e.nextTradeId, clock, tick);
    MatchKeepsWhole(o, e.Queue(!own), e.nextTradeId, clock, tick);
    MatchConservesQuantity(o, e.Queue(!own), e.nextTradeId, clock, tick);
    InsertLaw(own, e.Queue(own), m.incoming);
  }

  lemma CancelKeepsWhole(e: Engine, id: nat)
    requires WellFormed(e) && Whole(e.buys) && Whole(e.sells)
    ensures Whole(Cancel(e, id).buys) && Whole(Cancel(e, id).sells)
  {
    hide Remove, Ids, QueueOk;
    if id in Ids(e.buys) { RemoveLaw(true, e.buys, id); } else { AbsentUnchanged(e.buys, id); }
    if id in Ids(e.sells) { RemoveLaw(false, e.sells, id); } else { AbsentUnchanged(e.sells, id); }
  }

  lemma ResizedWhole(q: seq<OrderData>, r: seq<OrderData>, id: nat, newQuantity: int)
    requires SameButFor(q, r, id, newQuantity) && Whole(q) && newQuantity > 0
    ensures Whole(r)
  {
    forall x <- r ensures 0 < x.remaining <= x.quantity {
      var i :| 0 <= i < |r| && r[i] == x;
      assert q[i] in q;
    }
  }

  lemma ModifyKeepsWhole(e: Engine, id: nat, newPrice: int, newQuantity: int, clock: Clock)
    requires WellFormed(e) && Whole(e.buys) && Whole(e.sells) && newQuantity > 0
    ensures var (e', result) := Modify(e, id, newPrice, newQuantity, clock);
            Whole(e'.buys) && Whole(e'.sells) && (result.Some? ==> AllTrade(result.value))
  {
    hide Submit, Cancel, FindOrder, ResizeOrder, WellFormed, Whole, Ids, SameButFor;
    var found := FindOrder(e, id);
    if found.Some? {
      if LosesPriority(found.value, newPrice, newQuantity) {
        CancelLaw(e, id);
        CancelKeepsWhole(e, id);
        SubmitKeepsWhole(Cancel(e, id),
          NewOrder(id, found.value.symbol, found.value.side, newPrice, newQuantity, clock(0)), clock, 1);
      } else {
        ResizeInPlace(e, id, newPrice, newQuantity, clock);
        ResizedWhole(e.buys, ResizeOrder(e, id, newQuantity).buys, id, newQuantity);
        ResizedWhole(e.sells, ResizeOrder(e, id, newQuantity).sells, id, newQuantity);
      }
    }
  }

  ghost predicate Plentiful(r: Run) {
    Whole(r.engine.buys) && Whole(r.engine.sells) && AllTrade(r.trades)
  }

  lemma StepKeepsPlentiful(r: Run, op: Op)
    requires WellFormed(r.engine) && Plentiful(r) && Admissible(r.engine, op) && PositiveOp(op)
    ensures Plentiful(Step(r, op))
  {
    hide Submit, Cancel, Modify, WellFormed, Whole, FindOrder;
    match op
    case SubmitOp(o, clock) => SubmitKeepsWhole(r.engine, o, clock, 0);
    case CancelOp(id) => CancelKeepsWhole(r.engine, id);
    case ModifyOp(id, newPrice, newQuantity, clock) =>
      ModifyKeepsWhole(r.engine, id, newPrice, newQuantity, clock);
      var (e', result) := Modify(r.engine, id, newPrice, newQuantity, clock);
      if FindOrder(r.engine, id).Some? && result.Some? {
        assert Step(r, op).engine == e' && Step(r, op).trades == r.trades + result.value;
      }
  }

  lemma {:induction false} RunKeepsPlentiful(r: Run, ops: seq<Op>)
    requires Structural(r) && Accounted(r) && Plentiful(r) && Legal(r, ops)
    requires forall op <- ops :: PositiveOp(op)
    ensures Plentiful(Execute(r, ops))
    decreases |ops|
  {
    hide Accounted, Plentiful, Step, PositiveOp, WellFormed;
    if ops != [] {
      StepKeeps(r, ops[0]);
      StepKeepsPlentiful(r, ops[0]);
      RunKeepsPlentiful(Step(r, ops[0]), ops[1..]);
    }
  }

  /**
    After any run of positive quantities no empty order rests, none has more open than it asked for, and
    every trade is of a positive quantity.
   */
  lemma {:induction false} EveryPositiveRun(symbol: Symbol, ops: seq<Op>)
    requires Legal(Start(symbol), ops) && forall op <- ops :: PositiveOp(op)
    ensures var r := Execute(Start(symbol), ops);
            && (forall o <- r.engine.buys + r.engine.sells :: 0 < o.remaining <= o.quantity)
            && forall t <- r.trades :: t.quantity > 0
  {
    hide Execute, Legal;
    RunKeepsPlentiful(Start(symbol), ops);
  }

  /** Without that an empty order can rest: buy 10 at 1, then modify to 0 at the same price. */
  lemma EmptyOrderRests(symbol: Symbol, clock: Clock)
    ensures var o := NewOrder(1, symbol, BUY, 1, 10, 0);
            var ops := [SubmitOp(o, clock), ModifyOp(1, 1, 0, clock)];
            && Legal(Start(symbol), ops)
            && Execute(Start(symbol), ops).engine.buys == [o.Modify(1, 0)]
            && o.Modify(1, 0).remaining == 0
  {
    var o := NewOrder(1, symbol, BUY, 1, 10, 0);
    var e := NewEngine(symbol);
    assert Match(o, [], 1, clock, 0) == MatchResult(o, [], []);
    assert Insert(true, [], o) == [o];
    var e1 := Engine(symbol, [o], [], 1);
    assert Submit(e, o, clock, 0) == (e1, []);
    assert FindOrder(e1, 1) == Some(o);
    assert Resize([o], 1, 0) == [o.Modify(1, 0)] + [];
    assert Modify(e1, 1, 1, 0, clock).0.buys == [o.Modify(1, 0)];
    ExecuteTwo(Start(symbol), SubmitOp(o, clock), ModifyOp(1, 1, 0, clock));
  }
}
