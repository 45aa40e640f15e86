/**
  The reference meaning of one symbol's matching engine. Each side of the book is one flat list of
  orders in priority order (best price first, then arrival); price levels are runs of equal price.
  The nested loops over levels and queues are in MatchingEngine.dfy and are proved to compute this.
 */
module Matching {
  import opened Types

  // ---------- One flat side ----------

  /** Strictly better price for a side: higher for buys, lower for sells. */
  predicate Before(forBuys: bool, p: int, q: int) {
    if forBuys then p > q else p < q
  }

  function Ids(q: seq<OrderData>): set<nat> {
    set o <- q :: o.id
  }

  function Volume(q: seq<OrderData>): int {
    if q == [] then 0 else q[0].remaining + Volume(q[1..])
  }

  /** Price times remaining quantity, summed over a queue. */
  function Notional(q: seq<OrderData>): int {
    if q == [] then 0 else q[0].price * q[0].remaining + Notional(q[1..])
  }

  /** As Notional, but an order with a negative price ties up nothing. */
  function Reserved(q: seq<OrderData>): int {
    if q == [] then 0 else Max(0, q[0].price * q[0].remaining) + Reserved(q[1..])
  }

  /** Puts a new order behind every order with an equal or better price. */
  function Insert(forBuys: bool, q: seq<OrderData>, o: OrderData): seq<OrderData> {
    if q == [] || Before(forBuys, o.price, q[0].price) then [o] + q
    else [q[0]] + Insert(forBuys, q[1..], o)
  }

  function Remove(q: seq<OrderData>, id: nat): seq<OrderData> {
    if q == [] then []
    else if q[0].id == id then q[1..]
    else [q[0]] + Remove(q[1..], id)
  }

  function Find(q: seq<OrderData>, id: nat): Option<OrderData> {
    if q == [] then None
    else if q[0].id == id then Some(q[0])
    else Find(q[1..], id)
  }

  /** Gives order `id` a new quantity where it stands. */
  function Resize(q: seq<OrderData>, id: nat, newQuantity: int): seq<OrderData> {
    if q == [] then []
    else if q[0].id == id then [q[0].Modify(q[0].price, newQuantity)] + q[1..]
    else [q[0]] + Resize(q[1..], id, newQuantity)
  }

  // ---------- Matching ----------

  predicate PricesCross(incoming: OrderData, oppositePrice: int) {
    if IsBuy(incoming.side) then incoming.price >= oppositePrice else incoming.price <= oppositePrice
  }

  function MakeTrade(id: nat, incoming: OrderData, resting: OrderData, fill: int, time: int): Trade {
    if IsBuy(incoming.side)
    then Trade(id, incoming.id, resting.id, incoming.symbol, resting.price, fill, time)
    else Trade(id, resting.id, incoming.id, incoming.symbol, resting.price, fill, time)
  }

  datatype MatchResult = MatchResult(incoming: OrderData, resting: seq<OrderData>, trades: seq<Trade>)

  /**
    Trades `incoming` against the front of the opposite side until it is filled, the side is empty,
    or the best opposite price no longer crosses.
   */
  function Match(incoming: OrderData, resting: seq<OrderData>, nextId: nat, clock: Clock, tick: nat): MatchResult
    decreases |resting|
  {
    if incoming.remaining == 0 || resting == [] || !PricesCross(incoming, resting[0].price) then
      MatchResult(incoming, resting, [])
    else
      var fill := Min(incoming.remaining, resting[0].remaining);
      var taker := incoming.ApplyFill(fill);
      var maker := resting[0].ApplyFill(fill);
      var trade := MakeTrade(nextId, incoming, resting[0], fill, clock(tick));
      if maker.remaining == 0 then
        var rest := Match(taker, resting[1..], nextId + 1, clock, tick + 1);
        rest.(trades := [trade] + rest.trades)
      else
        MatchResult(taker, [maker] + resting[1..], [trade])
  }

  // ---------- The engine ----------

  datatype Engine = Engine(symbol: Symbol, buys: seq<OrderData>, sells: seq<OrderData>, nextTradeId: nat) {

    function Queue(forBuys: bool): seq<OrderData> {
      if forBuys then buys else sells
    }

    function WithQueue(forBuys: bool, q: seq<OrderData>): Engine {
      if forBuys then this.(buys := q) else this.(sells := q)
    }

    function RestingIds(): set<nat> {
      Ids(buys) + Ids(sells)
    }
  }

  function NewEngine(symbol: Symbol): Engine {
    Engine(symbol, [], [], 1)
  }

  function Submit(e: Engine, o: OrderData, clock: Clock, tick: nat): (Engine, seq<Trade>) {
    var own := IsBuy(o.side);
    var m := Match(o, e.Queue(!own), e.nextTradeId, clock, tick);
    var matched := e.WithQueue(!own, m.resting).(nextTradeId := e.nextTradeId + |m.trades|);
    if m.incoming.remaining == 0 then (matched, m.trades)
    else (matched.WithQueue(own, Insert(own, matched.Queue(own), m.incoming)), m.trades)
  }

  function FindOrder(e: Engine, id: nat): Option<OrderData> {
    var b := Find(e.buys, id);
    if b.Some? then b else Find(e.sells, id)
  }

  function Cancel(e: Engine, id: nat): Engine {
    e.(buys := Remove(e.buys, id), sells := Remove(e.sells, id))
  }

  function ResizeOrder(e: Engine, id: nat, newQuantity: int): Engine {
    e.(buys := Resize(e.buys, id, newQuantity), sells := Resize(e.sells, id, newQuantity))
  }

  /** A modify keeps its place exactly when it neither moves the price nor raises the open quantity. */
  predicate LosesPriority(current: OrderData, newPrice: int, newQuantity: int) {
    current.price != newPrice || newQuantity > current.remaining
  }

  function Modify(e: Engine, id: nat, newPrice: int, newQuantity: int, clock: Clock): (Engine, Option<seq<Trade>>) {
    match FindOrder(e, id)
    case None => (e, None)
    case Some(current) =>
      if LosesPriority(current, newPrice, newQuantity) then
        var replacement := NewOrder(id, current.symbol, current.side, newPrice, newQuantity, clock(0));
        var (e', trades) := Submit(Cancel(e, id), replacement, clock, 1);
        (e', Some(trades))
      else
        (ResizeOrder(e, id, newQuantity), Some([]))
  }

  // ---------- Well-formed states ----------

  /** No order stands behind one with a strictly worse price. */
  ghost predicate Sorted(forBuys: bool, q: seq<OrderData>) {
    forall i, j | 0 <= i < j < |q| :: !Before(forBuys, q[j].price, q[i].price)
  }

  ghost predicate UniqueIds(q: seq<OrderData>) {
    forall i, j | 0 <= i < j < |q| :: q[i].id != q[j].id
  }

  ghost predicate QueueOk(forBuys: bool, q: seq<OrderData>) {
    && Sorted(forBuys, q)
    && UniqueIds(q)
    && forall o <- q :: IsBuy(o.side) == forBuys
  }

  ghost predicate WellFormed(e: Engine) {
    && QueueOk(true, e.buys)
    && QueueOk(false, e.sells)
    && Ids(e.buys) !! Ids(e.sells)
    && e.nextTradeId >= 1
  }

  /** No resting buy meets a resting sell. */
  ghost predicate Uncrossed(e: Engine) {
    forall b <- e.buys, s <- e.sells :: b.price < s.price
  }

  ghost predicate Positive(q: seq<OrderData>) {
    forall o <- q :: o.remaining > 0
  }
}
