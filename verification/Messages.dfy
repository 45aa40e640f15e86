/** The messages between services, their encodings, and what a reader can rely on. */
module Messages {
  import opened Types
  import opened Codec

  datatype Message =
    | NewOrderMsg(order: OrderData)
    | CancelMsg(orderId: nat)
    | ModifyMsg(orderId: nat, newPrice: int, newQuantity: int)
    | AckMsg(orderId: nat, trades: seq<Trade>)
    | RejectMsg(orderId: nat, reason: Bytes)
    | QueryMsg(symbol: Symbol)
    | SnapshotMsg(symbol: Symbol, bids: seq<LevelSnapshot>, asks: seq<LevelSnapshot>)
    | TradeMsg(trade: Trade)

  /** The type byte of a frame. */
  const NEW_ORDER: Byte := 1
  const CANCEL_ORDER: Byte := 2
  const MODIFY_ORDER: Byte := 3
  const ORDER_ACK: Byte := 4
  const ORDER_REJECT: Byte := 5
  const TRADE_EVENT: Byte := 6
  const BOOK_QUERY: Byte := 8
  const BOOK_SNAPSHOT: Byte := 9

  function TypeOf(m: Message): Byte {
    match m
    case NewOrderMsg(_) => NEW_ORDER
    case CancelMsg(_) => CANCEL_ORDER
    case ModifyMsg(_, _, _) => MODIFY_ORDER
    case AckMsg(_, _) => ORDER_ACK
    case RejectMsg(_, _) => ORDER_REJECT
    case QueryMsg(_) => BOOK_QUERY
    case SnapshotMsg(_, _, _) => BOOK_SNAPSHOT
    case TradeMsg(_) => TRADE_EVENT
  }

  function Put(m: Message, rest: Bytes): Bytes {
    match m
    case NewOrderMsg(order) => PutOrder(order, rest)
    case CancelMsg(id) => PutU64(id, rest)
    case ModifyMsg(id, price, quantity) => PutU64(id, PutI64(price, PutI64(quantity, rest)))
    case AckMsg(id, trades) => PutU64(id, PutU32(|trades|, PutTrades(trades, rest)))
    case RejectMsg(id, reason) => PutU64(id, PutString(reason, rest))
    case QueryMsg(symbol) => PutString(symbol, rest)
    case SnapshotMsg(symbol, bids, asks) =>
      PutString(symbol, PutU32(|bids|, PutLevels(bids, PutU32(|asks|, PutLevels(asks, rest)))))
    case TradeMsg(trade) => PutTrade(trade, rest)
  }

  function GetCancel(s: Bytes): Got<Message> {
    var (id, s1) :- GetU64(s);
    Some((CancelMsg(id), s1))
  }

  function GetModify(s: Bytes): Got<Message> {
    var (id, s1) :- GetU64(s);
    var (price, s2) :- GetI64(s1);
    var (quantity, s3) :- GetI64(s2);
    Some((ModifyMsg(id, price, quantity), s3))
  }

  function GetAck(s: Bytes): Got<Message> {
    var (id, s1) :- GetU64(s);
    var (count, s2) :- GetU32(s1);
    var (trades, s3) :- GetTrades(count, s2);
    Some((AckMsg(id, trades), s3))
  }

  function GetReject(s: Bytes): Got<Message> {
    var (id, s1) :- GetU64(s);
    var (reason, s2) :- GetString(s1);
    Some((RejectMsg(id, reason), s2))
  }

  function GetQuery(s: Bytes): Got<Message> {
    var (symbol, s1) :- GetString(s);
    Some((QueryMsg(symbol), s1))
  }

  function GetSnapshot(s: Bytes): Got<Message> {
    var (symbol, s1) :- GetString(s);
    var (bidCount, s2) :- GetU32(s1);
    var (bids, s3) :- GetLevels(bidCount, s2);
    var (askCount, s4) :- GetU32(s3);
    var (asks, s5) :- GetLevels(askCount, s4);
    Some((SnapshotMsg(symbol, bids, asks), s5))
  }

  /** Reads a message of the type named by a frame; None for a malformed payload or an unknown type. */
  function Get(kind: Byte, s: Bytes): Got<Message> {
    if kind == NEW_ORDER then (var (order, rest) :- GetOrder(s); Some((NewOrderMsg(order), rest)))
    else if kind == CANCEL_ORDER then GetCancel(s)
    else if kind == MODIFY_ORDER then GetModify(s)
    else if kind == ORDER_ACK then GetAck(s)
    else if kind == ORDER_REJECT then GetReject(s)
    else if kind == BOOK_QUERY then GetQuery(s)
    else if kind == BOOK_SNAPSHOT then GetSnapshot(s)
    else if kind == TRADE_EVENT then (var (trade, rest) :- GetTrade(s); Some((TradeMsg(trade), rest)))
    else None
  }

  /** Strings and lists short enough for their 32-bit counts. */
  predicate Countable(m: Message) {
    match m
    case NewOrderMsg(order) => |order.symbol| < U32
    case CancelMsg(_) => true
    case ModifyMsg(_, _, _) => true
    case AckMsg(_, trades) => |trades| < U32 && forall t <- trades :: |t.symbol| < U32
    case RejectMsg(_, reason) => |reason| < U32
    case QueryMsg(symbol) => |symbol| < U32
    case SnapshotMsg(symbol, bids, asks) => |symbol| < U32 && |bids| < U32 && |asks| < U32
    case TradeMsg(trade) => |trade.symbol| < U32
  }

  /** Every field within its machine width; an order on the wire has its whole quantity remaining. */
  predicate Fits(m: Message) {
    && Countable(m)
    && match m
       case NewOrderMsg(order) => OrderFits(order) && order.remaining == order.quantity
       case CancelMsg(id) => id < U64
       case ModifyMsg(id, price, quantity) => id < U64 && IsI64(price) && IsI64(quantity)
       case AckMsg(id, trades) => id < U64 && forall t <- trades :: TradeFits(t)
       case RejectMsg(id, _) => id < U64
       case QueryMsg(_) => true
       case SnapshotMsg(_, bids, asks) => (forall l <- bids :: LevelFits(l)) && forall l <- asks :: LevelFits(l)
       case TradeMsg(trade) => TradeFits(trade)
  }

  // ---------- Reading back what was written ----------

  /** Whatever follows, a written message is read back, and exactly its own bytes are used up. */
  lemma {:induction false} ReadBack(m: Message, rest: Bytes)
    requires Countable(m)
    ensures var g := Get(TypeOf(m), Put(m, rest));
            && g.Some?
            && g.value.1 == rest
            && (Fits(m) ==> g.value.0 == m)
  {
    hide PutU64, PutU32, PutString, PutI64, GetU64, GetU32, GetString, GetI64, GetOrder, PutOrder, GetTrade, PutTrade,
         PutTrades, GetTrades, PutLevels, GetLevels, TradeFits, LevelFits, OrderFits;
    match m
    case NewOrderMsg(order) =>
      ReadOrder(order, rest);
    case CancelMsg(id) =>
      ReadU64(id, rest);
    case ModifyMsg(id, price, quantity) =>
      ReadU64(id, PutI64(price, PutI64(quantity, rest)));
      ReadI64(price, PutI64(quantity, rest));
      ReadI64(quantity, rest);
    case AckMsg(id, trades) =>
      ReadU64(id, PutU32(|trades|, PutTrades(trades, rest)));
      ReadU32(|trades|, PutTrades(trades, rest));
      ReadTrades(trades, rest);
    case RejectMsg(id, reason) =>
      ReadU64(id, PutString(reason, rest));
      ReadString(reason, rest);
    case QueryMsg(symbol) =>
      ReadString(symbol, rest);
    case SnapshotMsg(symbol, bids, asks) =>
      ReadString(symbol, PutU32(|bids|, PutLevels(bids, PutU32(|asks|, PutLevels(asks, rest)))));
      ReadU32(|bids|, PutLevels(bids, PutU32(|asks|, PutLevels(asks, rest))));
      ReadLevels(bids, PutU32(|asks|, PutLevels(asks, rest)));
      ReadU32(|asks|, PutLevels(asks, rest));
      ReadLevels(asks, rest);
    case TradeMsg(trade) =>
      ReadTrade(trade, rest);
  }

  /** The format is canonical: a message that can be read was written from that very value. */
  lemma Canonical(kind: Byte, s: Bytes)
    ensures var g := Get(kind, s);
            g.Some? ==>
              && TypeOf(g.value.0) == kind
              && Fits(g.value.0)
              && s == Put(g.value.0, g.value.1)
  {
    hide PutU64, PutU32, PutString, PutI64, GetU64, GetU32, GetString, GetI64, GetOrder, PutOrder, GetTrade, PutTrade;
    if Get(kind, s).Some? {
      if kind == NEW_ORDER {
        CanonOrder(s);
      } else if kind == CANCEL_ORDER {
        CanonU64(s);
      } else if kind == MODIFY_ORDER {
        CanonU64(s);
        var (_, s1) := GetU64(s).value;
        CanonI64(s1);
        CanonI64(GetI64(s1).value.1);
      } else if kind == ORDER_ACK {
        CanonAck(s);
      } else if kind == ORDER_REJECT {
        CanonU64(s);
        CanonString(GetU64(s).value.1);
      } else if kind == BOOK_QUERY {
        CanonString(s);
      } else if kind == BOOK_SNAPSHOT {
        CanonSnapshot(s);
      } else {
        CanonTrade(s);
      }
    }
  }

  lemma CanonAck(s: Bytes)
    ensures var g := GetAck(s);
            g.Some? ==> g.value.0.AckMsg? && Fits(g.value.0) && s == Put(g.value.0, g.value.1)
  {
    hide PutU64, PutU32, GetU64, GetU32, TradeFits;
    if GetAck(s).Some? {
      var (_, s1) := GetU64(s).value;
      var (count, s2) := GetU32(s1).value;
      CanonU64(s);
      CanonU32(s1);
      CanonTrades(count, s2);
      assert forall t: Trade :: TradeFits(t) ==> |t.symbol| < U32 by { TradeSymbols(); }
    }
  }

  lemma TradeSymbols()
    ensures forall t: Trade :: TradeFits(t) ==> |t.symbol| < U32
  {
  }

  lemma CanonSnapshot(s: Bytes)
    ensures var g := GetSnapshot(s);
            g.Some? ==> g.value.0.SnapshotMsg? && Fits(g.value.0) && s == Put(g.value.0, g.value.1)
  {
    hide PutString, PutU32, GetString, GetU32, LevelFits;
    if GetSnapshot(s).Some? {
      var (_, s1) := GetString(s).value;
      var (bidCount, s2) := GetU32(s1).value;
      var (_, s3) := GetLevels(bidCount, s2).value;
      var (askCount, s4) := GetU32(s3).value;
      CanonString(s);
      CanonU32(s1);
      CanonLevels(bidCount, s2);
      CanonU32(s3);
      CanonLevels(askCount, s4);
    }
  }

  // ---------- Truncated messages ----------

  lemma AppendU64(v: nat, a: Bytes, b: Bytes)
    ensures PutU64(v, a) + b == PutU64(v, a + b)
  {
  }

  lemma AppendU32(v: nat, a: Bytes, b: Bytes)
    ensures PutU32(v, a) + b == PutU32(v, a + b)
  {
  }

  lemma AppendString(v: Bytes, a: Bytes, b: Bytes)
    ensures PutString(v, a) + b == PutString(v, a + b)
  {
    AppendU32(|v|, v + a, b);
    assert (v + a) + b == v + (a + b);
  }

  lemma AppendI64(v: int, a: Bytes, b: Bytes)
    ensures PutI64(v, a) + b == PutI64(v, a + b)
  {
    AppendU64(v % U64, a, b);
  }

  lemma AppendTrade(t: Trade, a: Bytes, b: Bytes)
    ensures PutTrade(t, a) + b == PutTrade(t, a + b)
  {
    hide PutU64, PutString, PutI64;
    var a7 := PutI64(t.timestamp, a);
    var a6 := PutI64(t.quantity, a7);
    var a5 := PutI64(t.price, a6);
    var a4 := PutString(t.symbol, a5);
    var a3 := PutU64(t.sellId, a4);
    AppendU64(t.id, PutU64(t.buyId, a3), b);
    AppendU64(t.buyId, a3, b);
    AppendU64(t.sellId, a4, b);
    AppendString(t.symbol, a5, b);
    AppendI64(t.price, a6, b);
    AppendI64(t.quantity, a7, b);
    AppendI64(t.timestamp, a, b);
  }

  lemma AppendOrder(o: OrderData, a: Bytes, b: Bytes)
    ensures PutOrder(o, a) + b == PutOrder(o, a + b)
  {
    hide PutU64, PutString, PutI64;
    var a6 := PutI64(o.timestamp, a);
    var a5 := PutI64(o.quantity, a6);
    var a4 := PutI64(o.price, a5);
    var a3 := PutU8(o.side, a4);
    AppendU64(o.id, PutString(o.symbol, a3), b);
    AppendString(o.symbol, a3, b);
    assert PutU8(o.side, a4) + b == PutU8(o.side, a4 + b);
    AppendI64(o.price, a5, b);
    AppendI64(o.quantity, a6, b);
    AppendI64(o.timestamp, a, b);
  }

  lemma {:induction false} AppendTrades(ts: seq<Trade>, a: Bytes, b: Bytes)
    ensures PutTrades(ts, a) + b == PutTrades(ts, a + b)
  {
    hide PutTrade;
    if ts != [] {
      AppendTrade(ts[0], PutTrades(ts[1..], a), b);
      AppendTrades(ts[1..], a, b);
    }
  }

  lemma {:induction false} AppendLevels(ls: seq<LevelSnapshot>, a: Bytes, b: Bytes)
    ensures PutLevels(ls, a) + b == PutLevels(ls, a + b)
  {
    hide PutU32, PutI64;
    if ls != [] {
      var tail := PutLevels(ls[1..], a);
      AppendI64(ls[0].price, PutI64(ls[0].totalQuantity, PutU32(ls[0].orderCount, tail)), b);
      AppendI64(ls[0].totalQuantity, PutU32(ls[0].orderCount, tail), b);
      AppendU32(ls[0].orderCount, tail, b);
      AppendLevels(ls[1..], a, b);
    }
  }

  lemma {:induction false} Append(m: Message, a: Bytes, b: Bytes)
    ensures Put(m, a) + b == Put(m, a + b)
  {
    hide PutU64, PutU32, PutString, PutI64, PutOrder, PutTrade;
    match m
    case NewOrderMsg(order) => AppendOrder(order, a, b);
    case CancelMsg(id) => AppendU64(id, a, b);
    case ModifyMsg(id, price, quantity) =>
      AppendU64(id, PutI64(price, PutI64(quantity, a)), b);
      AppendI64(price, PutI64(quantity, a), b);
      AppendI64(quantity, a, b);
    case AckMsg(id, trades) =>
      AppendU64(id, PutU32(|trades|, PutTrades(trades, a)), b);
      AppendU32(|trades|, PutTrades(trades, a), b);
      AppendTrades(trades, a, b);
    case RejectMsg(id, reason) =>
      AppendU64(id, PutString(reason, a), b);
      AppendString(reason, a, b);
    case QueryMsg(symbol) => AppendString(symbol, a, b);
    case SnapshotMsg(symbol, bids, asks) =>
      var tail := PutU32(|asks|, PutLevels(asks, a));
      AppendString(symbol, PutU32(|bids|, PutLevels(bids, tail)), b);
      AppendU32(|bids|, PutLevels(bids, tail), b);
      AppendLevels(bids, tail, b);
      AppendU32(|asks|, PutLevels(asks, a), b);
      AppendLevels(asks, a, b);
    case TradeMsg(trade) => AppendTrade(trade, a, b);
  }

  /** Every strict prefix of an encoding is refused. */
  lemma PrefixRefused(m: Message, p: Bytes)
    requires Countable(m) && p < Put(m, [])
    ensures Get(TypeOf(m), p) == None
  {
    hide Put, Get, TypeOf, Fits, Countable;
    var whole := Put(m, []);
    var q := whole[|p|..];
    assert p + q == whole;
    var g := Get(TypeOf(m), p);
    if g.Some? {
      var (y, r) := g.value;
      Canonical(TypeOf(m), p);
      Append(y, r, q);
      FitsCountable(y);
      ReadBack(y, r + q);
      ReadBack(m, []);
    }
  }

  lemma FitsCountable(m: Message)
    requires Fits(m)
    ensures Countable(m)
  {
  }

  /**
    A message survives the wire exactly when its fields fit and, for an order, nothing of it is filled:
    only the original quantity travels.
   */
  lemma RoundTripIff(m: Message, rest: Bytes)
    ensures Get(TypeOf(m), Put(m, rest)) == Some((m, rest)) <==> Fits(m)
  {
    hide Put, Get, TypeOf, Fits, Countable;
    Canonical(TypeOf(m), Put(m, rest));
    if Fits(m) {
      FitsCountable(m);
      ReadBack(m, rest);
    }
  }
}
