/**
  The frames of every request and answer, byte by byte, as a client in any language would write and
  read them, and what a gateway does with frames that are no requests.
 */
module WireFormat {
  import opened Types
  import opened Codec
  import opened ByteIO
  import opened Messages
  import opened Frames
  import opened Exchange
  import opened Risk
  import opened Services

  // ---------- Fields ----------

  /** The low four bytes, most significant first. */
  function Four(v: nat): Bytes {
    [v / 0x100_0000 % 256, v / 0x1_0000 % 256, v / 0x100 % 256, v % 256]
  }

  /** A count or a length. */
  function Half(v: nat): Bytes {
    Four(v % 0x1_0000_0000)
  }

  /** A number of eight bytes; negative ones in two's complement. */
  function Word(v: int): Bytes {
    var u := v % 0x1_0000_0000_0000_0000;
    Four(u / 0x1_0000_0000) + Four(u)
  }

  /** A length and as many characters. */
  function Chars(s: Bytes): Bytes {
    Half(|s|) + s
  }

  lemma FourIsBigEndian(v: nat)
    ensures BigEndian(v, 4) == Four(v)
  {
    hide BigEndian;
    FourBytes(v);
  }

  lemma PutHalf(v: nat, rest: Bytes)
    ensures PutU32(v, rest) == Half(v) + rest
  {
    hide BigEndian, Four;
    FourIsBigEndian(v % U32);
  }

  lemma PutWord(v: nat, rest: Bytes)
    ensures PutU64(v, rest) == Word(v) + rest
  {
    hide BigEndian, Four;
    var u := v % U64;
    LowFourBytes(u, 4);
    FourBytes(u);
    FourIsBigEndian(u / U32);
    FourIsBigEndian(u);
  }

  lemma PutSigned(v: int, rest: Bytes)
    ensures PutI64(v, rest) == Word(v) + rest
  {
    hide BigEndian, Four;
    var u := v % U64;
    ModUnique(u, U64, 0, u);
    PutWord(u, rest);
  }

  lemma PutChars(s: Bytes, rest: Bytes)
    ensures PutString(s, rest) == Chars(s) + rest
  {
    PutHalf(|s|, s + rest);
  }

  // ---------- Orders, trades and levels ----------

  function OrderBytes(o: OrderData): Bytes {
    Word(o.id) + Chars(o.symbol) + [o.side] + Word(o.price) + Word(o.quantity) + Word(o.timestamp)
  }

  function TradeBytes(t: Trade): Bytes {
    Word(t.id) + Word(t.buyId) + Word(t.sellId) + Chars(t.symbol) + Word(t.price) + Word(t.quantity) + Word(t.timestamp)
  }

  function AllTradeBytes(ts: seq<Trade>): Bytes {
    if ts == [] then [] else TradeBytes(ts[0]) + AllTradeBytes(ts[1..])
  }

  function LevelBytes(l: LevelSnapshot): Bytes {
    Word(l.price) + Word(l.totalQuantity) + Half(l.orderCount)
  }

  function AllLevelBytes(ls: seq<LevelSnapshot>): Bytes {
    if ls == [] then [] else LevelBytes(ls[0]) + AllLevelBytes(ls[1..])
  }

  lemma OrderFormat(o: OrderData, rest: Bytes)
    ensures PutOrder(o, rest) == OrderBytes(o) + rest
  {
    hide Word, Chars, PutU64, PutI64, PutString;
    var r3 := Word(o.timestamp) + rest;
    var r2 := Word(o.quantity) + r3;
    var r1 := Word(o.price) + r2;
    PutSigned(o.timestamp, rest);
    PutSigned(o.quantity, r3);
    PutSigned(o.price, r2);
    PutChars(o.symbol, [o.side] + r1);
    PutWord(o.id, Chars(o.symbol) + ([o.side] + r1));
    assert OrderBytes(o) + rest == Word(o.id) + (Chars(o.symbol) + ([o.side] + r1));
  }

  lemma TradeFormat(t: Trade, rest: Bytes)
    ensures PutTrade(t, rest) == TradeBytes(t) + rest
  {
    hide Word, Chars, PutU64, PutI64, PutString;
    var r3 := Word(t.timestamp) + rest;
    var r2 := Word(t.quantity) + r3;
    var r1 := Word(t.price) + r2;
    var r0 := Chars(t.symbol) + r1;
    PutSigned(t.timestamp, rest);
    PutSigned(t.quantity, r3);
    PutSigned(t.price, r2);
    PutChars(t.symbol, r1);
    PutWord(t.sellId, r0);
    PutWord(t.buyId, Word(t.sellId) + r0);
    PutWord(t.id, Word(t.buyId) + (Word(t.sellId) + r0));
    assert TradeBytes(t) + rest == Word(t.id) + (Word(t.buyId) + (Word(t.sellId) + r0));
  }

  lemma {:induction false} TradesFormat(ts: seq<Trade>, rest: Bytes)
    ensures PutTrades(ts, rest) == AllTradeBytes(ts) + rest
  {
    hide TradeBytes, PutTrade;
    if ts == [] {
      assert [] + rest == rest;
    } else {
      TradesFormat(ts[1..], rest);
      TradeFormat(ts[0], AllTradeBytes(ts[1..]) + rest);
    }
  }

  lemma {:induction false} LevelsFormat(ls: seq<LevelSnapshot>, rest: Bytes)
    ensures PutLevels(ls, rest) == AllLevelBytes(ls) + rest
  {
    hide Word, Half, PutI64, PutU32;
    if ls == [] {
      assert [] + rest == rest;
    } else {
      var l, r := ls[0], AllLevelBytes(ls[1..]) + rest;
      LevelsFormat(ls[1..], rest);
      PutHalf(l.orderCount, r);
      PutSigned(l.totalQuantity, Half(l.orderCount) + r);
      PutSigned(l.price, Word(l.totalQuantity) + (Half(l.orderCount) + r));
      assert LevelBytes(l) + AllLevelBytes(ls[1..]) + rest
          == Word(l.price) + (Word(l.totalQuantity) + (Half(l.orderCount) + r));
    }
  }

  // ---------- Frames ----------

  /** Four bytes of length, for type and payload together, the type, the payload. */
  lemma FrameFormat(f: Frame)
    ensures EncodeFrame(f) == Half(|f.payload| + 1) + [f.kind] + f.payload
  {
    hide Half, PutU32;
    PutHalf(|f.payload| + 1, [f.kind] + f.payload);
    assert Half(|f.payload| + 1) + [f.kind] + f.payload == Half(|f.payload| + 1) + ([f.kind] + f.payload);
  }

  lemma NewOrderFrame(o: OrderData)
    ensures Wrap(NewOrderMsg(o)) == Half(|o.symbol| + 38) + [1] + OrderBytes(o)
  {
    hide Word, Half, PutOrder, EncodeFrame;
    OrderFormat(o, []);
    assert OrderBytes(o) + [] == OrderBytes(o);
    FrameFormat(FrameOf(NewOrderMsg(o)));
    OrderLength(o);
  }

  lemma OrderLength(o: OrderData)
    ensures |OrderBytes(o)| == |o.symbol| + 37
  {
  }

  lemma CancelFrame(id: nat)
    ensures Wrap(CancelMsg(id)) == [0, 0, 0, 9, 2] + Word(id)
  {
    hide Word, PutU64, EncodeFrame;
    PutWord(id, []);
    assert Word(id) + [] == Word(id);
    FrameFormat(FrameOf(CancelMsg(id)));
    WordLength(id);
    assert Half(9) == [0, 0, 0, 9];
  }

  lemma WordLength(v: int)
    ensures |Word(v)| == 8
  {
  }

  lemma ModifyFrame(id: nat, newPrice: int, newQuantity: int)
    ensures Wrap(ModifyMsg(id, newPrice, newQuantity))
         == [0, 0, 0, 25, 3] + Word(id) + Word(newPrice) + Word(newQuantity)
  {
    hide Word, PutU64, PutI64, EncodeFrame;
    PutSigned(newQuantity, []);
    PutSigned(newPrice, Word(newQuantity));
    PutWord(id, Word(newPrice) + Word(newQuantity));
    assert Word(newQuantity) + [] == Word(newQuantity);
    FrameFormat(FrameOf(ModifyMsg(id, newPrice, newQuantity)));
    WordLength(id);
    WordLength(newPrice);
    WordLength(newQuantity);
    assert Half(25) == [0, 0, 0, 25];
    assert [0, 0, 0, 25, 3] + Word(id) + Word(newPrice) + Word(newQuantity)
        == [0, 0, 0, 25] + [3] + (Word(id) + (Word(newPrice) + Word(newQuantity)));
  }

  lemma AckFrame(id: nat, trades: seq<Trade>)
    ensures Wrap(AckMsg(id, trades))
         == Half(|AllTradeBytes(trades)| + 13) + [4] + Word(id) + Half(|trades|) + AllTradeBytes(trades)
  {
    hide Word, Half, PutU64, PutU32, EncodeFrame;
    TradesFormat(trades, []);
    assert AllTradeBytes(trades) + [] == AllTradeBytes(trades);
    PutHalf(|trades|, AllTradeBytes(trades));
    PutWord(id, Half(|trades|) + AllTradeBytes(trades));
    FrameFormat(FrameOf(AckMsg(id, trades)));
    WordLength(id);
    HalfLength(|trades|);
    var h := Half(|AllTradeBytes(trades)| + 13) + [4];
    assert h + Word(id) + Half(|trades|) + AllTradeBytes(trades)
        == h + (Word(id) + (Half(|trades|) + AllTradeBytes(trades)));
  }

  lemma HalfLength(v: nat)
    ensures |Half(v)| == 4
  {
  }

  lemma RejectFrame(id: nat, reason: Bytes)
    ensures Wrap(RejectMsg(id, reason)) == Half(|reason| + 13) + [5] + Word(id) + Chars(reason)
  {
    hide Word, Half, PutU64, PutString, EncodeFrame;
    PutChars(reason, []);
    assert Chars(reason) + [] == Chars(reason);
    PutWord(id, Chars(reason));
    FrameFormat(FrameOf(RejectMsg(id, reason)));
    WordLength(id);
    HalfLength(|reason|);
    var h := Half(|reason| + 13) + [5];
    assert h + Word(id) + Chars(reason) == h + (Word(id) + Chars(reason));
  }

  lemma QueryFrame(symbol: Symbol)
    ensures Wrap(QueryMsg(symbol)) == Half(|symbol| + 5) + [8] + Chars(symbol)
  {
    hide Half, PutString, EncodeFrame;
    PutChars(symbol, []);
    assert Chars(symbol) + [] == Chars(symbol);
    FrameFormat(FrameOf(QueryMsg(symbol)));
    HalfLength(|symbol|);
  }

  function SnapshotBytes(symbol: Symbol, bids: seq<LevelSnapshot>, asks: seq<LevelSnapshot>): Bytes {
    Chars(symbol) + Half(|bids|) + AllLevelBytes(bids) + Half(|asks|) + AllLevelBytes(asks)
  }

  lemma SnapshotFrame(symbol: Symbol, bids: seq<LevelSnapshot>, asks: seq<LevelSnapshot>)
    ensures Wrap(SnapshotMsg(symbol, bids, asks))
         == Half(|SnapshotBytes(symbol, bids, asks)| + 1) + [9] + SnapshotBytes(symbol, bids, asks)
  {
    hide Half, Chars, PutU32, PutString, EncodeFrame;
    var a := Half(|asks|) + AllLevelBytes(asks);
    var b := Half(|bids|) + (AllLevelBytes(bids) + a);
    LevelsFormat(asks, []);
    assert AllLevelBytes(asks) + [] == AllLevelBytes(asks);
    PutHalf(|asks|, AllLevelBytes(asks));
    LevelsFormat(bids, a);
    PutHalf(|bids|, AllLevelBytes(bids) + a);
    PutChars(symbol, b);
    assert SnapshotBytes(symbol, bids, asks) == Chars(symbol) + b;
    FrameFormat(FrameOf(SnapshotMsg(symbol, bids, asks)));
  }

  /** A published trade: its fields alone, without a frame. */
  lemma TradePayload(t: Trade)
    ensures Put(TradeMsg(t), []) == TradeBytes(t)
  {
    hide TradeBytes, PutTrade;
    TradeFormat(t, []);
    assert TradeBytes(t) + [] == TradeBytes(t);
  }

  // ---------- What the gateway reads ----------

  /** The bytes of a request, as a client lays them out, with more bytes after them. */
  lemma RequestsRead(o: OrderData, id: nat, price: int, quantity: int, symbol: Symbol, more: Bytes)
    ensures OrderFits(o) && o.remaining == o.quantity ==>
              ParseRequest(Frame(1, OrderBytes(o) + more)) == Some(NewOrderMsg(o))
    ensures id < U64 ==> ParseRequest(Frame(2, Word(id) + more)) == Some(CancelMsg(id))
    ensures id < U64 && IsI64(price) && IsI64(quantity) ==>
              ParseRequest(Frame(3, Word(id) + Word(price) + Word(quantity) + more))
              == Some(ModifyMsg(id, price, quantity))
    ensures |symbol| < U32 ==> ParseRequest(Frame(8, Chars(symbol) + more)) == Some(QueryMsg(symbol))
  {
    hide Word, Chars, OrderBytes, PutOrder, PutU64, PutI64, PutString, Get;
    OrderFormat(o, more);
    RoundTripIff(NewOrderMsg(o), more);
    PutWord(id, more);
    RoundTripIff(CancelMsg(id), more);
    PutSigned(quantity, more);
    PutSigned(price, Word(quantity) + more);
    PutWord(id, Word(price) + (Word(quantity) + more));
    assert Word(id) + Word(price) + Word(quantity) + more == Word(id) + (Word(price) + (Word(quantity) + more));
    RoundTripIff(ModifyMsg(id, price, quantity), more);
    PutChars(symbol, more);
    RoundTripIff(QueryMsg(symbol), more);
  }

  /** The bytes of a refusal. */
  function RefusalBytes(id: nat, reason: string): Bytes {
    Half(|reason| + 13) + [5] + Word(id) + Chars(Text(reason))
  }

  /** Frames of no request type, and requests that cannot be read, are refused and change nothing. */
  lemma OtherFramesRefused(config: RiskConfig, buyingPower: int, es: Engines, f: Frame, clock: Clock)
    ensures var answer := GatewayInProcess(config, buyingPower, es, f, clock);
            if f.kind !in {1, 2, 3, 8} then answer == (buyingPower, es, RefusalBytes(0, "unknown message type"))
            else ParseRequest(f).None? ==> answer == (buyingPower, es, RefusalBytes(0, "malformed message payload"))
    ensures var answer := MatchingHandle(es, f, clock);
            if f.kind !in {1, 2, 3, 8} then answer == (es, RefusalBytes(0, "unknown message type"))
            else ParseRequest(f).None? ==> answer == (es, RefusalBytes(0, "malformed message payload"))
  {
    hide ParseRequest, Wrap, Half, Word, Chars, Process, Serve, Text;
    RefusalFormat("unknown message type");
    RefusalFormat("malformed message payload");
  }

  lemma RefusalFormat(reason: string)
    ensures Refusal(reason) == RefusalBytes(0, reason)
  {
    hide Wrap, Half, Word, Chars;
    RejectFrame(0, Text(reason));
  }

  /** A request cannot be read exactly when its payload is too short for its fields. */
  lemma UnreadableIff(f: Frame)
    requires f.kind in {1, 2, 3, 8}
    ensures var s := f.payload;
            ParseRequest(f).None?
            <==> || (f.kind == 1 && (|s| < 12 || |s| < 37 + FromBigEndian(s[8..12])))
                 || (f.kind == 2 && |s| < 8)
                 || (f.kind == 3 && |s| < 24)
                 || (f.kind == 8 && (|s| < 4 || |s| < 4 + FromBigEndian(s[..4])))
  {
    hide FromBigEndian;
    if f.kind == 1 && |f.payload| >= 12 {
      assert f.payload[8..][..4] == f.payload[8..12];
    }
  }
}
