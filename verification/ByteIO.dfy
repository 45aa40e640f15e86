/**
  The byte writer and reader objects with their loops, and the message encoders built on them. Each
  writer takes the bytes that its caller will write next (`rest`), so that its contract can say that
  what was written and what follows make up the encoding.
 */
module ByteIO {
  import opened Types
  import opened Codec
  import opened Messages

  lemma LowHalf(v: nat, rest: Bytes)
    ensures PutU32(v % U32, rest) == PutU32(v, rest)
  {
    hide BigEndian;
    ModUnique(v % U32, U32, 0, v % U32);
  }

  lemma LowWord(v: nat, rest: Bytes)
    ensures PutU64(v % U64, rest) == PutU64(v, rest)
  {
    hide BigEndian;
    ModUnique(v % U64, U64, 0, v % U64);
  }

  /** The four shifts of the 32-bit writer. */
  lemma FourBytes(v: nat)
    ensures BigEndian(v, 4) == [v / 0x100_0000 % 256, v / 0x1_0000 % 256, v / 0x100 % 256, v % 256]
  {
    LowFourBytes(v, 0);
  }

  /** The low four bytes of a number, behind those of the number without them. */
  lemma LowFourBytes(v: nat, n: nat)
    ensures BigEndian(v, n + 4)
         == BigEndian(v / 0x1_0000_0000, n)
            + [v / 0x100_0000 % 256, v / 0x1_0000 % 256, v / 0x100 % 256, v % 256]
  {
    hide BigEndian;
    var a, b, c := v / 0x100, v / 0x1_0000, v / 0x100_0000;
    LastByte(v, n + 3);
    LastByte(a, n + 2);
    LastByte(b, n + 1);
    LastByte(c, n);
    assert a / 0x100 == b && b / 0x100 == c && c / 0x100 == v / 0x1_0000_0000;
  }

  lemma LastByte(v: nat, n: nat)
    ensures BigEndian(v, n + 1) == BigEndian(v / 0x100, n) + [v % 0x100]
  {
  }

  /** v >> 8 * bytes */
  function ShiftRight(v: nat, bytes: nat): nat {
    if bytes == 0 then v else ShiftRight(v / 256, bytes - 1)
  }

  lemma {:induction false} ShiftOneMore(v: nat, bytes: nat)
    ensures ShiftRight(v, bytes + 1) == ShiftRight(v, bytes) / 256
  {
    if bytes > 0 {
      ShiftOneMore(v / 256, bytes - 1);
    }
  }

  /** One more byte of the shift loop. */
  lemma EmitsNext(v: nat, i: nat, done: nat)
    ensures BigEndian(ShiftRight(v, i + 1), done) + [ShiftRight(v, i) % 256] == BigEndian(ShiftRight(v, i), done + 1)
  {
    ShiftOneMore(v, i);
  }

  lemma PutWord(v: nat, rest: Bytes)
    requires v < U64
    ensures PutU64(v, rest) == BigEndian(ShiftRight(v, 0), 8) + rest
  {
    hide BigEndian;
    ModUnique(v, U64, 0, v);
  }

  class ByteWriter {
    var buffer: Bytes

    constructor ()
      ensures buffer == []
    {
      buffer := [];
    }

    method WriteUInt8(v: Byte, ghost rest: Bytes)
      modifies this
      ensures buffer + rest == old(buffer) + PutU8(v, rest)
    {
      buffer := buffer + [v];
    }

    method WriteUInt32(v: nat, ghost rest: Bytes)
      requires v < U32
      modifies this
      ensures buffer + rest == old(buffer) + PutU32(v, rest)
    {
      hide BigEndian;
      ghost var b := BigEndian(v, 4);
      FourBytes(v);
      buffer := buffer + [v / 0x100_0000 % 256];
      buffer := buffer + [v / 0x1_0000 % 256];
      buffer := buffer + [v / 0x100 % 256];
      buffer := buffer + [v % 256];
      assert buffer == old(buffer) + b;
    }

    method WriteUInt64(v: nat, ghost rest: Bytes)
      requires v < U64
      modifies this
      ensures buffer + rest == old(buffer) + PutU64(v, rest)
    {
      hide BigEndian, ShiftRight, PutU64;
      var i := 8;
      PutWord(v, rest);
      while i > 0
        invariant 0 <= i <= 8
        invariant buffer == old(buffer) + BigEndian(ShiftRight(v, i), 8 - i)
      {
        i := i - 1;
        EmitsNext(v, i, 7 - i);
        buffer := buffer + [ShiftRight(v, i) % 256];
      }
    }

    /** The cast of a signed value to uint64_t. */
    method WriteInt64(v: int, ghost rest: Bytes)
      modifies this
      ensures buffer + rest == old(buffer) + PutI64(v, rest)
    {
      WriteUInt64(v % U64, rest);
    }

    method WriteString(s: Bytes, ghost rest: Bytes)
      modifies this
      ensures buffer + rest == old(buffer) + PutString(s, rest)
    {
      hide PutU32;
      LowHalf(|s|, s + rest);
      WriteUInt32(|s| % U32, s + rest);
      ghost var start := buffer;
      for i := 0 to |s|
        invariant buffer == start + s[..i]
      {
        buffer := buffer + [s[i]];
      }
      assert s[..|s|] == s;
      assert start + s + rest == start + (s + rest);
    }
  }

  class ByteReader {
    const data: Bytes
    var pos: nat

    constructor (data: Bytes)
      ensures this.data == data && Valid() && Rest() == data
    {
      this.data := data;
      pos := 0;
    }

    predicate Valid()
      reads this
    {
      pos <= |data|
    }

    ghost function Rest(): Bytes
      requires Valid()
      reads this
    {
      data[pos..]
    }

    method ReadUInt8() returns (v: Option<Byte>)
      requires Valid()
      modifies `pos
      ensures Valid()
      ensures v.None? <==> GetU8(old(Rest())).None?
      ensures v.Some? ==> GetU8(old(Rest())) == Some((v.value, Rest()))
    {
      if pos + 1 > |data| {
        return None;
      }
      v := Some(data[pos]);
      pos := pos + 1;
    }

    /** The shift-and-or loop of both integer readers. */
    method ReadBigEndian(n: nat) returns (v: Option<nat>)
      requires Valid()
      modifies `pos
      ensures Valid()
      ensures v.None? <==> |old(Rest())| < n
      ensures v.Some? ==> v.value == FromBigEndian(old(Rest())[..n]) && Rest() == old(Rest())[n..]
    {
      if pos + n > |data| {
        return None;
      }
      ghost var s := Rest();
      var value: nat := 0;
      for i := 0 to n
        invariant pos == old(pos) + i <= |data|
        invariant value == FromBigEndian(s[..i])
      {
        assert s[..i + 1][..i] == s[..i];
        value := value * 256 + data[pos];
        pos := pos + 1;
      }
      return Some(value);
    }

    method ReadUInt32() returns (v: Option<nat>)
      requires Valid()
      modifies `pos
      ensures Valid()
      ensures v.None? <==> GetU32(old(Rest())).None?
      ensures v.Some? ==> GetU32(old(Rest())) == Some((v.value, Rest()))
    {
      v := ReadBigEndian(4);
    }

    method ReadUInt64() returns (v: Option<nat>)
      requires Valid()
      modifies `pos
      ensures Valid()
      ensures v.None? <==> GetU64(old(Rest())).None?
      ensures v.Some? ==> GetU64(old(Rest())) == Some((v.value, Rest()))
    {
      v := ReadBigEndian(8);
    }

    method ReadInt64() returns (v: Option<int>)
      requires Valid()
      modifies `pos
      ensures Valid()
      ensures v.None? <==> GetI64(old(Rest())).None?
      ensures v.Some? ==> GetI64(old(Rest())) == Some((v.value, Rest()))
    {
      var u :- ReadUInt64();
      return Some(Signed(u));
    }

    method ReadString() returns (v: Option<Bytes>)
      requires Valid()
      modifies `pos
      ensures Valid()
      ensures v.None? <==> GetString(old(Rest())).None?
      ensures v.Some? ==> GetString(old(Rest())) == Some((v.value, Rest()))
    {
      var len :- ReadUInt32();
      if pos + len > |data| {
        return None;
      }
      ghost var s := Rest();
      var text: Bytes := [];
      for i := 0 to len
        invariant pos + len - i <= |data| && Rest() == s[i..]
        invariant text == s[..i]
      {
        text := text + [data[pos]];
        pos := pos + 1;
      }
      return Some(text);
    }
  }

  // ---------- Orders and trades ----------

  method WriteOrder(w: ByteWriter, o: OrderData, ghost rest: Bytes)
    modifies w
    ensures w.buffer + rest == old(w.buffer) + PutOrder(o, rest)
  {
    hide PutString, PutI64, PutU8, PutU64;
    ghost var t6 := PutI64(o.timestamp, rest);
    ghost var t5 := PutI64(o.quantity, t6);
    ghost var t4 := PutI64(o.price, t5);
    ghost var t3 := PutU8(o.side, t4);
    LowWord(o.id, PutString(o.symbol, t3));
    w.WriteUInt64(o.id % U64, PutString(o.symbol, t3));
    w.WriteString(o.symbol, t3);
    w.WriteUInt8(o.side, t4);
    w.WriteInt64(o.price, t5);
    w.WriteInt64(o.quantity, t6);
    w.WriteInt64(o.timestamp, rest);
  }

  method ReadOrderFrom(r: ByteReader) returns (o: Option<OrderData>)
    requires r.Valid()
    modifies r
    ensures r.Valid()
    ensures o.None? <==> GetOrder(old(r.Rest())).None?
    ensures o.Some? ==> GetOrder(old(r.Rest())) == Some((o.value, r.Rest()))
  {
    hide GetU64, GetString, GetI64, GetU8;
    var id :- r.ReadUInt64();
    var symbol :- r.ReadString();
    var side :- r.ReadUInt8();
    var price :- r.ReadInt64();
    var quantity :- r.ReadInt64();
    var ticks :- r.ReadInt64();
    return Some(NewOrder(id, symbol, side, price, quantity, ticks));
  }

  method WriteTrade(w: ByteWriter, t: Trade, ghost rest: Bytes)
    modifies w
    ensures w.buffer + rest == old(w.buffer) + PutTrade(t, rest)
  {
    hide PutString, PutI64, PutU64;
    ghost var t7 := PutI64(t.timestamp, rest);
    ghost var t6 := PutI64(t.quantity, t7);
    ghost var t5 := PutI64(t.price, t6);
    ghost var t4 := PutString(t.symbol, t5);
    ghost var t3 := PutU64(t.sellId, t4);
    LowWord(t.id, PutU64(t.buyId, t3));
    LowWord(t.buyId, t3);
    LowWord(t.sellId, t4);
    w.WriteUInt64(t.id % U64, PutU64(t.buyId, t3));
    w.WriteUInt64(t.buyId % U64, t3);
    w.WriteUInt64(t.sellId % U64, t4);
    w.WriteString(t.symbol, t5);
    w.WriteInt64(t.price, t6);
    w.WriteInt64(t.quantity, t7);
    w.WriteInt64(t.timestamp, rest);
  }

  method ReadTradeFrom(r: ByteReader) returns (t: Option<Trade>)
    requires r.Valid()
    modifies r
    ensures r.Valid()
    ensures t.None? <==> GetTrade(old(r.Rest())).None?
    ensures t.Some? ==> GetTrade(old(r.Rest())) == Some((t.value, r.Rest()))
  {
    hide GetU64, GetString, GetI64;
    var id :- r.ReadUInt64();
    var buyId :- r.ReadUInt64();
    var sellId :- r.ReadUInt64();
    var symbol :- r.ReadString();
    var price :- r.ReadInt64();
    var quantity :- r.ReadInt64();
    var ticks :- r.ReadInt64();
    return Some(Trade(id, buyId, sellId, symbol, price, quantity, ticks));
  }

  // ---------- Messages ----------

  method WriteCancelOrder(w: ByteWriter, id: nat)
    modifies w
    ensures w.buffer == old(w.buffer) + Put(CancelMsg(id), [])
  {
    w.WriteUInt64(id % U64, []);
    assert w.buffer + [] == w.buffer;
  }

  method WriteModifyOrder(w: ByteWriter, id: nat, newPrice: int, newQuantity: int)
    modifies w
    ensures w.buffer == old(w.buffer) + Put(ModifyMsg(id, newPrice, newQuantity), [])
  {
    hide PutI64;
    w.WriteUInt64(id % U64, PutI64(newPrice, PutI64(newQuantity, [])));
    w.WriteInt64(newPrice, PutI64(newQuantity, []));
    w.WriteInt64(newQuantity, []);
    assert w.buffer + [] == w.buffer;
  }

  method WriteOrderAck(w: ByteWriter, id: nat, trades: seq<Trade>)
    modifies w
    ensures w.buffer == old(w.buffer) + Put(AckMsg(id, trades), [])
  {
    hide PutTrade, PutU32, PutU64;
    LowWord(id, PutU32(|trades|, PutTrades(trades, [])));
    LowHalf(|trades|, PutTrades(trades, []));
    w.WriteUInt64(id % U64, PutU32(|trades|, PutTrades(trades, [])));
    w.WriteUInt32(|trades| % U32, PutTrades(trades, []));
    for i := 0 to |trades|
      invariant w.buffer + PutTrades(trades[i..], []) == old(w.buffer) + Put(AckMsg(id, trades), [])
    {
      WriteTrade(w, trades[i], PutTrades(trades[i + 1..], []));
    }
    assert w.buffer + [] == w.buffer;
  }

  method WriteOrderReject(w: ByteWriter, id: nat, reason: Bytes)
    modifies w
    ensures w.buffer == old(w.buffer) + Put(RejectMsg(id, reason), [])
  {
    hide PutString;
    w.WriteUInt64(id % U64, PutString(reason, []));
    w.WriteString(reason, []);
    assert w.buffer + [] == w.buffer;
  }

  method WriteBookQuery(w: ByteWriter, symbol: Symbol)
    modifies w
    ensures w.buffer == old(w.buffer) + Put(QueryMsg(symbol), [])
  {
    w.WriteString(symbol, []);
    assert w.buffer + [] == w.buffer;
  }

  method WriteLevelSnapshots(w: ByteWriter, levels: seq<LevelSnapshot>, ghost rest: Bytes)
    modifies w
    ensures w.buffer + rest == old(w.buffer) + PutU32(|levels|, PutLevels(levels, rest))
  {
    hide PutI64, PutU32;
    LowHalf(|levels|, PutLevels(levels, rest));
    w.WriteUInt32(|levels| % U32, PutLevels(levels, rest));
    for i := 0 to |levels|
      invariant w.buffer + PutLevels(levels[i..], rest) == old(w.buffer) + PutU32(|levels|, PutLevels(levels, rest))
    {
      var l := levels[i];
      ghost var tail := PutLevels(levels[i + 1..], rest);
      LowHalf(l.orderCount, tail);
      w.WriteInt64(l.price, PutI64(l.totalQuantity, PutU32(l.orderCount, tail)));
      w.WriteInt64(l.totalQuantity, PutU32(l.orderCount, tail));
      w.WriteUInt32(l.orderCount % U32, tail);
    }
  }

  method WriteBookSnapshot(w: ByteWriter, symbol: Symbol, bids: seq<LevelSnapshot>, asks: seq<LevelSnapshot>)
    modifies w
    ensures w.buffer == old(w.buffer) + Put(SnapshotMsg(symbol, bids, asks), [])
  {
    hide PutString, PutU32;
    w.WriteString(symbol, PutU32(|bids|, PutLevels(bids, PutU32(|asks|, PutLevels(asks, [])))));
    WriteLevelSnapshots(w, bids, PutU32(|asks|, PutLevels(asks, [])));
    WriteLevelSnapshots(w, asks, []);
    assert w.buffer + [] == w.buffer;
  }

  method ReadCancelOrder(r: ByteReader) returns (m: Option<Message>)
    requires r.Valid()
    modifies r
    ensures r.Valid()
    ensures m.None? <==> GetCancel(old(r.Rest())).None?
    ensures m.Some? ==> GetCancel(old(r.Rest())) == Some((m.value, r.Rest()))
  {
    var id :- r.ReadUInt64();
    return Some(CancelMsg(id));
  }

  method ReadModifyOrder(r: ByteReader) returns (m: Option<Message>)
    requires r.Valid()
    modifies r
    ensures r.Valid()
    ensures m.None? <==> GetModify(old(r.Rest())).None?
    ensures m.Some? ==> GetModify(old(r.Rest())) == Some((m.value, r.Rest()))
  {
    hide GetI64, GetU64;
    var id :- r.ReadUInt64();
    var price :- r.ReadInt64();
    var quantity :- r.ReadInt64();
    return Some(ModifyMsg(id, price, quantity));
  }

  method ReadOrderAck(r: ByteReader) returns (m: Option<Message>)
    requires r.Valid()
    modifies r
    ensures r.Valid()
    ensures m.None? <==> GetAck(old(r.Rest())).None?
    ensures m.Some? ==> GetAck(old(r.Rest())) == Some((m.value, r.Rest()))
  {
    hide GetU64, GetU32, GetTrade;
    var id :- r.ReadUInt64();
    var count :- r.ReadUInt32();
    ghost var s := r.Rest();
    var trades: seq<Trade> := [];
    ghost var all := GetTrades(count, s);
    assert all.Some? ==> trades + all.value.0 == all.value.0;
    for i := 0 to count
      invariant r.Valid()
      invariant var g := GetTrades(count - i, r.Rest());
                GetTrades(count, s) == if g.None? then None else Some((trades + g.value.0, g.value.1))
    {
      var t :- ReadTradeFrom(r);
      ghost var g := GetTrades(count - i - 1, r.Rest());
      assert g.Some? ==> trades + ([t] + g.value.0) == (trades + [t]) + g.value.0;
      trades := trades + [t];
    }
    assert trades + [] == trades;
    return Some(AckMsg(id, trades));
  }

  method ReadOrderReject(r: ByteReader) returns (m: Option<Message>)
    requires r.Valid()
    modifies r
    ensures r.Valid()
    ensures m.None? <==> GetReject(old(r.Rest())).None?
    ensures m.Some? ==> GetReject(old(r.Rest())) == Some((m.value, r.Rest()))
  {
    hide GetString, GetU64;
    var id :- r.ReadUInt64();
    var reason :- r.ReadString();
    return Some(RejectMsg(id, reason));
  }

  method ReadBookQuery(r: ByteReader) returns (m: Option<Message>)
    requires r.Valid()
    modifies r
    ensures r.Valid()
    ensures m.None? <==> GetQuery(old(r.Rest())).None?
    ensures m.Some? ==> GetQuery(old(r.Rest())) == Some((m.value, r.Rest()))
  {
    var symbol :- r.ReadString();
    return Some(QueryMsg(symbol));
  }

  method ReadLevelSnapshot(r: ByteReader) returns (l: Option<LevelSnapshot>)
    requires r.Valid()
    modifies r
    ensures r.Valid()
    ensures l.None? <==> GetLevel(old(r.Rest())).None?
    ensures l.Some? ==> GetLevel(old(r.Rest())) == Some((l.value, r.Rest()))
  {
    hide GetI64, GetU32;
    var price :- r.ReadInt64();
    var quantity :- r.ReadInt64();
    var count :- r.ReadUInt32();
    return Some(LevelSnapshot(price, quantity, count));
  }

  method ReadLevelSnapshots(r: ByteReader, count: nat) returns (ls: Option<seq<LevelSnapshot>>)
    requires r.Valid()
    modifies r
    ensures r.Valid()
    ensures ls.None? <==> GetLevels(count, old(r.Rest())).None?
    ensures ls.Some? ==> GetLevels(count, old(r.Rest())) == Some((ls.value, r.Rest()))
  {
    hide GetLevel;
    ghost var s := r.Rest();
    var levels: seq<LevelSnapshot> := [];
    ghost var all := GetLevels(count, s);
    assert all.Some? ==> levels + all.value.0 == all.value.0;
    for i := 0 to count
      invariant r.Valid()
      invariant var g := GetLevels(count - i, r.Rest());
                GetLevels(count, s) == if g.None? then None else Some((levels + g.value.0, g.value.1))
    {
      var l :- ReadLevelSnapshot(r);
      ghost var g := GetLevels(count - i - 1, r.Rest());
      assert g.Some? ==> levels + ([l] + g.value.0) == (levels + [l]) + g.value.0;
      levels := levels + [l];
    }
    assert levels + [] == levels;
    return Some(levels);
  }

  method ReadBookSnapshot(r: ByteReader) returns (m: Option<Message>)
    requires r.Valid()
    modifies r
    ensures r.Valid()
    ensures m.None? <==> GetSnapshot(old(r.Rest())).None?
    ensures m.Some? ==> GetSnapshot(old(r.Rest())) == Some((m.value, r.Rest()))
  {
    hide GetString, GetU32, GetLevels;
    var symbol :- r.ReadString();
    var bidCount :- r.ReadUInt32();
    var bids :- ReadLevelSnapshots(r, bidCount);
    var askCount :- r.ReadUInt32();
    var asks :- ReadLevelSnapshots(r, askCount);
    return Some(SnapshotMsg(symbol, bids, asks));
  }
}
