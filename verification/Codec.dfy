/**
  The wire format as functions. `PutX(x, rest)` is the encoding of `x` followed by `rest`; `GetX(s)`
  takes an `x` off the front of `s`, or is None where the C++ reader throws.
 */
module Codec {
  import opened Types

  type Got<+T> = Option<(T, Bytes)>

  // ---------- Big-endian integers ----------

  function Pow256(n: nat): (p: nat)
    ensures p > 0
  {
    if n == 0 then 1 else 256 * Pow256(n - 1)
  }

  /** The low n bytes of v, most significant first. */
  function BigEndian(v: nat, n: nat): (b: Bytes)
    ensures |b| == n
  {
    if n == 0 then [] else BigEndian(v / 256, n - 1) + [v % 256]
  }

  function FromBigEndian(b: Bytes): nat {
    if b == [] then 0 else FromBigEndian(b[..|b| - 1]) * 256 + b[|b| - 1]
  }

  lemma {:induction false} ModByParts(v: nat, p: nat)
    requires p > 0
    ensures (v / 256) % p * 256 + v % 256 == v % (256 * p)
  {
    var a, r := v / 256, v % 256;
    var q, s := a / p, a % p;
    assert v == (256 * p) * q + (256 * s + r) by {
      assert a == p * q + s;
      assert 256 * (p * q) == (256 * p) * q;
    }
    assert 0 <= 256 * s + r < 256 * p;
    ModUnique(v, 256 * p, q, 256 * s + r);
  }

  lemma {:induction false} ModUnique(v: nat, m: nat, q: nat, r: nat)
    requires m > 0 && v == m * q + r && r < m
    ensures v % m == r
  {
    var d := v / m;
    assert v == m * d + v % m;
    if d < q {
      MulStep(m, d, q);
    } else if q < d {
      MulStep(m, q, d);
    }
  }

  lemma {:induction false} MulStep(m: nat, a: nat, b: nat)
    requires a < b
    ensures m * b >= m * a + m
    decreases b
  {
    assert m * b == m * (b - 1) + m;
    if a < b - 1 {
      MulStep(m, a, b - 1);
    }
  }

  lemma {:induction false} DecodesToLowBytes(v: nat, n: nat)
    ensures FromBigEndian(BigEndian(v, n)) == v % Pow256(n)
  {
    if n > 0 {
      DecodesToLowBytes(v / 256, n - 1);
      ModByParts(v, Pow256(n - 1));
    }
  }

  lemma {:induction false} EncodesBack(b: Bytes)
    ensures BigEndian(FromBigEndian(b), |b|) == b
    ensures FromBigEndian(b) < Pow256(|b|)
  {
    if b != [] {
      var front, last := b[..|b| - 1], b[|b| - 1];
      EncodesBack(front);
      var v := FromBigEndian(front);
      assert (v * 256 + last) / 256 == v && (v * 256 + last) % 256 == last;
    }
  }

  const U32: nat := 0x1_0000_0000
  const U64: nat := 0x1_0000_0000_0000_0000
  const I64: int := 0x8000_0000_0000_0000

  lemma Powers()
    ensures Pow256(4) == U32 && Pow256(8) == U64
  {
    assert Pow256(1) == 0x100;
    assert Pow256(2) == 0x1_0000;
    assert Pow256(3) == 0x100_0000;
    assert Pow256(4) == U32;
    assert Pow256(5) == 0x100_0000_0000;
    assert Pow256(6) == 0x1_0000_0000_0000;
    assert Pow256(7) == 0x100_0000_0000_0000;
  }

  // ---------- Primitive fields ----------

  function PutU8(v: Byte, rest: Bytes): Bytes {
    [v] + rest
  }

  function GetU8(s: Bytes): Got<Byte> {
    if s == [] then None else Some((s[0], s[1..]))
  }

  /** The cast to uint32_t keeps the value modulo 2^32. */
  function PutU32(v: nat, rest: Bytes): Bytes {
    BigEndian(v % U32, 4) + rest
  }

  function GetU32(s: Bytes): Got<nat> {
    if |s| < 4 then None else Some((FromBigEndian(s[..4]), s[4..]))
  }

  function PutU64(v: nat, rest: Bytes): Bytes {
    BigEndian(v % U64, 8) + rest
  }

  function GetU64(s: Bytes): Got<nat> {
    if |s| < 8 then None else Some((FromBigEndian(s[..8]), s[8..]))
  }

  predicate IsI64(v: int) {
    -I64 <= v < I64
  }

  /** Signed values travel as their two's complement. */
  function PutI64(v: int, rest: Bytes): Bytes {
    PutU64(v % U64, rest)
  }

  function Signed(u: nat): int {
    if u >= I64 then u - U64 else u
  }

  function GetI64(s: Bytes): Got<int> {
    var (u, r) :- GetU64(s);
    Some((Signed(u), r))
  }

  function PutString(v: Bytes, rest: Bytes): Bytes {
    PutU32(|v|, v + rest)
  }

  function GetString(s: Bytes): Got<Bytes> {
    var (n, r) :- GetU32(s);
    if |r| < n then None else Some((r[..n], r[n..]))
  }

  lemma ReadU32(v: nat, rest: Bytes)
    ensures GetU32(PutU32(v, rest)) == Some((v % U32, rest))
  {
    DecodesToLowBytes(v % U32, 4);
    Powers();
    assert PutU32(v, rest)[..4] == BigEndian(v % U32, 4);
  }

  lemma CanonU32(s: Bytes)
    ensures var g := GetU32(s);
            g.Some? ==> g.value.0 < U32 && s == PutU32(g.value.0, g.value.1)
  {
    if |s| >= 4 {
      EncodesBack(s[..4]);
      Powers();
    }
  }

  lemma ReadU64(v: nat, rest: Bytes)
    ensures GetU64(PutU64(v, rest)) == Some((v % U64, rest))
  {
    DecodesToLowBytes(v % U64, 8);
    Powers();
    assert PutU64(v, rest)[..8] == BigEndian(v % U64, 8);
  }

  lemma CanonU64(s: Bytes)
    ensures var g := GetU64(s);
            g.Some? ==> g.value.0 < U64 && s == PutU64(g.value.0, g.value.1)
  {
    if |s| >= 8 {
      EncodesBack(s[..8]);
      Powers();
    }
  }

  lemma ReadI64(v: int, rest: Bytes)
    ensures GetI64(PutI64(v, rest)) == Some((Signed(v % U64), rest))
    ensures IsI64(v) ==> Signed(v % U64) == v
  {
    ReadU64(v % U64, rest);
  }

  lemma CanonI64(s: Bytes)
    ensures var g := GetI64(s);
            g.Some? ==> IsI64(g.value.0) && s == PutI64(g.value.0, g.value.1)
  {
    hide GetU64, PutU64, Signed;
    CanonU64(s);
    var g := GetU64(s);
    if g.Some? {
      SignedBack(g.value.0);
    }
  }

  lemma SignedBack(u: nat)
    requires u < U64
    ensures IsI64(Signed(u)) && Signed(u) % U64 == u
  {
    if u >= I64 {
      assert Signed(u) == U64 * -1 + u;
    }
  }

  lemma ReadString(v: Bytes, rest: Bytes)
    requires |v| < U32
    ensures GetString(PutString(v, rest)) == Some((v, rest))
  {
    ReadU32(|v|, v + rest);
  }

  lemma CanonString(s: Bytes)
    ensures var g := GetString(s);
            g.Some? ==> |g.value.0| < U32 && s == PutString(g.value.0, g.value.1)
  {
    CanonU32(s);
    var g := GetString(s);
    if g.Some? {
      assert GetU32(s).value.1 == g.value.0 + g.value.1;
    }
  }

  // ---------- Orders and trades ----------

  predicate OrderFits(o: OrderData) {
    o.id < U64 && |o.symbol| < U32 && IsI64(o.price) && IsI64(o.quantity) && IsI64(o.timestamp)
  }

  function PutOrder(o: OrderData, rest: Bytes): Bytes {
    PutU64(o.id, PutString(o.symbol, PutU8(o.side, PutI64(o.price, PutI64(o.quantity, PutI64(o.timestamp, rest))))))
  }

  function GetOrder(s: Bytes): Got<OrderData> {
    var (id, s1) :- GetU64(s);
    var (symbol, s2) :- GetString(s1);
    var (side, s3) :- GetU8(s2);
    var (price, s4) :- GetI64(s3);
    var (quantity, s5) :- GetI64(s4);
    var (ticks, s6) :- GetI64(s5);
    Some((NewOrder(id, symbol, side, price, quantity, ticks), s6))
  }

  lemma ReadOrder(o: OrderData, rest: Bytes)
    requires |o.symbol| < U32
    ensures var g := GetOrder(PutOrder(o, rest));
            && g.Some? && g.value.1 == rest
            && (OrderFits(o) && o.remaining == o.quantity ==> g.value.0 == o)
  {
    hide PutU64, PutString, PutI64, GetU64, GetString, GetI64;
    var t6 := PutI64(o.timestamp, rest);
    var t5 := PutI64(o.quantity, t6);
    var t4 := PutI64(o.price, t5);
    var t3 := PutU8(o.side, t4);
    var t2 := PutString(o.symbol, t3);
    ReadU64(o.id, t2);
    ReadString(o.symbol, t3);
    assert GetU8(t3) == Some((o.side, t4)) by { assert t3[1..] == t4; }
    ReadI64(o.price, t5);
    ReadI64(o.quantity, t6);
    ReadI64(o.timestamp, rest);
  }

  lemma CanonOrder(s: Bytes)
    ensures var g := GetOrder(s);
            g.Some? ==>
              && OrderFits(g.value.0) && g.value.0.remaining == g.value.0.quantity
              && s == PutOrder(g.value.0, g.value.1)
  {
    hide PutU64, PutString, PutI64, GetU64, GetString, GetI64;
    if GetOrder(s).Some? {
      var (_, s1) := GetU64(s).value;
      var (_, s2) := GetString(s1).value;
      var (side, s3) := GetU8(s2).value;
      var (_, s4) := GetI64(s3).value;
      var (_, s5) := GetI64(s4).value;
      CanonU64(s);
      CanonString(s1);
      assert s2 == PutU8(side, s3);
      CanonI64(s3);
      CanonI64(s4);
      CanonI64(s5);
    }
  }

  predicate TradeFits(t: Trade) {
    && t.id < U64 && t.buyId < U64 && t.sellId < U64 && |t.symbol| < U32
    && IsI64(t.price) && IsI64(t.quantity) && IsI64(t.timestamp)
  }

  function PutTrade(t: Trade, rest: Bytes): Bytes {
    PutU64(t.id, PutU64(t.buyId, PutU64(t.sellId, PutString(t.symbol,
      PutI64(t.price, PutI64(t.quantity, PutI64(t.timestamp, rest)))))))
  }

  function GetTrade(s: Bytes): Got<Trade> {
    var (id, s1) :- GetU64(s);
    var (buyId, s2) :- GetU64(s1);
    var (sellId, s3) :- GetU64(s2);
    var (symbol, s4) :- GetString(s3);
    var (price, s5) :- GetI64(s4);
    var (quantity, s6) :- GetI64(s5);
    var (ticks, s7) :- GetI64(s6);
    Some((Trade(id, buyId, sellId, symbol, price, quantity, ticks), s7))
  }

  lemma ReadTrade(t: Trade, rest: Bytes)
    requires |t.symbol| < U32
    ensures var g := GetTrade(PutTrade(t, rest));
            && g.Some? && g.value.1 == rest
            && (TradeFits(t) ==> g.value.0 == t)
  {
    hide PutU64, PutString, PutI64, GetU64, GetString, GetI64;
    var t7 := PutI64(t.timestamp, rest);
    var t6 := PutI64(t.quantity, t7);
    var t5 := PutI64(t.price, t6);
    var t4 := PutString(t.symbol, t5);
    var t3 := PutU64(t.sellId, t4);
    ReadU64(t.id, PutU64(t.buyId, t3));
    ReadU64(t.buyId, t3);
    ReadU64(t.sellId, t4);
    ReadString(t.symbol, t5);
    ReadI64(t.price, t6);
    ReadI64(t.quantity, t7);
    ReadI64(t.timestamp, rest);
  }

  lemma {:induction false} CanonTrade(s: Bytes)
    ensures var g := GetTrade(s);
            g.Some? ==> TradeFits(g.value.0) && s == PutTrade(g.value.0, g.value.1)
  {
    hide PutU64, PutString, PutI64, GetU64, GetString, GetI64;
    if GetTrade(s).Some? {
      var (_, s1) := GetU64(s).value;
      var (_, s2) := GetU64(s1).value;
      var (_, s3) := GetU64(s2).value;
      var (_, s4) := GetString(s3).value;
      var (_, s5) := GetI64(s4).value;
      var (_, s6) := GetI64(s5).value;
      CanonU64(s);
      CanonU64(s1);
      CanonU64(s2);
      CanonString(s3);
      CanonI64(s4);
      CanonI64(s5);
      CanonI64(s6);
    }
  }

  // ---------- Counted lists ----------

  function PutTrades(ts: seq<Trade>, rest: Bytes): Bytes {
    if ts == [] then rest else PutTrade(ts[0], PutTrades(ts[1..], rest))
  }

  function GetTrades(n: nat, s: Bytes): Got<seq<Trade>> {
    if n == 0 then Some(([], s))
    else
      var (t, s1) :- GetTrade(s);
      var (ts, s2) :- GetTrades(n - 1, s1);
      Some(([t] + ts, s2))
  }

  lemma {:induction false} ReadTrades(ts: seq<Trade>, rest: Bytes)
    requires forall t <- ts :: |t.symbol| < U32
    ensures var g := GetTrades(|ts|, PutTrades(ts, rest));
            && g.Some? && g.value.1 == rest
            && ((forall t <- ts :: TradeFits(t)) ==> g.value.0 == ts)
  {
    hide PutTrade, GetTrade, TradeFits;
    if ts != [] {
      ReadTrade(ts[0], PutTrades(ts[1..], rest));
      ReadTrades(ts[1..], rest);
    }
  }

  lemma {:induction false} CanonTrades(n: nat, s: Bytes)
    ensures var g := GetTrades(n, s);
            g.Some? ==>
              && |g.value.0| == n
              && (forall t <- g.value.0 :: TradeFits(t))
              && s == PutTrades(g.value.0, g.value.1)
  {
    hide PutTrade, GetTrade, TradeFits;
    if n > 0 && GetTrades(n, s).Some? {
      CanonTrade(s);
      var (t, s1) := GetTrade(s).value;
      CanonTrades(n - 1, s1);
      var (ts, s2) := GetTrades(n - 1, s1).value;
      assert ([t] + ts)[1..] == ts;
    }
  }

  datatype LevelSnapshot = LevelSnapshot(price: int, totalQuantity: int, orderCount: nat)

  predicate LevelFits(l: LevelSnapshot) {
    IsI64(l.price) && IsI64(l.totalQuantity) && l.orderCount < U32
  }

  function PutLevel(l: LevelSnapshot, rest: Bytes): Bytes {
    PutI64(l.price, PutI64(l.totalQuantity, PutU32(l.orderCount, rest)))
  }

  function GetLevel(s: Bytes): Got<LevelSnapshot> {
    var (price, s1) :- GetI64(s);
    var (quantity, s2) :- GetI64(s1);
    var (count, s3) :- GetU32(s2);
    Some((LevelSnapshot(price, quantity, count), s3))
  }

  lemma ReadLevel(l: LevelSnapshot, rest: Bytes)
    ensures var g := GetLevel(PutLevel(l, rest));
            g.Some? && g.value.1 == rest && (LevelFits(l) ==> g.value.0 == l)
  {
    hide PutU32, PutI64, GetU32, GetI64;
    ReadI64(l.price, PutI64(l.totalQuantity, PutU32(l.orderCount, rest)));
    ReadI64(l.totalQuantity, PutU32(l.orderCount, rest));
    ReadU32(l.orderCount, rest);
  }

  lemma CanonLevel(s: Bytes)
    ensures var g := GetLevel(s);
            g.Some? ==> LevelFits(g.value.0) && s == PutLevel(g.value.0, g.value.1)
  {
    hide PutU32, PutI64, GetU32, GetI64;
    if GetLevel(s).Some? {
      var (_, s1) := GetI64(s).value;
      var (_, s2) := GetI64(s1).value;
      CanonI64(s);
      CanonI64(s1);
      CanonU32(s2);
    }
  }

  function PutLevels(ls: seq<LevelSnapshot>, rest: Bytes): Bytes {
    if ls == [] then rest else PutLevel(ls[0], PutLevels(ls[1..], rest))
  }

  function GetLevels(n: nat, s: Bytes): Got<seq<LevelSnapshot>> {
    if n == 0 then Some(([], s))
    else
      var (l, s1) :- GetLevel(s);
      var (ls, s2) :- GetLevels(n - 1, s1);
      Some(([l] + ls, s2))
  }

  lemma {:induction false} ReadLevels(ls: seq<LevelSnapshot>, rest: Bytes)
    ensures var g := GetLevels(|ls|, PutLevels(ls, rest));
            && g.Some? && g.value.1 == rest
            && ((forall l <- ls :: LevelFits(l)) ==> g.value.0 == ls)
  {
    hide PutLevel, GetLevel, LevelFits;
    if ls != [] {
      ReadLevel(ls[0], PutLevels(ls[1..], rest));
      ReadLevels(ls[1..], rest);
    }
  }

  lemma {:induction false} CanonLevels(n: nat, s: Bytes)
    ensures var g := GetLevels(n, s);
            g.Some? ==>
              && |g.value.0| == n
              && (forall l <- g.value.0 :: LevelFits(l))
              && s == PutLevels(g.value.0, g.value.1)
  {
    hide PutLevel, GetLevel, LevelFits;
    if n > 0 && GetLevels(n, s).Some? {
      CanonLevel(s);
      var (l, s1) := GetLevel(s).value;
      CanonLevels(n - 1, s1);
      var (ls, s2) := GetLevels(n - 1, s1).value;
      assert ([l] + ls)[1..] == ls;
    }
  }
}
