/**
  The pre-trade risk gate and the account it reserves buying power from. Both calculate in 64-bit signed
  integers; where a result does not fit, it is taken to wrap around in two's complement.
 */
module Risk {
  import opened Types
  import opened Codec
  import opened Messages
  import opened Exchange

  datatype RiskOutcome =
    | Accepted
    | RejectedNonPositivePrice
    | RejectedMaxQuantityExceeded
    | RejectedInsufficientBuyingPower

  function ToString(outcome: RiskOutcome): string {
    match outcome
    case Accepted => "ACCEPTED"
    case RejectedNonPositivePrice => "REJECTED_NON_POSITIVE_PRICE"
    case RejectedMaxQuantityExceeded => "REJECTED_MAX_QUANTITY_EXCEEDED"
    case RejectedInsufficientBuyingPower => "REJECTED_INSUFFICIENT_BUYING_POWER"
  }

  datatype RiskConfig = RiskConfig(maxOrderQuantity: int)

  type Int64 = x: int | IsI64(x)

  /** The 64-bit result of a calculation whose exact result is x. */
  function ToInt64(x: int): (r: Int64)
    ensures IsI64(x) <==> r == x
    ensures exists k: int :: r == x + U64 * k
  {
    WrapsOnce(x);
    Signed(x % U64)
  }

  lemma WrapsOnce(x: int)
    ensures var r := Signed(x % U64);
            && IsI64(r)
            && (IsI64(x) <==> r == x)
            && exists k: int :: r == x + U64 * k
  {
    var u, d := x % U64, x / U64;
    assert x == U64 * d + u;
    assert Signed(u) == x + U64 * if u >= I64 then -d - 1 else -d;
    if IsI64(x) {
      assert d == 0 || d == -1;
    }
  }

  /** Only one value fits 64 bits among those that differ by whole wraps. */
  lemma SameWrap(x: int, y: int, k: int)
    requires x == y + U64 * k
    ensures ToInt64(x) == ToInt64(y)
  {
    var i: int :| ToInt64(x) == x + U64 * i;
    var j: int :| ToInt64(y) == y + U64 * j;
    assert ToInt64(x) - ToInt64(y) == U64 * (k + i - j);
  }

  /** The outcome of the checks, and the buying power left. */
  function CheckOrder(config: RiskConfig, o: OrderData, buyingPower: int): (RiskOutcome, int) {
    if o.price <= 0 then (RejectedNonPositivePrice, buyingPower)
    else if o.quantity > config.maxOrderQuantity then (RejectedMaxQuantityExceeded, buyingPower)
    else if IsBuy(o.side) then
      var cost := ToInt64(o.price * o.quantity);
      if cost > buyingPower then (RejectedInsufficientBuyingPower, buyingPower)
      else (Accepted, ToInt64(buyingPower - cost))
    else (Accepted, buyingPower)
  }

  /** The gate as it is meant: the same checks on exact integers. */
  function CheckExactly(config: RiskConfig, o: OrderData, buyingPower: int): (RiskOutcome, int) {
    if o.price <= 0 then (RejectedNonPositivePrice, buyingPower)
    else if o.quantity > config.maxOrderQuantity then (RejectedMaxQuantityExceeded, buyingPower)
    else if IsBuy(o.side) && o.price * o.quantity > buyingPower then (RejectedInsufficientBuyingPower, buyingPower)
    else (Accepted, if IsBuy(o.side) then buyingPower - o.price * o.quantity else buyingPower)
  }

  /** The cost is calculated, and fits 64 bits. */
  predicate CostFits(config: RiskConfig, o: OrderData) {
    IsBuy(o.side) && o.price > 0 && o.quantity <= config.maxOrderQuantity ==> IsI64(o.price * o.quantity)
  }

  /** In range the gate is what it is meant to be. */
  lemma GateIsExact(config: RiskConfig, o: OrderData, buyingPower: int)
    requires CostFits(config, o)
    requires IsBuy(o.side) && o.price * o.quantity <= buyingPower ==> IsI64(buyingPower - o.price * o.quantity)
    ensures CheckOrder(config, o, buyingPower) == CheckExactly(config, o, buyingPower)
  {
  }

  /** A price cap puts every order of a positive quantity in range, whatever the balance. */
  lemma CapKeepsGateExact(config: RiskConfig, cap: int, o: OrderData, buyingPower: int)
    requires cap * config.maxOrderQuantity < I64
    requires o.price <= cap && o.quantity > 0 && 0 <= buyingPower < I64
    ensures CostFits(config, o)
    ensures CheckOrder(config, o, buyingPower) == CheckExactly(config, o, buyingPower)
  {
    if o.price > 0 && o.quantity <= config.maxOrderQuantity {
      assert 0 < o.price * o.quantity <= cap * config.maxOrderQuantity by {
        Grows(o.price, 1, o.quantity);
        Grows(o.price, o.quantity, config.maxOrderQuantity);
        Grows(config.maxOrderQuantity, o.price, cap);
      }
      GateIsExact(config, o, buyingPower);
    }
  }

  lemma Grows(a: nat, b: int, c: int)
    requires b <= c
    ensures a * b <= a * c
  {
  }

  /** What the wraps of one accepted buy add to, or take from, the balance it should have left. */
  function Slip(config: RiskConfig, o: OrderData, buyingPower: int): int {
    var (outcome, left) := CheckOrder(config, o, buyingPower);
    if outcome == Accepted && IsBuy(o.side) then left - (buyingPower - o.price * o.quantity) else 0
  }

  /** The balance left is right exactly when it fits 64 bits, even where the cost does not. */
  lemma SlipIff(config: RiskConfig, o: OrderData, buyingPower: int)
    ensures Slip(config, o, buyingPower) == 0
            <==> CheckOrder(config, o, buyingPower).0 == Accepted && IsBuy(o.side) ==>
                   IsI64(buyingPower - o.price * o.quantity)
  {
    LeftWraps(buyingPower, o.price * o.quantity);
  }

  /** The gate raises buying power exactly when it accepts a buy whose 64-bit cost is negative, up to the top. */
  lemma GateRaisesIff(config: RiskConfig, o: OrderData, buyingPower: Int64)
    ensures var cost := ToInt64(o.price * o.quantity);
            CheckOrder(config, o, buyingPower).1 > buyingPower
            <==> && IsBuy(o.side) && o.price > 0 && o.quantity <= config.maxOrderQuantity
                 && cost <= buyingPower && cost < 0 && buyingPower - cost < I64
  {
    hide ToInt64;
    var cost := ToInt64(o.price * o.quantity);
    assert IsI64(buyingPower) && IsI64(cost);
    DifferenceWraps(buyingPower, cost);
  }

  /** It makes a balance negative exactly when it gives back more than fits. */
  lemma GateOverflowsIff(config: RiskConfig, o: OrderData, buyingPower: Int64)
    requires buyingPower >= 0
    ensures var cost := ToInt64(o.price * o.quantity);
            CheckOrder(config, o, buyingPower).1 < 0
            <==> && IsBuy(o.side) && o.price > 0 && o.quantity <= config.maxOrderQuantity
                 && buyingPower - cost >= I64
  {
    hide ToInt64;
    var cost := ToInt64(o.price * o.quantity);
    assert IsI64(buyingPower) && IsI64(cost);
    DifferenceWraps(buyingPower, cost);
  }

  lemma DifferenceWraps(a: Int64, b: Int64)
    ensures b <= a ==> ToInt64(a - b) == if a - b < I64 then a - b else a - b - U64
  {
    var d := a - b;
    assert IsI64(a) && IsI64(b);
    if b <= a && d >= I64 {
      SameWrap(d, d - U64, 1);
      assert IsI64(d - U64);
    }
  }

  /** The gate in front of the engines; only new orders are checked. */
  ghost function Process(
    config: RiskConfig, buyingPower: int, es: Engines, request: Message, clock: Clock): (int, Engines, Message)
  {
    var (outcome, left) := if request.NewOrderMsg? then CheckOrder(config, request.order, buyingPower)
                           else (Accepted, buyingPower);
    if outcome != Accepted then
      (buyingPower, es, RejectMsg(if request.NewOrderMsg? then request.order.id else 0, Text(ToString(outcome))))
    else
      var (es', response) := Serve(es, request, clock);
      (left, es', response)
  }

  class Account {
    const accountId: Bytes
    var buyingPower: Int64

    constructor (accountId: Bytes, buyingPower: Int64)
      ensures this.accountId == accountId && this.buyingPower == buyingPower
    {
      this.accountId, this.buyingPower := accountId, buyingPower;
    }

    /** The caller has checked that the amount is available. */
    method Reserve(amount: Int64)
      requires amount <= buyingPower
      modifies this
      ensures buyingPower == ToInt64(old(buyingPower) - amount)
      ensures amount >= 0 && old(buyingPower) >= 0 ==> 0 <= buyingPower == old(buyingPower) - amount
    {
      buyingPower := ToInt64(buyingPower - amount);
    }
  }

  class RiskChecker {
    const config: RiskConfig

    constructor (config: RiskConfig)
      ensures this.config == config
    {
      this.config := config;
    }

    /** First failed check wins; the account changes only on acceptance of a buy. */
    method Check(o: OrderData, account: Account) returns (outcome: RiskOutcome)
      modifies account
      ensures (outcome, account.buyingPower) == CheckOrder(config, o, old(account.buyingPower))
      ensures outcome == Accepted <==>
                && o.price > 0
                && o.quantity <= config.maxOrderQuantity
                && (o.side == BUY ==> ToInt64(o.price * o.quantity) <= old(account.buyingPower))
      ensures if outcome == Accepted && o.side == BUY
              then account.buyingPower == ToInt64(old(account.buyingPower) - o.price * o.quantity)
              else account.buyingPower == old(account.buyingPower)
    {
      if o.price <= 0 {
        return RejectedNonPositivePrice;
      }
      if o.quantity > config.maxOrderQuantity {
        return RejectedMaxQuantityExceeded;
      }
      if IsBuy(o.side) {
        var cost := ToInt64(o.price * o.quantity);
        if cost > account.buyingPower {
          return RejectedInsufficientBuyingPower;
        }
        LeftWraps(account.buyingPower, o.price * o.quantity);
        account.Reserve(cost);
      }
      return Accepted;
    }
  }

  /** Wrapping the cost first and the difference then is wrapping the exact difference. */
  lemma LeftWraps(balance: int, cost: int)
    ensures ToInt64(balance - ToInt64(cost)) == ToInt64(balance - cost)
  {
    var k: int :| ToInt64(cost) == cost + U64 * k;
    SameWrap(balance - ToInt64(cost), balance - cost, -k);
  }
}
