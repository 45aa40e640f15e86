/** Plain data shared by every component: bytes, sides, orders, trades and the clock. */
module Types {

  type Byte = x: int | 0 <= x < 256

  type Bytes = seq<Byte>

  /** A failure-compatible option; decoders use None where the C++ throws std::out_of_range. */
  datatype Option<+T> = None | Some(value: T) {
    predicate IsFailure() {
      None?
    }

    function PropagateFailure<U>(): Option<U>
      requires None?
    {
      None
    }

    function Extract(): T
      requires Some?
    {
      value
    }
  }

  /** Symbols are byte strings, as std::string is. */
  type Symbol = Bytes

  /**
    The C++ enum has a one-byte underlying type, and a decoded side can hold any byte.
    Every branch of the code asks only whether it equals Buy, so all other codes act as Sell.
   */
  type Side = Byte

  const BUY: Side := 0

  predicate IsBuy(side: Side) {
    side == BUY
  }

  /** The value of an order: what is passed, moved and encoded. Class Book.Order is its mutable form. */
  datatype OrderData = OrderData(
    id: nat, symbol: Symbol, side: Side, price: int, quantity: int, remaining: int, timestamp: int)
  {
    function ApplyFill(fill: int): OrderData {
      this.(remaining := remaining - fill)
    }

    function Modify(newPrice: int, newQuantity: int): OrderData {
      this.(price := newPrice, quantity := newQuantity, remaining := newQuantity)
    }
  }

  /** A freshly constructed order has its whole quantity remaining. */
  function NewOrder(id: nat, symbol: Symbol, side: Side, price: int, quantity: int, timestamp: int): OrderData {
    OrderData(id, symbol, side, price, quantity, quantity, timestamp)
  }

  datatype Trade = Trade(
    id: nat, buyId: nat, sellId: nat, symbol: Symbol, price: int, quantity: int, timestamp: int)

  /** The successive readings of the system clock during one request. */
  type Clock = nat -> int

  function Min(a: int, b: int): int {
    if a <= b then a else b
  }

  function Max(a: int, b: int): int {
    if a <= b then b else a
  }
}
