/** Market and trading data types, and the machine arithmetic the trading code
    performs on them.  Prices are reals; quantities keep their 64-bit widths. */
module Specs {

  const U64_MAX: int := 0xFFFF_FFFF_FFFF_FFFF
  const I64_MAX: int := 0x7FFF_FFFF_FFFF_FFFF
  const I64_MIN: int := -0x8000_0000_0000_0000
  const TWO_64: int := 0x1_0000_0000_0000_0000

  type u64 = x: int | 0 <= x <= U64_MAX
  type i64 = x: int | I64_MIN <= x <= I64_MAX

  datatype Option<+T> = None | Some(value: T)

  /** u64::saturating_add */
  function SatAdd(a: u64, b: u64): u64 {
    if a + b > U64_MAX then U64_MAX else a + b
  }

  /** u64::saturating_sub */
  function SatSub(a: u64, b: u64): u64 {
    if a < b then 0 else a - b
  }

  /** u64::wrapping_add(1), also what AtomicU64::fetch_add(1) leaves behind. */
  function Bump(counter: u64): u64 {
    if counter == U64_MAX then 0 else counter + 1
  }

  /** A counter bumped n times. */
  function CountAfter(count: u64, n: nat): u64 {
    (count + n) % TWO_64
  }

  lemma BumpIsCountAfter(count: u64, n: nat)
    ensures Bump(CountAfter(count, n)) == CountAfter(count, n + 1)
  {
    var q := (count + n) / TWO_64;
    var r := CountAfter(count, n);
    assert count + n == q * TWO_64 + r;
    if r == U64_MAX {
      assert count + n + 1 == (q + 1) * TWO_64;
    } else {
      assert count + n + 1 == q * TWO_64 + (r + 1);
    }
  }

  lemma CountAfterAdds(count: u64, m: nat, n: nat)
    ensures CountAfter(CountAfter(count, m), n) == CountAfter(count, m + n)
  {
    var q := (count + m) / TWO_64;
    assert CountAfter(count, m) == count + m - q * TWO_64;
    assert (count + m + n - q * TWO_64) % TWO_64 == (count + m + n) % TWO_64;
  }

  /** The i64 nearest to x: what the saturating i64 operations return. */
  function ClampI64(x: int): i64 {
    if x > I64_MAX then I64_MAX else if x < I64_MIN then I64_MIN else x
  }

  /** Two's complement: the i64 congruent to x modulo 2^64. */
  function WrapI64(x: int): (r: i64)
    decreases if x > I64_MAX then x - I64_MAX else if x < I64_MIN then I64_MIN - x else 0
  {
    if x > I64_MAX then WrapI64(x - TWO_64)
    else if x < I64_MIN then WrapI64(x + TWO_64)
    else x
  }

  lemma WrapShifts(x: int)
    ensures WrapI64(x + TWO_64) == WrapI64(x)
  {
  }

  /** Wrapping after every operation is wrapping once at the end. */
  lemma {:induction false} WrapAbsorbs(x: int, y: int)
    ensures WrapI64(WrapI64(x) + y) == WrapI64(x + y)
    decreases if x > I64_MAX then x - I64_MAX else if x < I64_MIN then I64_MIN - x else 0
  {
    if x > I64_MAX {
      WrapAbsorbs(x - TWO_64, y);
      WrapShifts(x - TWO_64 + y);
    } else if x < I64_MIN {
      WrapAbsorbs(x + TWO_64, y);
      WrapShifts(x + y);
    }
  }

  /** Numbers less than 2^64 apart wrap to the same i64 only when they are equal. */
  lemma {:induction false} WrapIsInjective(x: int, y: int)
    requires WrapI64(x) == WrapI64(y)
    requires -TWO_64 < x - y < TWO_64
    ensures x == y
    decreases if x > I64_MAX then x - I64_MAX else if x < I64_MIN then I64_MIN - x else 0
  {
    if x > I64_MAX {
      WrapShifts(y - TWO_64);
      WrapIsInjective(x - TWO_64, y - TWO_64);
    } else if x < I64_MIN {
      WrapShifts(y);
      WrapIsInjective(x + TWO_64, y + TWO_64);
    }
  }

  function Abs(x: int): nat {
    if x < 0 then -x else x
  }

  function Min(a: int, b: int): int {
    if a < b then a else b
  }

  type InstrumentId = string

  datatype Side = Buy | Sell

  datatype PriceType = Limit | Market | OpponentBest | OwnBest

  datatype OrderStatus =
    | Pending | PendingNew | Active | PendingCancel
    | Filled | Cancelled | Rejected | PartialFilled

  datatype Order = Order(
    instrumentId: InstrumentId,
    orderId: u64,
    clientOrderId: u64,
    side: Side,
    priceType: PriceType,
    limitPrice: real,
    quantity: u64,
    filledQuantity: u64,
    status: OrderStatus,
    timestamp: u64)

  datatype Position = Position(
    instrumentId: InstrumentId, quantity: i64, avgPrice: real, lastUpdateNs: u64)

  datatype OrderEvent = OrderEvent(
    instrumentId: InstrumentId,
    orderId: u64,
    status: OrderStatus,
    filledQuantity: u64,
    remainingQuantity: u64,
    lastPrice: real,
    timestamp: u64)

  datatype TradeEvent = TradeEvent(
    instrumentId: InstrumentId,
    tradeId: u64,
    orderId: u64,
    side: Side,
    price: real,
    quantity: u64,
    timestamp: u64)

  datatype NewOrder = NewOrder(
    instrumentId: InstrumentId,
    orderId: u64,
    clientOrderId: u64,
    side: Side,
    priceType: PriceType,
    limitPrice: real,
    quantity: u64,
    timestamp: u64)

  datatype CancelOrder = CancelOrder(instrumentId: InstrumentId, orderId: u64, timestamp: u64)

  datatype Action = SendNew(order: NewOrder) | SendCancel(cancel: CancelOrder)

  /** +q for a buy, -q for a sell. */
  function Signed(side: Side, quantity: int): int {
    if side == Buy then quantity else -quantity
  }
}
