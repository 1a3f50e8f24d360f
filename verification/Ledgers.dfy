/** The position ledger: signed quantity and average price per instrument, fed by
    trades that the fill memory accepts. */
module Ledgers {
  import opened Specs
  import opened Fills

  const DEFAULT_FILL_WINDOW: nat := 10_000

  datatype PositionState = PositionState(quantity: i64, avgPrice: real, lastUpdateNs: u64)

  datatype LedgerState = LedgerState(window: seq<u64>, positions: map<InstrumentId, PositionState>)

  const EmptyLedger := LedgerState([], map[])

  function Signum(x: int): int {
    if x > 0 then 1 else if x < 0 then -1 else 0
  }

  function NextAvgPrice(prevQty: i64, prevAvg: real, delta: i64, tradePrice: real, nextQty: i64): real {
    if nextQty == 0 then 0.0
    else if prevQty == 0 || Signum(prevQty) == Signum(delta) then
      var prevAbs := Abs(prevQty) as real;
      var deltaAbs := Abs(delta) as real;
      var total := prevAbs + deltaAbs;
      if total == 0.0 then 0.0 else (prevAvg * prevAbs + tradePrice * deltaAbs) / total
    else if Signum(nextQty) != Signum(prevQty) then tradePrice
    else prevAvg
  }

  /** The trade's quantity as a signed i64, wrapped as the cast wraps it. */
  function TradeDelta(trade: TradeEvent): i64 {
    WrapI64(Signed(trade.side, trade.quantity))
  }

  function MovePosition(prev: PositionState, trade: TradeEvent): PositionState {
    var delta := TradeDelta(trade);
    var nextQty := ClampI64(prev.quantity + delta);
    PositionState(nextQty,
                  NextAvgPrice(prev.quantity, prev.avgPrice, delta, trade.price, nextQty),
                  trade.timestamp)
  }

  function PositionOf(positions: map<InstrumentId, PositionState>, instrumentId: InstrumentId, now: u64): PositionState {
    if instrumentId in positions then positions[instrumentId] else PositionState(0, 0.0, now)
  }

  function QuantityOf(positions: map<InstrumentId, PositionState>, instrumentId: InstrumentId): i64 {
    if instrumentId in positions then positions[instrumentId].quantity else 0
  }

  predicate Accepts(ledger: LedgerState, trade: TradeEvent) {
    trade.tradeId !in ledger.window
  }

  function LedgerAfterTrade(ledger: LedgerState, trade: TradeEvent): LedgerState {
    if !Accepts(ledger, trade) then ledger
    else
      var moved := MovePosition(PositionOf(ledger.positions, trade.instrumentId, trade.timestamp), trade);
      LedgerState(Remember(ledger.window, DEFAULT_FILL_WINDOW, trade.tradeId),
                  ledger.positions[trade.instrumentId := moved])
  }

  class Ledger {
    const fillLedger: FillLedger
    var positions: map<InstrumentId, PositionState>

    ghost predicate Valid()
      reads this, fillLedger
    {
      fillLedger.Valid() && fillLedger.maxSize == DEFAULT_FILL_WINDOW
    }

    ghost function View(): LedgerState
      reads this, fillLedger
    {
      LedgerState(fillLedger.deque, positions)
    }

    constructor ()
      ensures Valid() && View() == EmptyLedger && fresh(fillLedger)
    {
      fillLedger := new FillLedger(DEFAULT_FILL_WINDOW);
      positions := map[];
    }

    method ApplyTradeEvent(trade: TradeEvent) returns (position: Option<Position>)
      requires Valid()
      modifies this, fillLedger
      ensures Valid()
      ensures View() == LedgerAfterTrade(old(View()), trade)
      ensures position.Some? <==> Accepts(old(View()), trade)
      ensures position.Some? ==>
        && trade.instrumentId in positions
        && var moved := positions[trade.instrumentId];
           position.value == Position(trade.instrumentId, moved.quantity, moved.avgPrice, moved.lastUpdateNs)
    {
      var isNew := fillLedger.CheckAndInsert(trade.tradeId);
      if !isNew {
        return None;
      }
      var delta: int := TradeDelta(trade);
      var state := PositionState(0, 0.0, trade.timestamp);
      if trade.instrumentId in positions {
        state := positions[trade.instrumentId];
      }
      var prevQty := state.quantity;
      var nextQty := ClampI64(prevQty + delta);
      state := state.(avgPrice := NextAvgPrice(prevQty, state.avgPrice, delta, trade.price, nextQty));
      state := state.(quantity := nextQty);
      state := state.(lastUpdateNs := trade.timestamp);
      positions := positions[trade.instrumentId := state];
      return Some(Position(trade.instrumentId, state.quantity, state.avgPrice, state.lastUpdateNs));
    }

    method PositionFor(instrumentId: InstrumentId) returns (position: Option<Position>)
      ensures position.None? <==> instrumentId !in positions
      ensures position.Some? ==>
        var state := positions[instrumentId];
        position.value == Position(instrumentId, state.quantity, state.avgPrice, state.lastUpdateNs)
    {
      if instrumentId in positions {
        var state := positions[instrumentId];
        return Some(Position(instrumentId, state.quantity, state.avgPrice, state.lastUpdateNs));
      }
      return None;
    }
  }

  // ---------------------------------------------------------------------------
  // One instrument over a run of trades

  /** The position after a run of trades on one instrument, starting flat. */
  function PositionAfter(trades: seq<TradeEvent>): PositionState {
    if trades == [] then PositionState(0, 0.0, 0)
    else MovePosition(PositionAfter(trades[..|trades| - 1]), trades[|trades| - 1])
  }

  function NetQuantity(trades: seq<TradeEvent>): int {
    if trades == [] then 0
    else NetQuantity(trades[..|trades| - 1])
         + Signed(trades[|trades| - 1].side, trades[|trades| - 1].quantity)
  }

  function TradedQuantity(trades: seq<TradeEvent>): nat {
    if trades == [] then 0
    else TradedQuantity(trades[..|trades| - 1]) + trades[|trades| - 1].quantity
  }

  /** Money received minus money paid. */
  function CashFlow(trades: seq<TradeEvent>): real {
    if trades == [] then 0.0
    else
      var last := trades[|trades| - 1];
      CashFlow(trades[..|trades| - 1]) - Value(Signed(last.side, last.quantity), last.price)
  }

  function Value(quantity: int, price: real): real {
    (quantity as real) * price
  }

  /** How much of a position of prev the trade of signed size delta closes, with the
      sign of the position: nothing when it opens or adds, everything when it flips. */
  function ClosedQuantity(prev: int, delta: int): int {
    if prev > 0 > delta then Min(prev, -delta)
    else if prev < 0 < delta then -Min(-prev, delta)
    else 0
  }

  /** Profit realised by one trade: the quantity it closes, valued against the average
      price it is closed at. */
  function Gain(prevQty: int, prevAvg: real, delta: int, price: real): real {
    Value(ClosedQuantity(prevQty, delta), price - prevAvg)
  }

  function Realised(trades: seq<TradeEvent>): real {
    if trades == [] then 0.0
    else
      var before := trades[..|trades| - 1];
      var last := trades[|trades| - 1];
      Realised(before)
      + Gain(NetQuantity(before), PositionAfter(before).avgPrice, Signed(last.side, last.quantity), last.price)
  }

  /** The position valued at its average price. */
  function BookValue(position: PositionState): real {
    Value(position.quantity, position.avgPrice)
  }

  lemma {:induction false} QuantityIsNet(trades: seq<TradeEvent>)
    requires TradedQuantity(trades) <= I64_MAX
    ensures PositionAfter(trades).quantity == NetQuantity(trades)
    ensures Abs(NetQuantity(trades)) <= TradedQuantity(trades)
  {
    if trades != [] {
      QuantityIsNet(trades[..|trades| - 1]);
    }
  }

  lemma ValueIsBilinear(a: int, b: int, x: real, y: real)
    ensures Value(a + b, x) == Value(a, x) + Value(b, x)
    ensures Value(a, x - y) == Value(a, x) - Value(a, y)
  {
  }

  lemma Unscale(sum: real, total: real)
    requires total > 0.0
    ensures total * (sum / total) == sum
  {
  }

  lemma WeightedAverage(a: nat, b: nat, x: real, y: real)
    requires a + b > 0
    ensures Value(a + b, (x * (a as real) + y * (b as real)) / (a as real + b as real)) == Value(a, x) + Value(b, y)
  {
    var w1, w2 := a as real, b as real;
    Unscale(x * w1 + y * w2, w1 + w2);
    assert (a + b) as real == w1 + w2;
  }

  lemma NegativeValue(a: int, x: real)
    ensures Value(-a, x) == -Value(a, x)
  {
  }

  lemma ValueOfAdding(prevQty: i64, prevAvg: real, delta: i64, price: real)
    requires prevQty + delta != 0 && (prevQty == 0 || Signum(prevQty) == Signum(delta))
    requires I64_MIN <= prevQty + delta <= I64_MAX
    ensures Value(prevQty + delta, NextAvgPrice(prevQty, prevAvg, delta, price, prevQty + delta))
         == Value(prevQty, prevAvg) + Value(delta, price)
  {
    var a, b := Abs(prevQty), Abs(delta);
    WeightedAverage(a, b, prevAvg, price);
    var avg := (prevAvg * (a as real) + price * (b as real)) / (a as real + b as real);
    assert NextAvgPrice(prevQty, prevAvg, delta, price, prevQty + delta) == avg;
    if delta < 0 {
      assert prevQty + delta == -((a + b) as int);
      NegativeValue(a + b, avg);
      NegativeValue(a, prevAvg);
      NegativeValue(b, price);
    } else {
      assert prevQty == a && delta == b;
    }
  }

  /** What one trade does to quantity times average price: it grows by the trade's
      value and by the value realised on the part it closes. */
  lemma BookValueStep(prevQty: i64, prevAvg: real, delta: i64, price: real)
    requires I64_MIN <= prevQty + delta <= I64_MAX
    ensures Value(prevQty + delta, NextAvgPrice(prevQty, prevAvg, delta, price, prevQty + delta))
         == Value(prevQty, prevAvg) + Value(delta, price) + Gain(prevQty, prevAvg, delta, price)
  {
    var closed := ClosedQuantity(prevQty, delta);
    if prevQty + delta != 0 && (prevQty == 0 || Signum(prevQty) == Signum(delta)) {
      ValueOfAdding(prevQty, prevAvg, delta, price);
      assert closed == 0;
    } else if Abs(prevQty) <= Abs(delta) {
      assert closed == prevQty;
      ValueIsBilinear(prevQty, delta, price, prevAvg);
    } else {
      assert closed == -delta;
      ValueIsBilinear(prevQty, delta, prevAvg, 0.0);
      ValueIsBilinear(delta, 0, price, prevAvg);
      NegativeValue(delta, price - prevAvg);
    }
  }

  lemma FlatHasNoAverage(trades: seq<TradeEvent>)
    ensures PositionAfter(trades).quantity == 0 ==> PositionAfter(trades).avgPrice == 0.0
  {
  }

  /** Short of the 64-bit limits a trade moves the position by its signed quantity. */
  lemma MoveIsExact(prev: PositionState, trade: TradeEvent, delta: i64)
    requires delta == Signed(trade.side, trade.quantity)
    requires I64_MIN <= prev.quantity + delta <= I64_MAX
    ensures MovePosition(prev, trade)
         == PositionState(prev.quantity + delta,
                          NextAvgPrice(prev.quantity, prev.avgPrice, delta, trade.price, prev.quantity + delta),
                          trade.timestamp)
  {
  }

  /** A position's book value grows by a trade's value and by what the trade realises. */
  lemma BookValueOfMove(prev: PositionState, trade: TradeEvent, delta: i64)
    requires delta == Signed(trade.side, trade.quantity)
    requires I64_MIN <= prev.quantity + delta <= I64_MAX
    ensures BookValue(MovePosition(prev, trade))
         == BookValue(prev) + Value(delta, trade.price) + Gain(prev.quantity, prev.avgPrice, delta, trade.price)
  {
    MoveIsExact(prev, trade, delta);
    BookValueStep(prev.quantity, prev.avgPrice, delta, trade.price);
  }

  /** The profit identity: after any run of trades, the money moved plus the position
      valued at its average price is the profit realised, to the last unit. */
  lemma {:induction false} ProfitIdentity(trades: seq<TradeEvent>)
    requires TradedQuantity(trades) <= I64_MAX
    ensures CashFlow(trades) + BookValue(PositionAfter(trades)) == Realised(trades)
  {
    if trades != [] {
      var before := trades[..|trades| - 1];
      var last := trades[|trades| - 1];
      ProfitIdentity(before);
      QuantityIsNet(before);
      QuantityIsNet(trades);
      FlatHasNoAverage(before);
      BookValueOfMove(PositionAfter(before), last, Signed(last.side, last.quantity));
    }
  }

  lemma Below(w: real, x: real, y: real)
    requires w >= 0.0 && (w > 0.0 ==> x <= y)
    ensures x * w <= y * w
  {
  }

  lemma Distributes(x: real, w1: real, w2: real)
    ensures x * (w1 + w2) == x * w1 + x * w2
  {
  }

  lemma WeightedSumBetween(w1: real, w2: real, x1: real, x2: real, lo: real, hi: real)
    requires w1 >= 0.0 && w2 >= 0.0
    requires w1 > 0.0 ==> lo <= x1 <= hi
    requires w2 > 0.0 ==> lo <= x2 <= hi
    ensures lo * (w1 + w2) <= x1 * w1 + x2 * w2 <= hi * (w1 + w2)
  {
    Below(w1, lo, x1);
    Below(w2, lo, x2);
    Below(w1, x1, hi);
    Below(w2, x2, hi);
    Distributes(lo, w1, w2);
    Distributes(hi, w1, w2);
  }

  lemma QuotientBounds(sum: real, total: real, lo: real, hi: real)
    requires total > 0.0 && lo * total <= sum <= hi * total
    ensures lo <= sum / total <= hi
  {
    var q := sum / total;
    assert q * total == sum;
    assert (q - lo) * total >= 0.0;
    assert (hi - q) * total >= 0.0;
  }

  lemma AverageBetween(w1: real, w2: real, x1: real, x2: real, lo: real, hi: real)
    requires w1 >= 0.0 && w2 >= 0.0 && w1 + w2 > 0.0
    requires w1 > 0.0 ==> lo <= x1 <= hi
    requires w2 > 0.0 ==> lo <= x2 <= hi
    ensures lo <= (x1 * w1 + x2 * w2) / (w1 + w2) <= hi
  {
    WeightedSumBetween(w1, w2, x1, x2, lo, hi);
    QuotientBounds(x1 * w1 + x2 * w2, w1 + w2, lo, hi);
  }

  lemma NextAverageBetween(prevQty: i64, prevAvg: real, delta: i64, price: real, nextQty: i64, lo: real, hi: real)
    requires nextQty != 0 && nextQty == ClampI64(prevQty + delta)
    requires prevQty != 0 ==> lo <= prevAvg <= hi
    requires lo <= price <= hi
    ensures lo <= NextAvgPrice(prevQty, prevAvg, delta, price, nextQty) <= hi
  {
    if prevQty == 0 || Signum(prevQty) == Signum(delta) {
      var a, b := Abs(prevQty) as real, Abs(delta) as real;
      assert Abs(prevQty) + Abs(delta) > 0;
      AverageBetween(a, b, prevAvg, price, lo, hi);
      assert NextAvgPrice(prevQty, prevAvg, delta, price, nextQty) == (prevAvg * a + price * b) / (a + b);
    } else {
      assert prevQty != 0 && NextAvgPrice(prevQty, prevAvg, delta, price, nextQty) in {price, prevAvg};
    }
  }

  lemma AverageOfMove(prev: PositionState, trade: TradeEvent, lo: real, hi: real)
    requires prev.quantity != 0 ==> lo <= prev.avgPrice <= hi
    requires lo <= trade.price <= hi
    ensures MovePosition(prev, trade).quantity != 0 ==> lo <= MovePosition(prev, trade).avgPrice <= hi
  {
    var moved := MovePosition(prev, trade);
    if moved.quantity != 0 {
      NextAverageBetween(prev.quantity, prev.avgPrice, TradeDelta(trade), trade.price, moved.quantity, lo, hi);
    }
  }

  /** While a position is open its average price stays within the traded prices, even where the
      quantities saturate or wrap. */
  lemma {:induction false} AverageWithinTradedPrices(trades: seq<TradeEvent>, lo: real, hi: real)
    requires forall k :: 0 <= k < |trades| ==> lo <= trades[k].price <= hi
    ensures PositionAfter(trades).quantity != 0 ==> lo <= PositionAfter(trades).avgPrice <= hi
  {
    if trades != [] {
      var before := trades[..|trades| - 1];
      AverageWithinTradedPrices(before, lo, hi);
      AverageOfMove(PositionAfter(before), trades[|trades| - 1], lo, hi);
    }
  }

  // ---------------------------------------------------------------------------
  // The whole ledger over a run of events, replays included

  function LedgerAfter(events: seq<TradeEvent>): LedgerState {
    if events == [] then EmptyLedger
    else LedgerAfterTrade(LedgerAfter(events[..|events| - 1]), events[|events| - 1])
  }

  /** The accepted trades on one instrument. */
  function Journal(events: seq<TradeEvent>, instrumentId: InstrumentId): seq<TradeEvent> {
    if events == [] then []
    else
      var before := events[..|events| - 1];
      var last := events[|events| - 1];
      if last.instrumentId == instrumentId && Accepts(LedgerAfter(before), last)
      then Journal(before, instrumentId) + [last]
      else Journal(before, instrumentId)
  }

  /** Each instrument's entry is what its own accepted trades make of a flat position;
      other instruments and replays leave no trace. */
  lemma {:induction false} LedgerSplitsByInstrument(events: seq<TradeEvent>, instrumentId: InstrumentId)
    ensures instrumentId in LedgerAfter(events).positions <==> Journal(events, instrumentId) != []
    ensures instrumentId in LedgerAfter(events).positions ==>
              LedgerAfter(events).positions[instrumentId] == PositionAfter(Journal(events, instrumentId))
  {
    if events != [] {
      var before := events[..|events| - 1];
      var last := events[|events| - 1];
      LedgerSplitsByInstrument(before, instrumentId);
      if last.instrumentId == instrumentId && Accepts(LedgerAfter(before), last) {
        var journal := Journal(before, instrumentId);
        assert Journal(events, instrumentId)[..|journal|] == journal;
      }
    }
  }

  /** The profit identity and the price bound, for every instrument of a ledger that
      has seen any stream of trade events. */
  lemma LedgerProfit(events: seq<TradeEvent>, instrumentId: InstrumentId, lo: real, hi: real)
    requires TradedQuantity(Journal(events, instrumentId)) <= I64_MAX
    requires forall k :: 0 <= k < |Journal(events, instrumentId)| ==> lo <= Journal(events, instrumentId)[k].price <= hi
    requires instrumentId in LedgerAfter(events).positions
    ensures LedgerAfter(events).positions[instrumentId].quantity == NetQuantity(Journal(events, instrumentId))
    ensures CashFlow(Journal(events, instrumentId)) + BookValue(LedgerAfter(events).positions[instrumentId])
         == Realised(Journal(events, instrumentId))
    ensures var state := LedgerAfter(events).positions[instrumentId];
            if state.quantity == 0 then state.avgPrice == 0.0 else lo <= state.avgPrice <= hi
  {
    var journal := Journal(events, instrumentId);
    LedgerSplitsByInstrument(events, instrumentId);
    QuantityIsNet(journal);
    ProfitIdentity(journal);
    FlatHasNoAverage(journal);
    AverageWithinTradedPrices(journal, lo, hi);
  }

  /** An entry is dated by the last trade that was accepted on its instrument. */
  lemma EntryIsDatedByLastTrade(events: seq<TradeEvent>, instrumentId: InstrumentId)
    requires instrumentId in LedgerAfter(events).positions
    ensures var journal := Journal(events, instrumentId);
            journal != [] && LedgerAfter(events).positions[instrumentId].lastUpdateNs == journal[|journal| - 1].timestamp
  {
    LedgerSplitsByInstrument(events, instrumentId);
  }

  // ---------------------------------------------------------------------------
  // At the 64-bit limits

  ghost predicate OneSided(trades: seq<TradeEvent>, side: Side) {
    forall k :: 0 <= k < |trades| ==> trades[k].side == side && trades[k].quantity <= I64_MAX
  }

  /** Trades on one side add up until they meet the end of the range, and stay there. */
  lemma {:induction false} OneSidedTradesSaturate(trades: seq<TradeEvent>, side: Side)
    requires OneSided(trades, side)
    ensures PositionAfter(trades).quantity
         == if side == Buy then Min(TradedQuantity(trades), I64_MAX) else -Min(TradedQuantity(trades), -I64_MIN)
  {
    if trades != [] {
      var last := trades[|trades| - 1];
      OneSidedTradesSaturate(trades[..|trades| - 1], side);
      assert last.side == side && last.quantity <= I64_MAX;
    }
  }

  /** A trade of more than an i64 can hold counts with the other sign: such a purchase makes a
      flat position short. */
  lemma HugeTradeCountsBackwards(trade: TradeEvent, now: u64)
    requires trade.quantity > I64_MAX + 1
    ensures var quantity := MovePosition(PositionState(0, 0.0, now), trade).quantity;
            quantity == (if trade.side == Buy then trade.quantity - TWO_64 else TWO_64 - trade.quantity)
            && (quantity < 0 <==> trade.side == Buy)
  {
    var q: int := trade.quantity;
    WrapShifts(q - TWO_64);
    WrapShifts(-q);
    assert WrapI64(q - TWO_64) == q - TWO_64 && WrapI64(TWO_64 - q) == TWO_64 - q;
    assert TradeDelta(trade) == if trade.side == Buy then q - TWO_64 else TWO_64 - q;
  }
}
