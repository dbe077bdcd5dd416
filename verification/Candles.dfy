/** Candles and running statistics, kept up to date trade by trade, against what a batch over all the
    trades would compute. */
module Candles {
  import opened Types
  import EventBus

  datatype Candle = Candle(
    bucketStart: Time, open: Price, high: Price, low: Price, close: Price, volume: Quantity)

  datatype SymbolState = SymbolState(
    lastPrice: Price, totalVolume: Quantity, cumulativeNotional: real, candles: seq<Candle>)

  const NO_TRADES := SymbolState(0.0, 0, 0.0, [])

  /** Integer division that cuts the fraction off, on either side of zero. */
  function TruncatedQuotient(a: int, b: int): int
    requires b > 0
  {
    if a >= 0 then a / b else -((-a) / b)
  }

  /** The start of the bucket a trade falls in, for a bucket size. */
  function BucketBy(size: int): Trade -> Time
    requires size > 0
  {
    (t: Trade) => TruncatedQuotient(t.timestamp, size) * size
  }

  function Higher(a: Price, b: Price): Price { if a < b then b else a }

  function Lower(a: Price, b: Price): Price { if b < a then b else a }

  function OpenCandle(t: Trade, bucket: Trade -> Time): Candle {
    Candle(bucket(t), t.price, t.price, t.price, t.price, t.quantity)
  }

  function TakeTrade(c: Candle, t: Trade): Candle {
    c.(high := Higher(c.high, t.price), low := Lower(c.low, t.price), close := t.price, volume := c.volume + t.quantity)
  }

  function AddToCandles(candles: seq<Candle>, t: Trade, bucket: Trade -> Time): seq<Candle> {
    var last := |candles| - 1;
    if candles == [] || candles[last].bucketStart != bucket(t) then candles + [OpenCandle(t, bucket)]
    else candles[..last] + [TakeTrade(candles[last], t)]
  }

  function AddTrade(s: SymbolState, t: Trade, bucket: Trade -> Time): SymbolState {
    SymbolState(
      t.price, s.totalVolume + t.quantity, s.cumulativeNotional + Notional(t.quantity, t.price),
      AddToCandles(s.candles, t, bucket))
  }

  /** The state after a symbol's trades, one at a time. */
  function Online(trades: seq<Trade>, bucket: Trade -> Time): SymbolState
    decreases trades, 1
  {
    if trades == [] then NO_TRADES else OnlineLast(trades, bucket)
  }

  function OnlineLast(trades: seq<Trade>, bucket: Trade -> Time): SymbolState
    requires trades != []
    decreases trades, 0
  {
    AddTrade(Online(trades[..|trades| - 1], bucket), trades[|trades| - 1], bucket)
  }

  // ----- the batch

  ghost predicate OneBucket(run: seq<Trade>, bucket: Trade -> Time) {
    run != [] && forall t :: t in run ==> bucket(t) == bucket(run[0])
  }

  function Flatten(runs: seq<seq<Trade>>): seq<Trade> {
    if runs == [] then [] else Flatten(runs[..|runs| - 1]) + runs[|runs| - 1]
  }

  /** Maximal runs: one bucket each, and never two of the same bucket in a row. */
  ghost predicate MaximalRuns(runs: seq<seq<Trade>>, bucket: Trade -> Time) {
    runs == [] ||
    (var k := |runs| - 1;
     MaximalRuns(runs[..k], bucket) && OneBucket(runs[k], bucket) &&
     (k > 0 && runs[k - 1] != [] ==> bucket(runs[k - 1][0]) != bucket(runs[k][0])))
  }

  /** The trades cut, in order, into maximal runs of one bucket each. */
  ghost predicate IsGrouping(runs: seq<seq<Trade>>, trades: seq<Trade>, bucket: Trade -> Time) {
    Flatten(runs) == trades && MaximalRuns(runs, bucket)
  }

  ghost predicate IsHigh(p: Price, run: seq<Trade>) {
    (forall t :: t in run ==> t.price <= p) && (exists t :: t in run && t.price == p)
  }

  ghost predicate IsLow(p: Price, run: seq<Trade>) {
    (forall t :: t in run ==> p <= t.price) && (exists t :: t in run && t.price == p)
  }

  ghost predicate Summarizes(c: Candle, run: seq<Trade>, bucket: Trade -> Time) {
    run != [] && c.bucketStart == bucket(run[0]) && c.open == run[0].price && c.close == run[|run| - 1].price &&
    IsHigh(c.high, run) && IsLow(c.low, run) && c.volume == Filled(run)
  }

  /** One candle to a run, in order. */
  ghost predicate AllSummarized(candles: seq<Candle>, runs: seq<seq<Trade>>, bucket: Trade -> Time) {
    |candles| == |runs| &&
    (runs == [] ||
     (var k := |runs| - 1;
      Summarizes(candles[k], runs[k], bucket) && AllSummarized(candles[..k], runs[..k], bucket)))
  }

  lemma {:induction false} FilledAppend(a: seq<Trade>, t: Trade)
    ensures Filled(a + [t]) == Filled(a) + t.quantity
  {
    if a == [] {
      assert a + [t] == [t];
    } else {
      FilledAppend(a[1..], t);
      assert (a + [t])[1..] == a[1..] + [t];
    }
  }

  lemma NewCandle(t: Trade, bucket: Trade -> Time)
    ensures Summarizes(OpenCandle(t, bucket), [t], bucket)
  {
    assert t in [t];
    FilledAppend([], t);
    assert [] + [t] == [t];
  }

  lemma CandleTakesTrade(c: Candle, run: seq<Trade>, t: Trade, bucket: Trade -> Time)
    requires Summarizes(c, run, bucket)
    ensures Summarizes(TakeTrade(c, t), run + [t], bucket)
  {
    FilledAppend(run, t);
    var high: Trade :| high in run && high.price == c.high;
    var low: Trade :| low in run && low.price == c.low;
    assert high in run + [t] && low in run + [t] && t in run + [t];
  }

  lemma OnlineTakesTrade(trades: seq<Trade>, t: Trade, bucket: Trade -> Time)
    ensures Online(trades + [t], bucket) == AddTrade(Online(trades, bucket), t, bucket)
  {
    assert (trades + [t])[..|trades|] == trades;
  }

  /** A run that begins a new bucket becomes one new candle. */
  lemma {:induction false} RunBecomesCandle(before: seq<Trade>, run: seq<Trade>, bucket: Trade -> Time)
    returns (c: Candle)
    requires OneBucket(run, bucket)
    requires
      var candles := Online(before, bucket).candles;
      candles != [] ==> candles[|candles| - 1].bucketStart != bucket(run[0])
    ensures Online(before + run, bucket).candles == Online(before, bucket).candles + [c] && Summarizes(c, run, bucket)
    decreases |run|
  {
    var n := |run| - 1;
    var t := run[n];
    assert run == run[..n] + [t] && t in run;
    if n == 0 {
      OnlineTakesTrade(before, t, bucket);
      NewCandle(t, bucket);
      c := OpenCandle(t, bucket);
    } else {
      var shorter := RunBecomesCandle(before, run[..n], bucket);
      assert before + run == (before + run[..n]) + [t];
      OnlineTakesTrade(before + run[..n], t, bucket);
      LastTakesTrade(Online(before, bucket).candles, shorter, t, bucket);
      CandleTakesTrade(shorter, run[..n], t, bucket);
      c := TakeTrade(shorter, t);
    }
  }

  lemma LastTakesTrade(candles: seq<Candle>, c: Candle, t: Trade, bucket: Trade -> Time)
    requires c.bucketStart == bucket(t)
    ensures AddToCandles(candles + [c], t, bucket) == candles + [TakeTrade(c, t)]
  {
    assert (candles + [c])[..|candles|] == candles;
  }

  lemma OneMoreSummarized(candles: seq<Candle>, c: Candle, runs: seq<seq<Trade>>, bucket: Trade -> Time)
    requires runs != [] && AllSummarized(candles, runs[..|runs| - 1], bucket) && Summarizes(c, runs[|runs| - 1], bucket)
    ensures AllSummarized(candles + [c], runs, bucket)
  {
    assert (candles + [c])[..|candles|] == candles;
  }

  /** However the trades fall into maximal runs of one bucket, the candles kept online are one to a run,
      in order, and each has the run's open, high, low, close and volume. */
  lemma {:induction false} CandlesAreTheGrouping(runs: seq<seq<Trade>>, trades: seq<Trade>, bucket: Trade -> Time)
    requires IsGrouping(runs, trades, bucket)
    ensures AllSummarized(Online(trades, bucket).candles, runs, bucket)
    decreases |runs|
  {
    if runs != [] {
      var k := |runs| - 1;
      var before := Flatten(runs[..k]);
      CandlesAreTheGrouping(runs[..k], before, bucket);
      var c := RunBecomesCandle(before, runs[k], bucket);
      OneMoreSummarized(Online(before, bucket).candles, c, runs, bucket);
    }
  }

  /** Such a grouping always exists. */
  lemma {:induction false} SomeGrouping(trades: seq<Trade>, bucket: Trade -> Time) returns (runs: seq<seq<Trade>>)
    ensures IsGrouping(runs, trades, bucket)
  {
    runs := [];
    if trades != [] {
      var m := |trades| - 1;
      var before := SomeGrouping(trades[..m], bucket);
      runs := GroupingTakesTrade(before, trades[m], bucket);
      assert trades == trades[..m] + [trades[m]];
    }
  }

  lemma GroupingTakesTrade(runs: seq<seq<Trade>>, t: Trade, bucket: Trade -> Time) returns (runs': seq<seq<Trade>>)
    requires MaximalRuns(runs, bucket)
    ensures IsGrouping(runs', Flatten(runs) + [t], bucket)
  {
    var k := |runs| - 1;
    if runs == [] || bucket(runs[k][0]) != bucket(t) {
      runs' := runs + [[t]];
      assert runs'[..|runs|] == runs;
    } else {
      runs' := runs[..k] + [runs[k] + [t]];
      assert runs'[..k] == runs[..k];
    }
  }

  // ----- volume, average price, order

  function VolumeOf(candles: seq<Candle>): Quantity {
    if candles == [] then 0 else VolumeOf(candles[..|candles| - 1]) + candles[|candles| - 1].volume
  }

  function NotionalOf(trades: seq<Trade>): real {
    if trades == [] then 0.0
    else NotionalOf(trades[..|trades| - 1]) + Notional(trades[|trades| - 1].quantity, trades[|trades| - 1].price)
  }

  lemma TradeAddsVolume(candles: seq<Candle>, t: Trade, bucket: Trade -> Time)
    ensures VolumeOf(AddToCandles(candles, t, bucket)) == VolumeOf(candles) + t.quantity
  {
    var after := AddToCandles(candles, t, bucket);
    if |after| == |candles| {
      assert after[..|after| - 1] == candles[..|candles| - 1];
    } else {
      assert after[..|after| - 1] == candles;
    }
  }

  lemma {:induction false} CandleVolumesAddUp(trades: seq<Trade>, bucket: Trade -> Time)
    ensures VolumeOf(Online(trades, bucket).candles) == Online(trades, bucket).totalVolume
  {
    if trades != [] {
      var m := |trades| - 1;
      CandleVolumesAddUp(trades[..m], bucket);
      TradeAddsVolume(Online(trades[..m], bucket).candles, trades[m], bucket);
    }
  }

  lemma {:induction false} TotalsAddUp(trades: seq<Trade>, bucket: Trade -> Time)
    ensures Online(trades, bucket).totalVolume == Filled(trades)
    ensures Online(trades, bucket).cumulativeNotional == NotionalOf(trades)
  {
    if trades != [] {
      var m := |trades| - 1;
      TotalsAddUp(trades[..m], bucket);
      FilledAppend(trades[..m], trades[m]);
      assert trades == trades[..m] + [trades[m]];
    }
  }

  /** The last price is that of the last trade. */
  lemma LastPriceIsLast(trades: seq<Trade>, bucket: Trade -> Time)
    ensures Online(trades, bucket).lastPrice == if trades == [] then 0.0 else trades[|trades| - 1].price
  {}

  /** The candle volumes add up to the total volume, which is that of the trades. */
  lemma VolumesAddUp(trades: seq<Trade>, bucket: Trade -> Time)
    ensures
      var s := Online(trades, bucket);
      VolumeOf(s.candles) == s.totalVolume == Filled(trades) && s.cumulativeNotional == NotionalOf(trades)
  {
    CandleVolumesAddUp(trades, bucket);
    TotalsAddUp(trades, bucket);
  }

  ghost predicate Within(candles: seq<Candle>, low: Price, high: Price) {
    forall c :: c in candles ==> low <= c.low && c.high <= high
  }

  lemma NotionalWithin(quantity: Quantity, price: Price, low: Price, high: Price)
    requires quantity > 0 && low <= price <= high
    ensures Notional(quantity, low) <= Notional(quantity, price) <= Notional(quantity, high)
  {}

  lemma NotionalAdds(a: Quantity, b: Quantity, p: Price)
    ensures Notional(a + b, p) == Notional(a, p) + Notional(b, p)
  {}

  lemma OneMoreWithin(filled: Quantity, notional: real, t: Trade, low: Price, high: Price)
    requires Notional(filled, low) <= notional <= Notional(filled, high)
    requires t.quantity > 0 && low <= t.price <= high
    ensures
      var more := notional + Notional(t.quantity, t.price);
      Notional(filled + t.quantity, low) <= more <= Notional(filled + t.quantity, high)
  {
    NotionalWithin(t.quantity, t.price, low, high);
    NotionalAdds(filled, t.quantity, low);
    NotionalAdds(filled, t.quantity, high);
  }

  lemma {:induction false} NotionalStaysWithin(trades: seq<Trade>, bucket: Trade -> Time, low: Price, high: Price)
    requires Within(Online(trades, bucket).candles, low, high)
    requires forall t :: t in trades ==> t.quantity > 0
    ensures Notional(Filled(trades), low) <= NotionalOf(trades) <= Notional(Filled(trades), high)
    ensures Filled(trades) >= 0 && (trades != [] ==> Filled(trades) > 0)
  {
    if trades != [] {
      var m := |trades| - 1;
      var t := trades[m];
      assert Online(trades, bucket).candles == AddToCandles(Online(trades[..m], bucket).candles, t, bucket);
      StaysWithin(Online(trades[..m], bucket).candles, t, bucket, low, high);
      NotionalStaysWithin(trades[..m], bucket, low, high);
      FilledAppend(trades[..m], t);
      assert trades == trades[..m] + [t];
      OneMoreWithin(Filled(trades[..m]), NotionalOf(trades[..m]), t, low, high);
    }
  }

  lemma StaysWithin(candles: seq<Candle>, t: Trade, bucket: Trade -> Time, low: Price, high: Price)
    requires Within(AddToCandles(candles, t, bucket), low, high)
    ensures Within(candles, low, high) && low <= t.price <= high
  {
    var after := AddToCandles(candles, t, bucket);
    assert after[|after| - 1] in after;
    forall i | 0 <= i < |candles| ensures low <= candles[i].low && candles[i].high <= high {
      if i < |candles| - 1 || |after| > |candles| { assert after[i] == candles[i] && after[i] in after; }
    }
  }

  /** The buckets only go forward. */
  ghost predicate Increasing(candles: seq<Candle>) {
    |candles| < 2 ||
    (var k := |candles| - 1;
     candles[k - 1].bucketStart < candles[k].bucketStart && Increasing(candles[..k]))
  }

  ghost predicate InTime(trades: seq<Trade>) {
    |trades| < 2 ||
    (var m := |trades| - 1;
     trades[m - 1].timestamp <= trades[m].timestamp && InTime(trades[..m]))
  }

  lemma QuotientsFollow(p: int, q: int, size: int, r: int, r': int)
    requires size > 0 && p * size + r <= q * size + r' && 0 <= r && r' < size
    ensures p <= q
  {
    if p > q { ProductGrows(q + 1, p, size); }
  }

  lemma QuotientMonotone(a: int, b: int, size: int)
    requires size > 0 && 0 <= a <= b
    ensures a / size <= b / size
  {
    QuotientsFollow(a / size, b / size, size, a % size, b % size);
  }

  lemma QuotientNotNegative(a: int, size: int)
    requires size > 0 && 0 <= a
    ensures a / size >= 0
  {
    QuotientMonotone(0, a, size);
  }

  lemma BucketMonotone(a: Trade, b: Trade, size: int)
    requires size > 0 && a.timestamp <= b.timestamp
    ensures BucketBy(size)(a) <= BucketBy(size)(b)
  {
    var s, t := a.timestamp, b.timestamp;
    if s >= 0 {
      QuotientMonotone(s, t, size);
    } else if t < 0 {
      QuotientMonotone(-t, -s, size);
    } else {
      QuotientNotNegative(-s, size);
      QuotientNotNegative(t, size);
    }
    ProductGrows(TruncatedQuotient(s, size), TruncatedQuotient(t, size), size);
  }

  /** A bucket starts at a multiple of its size, and holds the timestamps less than that away: after its
      start from the epoch on and before it ahead of the epoch, so that the one at zero is twice as long. */
  lemma BucketHolds(t: Trade, size: int)
    requires size > 0
    ensures
      var start := BucketBy(size)(t);
      start % size == 0 &&
      (t.timestamp >= 0 ==> 0 <= start <= t.timestamp < start + size) &&
      (t.timestamp < 0 ==> start - size < t.timestamp <= start <= 0)
  {
    var q := TruncatedQuotient(t.timestamp, size);
    NoRemainder(q, size);
    if t.timestamp >= 0 { QuotientFits(t.timestamp, size); } else { QuotientFits(-t.timestamp, size); }
    assert -(-q * size) == q * size;
  }

  lemma QuotientFits(s: nat, size: int)
    requires size > 0
    ensures 0 <= s / size * size <= s < s / size * size + size
  {
    ProductGrows(0, s / size, size);
  }

  lemma NoRemainder(q: int, size: int)
    requires size > 0
    ensures q * size % size == 0
  {
    var d := q * size / size;
    assert (q - d) * size == q * size % size by { assert q * size == d * size + q * size % size; }
    if q - d >= 1 { ProductGrows(1, q - d, size); }
    if q - d <= -1 { ProductGrows(q - d, -1, size); }
  }

  lemma BucketsFollowTime(size: int)
    requires size > 0
    ensures NeverBack(BucketBy(size))
  {
    forall a: Trade, b: Trade | a.timestamp <= b.timestamp ensures BucketBy(size)(a) <= BucketBy(size)(b) {
      BucketMonotone(a, b, size);
    }
  }

  ghost predicate NeverBack(bucket: Trade -> Time) {
    forall a: Trade, b: Trade :: a.timestamp <= b.timestamp ==> bucket(a) <= bucket(b)
  }

  lemma CandlesMoveOn(candles: seq<Candle>, t: Trade, bucket: Trade -> Time)
    requires Increasing(candles) && (candles != [] ==> candles[|candles| - 1].bucketStart <= bucket(t))
    ensures
      var after := AddToCandles(candles, t, bucket);
      Increasing(after) && after != [] && after[|after| - 1].bucketStart == bucket(t)
  {
    var after := AddToCandles(candles, t, bucket);
    if |after| == |candles| {
      assert after[..|after| - 1] == candles[..|candles| - 1];
    } else {
      assert after[..|after| - 1] == candles;
    }
  }

  /** With timestamps that do not go back, each candle starts later than the one before. */
  lemma {:induction false} BucketsIncrease(trades: seq<Trade>, bucket: Trade -> Time)
    requires InTime(trades) && NeverBack(bucket)
    ensures Increasing(Online(trades, bucket).candles)
    ensures trades != [] ==>
      var candles := Online(trades, bucket).candles;
      candles != [] && candles[|candles| - 1].bucketStart == bucket(trades[|trades| - 1])
  {
    if trades != [] {
      var m := |trades| - 1;
      BucketsIncrease(trades[..m], bucket);
      assert m > 0 ==> bucket(trades[..m][m - 1]) <= bucket(trades[m]);
      CandlesMoveOn(Online(trades[..m], bucket).candles, trades[m], bucket);
    }
  }

  // ----- the object

  function OfSymbol(trades: seq<Trade>, symbol: Symbol): seq<Trade> {
    if trades == [] then []
    else
      var t := trades[|trades| - 1];
      OfSymbol(trades[..|trades| - 1], symbol) + if t.symbol == symbol then [t] else []
  }

  lemma OfSymbolTakes(trades: seq<Trade>, t: Trade, symbol: Symbol)
    ensures
      OfSymbol(trades + [t], symbol) ==
      if t.symbol == symbol then OfSymbol(trades, symbol) + [t] else OfSymbol(trades, symbol)
  {
    assert (trades + [t])[..|trades|] == trades;
  }

  lemma {:induction false} OfSymbolMembers(trades: seq<Trade>, symbol: Symbol, t: Trade)
    requires t in OfSymbol(trades, symbol)
    ensures t in trades && t.symbol == symbol
  {
    if t in OfSymbol(trades[..|trades| - 1], symbol) { OfSymbolMembers(trades[..|trades| - 1], symbol, t); }
  }

  function TradesIn(events: seq<EventBus.Event>): seq<Trade> {
    if events == [] then []
    else
      var e := events[|events| - 1];
      TradesIn(events[..|events| - 1]) + if e.TradeEvent? then [e.trade] else []
  }

  function StateOf(states: map<Symbol, SymbolState>, symbol: Symbol): SymbolState {
    if symbol in states then states[symbol] else NO_TRADES
  }

  /** Every symbol's state is that of its trades among all that were seen. */
  ghost predicate UpToDate(states: map<Symbol, SymbolState>, seen: seq<Trade>, bucket: Trade -> Time) {
    forall symbol :: StateOf(states, symbol) == Online(OfSymbol(seen, symbol), bucket)
  }

  lemma StaysUpToDate(states: map<Symbol, SymbolState>, seen: seq<Trade>, t: Trade, bucket: Trade -> Time)
    requires UpToDate(states, seen, bucket)
    ensures UpToDate(states[t.symbol := AddTrade(StateOf(states, t.symbol), t, bucket)], seen + [t], bucket)
  {
    OnlineTakesTrade(OfSymbol(seen, t.symbol), t, bucket);
    forall symbol ensures OfSymbol(seen + [t], symbol) ==
      if t.symbol == symbol then OfSymbol(seen, symbol) + [t] else OfSymbol(seen, symbol)
    {
      OfSymbolTakes(seen, t, symbol);
    }
  }

  class MarketData {
    var states: map<Symbol, SymbolState>
    const bucketSize: int
    /** Every trade seen so far. */
    ghost var seen: seq<Trade>

    ghost predicate Valid()
      reads this
    {
      bucketSize > 0 && UpToDate(states, seen, BucketBy(bucketSize))
    }

    constructor (bucketSize: int)
      requires bucketSize > 0
      ensures Valid() && seen == [] && this.bucketSize == bucketSize
    {
      this.bucketSize, states, seen := bucketSize, map[], [];
    }

    /** Everything but a trade is ignored. */
    method OnEvent(event: EventBus.Event)
      requires Valid()
      modifies this
      ensures Valid() && seen == old(seen) + if event.TradeEvent? then [event.trade] else []
    {
      if event.TradeEvent? { OnTrade(event.trade); }
    }

    method OnTrade(trade: Trade)
      requires Valid()
      modifies this
      ensures Valid() && seen == old(seen) + [trade]
    {
      var state := Update(StateOf(states, trade.symbol), trade);
      StaysUpToDate(states, seen, trade, BucketBy(bucketSize));
      states := states[trade.symbol := state];
      seen := seen + [trade];
    }

    /** The running figures, and either a new candle or the last one brought up to date. */
    method Update(before: SymbolState, trade: Trade) returns (state: SymbolState)
      requires bucketSize > 0
      ensures state == AddTrade(before, trade, BucketBy(bucketSize))
    {
      state := before.(
        lastPrice := trade.price,
        totalVolume := before.totalVolume + trade.quantity,
        cumulativeNotional := before.cumulativeNotional + Notional(trade.quantity, trade.price));
      var bucketStart := TruncatedQuotient(trade.timestamp, bucketSize) * bucketSize;
      var last := |state.candles| - 1;
      if state.candles == [] || state.candles[last].bucketStart != bucketStart {
        var p := trade.price;
        state := state.(candles := state.candles + [Candle(bucketStart, p, p, p, p, trade.quantity)]);
      } else {
        var candle := state.candles[last];
        candle := candle.(high := Higher(candle.high, trade.price));
        candle := candle.(low := Lower(candle.low, trade.price));
        candle := candle.(close := trade.price);
        candle := candle.(volume := candle.volume + trade.quantity);
        state := state.(candles := state.candles[..last] + [candle]);
      }
    }

    /** That of the symbol's last trade seen, or zero. */
    method LastPrice(symbol: Symbol) returns (price: Price)
      requires Valid()
      ensures
        var trades := OfSymbol(seen, symbol);
        price == if trades == [] then 0.0 else trades[|trades| - 1].price
    {
      price := if symbol in states then states[symbol].lastPrice else 0.0;
      LastPriceIsLast(OfSymbol(seen, symbol), BucketBy(bucketSize));
    }

    function TotalVolume(symbol: Symbol): Quantity
      reads this
    {
      if symbol in states then states[symbol].totalVolume else 0
    }

    /** Zero without volume; otherwise the value traded over the volume, which, if every trade moved
        shares, lies between any floor and any ceiling of the candles. */
    method Vwap(symbol: Symbol) returns (vwap: real)
      requires Valid()
      ensures TotalVolume(symbol) == Filled(OfSymbol(seen, symbol))
      ensures vwap == if TotalVolume(symbol) == 0 then 0.0
        else NotionalOf(OfSymbol(seen, symbol)) / Filled(OfSymbol(seen, symbol)) as real
      ensures forall low, high ::
        (OfSymbol(seen, symbol) != [] && (forall t :: t in seen ==> t.quantity > 0) &&
         Within(StateOf(states, symbol).candles, low, high)) ==> low <= vwap <= high
    {
      var state := StateOf(states, symbol);
      vwap := if state.totalVolume == 0 then 0.0 else state.cumulativeNotional / state.totalVolume as real;
      ghost var trades, bucket := OfSymbol(seen, symbol), BucketBy(bucketSize);
      VolumesAddUp(trades, bucket);
      forall low, high | trades != [] && (forall t :: t in seen ==> t.quantity > 0) && Within(state.candles, low, high)
        ensures low <= vwap <= high
      {
        forall t | t in trades ensures t.quantity > 0 { OfSymbolMembers(seen, symbol, t); }
        NotionalStaysWithin(trades, bucket, low, high);
        QuotientWithin(state.cumulativeNotional, Filled(trades), low, high);
      }
    }

    /** The last candles, oldest first: so the most recent comes first only if there are fewer than two. */
    method RecentCandles(symbol: Symbol, count: nat) returns (recent: seq<Candle>)
      requires Valid()
      ensures |recent| == Min(count, |StateOf(states, symbol).candles|)
      ensures recent == StateOf(states, symbol).candles[|StateOf(states, symbol).candles| - |recent|..]
      ensures InTime(OfSymbol(seen, symbol)) ==> Increasing(recent) && (MostRecentFirst(recent) <==> |recent| < 2)
    {
      var candles := StateOf(states, symbol).candles;
      var n := Min(count, |candles|);
      recent := candles[|candles| - n..];
      if InTime(OfSymbol(seen, symbol)) {
        BucketsFollowTime(bucketSize);
        BucketsIncrease(OfSymbol(seen, symbol), BucketBy(bucketSize));
        SuffixIncreases(candles, n);
        IncreasingIsOldestFirst(recent);
      }
    }

    /** What a run of the bus does to the object: it is called back at each of its deliveries. */
    method FollowBus(bus: EventBus.Bus, steps: seq<EventBus.Step>, id: EventBus.SubscriptionId)
      requires Valid() && EventBus.IsRun(bus, steps) && EventBus.Invariant(bus)
      requires seen == TradesIn(EventBus.HeardSoFar(bus, id))
      modifies this
      ensures Valid() && seen == TradesIn(EventBus.HeardSoFar(EventBus.After(bus, steps), id))
    {
      var now := bus;
      for i := 0 to |steps|
        invariant EventBus.IsRun(now, steps[i..]) && EventBus.Invariant(now)
        invariant EventBus.After(now, steps[i..]) == EventBus.After(bus, steps)
        invariant Valid() && seen == TradesIn(EventBus.HeardSoFar(now, id))
      {
        EventBus.StepIsHeard(now, steps[i], id);
        EventBus.StepKeepsInvariant(now, steps[i]);
        if steps[i] == EventBus.Deliver(id) {
          TradesInTakes(EventBus.HeardSoFar(now, id), now.worker.round.event);
          OnEvent(now.worker.round.event);
        }
        assert steps[i..][0] == steps[i] && steps[i..][1..] == steps[i + 1..];
        now := EventBus.Next(now, steps[i]);
      }
    }
  }

  lemma TradesInTakes(events: seq<EventBus.Event>, e: EventBus.Event)
    ensures TradesIn(events + [e]) == TradesIn(events) + if e.TradeEvent? then [e.trade] else []
  {
    assert (events + [e])[..|events|] == events;
  }

  /** Whoever has followed the bus from before the first event has, when a flush returns, seen exactly the
      trades published, in that order, and so has for every symbol the batch's candles over all of them. */
  lemma FlushedDataIsTheBatch(
      bus: EventBus.Bus, steps: seq<EventBus.Step>, id: EventBus.SubscriptionId, data: MarketData,
      symbol: Symbol, runs: seq<seq<Trade>>)
    requires EventBus.Invariant(bus) && bus.published == [] && EventBus.Listening(bus, id)
    requires EventBus.IsRun(bus, steps) && EventBus.Unsubscribe(id) !in steps
    requires EventBus.Enabled(EventBus.After(bus, steps), EventBus.FlushReturns)
    requires data.Valid() && data.seen == TradesIn(EventBus.HeardSoFar(EventBus.After(bus, steps), id))
    requires IsGrouping(
      runs, OfSymbol(TradesIn(EventBus.After(bus, steps).published), symbol), BucketBy(data.bucketSize))
    ensures data.seen == TradesIn(EventBus.After(bus, steps).published)
    ensures AllSummarized(StateOf(data.states, symbol).candles, runs, BucketBy(data.bucketSize))
  {
    EventBus.CurrentAfterFlush(bus, steps, id);
    EventBus.RunKeepsInvariant(bus, steps);
    assert EventBus.HeardSoFar(EventBus.After(bus, steps), id) == EventBus.After(bus, steps).published;
    CandlesAreTheGrouping(runs, OfSymbol(data.seen, symbol), BucketBy(data.bucketSize));
  }

  /** The header's promise. */
  ghost predicate MostRecentFirst(candles: seq<Candle>) {
    forall i, j :: 0 <= i < j < |candles| ==> candles[i].bucketStart > candles[j].bucketStart
  }

  lemma IncreasingIsOldestFirst(candles: seq<Candle>)
    requires Increasing(candles)
    ensures MostRecentFirst(candles) <==> |candles| < 2
  {
    var k := |candles| - 1;
    if k >= 1 { assert candles[k - 1].bucketStart < candles[k].bucketStart; }
  }

  lemma {:induction false} SuffixIncreases(candles: seq<Candle>, n: nat)
    requires Increasing(candles) && n <= |candles|
    ensures Increasing(candles[|candles| - n..])
  {
    if n >= 2 {
      SuffixIncreases(candles[..|candles| - 1], n - 1);
      var recent := candles[|candles| - n..];
      assert recent[..n - 1] == candles[..|candles| - 1][|candles| - n..];
    }
  }

  lemma QuotientWithin(total: real, volume: Quantity, low: Price, high: Price)
    requires volume > 0 && Notional(volume, low) <= total <= Notional(volume, high)
    ensures low <= total / volume as real <= high
  {}
}
