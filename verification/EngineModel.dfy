/** The matching engine as a value: what each whole call does to books, portfolios, prices, the
    waiting registry and the set of symbols that traded. */
module EngineModel {
  import opened Types
  import opened Books
  import opened Registry
  import opened Portfolios

  datatype Engine = Engine(
    books: map<Symbol, Book>, lastPrices: map<Symbol, Price>, portfolios: PortfolioMap,
    waiting: map<OrderId, Order>, dirty: set<Symbol>, nextOrderId: OrderId)

  datatype Reject =
    | QuantityNotPositive | PriceNotPositive | UnknownSymbol | InsufficientCash | InsufficientHoldings

  datatype SubmitResult = SubmitResult(
    accepted: bool, queued: bool, reject: Option<Reject>, orderId: OrderId, filled: Quantity, trades: seq<Trade>)

  datatype Submitted = Submitted(engine: Engine, result: SubmitResult)

  /** The buffer above the last price that a MARKET buy must be able to pay. */
  const MARKET_CASH_SAFETY_FACTOR := 1.10

  function PriceIn(prices: map<Symbol, Price>, s: Symbol): Price { if s in prices then prices[s] else 0.0 }

  function RegisterSymbol(e: Engine, s: Symbol, price: Price): Engine {
    e.(books := if s in e.books then e.books else e.books[s := Book([], [])], lastPrices := e.lastPrices[s := price])
  }

  /** Unknown clients fail the check. */
  function PassesRiskCheck(ps: PortfolioMap, prices: map<Symbol, Price>, r: OrderRequest): bool {
    r.client in ps &&
    if r.side == Sell then ps[r.client].Holding(r.symbol) >= r.quantity
    else
      var reference :=
        if r.kind == Market then PriceIn(prices, r.symbol) * MARKET_CASH_SAFETY_FACTOR else r.price;
      ps[r.client].cash >= Notional(r.quantity, reference)
  }

  function LowerOr(p: Option<Price>): Bound { if p.Some? then At(p.value) else NegInf }

  function UpperOr(p: Option<Price>): Bound { if p.Some? then At(p.value) else PosInf }

  function Shift(now: Time, delay: Option<Time>): Option<Time> {
    if delay.Some? then Some(now + delay.value) else None
  }

  /** A STOP is released by side: a buy when the price rises to its trigger, a sell when it falls. */
  function BuildOrder(r: OrderRequest, id: OrderId, now: Time): Order {
    var trigger := if r.triggerUpper.Some? then r.triggerUpper.value else r.price;
    var lower := if r.kind != Stop then LowerOr(r.triggerLower) else if r.side == Buy then At(trigger) else NegInf;
    var upper := if r.kind != Stop then UpperOr(r.triggerUpper) else if r.side == Buy then PosInf else At(trigger);
    Order(id, r.client, r.side, r.kind, r.symbol, r.quantity, r.price, lower, upper, now,
          Shift(now, r.notBeforeIn), Shift(now, r.expiresIn))
  }

  /** One trade: the two portfolios, the last price, and the mark that the symbol traded. */
  function SettleOne(e: Engine, t: Trade): Engine {
    e.(portfolios := Settle(e.portfolios, t), lastPrices := e.lastPrices[t.symbol := t.price],
       dirty := e.dirty + {t.symbol})
  }

  function SettleAll(e: Engine, trades: seq<Trade>): (settled: Engine)
    ensures settled.books == e.books && settled.waiting == e.waiting && settled.nextOrderId == e.nextOrderId
    decreases |trades|
  {
    if trades == [] then e else SettleAll(SettleOne(e, trades[0]), trades[1..])
  }

  function MatchAndSettle(e: Engine, o: Order, now: Time): Submitted
    requires o.symbol in e.books
  {
    var m := Match(e.books[o.symbol], o, o.symbol, now);
    Submitted(SettleAll(e.(books := e.books[o.symbol := m.book]), m.trades),
              SubmitResult(true, false, None, o.id, Filled(m.trades), m.trades))
  }

  function Rejection(e: Engine, r: OrderRequest): Option<Reject> {
    if r.quantity <= 0 then Some(QuantityNotPositive)
    else if r.kind != Market && r.price <= 0.0 then Some(PriceNotPositive)
    else if r.symbol !in e.books then Some(UnknownSymbol)
    else if !PassesRiskCheck(e.portfolios, e.lastPrices, r) then
      Some(if r.side == Buy then InsufficientCash else InsufficientHoldings)
    else None
  }

  /** An order whose band and start date are satisfied is matched at once, any other waits. */
  function Admit(e: Engine, o: Order, now: Time): Submitted
    requires o.symbol in e.books
  {
    if o.Started(now) && o.ReleaseBandContains(PriceIn(e.lastPrices, o.symbol)) then MatchAndSettle(e, o, now)
    else Submitted(e.(waiting := e.waiting[o.id := o]), SubmitResult(true, true, None, o.id, 0, []))
  }

  function ScreenAndAdmit(e: Engine, r: OrderRequest, id: OrderId, now: Time): Submitted {
    var reject := Rejection(e, r);
    if reject.Some? then Submitted(e, SubmitResult(false, false, reject, id, 0, []))
    else Admit(e, BuildOrder(r, id, now), now)
  }

  function SubmitOrder(e: Engine, r: OrderRequest, now: Time): Submitted {
    ScreenAndAdmit(e.(nextOrderId := e.nextOrderId + 1), r, e.nextOrderId, now)
  }

  // ----- releasing waiting orders

  function ScanAt(e: Engine, now: Time): Scan { ScanPrices(e.lastPrices, now) }

  function ScanPrices(prices: map<Symbol, Price>, now: Time): Scan { Scan(now, s => PriceIn(prices, s)) }

  /** A full scan judges every waiting order, a dirty-only scan those on symbols that traded. */
  ghost function Visited(e: Engine, full: bool): set<OrderId> {
    if full then e.waiting.Keys else WaitingOn(e.waiting, e.dirty)
  }

  /** The outcome of the scan of a release tick, up to the order in which it lists the orders. */
  ghost predicate TickPicks(e: Engine, full: bool, now: Time, released: seq<Order>, expired: seq<Order>) {
    Picks(released, e.waiting, Visited(e, full), ScanAt(e, now), Release) &&
    Picks(expired, e.waiting, Visited(e, full), ScanAt(e, now), Expire)
  }

  ghost function AfterScan(e: Engine, full: bool, now: Time): Engine {
    e.(waiting := Kept(e.waiting, Visited(e, full), ScanAt(e, now)), dirty := if full then e.dirty else {})
  }

  /** Matches and settles orders one after the other; an unknown symbol would end the loop with an
      exception. */
  function MatchAll(e: Engine, orders: seq<Order>, now: Time): Engine
    decreases |orders|, 1
  {
    if orders == [] || orders[0].symbol !in e.books then e else MatchFirst(e, orders, now)
  }

  function MatchFirst(e: Engine, orders: seq<Order>, now: Time): Engine
    requires orders != [] && orders[0].symbol in e.books
    decreases |orders|, 0
  {
    MatchAll(MatchAndSettle(e, orders[0], now).engine, orders[1..], now)
  }

  /** The results of the same matches, in the same order. */
  function MatchResults(e: Engine, orders: seq<Order>, now: Time): seq<SubmitResult>
    decreases |orders|, 1
  {
    if orders == [] || orders[0].symbol !in e.books then [] else FirstResult(e, orders, now)
  }

  function FirstResult(e: Engine, orders: seq<Order>, now: Time): seq<SubmitResult>
    requires orders != [] && orders[0].symbol in e.books
    decreases |orders|, 0
  {
    var first := MatchAndSettle(e, orders[0], now);
    [first.result] + MatchResults(first.engine, orders[1..], now)
  }

  // ----- cancellations

  datatype Cancellation = Cancellation(engine: Engine, found: bool)

  function CancelPriced(e: Engine, s: Symbol, side: Side, price: Price, id: OrderId): Cancellation {
    if s !in e.books then Cancellation(e, false)
    else
      var c := CancelAt(e.books[s], side, price, id);
      Cancellation(e.(books := e.books[s := c.book]), c.found)
  }

  function Cancel(e: Engine, s: Symbol, id: OrderId): Cancellation {
    if s !in e.books then Cancellation(e, false)
    else
      var c := CancelById(e.books[s], id);
      Cancellation(e.(books := e.books[s := c.book]), c.found)
  }

  function CancelWaiting(e: Engine, id: OrderId): Cancellation {
    Cancellation(e.(waiting := e.waiting - {id}), id in e.waiting)
  }
}
