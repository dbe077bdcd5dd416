/** The life of an order over any run of engine calls: it is in one place at a time, and every
    share it was accepted for is accounted for. */
module OrderLifecycle {
  import opened Types
  import opened PriceTimeList
  import opened Books
  import opened Registry
  import opened EngineModel
  import opened EngineRuns

  /** What can happen to the quantity of an order. */
  datatype Kind = Accepted | Traded | Discarded | Withdrawn | Lapsed

  datatype Entry = Entry(kind: Kind, symbol: Symbol, id: OrderId, quantity: Quantity)

  // ----- the log of a step

  function TradeLog(trades: seq<Trade>): seq<Entry> {
    if trades == [] then []
    else
      var t := trades[0];
      [Entry(Traded, t.symbol, t.buyOrderId, t.quantity), Entry(Traded, t.symbol, t.sellOrderId, t.quantity)] +
      TradeLog(trades[1..])
  }

  /** A MARKET order discards what it cannot fill. */
  function MatchLog(e: Engine, o: Order, now: Time): seq<Entry>
    requires o.symbol in e.books
  {
    var s := Sweep(o, Resting(e.books[o.symbol], o.side.Other()), o.symbol, now);
    TradeLog(s.trades) + if s.left > 0 && o.kind == Market then [Entry(Discarded, o.symbol, o.id, s.left)] else []
  }

  function MatchAllLog(e: Engine, orders: seq<Order>, now: Time): seq<Entry>
    decreases |orders|
  {
    if orders == [] || orders[0].symbol !in e.books then []
    else MatchLog(e, orders[0], now) + MatchAllLog(MatchAndSettle(e, orders[0], now).engine, orders[1..], now)
  }

  function LapseLog(expired: seq<Order>): seq<Entry> {
    if expired == [] then []
    else [Entry(Lapsed, expired[0].symbol, expired[0].id, expired[0].quantity)] + LapseLog(expired[1..])
  }

  function RemovedQuantity(orders: seq<Order>, id: OrderId, at: Option<Price>): Quantity {
    if orders == [] then 0
    else if Hit(orders[0], id, at) then orders[0].quantity
    else RemovedQuantity(orders[1..], id, at)
  }

  ghost function Log(e: Engine, step: Step): seq<Entry> {
    match step
    case Submit(r, now) =>
      if Rejection(e, r).Some? then []
      else
        var o := BuildOrder(r, e.nextOrderId, now);
        [Entry(Accepted, o.symbol, o.id, o.quantity)] +
        if o.Started(now) && o.ReleaseBandContains(PriceIn(e.lastPrices, o.symbol))
        then MatchLog(e.(nextOrderId := e.nextOrderId + 1), o, now) else []
    case Tick(full, now, released, expired) =>
      LapseLog(expired) + MatchAllLog(AfterScan(e, full, now), released, now)
    case CancelPriced(s, side, price, id) =>
      if s !in e.books then []
      else [Entry(Withdrawn, s, id, RemovedQuantity(Resting(e.books[s], side), id, Some(price)))]
    case Cancel(s, id) =>
      if s in e.books then
        var b := e.books[s];
        [Entry(Withdrawn, s, id, RemovedQuantity(if AnyHit(b.bids, id, None) then b.bids else b.asks, id, None))]
      else []
    case CancelWaiting(id) =>
      if id in e.waiting then [Entry(Withdrawn, e.waiting[id].symbol, id, e.waiting[id].quantity)] else []
    case _ => []
  }

  // ----- accounting

  /** Quantity accepted, counted positively, and quantity gone, counted negatively. */
  function Balance(log: seq<Entry>, s: Symbol, id: OrderId): Quantity {
    if log == [] then 0
    else
      var x := log[0];
      (if x.symbol != s || x.id != id then 0 else if x.kind == Accepted then x.quantity else -x.quantity) +
      Balance(log[1..], s, id)
  }

  function QuantityOf(orders: seq<Order>, id: OrderId): Quantity {
    if orders == [] then 0
    else (if orders[0].id == id then orders[0].quantity else 0) + QuantityOf(orders[1..], id)
  }

  function InBook(b: Book, id: OrderId): Quantity { QuantityOf(b.bids, id) + QuantityOf(b.asks, id) }

  function InBooks(e: Engine, s: Symbol, id: OrderId): Quantity { if s in e.books then InBook(e.books[s], id) else 0 }

  function InRegistry(waiting: map<OrderId, Order>, s: Symbol, id: OrderId): Quantity {
    if id in waiting && waiting[id].symbol == s then waiting[id].quantity else 0
  }

  /** What an order still has in the registry or resting in the book of symbol `s`. */
  function Live(e: Engine, s: Symbol, id: OrderId): Quantity { InRegistry(e.waiting, s, id) + InBooks(e, s, id) }

  lemma {:induction false} BalanceConcat(a: seq<Entry>, b: seq<Entry>, s: Symbol, id: OrderId)
    ensures Balance(a + b, s, id) == Balance(a, s, id) + Balance(b, s, id)
  {
    if a == [] {
      assert a + b == b;
    } else {
      assert (a + b)[1..] == a[1..] + b;
      BalanceConcat(a[1..], b, s, id);
    }
  }

  function Own(o: Order, id: OrderId, q: Quantity): Quantity { if o.id == id then q else 0 }

  lemma TradeBalance(t: Trade, rest: seq<Trade>, s: Symbol, id: OrderId)
    ensures Balance(TradeLog([t] + rest), s, id) == Balance(TradeLog(rest), s, id) -
      (if t.symbol == s && t.buyOrderId == id then t.quantity else 0) -
      (if t.symbol == s && t.sellOrderId == id then t.quantity else 0)
  {
    assert ([t] + rest)[1..] == rest;
    var log := TradeLog([t] + rest);
    assert log[1..][1..] == TradeLog(rest);
  }

  /** A sweep takes from the resting side and from the incoming order exactly what it trades. */
  lemma {:induction false} SweepBalances(o: Order, resting: seq<Order>, s: Symbol, now: Time, id: OrderId)
    requires o.quantity >= 0
    ensures
      var w := Sweep(o, resting, s, now);
      w.left >= 0 &&
      QuantityOf(w.rest, id) + Own(o, id, w.left) ==
        QuantityOf(resting, id) + Own(o, id, o.quantity) + Balance(TradeLog(w.trades), s, id)
    decreases |resting|
  {
    if o.quantity > 0 && resting != [] && Crosses(o, resting[0].price) {
      var r := resting[0];
      var t := MakeTrade(o, r, Min(o.quantity, r.quantity), s, now);
      if o.quantity < r.quantity {
        TradeBalance(t, [], s, id);
        var rest := [r.(quantity := r.quantity - o.quantity)] + resting[1..];
        assert rest[1..] == resting[1..];
      } else {
        var o' := o.(quantity := o.quantity - r.quantity);
        SweepBalances(o', resting[1..], s, now, id);
        TradeBalance(t, Sweep(o', resting[1..], s, now).trades, s, id);
      }
    }
  }

  lemma {:induction false} InsertBalances(resting: seq<Order>, o: Order, id: OrderId)
    ensures QuantityOf(Insert(resting, o), id) == QuantityOf(resting, id) + Own(o, id, o.quantity)
  {
    if resting == [] || Before(o.side, o.price, resting[0].price) {
      assert Insert(resting, o)[1..] == resting;
    } else {
      InsertBalances(resting[1..], o, id);
      assert Insert(resting, o)[1..] == Insert(resting[1..], o);
    }
  }

  lemma {:induction false} RemoveBalances(orders: seq<Order>, x: OrderId, at: Option<Price>, id: OrderId)
    ensures QuantityOf(Remove(orders, x, at), id) ==
      QuantityOf(orders, id) - (if x == id then RemovedQuantity(orders, x, at) else 0)
  {
    if orders != [] && !Hit(orders[0], x, at) {
      RemoveBalances(orders[1..], x, at, id);
      assert Remove(orders, x, at)[1..] == Remove(orders[1..], x, at);
    }
  }

  lemma BookBalances(b: Book, o: Order, now: Time, id: OrderId)
    requires o.quantity >= 0
    ensures
      var w := Sweep(o, Resting(b, o.side.Other()), o.symbol, now);
      InBook(Match(b, o, o.symbol, now).book, id) ==
        InBook(b, id) + Own(o, id, o.quantity) + Balance(TradeLog(w.trades), o.symbol, id) -
        (if w.left > 0 && o.kind == Market then Own(o, id, w.left) else 0)
  {
    var w := Sweep(o, Resting(b, o.side.Other()), o.symbol, now);
    SweepBalances(o, Resting(b, o.side.Other()), o.symbol, now, id);
    InsertBalances(Resting(b, o.side), o.(quantity := w.left), id);
  }

  lemma MatchBalances(e: Engine, o: Order, now: Time, s: Symbol, id: OrderId)
    requires o.symbol in e.books && o.quantity >= 0
    ensures InBooks(MatchAndSettle(e, o, now).engine, s, id) ==
      InBooks(e, s, id) + (if s == o.symbol then Own(o, id, o.quantity) else 0) + Balance(MatchLog(e, o, now), s, id)
  {
    var b := e.books[o.symbol];
    var w := Sweep(o, Resting(b, o.side.Other()), o.symbol, now);
    var dropped := if w.left > 0 && o.kind == Market then [Entry(Discarded, o.symbol, o.id, w.left)] else [];
    BalanceConcat(TradeLog(w.trades), dropped, s, id);
    if s == o.symbol {
      BookBalances(b, o, now, id);
    } else {
      OtherSymbol(o, Resting(b, o.side.Other()), o.symbol, now, s, id);
    }
  }

  lemma {:induction false} OtherSymbol(o: Order, resting: seq<Order>, symbol: Symbol, now: Time, s: Symbol, id: OrderId)
    requires s != symbol
    ensures Balance(TradeLog(Sweep(o, resting, symbol, now).trades), s, id) == 0
    decreases |resting|
  {
    if o.quantity > 0 && resting != [] && Crosses(o, resting[0].price) {
      var r := resting[0];
      var t := MakeTrade(o, r, Min(o.quantity, r.quantity), symbol, now);
      if o.quantity >= r.quantity {
        var o' := o.(quantity := o.quantity - r.quantity);
        OtherSymbol(o', resting[1..], symbol, now, s, id);
        TradeBalance(t, Sweep(o', resting[1..], symbol, now).trades, s, id);
      } else {
        TradeBalance(t, [], s, id);
      }
    }
  }

  /** The quantity of an order in a list of orders on several symbols. */
  function Listed(orders: seq<Order>, s: Symbol, id: OrderId): Quantity {
    if orders == [] then 0
    else (if orders[0].symbol == s && orders[0].id == id then orders[0].quantity else 0) + Listed(orders[1..], s, id)
  }

  lemma {:induction false} MatchAllBalances(e: Engine, orders: seq<Order>, now: Time, s: Symbol, id: OrderId)
    requires forall o :: o in orders ==> o.symbol in e.books && o.quantity >= 0
    ensures InBooks(MatchAll(e, orders, now), s, id) ==
      InBooks(e, s, id) + Listed(orders, s, id) + Balance(MatchAllLog(e, orders, now), s, id)
    decreases |orders|
  {
    if orders != [] {
      var e' := MatchAndSettle(e, orders[0], now).engine;
      MatchBalances(e, orders[0], now, s, id);
      MatchAllBalances(e', orders[1..], now, s, id);
      BalanceConcat(MatchLog(e, orders[0], now), MatchAllLog(e', orders[1..], now), s, id);
    }
  }

  lemma {:induction false} LapseBalances(expired: seq<Order>, s: Symbol, id: OrderId)
    ensures Balance(LapseLog(expired), s, id) == -Listed(expired, s, id)
  {
    if expired != [] {
      LapseBalances(expired[1..], s, id);
      assert LapseLog(expired)[1..] == LapseLog(expired[1..]);
    }
  }

  lemma {:induction false} ListedOnce(orders: seq<Order>, o: Option<Order>, s: Symbol, id: OrderId)
    requires NoRepeat(orders)
    requires forall x :: x in orders && x.id == id ==> o == Some(x)
    requires o.Some? ==> o.value.id == id
    ensures Listed(orders, s, id) ==
      if o.Some? && o.value in orders && o.value.symbol == s then o.value.quantity else 0
  {
    if orders != [] {
      var first, tail := orders[0], orders[1..];
      ListedOnce(tail, o, s, id);
      assert forall x :: x in orders <==> x == first || x in tail;
      assert forall x :: x in tail ==> x.id in Ids(tail);
    }
  }

  lemma ScanBalances(
      e: Engine, full: bool, now: Time, released: seq<Order>, expired: seq<Order>, s: Symbol, id: OrderId)
    requires RegistryOk(e) && TickPicks(e, full, now, released, expired)
    ensures InRegistry(AfterScan(e, full, now).waiting, s, id) + Listed(released, s, id) + Listed(expired, s, id) ==
      InRegistry(e.waiting, s, id)
  {
    var o := if id in e.waiting then Some(e.waiting[id]) else None;
    ListedOnce(released, o, s, id);
    ListedOnce(expired, o, s, id);
    ScanSplits(e.waiting, Visited(e, full), ScanAt(e, now), released, expired);
  }

  lemma TickBalances(
      e: Engine, full: bool, now: Time, released: seq<Order>, expired: seq<Order>, s: Symbol, id: OrderId)
    requires RegistryOk(e) && TickPicks(e, full, now, released, expired)
    ensures
      var step := Tick(full, now, released, expired);
      Live(Next(e, step), s, id) == Live(e, s, id) + Balance(Log(e, step), s, id)
  {
    var scanned := AfterScan(e, full, now);
    ScanBalances(e, full, now, released, expired, s, id);
    LapseBalances(expired, s, id);
    BalanceConcat(LapseLog(expired), MatchAllLog(scanned, released, now), s, id);
    MatchAllBalances(scanned, released, now, s, id);
    MatchAllQuiet(scanned, released, now);
  }

  lemma CancelBalances(e: Engine, x: Symbol, c: OrderId, s: Symbol, id: OrderId)
    requires RegistryOk(e)
    ensures Live(Next(e, Cancel(x, c)), s, id) == Live(e, s, id) + Balance(Log(e, Cancel(x, c)), s, id)
  {
    if x in e.books {
      RemoveBalances(e.books[x].bids, c, None, id);
      RemoveBalances(e.books[x].asks, c, None, id);
    }
  }

  lemma CancelPricedBalances(e: Engine, x: Symbol, side: Side, price: Price, c: OrderId, s: Symbol, id: OrderId)
    requires RegistryOk(e)
    ensures
      var step := CancelPriced(x, side, price, c);
      Live(Next(e, step), s, id) == Live(e, s, id) + Balance(Log(e, step), s, id)
  {
    if x in e.books { RemoveBalances(Resting(e.books[x], side), c, Some(price), id); }
  }

  /** One call changes what is live by exactly what its log says. */
  lemma StepBalances(e: Engine, step: Step, s: Symbol, id: OrderId)
    requires RegistryOk(e) && Enabled(e, step)
    ensures Live(Next(e, step), s, id) == Live(e, s, id) + Balance(Log(e, step), s, id)
  {
    match step
    case Submit(r, now) => SubmitBalances(e, r, now, s, id);
    case Tick(full, now, released, expired) => TickBalances(e, full, now, released, expired, s, id);
    case CancelPriced(x, side, price, c) => CancelPricedBalances(e, x, side, price, c, s, id);
    case Cancel(x, c) => CancelBalances(e, x, c, s, id);
    case _ =>
  }

  lemma SubmitBalances(e: Engine, r: OrderRequest, now: Time, s: Symbol, id: OrderId)
    requires RegistryOk(e)
    ensures Live(SubmitOrder(e, r, now).engine, s, id) == Live(e, s, id) + Balance(Log(e, Submit(r, now)), s, id)
  {
    if Rejection(e, r).None? {
      var o, e1 := BuildOrder(r, e.nextOrderId, now), e.(nextOrderId := e.nextOrderId + 1);
      var log := Log(e, Submit(r, now));
      if o.Started(now) && o.ReleaseBandContains(PriceIn(e.lastPrices, o.symbol)) {
        MatchBalances(e1, o, now, s, id);
        MatchAndSettleQuiet(e1, o, now);
        assert log[1..] == MatchLog(e1, o, now);
      }
    }
  }

  ghost function RunLog(states: seq<Engine>, steps: seq<Step>): seq<Entry>
    requires |states| == |steps| + 1
  {
    if steps == [] then []
    else
      var n := |steps| - 1;
      RunLog(states[..n + 1], steps[..n]) + Log(states[n], steps[n])
  }

  /** Over any run, every order's accepted quantity is what it has traded, discarded, cancelled and
      let lapse, plus what it still has waiting or resting. */
  lemma {:induction false} QuantityConserved(states: seq<Engine>, steps: seq<Step>, s: Symbol, id: OrderId)
    requires IsRun(states, steps)
    ensures RegistryOk(states[|steps|]) && Live(states[|steps|], s, id) == Balance(RunLog(states, steps), s, id)
    decreases |steps|
  {
    if steps != [] {
      var n := |steps| - 1;
      QuantityConserved(states[..n + 1], steps[..n], s, id);
      StepKeepsRegistryOk(states[n], steps[n]);
      StepBalances(states[n], steps[n], s, id);
      BalanceConcat(RunLog(states[..n + 1], steps[..n]), Log(states[n], steps[n]), s, id);
    }
  }
}
