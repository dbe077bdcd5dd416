/** Runs of whole engine calls: what a dirty-only release scan can miss, and why cascades of
    releases die out. */
module EngineRuns {
  import opened Types
  import opened Books
  import opened Registry
  import opened Portfolios
  import opened EngineModel

  datatype Step =
    | Submit(request: OrderRequest, now: Time)
    | Tick(full: bool, now: Time, released: seq<Order>, expired: seq<Order>)
    | CancelPriced(symbol: Symbol, side: Side, price: Price, id: OrderId)
    | Cancel(symbol: Symbol, id: OrderId)
    | CancelWaiting(id: OrderId)
    | Register(symbol: Symbol, price: Price)
    | Ensure(client: ClientId, cash: real)
    | GrantShares(client: ClientId, symbol: Symbol, quantity: Quantity)

  /** Waiting orders are filed under the id the engine gave them, want something, and have a book. */
  ghost predicate RegistryOk(e: Engine) {
    forall id :: id in e.waiting ==>
      e.waiting[id].id == id && id < e.nextOrderId && e.waiting[id].quantity > 0 && e.waiting[id].symbol in e.books
  }

  /** A tick lists exactly what its scan picks; nothing else restricts a caller. */
  ghost predicate Enabled(e: Engine, step: Step) {
    step.Tick? ==> TickPicks(e, step.full, step.now, step.released, step.expired)
  }

  ghost function Next(e: Engine, step: Step): Engine {
    match step
    case Submit(r, now) => SubmitOrder(e, r, now).engine
    case Tick(full, now, released, expired) => MatchAll(AfterScan(e, full, now), released, now)
    case CancelPriced(s, side, price, id) => EngineModel.CancelPriced(e, s, side, price, id).engine
    case Cancel(s, id) => EngineModel.Cancel(e, s, id).engine
    case CancelWaiting(id) => EngineModel.CancelWaiting(e, id).engine
    case Register(s, price) => RegisterSymbol(e, s, price)
    case Ensure(c, cash) => e.(portfolios := EnsureClient(e.portfolios, c, cash))
    case GrantShares(c, s, q) => e.(portfolios := Grant(e.portfolios, c, s, q))
  }

  // ----- what settlement leaves alone

  /** Same registry; a symbol not dirty afterwards was not dirty before and kept its price. */
  ghost predicate Quiet(e: Engine, e': Engine) {
    e'.waiting == e.waiting && e'.nextOrderId == e.nextOrderId && e'.books.Keys == e.books.Keys &&
    e.dirty <= e'.dirty &&
    forall s :: s !in e'.dirty ==> PriceIn(e'.lastPrices, s) == PriceIn(e.lastPrices, s)
  }

  lemma {:induction false} SettleAllQuiet(e: Engine, trades: seq<Trade>)
    ensures Quiet(e, SettleAll(e, trades)) && (trades == [] ==> SettleAll(e, trades) == e)
    decreases |trades|
  {
    if trades != [] {
      SettleAllQuiet(SettleOne(e, trades[0]), trades[1..]);
    }
  }

  lemma MatchAndSettleQuiet(e: Engine, o: Order, now: Time)
    requires o.symbol in e.books
    ensures Quiet(e, MatchAndSettle(e, o, now).engine)
  {
    var m := Match(e.books[o.symbol], o, o.symbol, now);
    SettleAllQuiet(e.(books := e.books[o.symbol := m.book]), m.trades);
  }

  lemma {:induction false} MatchAllQuiet(e: Engine, orders: seq<Order>, now: Time)
    ensures Quiet(e, MatchAll(e, orders, now))
    decreases |orders|
  {
    if orders != [] && orders[0].symbol in e.books {
      MatchAndSettleQuiet(e, orders[0], now);
      MatchAllQuiet(MatchAndSettle(e, orders[0], now).engine, orders[1..], now);
    }
  }

  // ----- the dirty-only scan

  /** No order without a start date that waits on a symbol not marked dirty is ready. */
  ghost predicate Complete(e: Engine) {
    forall id :: id in e.waiting && e.waiting[id].notBefore.None? && e.waiting[id].symbol !in e.dirty ==>
      !e.waiting[id].ReleaseBandContains(PriceIn(e.lastPrices, e.waiting[id].symbol))
  }

  lemma QuietKeepsComplete(e: Engine, e': Engine)
    requires Complete(e) && Quiet(e, e')
    ensures Complete(e')
  {}

  lemma AdmitKeepsComplete(e: Engine, o: Order, now: Time)
    requires Complete(e) && o.symbol in e.books && (o.notBefore.None? ==> o.Started(now))
    ensures Complete(Admit(e, o, now).engine)
  {
    if o.Started(now) && o.ReleaseBandContains(PriceIn(e.lastPrices, o.symbol)) {
      MatchAndSettleQuiet(e, o, now);
      QuietKeepsComplete(e, MatchAndSettle(e, o, now).engine);
    }
  }

  lemma ScreenAndAdmitKeepsComplete(e: Engine, r: OrderRequest, id: OrderId, now: Time)
    requires Complete(e)
    ensures Complete(ScreenAndAdmit(e, r, id, now).engine)
  {
    if Rejection(e, r).None? { AdmitKeepsComplete(e, BuildOrder(r, id, now), now); }
  }

  lemma SubmitKeepsComplete(e: Engine, r: OrderRequest, now: Time)
    requires Complete(e)
    ensures Complete(SubmitOrder(e, r, now).engine)
  {
    ScreenAndAdmitKeepsComplete(e.(nextOrderId := e.nextOrderId + 1), r, e.nextOrderId, now);
  }

  lemma TickKeepsComplete(e: Engine, full: bool, now: Time, released: seq<Order>, expired: seq<Order>)
    requires RegistryOk(e) && Complete(e) && TickPicks(e, full, now, released, expired)
    ensures Complete(MatchAll(AfterScan(e, full, now), released, now))
  {
    var scanned := AfterScan(e, full, now);
    forall id |
      id in scanned.waiting && scanned.waiting[id].notBefore.None? && scanned.waiting[id].symbol !in scanned.dirty
      ensures !scanned.waiting[id].ReleaseBandContains(PriceIn(scanned.lastPrices, scanned.waiting[id].symbol))
    {
      if id in Visited(e, full) { assert ScanAt(e, now).Verdict(e.waiting[id]) == Keep; }
    }
    MatchAllQuiet(scanned, released, now);
    QuietKeepsComplete(scanned, MatchAll(scanned, released, now));
  }

  /** Registering a symbol resets its price without marking it dirty: completeness survives exactly
      when the symbol is dirty anyway or no order without a start date waits for the new price. */
  lemma RegisterKeepsComplete(e: Engine, s: Symbol, price: Price)
    requires Complete(e)
    ensures Complete(RegisterSymbol(e, s, price)) <==>
      s in e.dirty ||
      forall id :: id in e.waiting && e.waiting[id].symbol == s && e.waiting[id].notBefore.None? ==>
        !e.waiting[id].ReleaseBandContains(price)
  {
    var e' := RegisterSymbol(e, s, price);
    assert forall t :: t != s ==> PriceIn(e'.lastPrices, t) == PriceIn(e.lastPrices, t);
  }

  /** The registration a caller may make at any time: of a symbol that is dirty anyway, or at a price that
      no order without a start date waits for. A symbol on which nothing waits is one. */
  ghost predicate Careful(e: Engine, step: Step) {
    step.Register? && step.symbol !in e.dirty ==>
      forall id :: id in e.waiting && e.waiting[id].symbol == step.symbol && e.waiting[id].notBefore.None? ==>
        !e.waiting[id].ReleaseBandContains(step.price)
  }

  lemma StepKeepsComplete(e: Engine, step: Step)
    requires RegistryOk(e) && Enabled(e, step) && Complete(e) && Careful(e, step)
    ensures Complete(Next(e, step))
  {
    match step
    case Submit(r, now) => SubmitKeepsComplete(e, r, now);
    case Tick(full, now, released, expired) => TickKeepsComplete(e, full, now, released, expired);
    case Register(s, price) => RegisterKeepsComplete(e, s, price);
    case _ =>
  }

  lemma ScreenAndAdmitKeepsRegistryOk(e: Engine, r: OrderRequest, id: OrderId, now: Time)
    requires RegistryOk(e) && id < e.nextOrderId
    ensures RegistryOk(ScreenAndAdmit(e, r, id, now).engine)
  {
    if Rejection(e, r).None? { AdmitKeepsRegistryOk(e, BuildOrder(r, id, now), now); }
  }

  lemma AdmitKeepsRegistryOk(e: Engine, o: Order, now: Time)
    requires RegistryOk(e) && o.symbol in e.books && o.id < e.nextOrderId && o.quantity > 0
    ensures RegistryOk(Admit(e, o, now).engine)
  {
    if o.Started(now) && o.ReleaseBandContains(PriceIn(e.lastPrices, o.symbol)) { MatchAndSettleQuiet(e, o, now); }
  }

  lemma SubmitKeepsRegistryOk(e: Engine, r: OrderRequest, now: Time)
    requires RegistryOk(e)
    ensures RegistryOk(SubmitOrder(e, r, now).engine)
  {
    ScreenAndAdmitKeepsRegistryOk(e.(nextOrderId := e.nextOrderId + 1), r, e.nextOrderId, now);
  }

  lemma StepKeepsRegistryOk(e: Engine, step: Step)
    requires RegistryOk(e) && Enabled(e, step)
    ensures RegistryOk(Next(e, step))
  {
    match step
    case Submit(r, now) => SubmitKeepsRegistryOk(e, r, now);
    case Tick(full, now, released, expired) => MatchAllQuiet(AfterScan(e, full, now), released, now);
    case _ =>
  }

  const EMPTY := Engine(map[], map[], map[], map[], {}, 1)

  /** `states` is a run of whole calls. */
  ghost predicate IsRun(states: seq<Engine>, steps: seq<Step>) {
    |states| == |steps| + 1 && states[0] == EMPTY &&
    forall i :: 0 <= i < |steps| ==>
      Enabled(states[i], steps[i]) && states[i + 1] == Next(states[i], steps[i])
  }

  lemma OneMoreStep(states: seq<Engine>, steps: seq<Step>, step: Step, next: Engine)
    requires IsRun(states, steps) && Enabled(states[|steps|], step) && next == Next(states[|steps|], step)
    ensures IsRun(states + [next], steps + [step])
  {}

  const LISTED := Engine(map["AAPL" := Book([], [])], map["AAPL" := 100.0], map[], map[], {}, 1)

  function WithShares(c: ClientId, q: Quantity): Engine {
    LISTED.(portfolios := map[c := Portfolio(0.0, map["AAPL" := q])])
  }

  lemma SharesGranted(c: ClientId, q: Quantity)
    ensures Grant(EnsureClient(map[], c, 0.0), c, "AAPL", q) == map[c := Portfolio(0.0, map["AAPL" := q])]
  {}

  /** One symbol at 100 and a client that holds shares of it. */
  lemma ClientHoldsShares(c: ClientId, q: Quantity) returns (states: seq<Engine>, steps: seq<Step>)
    ensures IsRun(states, steps) && |steps| == 3 && states[3] == WithShares(c, q)
  {
    var known := LISTED.(portfolios := EnsureClient(map[], c, 0.0));
    SharesGranted(c, q);
    assert RegisterSymbol(EMPTY, "AAPL", 100.0) == LISTED;
    OneMoreStep([EMPTY], [], Register("AAPL", 100.0), LISTED);
    OneMoreStep([EMPTY, LISTED], [Register("AAPL", 100.0)], Ensure(c, 0.0), known);
    steps := [Register("AAPL", 100.0), Ensure(c, 0.0)];
    states := [EMPTY, LISTED, known];
    OneMoreStep(states, steps, GrantShares(c, "AAPL", q), WithShares(c, q));
    states, steps := states + [WithShares(c, q)], steps + [GrantShares(c, "AAPL", q)];
  }

  /** Registering a symbol again can lose completeness: a client's sell stop at 90 waits, the last price
      is 100, and the symbol is registered again at 80. */
  lemma RegisterCanLoseComplete() returns (states: seq<Engine>, steps: seq<Step>)
    ensures IsRun(states, steps) && |steps| == 5 && steps[4] == Register("AAPL", 80.0)
    ensures Complete(states[4]) && !Complete(states[5])
  {
    var r := OrderRequest(7, Sell, Stop, "AAPL", 10, 90.0, None, None, None, None);
    var o := Order(1, 7, Sell, Stop, "AAPL", 10, 90.0, NegInf, At(90.0), 0, None, None);
    var waits := WithShares(7, 10).(waiting := map[1 := o], nextOrderId := 2);
    states, steps := ClientHoldsShares(7, 10);
    SellStopWaits(WithShares(7, 10), r, o);
    OneMoreStep(states, steps, Submit(r, 0), waits);
    states, steps := states + [waits], steps + [Submit(r, 0)];
    OneMoreStep(states, steps, Register("AAPL", 80.0), RegisterSymbol(waits, "AAPL", 80.0));
    states, steps := states + [RegisterSymbol(waits, "AAPL", 80.0)], steps + [Register("AAPL", 80.0)];
    assert Complete(waits);
    RegisterKeepsComplete(waits, "AAPL", 80.0);
    assert 1 in waits.waiting && o.ReleaseBandContains(80.0);
  }

  lemma SellStopWaits(e: Engine, r: OrderRequest, o: Order)
    requires r == OrderRequest(7, Sell, Stop, "AAPL", 10, 90.0, None, None, None, None)
    requires o == Order(1, 7, Sell, Stop, "AAPL", 10, 90.0, NegInf, At(90.0), 0, None, None)
    requires "AAPL" in e.books && PriceIn(e.lastPrices, "AAPL") == 100.0 && e.nextOrderId == 1 && e.waiting == map[]
    requires 7 in e.portfolios && e.portfolios[7].Holding("AAPL") == 10
    ensures SubmitOrder(e, r, 0).engine == e.(waiting := map[1 := o], nextOrderId := 2)
  {
    assert BuildOrder(r, 1, 0) == o;
  }

  /** Dirty-scan completeness in every state that whole calls reach. */
  lemma {:induction false} RunsStayComplete(states: seq<Engine>, steps: seq<Step>)
    requires IsRun(states, steps)
    requires forall i :: 0 <= i < |steps| ==> Careful(states[i], steps[i])
    ensures RegistryOk(states[|steps|]) && Complete(states[|steps|])
    decreases |steps|
  {
    if steps != [] {
      var n := |steps| - 1;
      RunsStayComplete(states[..n + 1], steps[..n]);
      StepKeepsComplete(states[n], steps[n]);
      StepKeepsRegistryOk(states[n], steps[n]);
    }
  }

  /** In a complete state a dirty-only tick releases exactly the orders without a start date that a
      full tick would release. */
  lemma DirtyTickSuffices(e: Engine, now: Time, dirtyOnly: seq<Order>, full: seq<Order>,
                          expired: seq<Order>, allExpired: seq<Order>, o: Order)
    requires RegistryOk(e) && Complete(e) && o.notBefore.None?
    requires TickPicks(e, false, now, dirtyOnly, expired) && TickPicks(e, true, now, full, allExpired)
    ensures o in dirtyOnly <==> o in full
  {
    if o in full {
      assert ScanAt(e, now).Verdict(o) == Release;
    }
  }

  /** So in every state that whole calls reach. */
  lemma ReachableDirtyTickSuffices(states: seq<Engine>, steps: seq<Step>, now: Time, dirtyOnly: seq<Order>,
                                   full: seq<Order>, expired: seq<Order>, allExpired: seq<Order>, o: Order)
    requires IsRun(states, steps) && forall i :: 0 <= i < |steps| ==> Careful(states[i], steps[i])
    requires TickPicks(states[|steps|], false, now, dirtyOnly, expired)
    requires TickPicks(states[|steps|], true, now, full, allExpired) && o.notBefore.None?
    ensures o in dirtyOnly <==> o in full
  {
    RunsStayComplete(states, steps);
    DirtyTickSuffices(states[|steps|], now, dirtyOnly, full, expired, allExpired, o);
  }

  // ----- cascades

  /** One dirty-only release tick. */
  ghost predicate TicksTo(e: Engine, e': Engine) {
    RegistryOk(e) &&
    exists now, released, expired ::
      TickPicks(e, false, now, released, expired) && e' == MatchAll(AfterScan(e, false, now), released, now)
  }

  /** A tick either leaves no dirty symbol or takes at least one order out of the registry. */
  lemma TickShrinksOrQuiets(e: Engine, e': Engine)
    requires TicksTo(e, e')
    ensures |e'.waiting| <= |e.waiting| && (e'.dirty == {} || |e'.waiting| < |e.waiting|)
    ensures e.dirty == {} ==> e'.dirty == {}
  {
    var now, released, expired :|
      TickPicks(e, false, now, released, expired) && e' == MatchAll(AfterScan(e, false, now), released, now);
    var scanned := AfterScan(e, false, now);
    MatchAllQuiet(scanned, released, now);
    ScanSplits(e.waiting, Visited(e, false), ScanAt(e, now), released, expired);
    if released != [] { assert released[0] in released; }
  }

  /** Without new submissions, one tick more than there are waiting orders leaves no dirty symbol. */
  lemma {:induction false} CascadesDieOut(states: seq<Engine>)
    requires states != [] && forall i :: 0 <= i < |states| - 1 ==> TicksTo(states[i], states[i + 1])
    requires |states| >= |states[0].waiting| + 2
    ensures states[|states| - 1].dirty == {}
    decreases |states|
  {
    TickShrinksOrQuiets(states[0], states[1]);
    if states[1].dirty == {} {
      StaysQuiet(states[1..]);
    } else {
      CascadesDieOut(states[1..]);
    }
  }

  lemma {:induction false} StaysQuiet(states: seq<Engine>)
    requires states != [] && states[0].dirty == {}
    requires forall i :: 0 <= i < |states| - 1 ==> TicksTo(states[i], states[i + 1])
    ensures states[|states| - 1].dirty == {}
    decreases |states|
  {
    if |states| > 1 {
      TickShrinksOrQuiets(states[0], states[1]);
      StaysQuiet(states[1..]);
    }
  }
}
