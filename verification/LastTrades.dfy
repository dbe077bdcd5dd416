/** The last price over runs of whole calls: it is that of the last trade, and an order that waits for
    it is released by the next tick. */
module LastTrades {
  import opened Types
  import opened Registry
  import opened EngineModel
  import opened EngineRuns
  import opened MatchEffects
  import Admission
  import B = Books

  // ----- the trades of a call

  function AllTrades(results: seq<SubmitResult>): seq<Trade> {
    if results == [] then [] else results[0].trades + AllTrades(results[1..])
  }

  /** What a call reports to have traded: on submission, or tick by tick in the order of release. */
  ghost function TradesOf(e: Engine, step: Step): seq<Trade> {
    match step
    case Submit(r, now) => SubmitOrder(e, r, now).result.trades
    case Tick(full, now, released, _) => AllTrades(MatchResults(AfterScan(e, full, now), released, now))
    case _ => []
  }

  /** The price a symbol was registered at or traded at last. */
  ghost function LastFixed(states: seq<Engine>, steps: seq<Step>, s: Symbol): Price
    requires |states| == |steps| + 1
    decreases |steps|, 1
  {
    if steps == [] then 0.0 else FixedByLast(states, steps, s)
  }

  ghost function FixedByLast(states: seq<Engine>, steps: seq<Step>, s: Symbol): Price
    requires |states| == |steps| + 1 && steps != []
    decreases |steps|, 0
  {
    var n := |steps| - 1;
    FixedBy(states[n], steps[n], s, LastFixed(states[..n + 1], steps[..n], s))
  }

  /** What a call makes of a price. */
  ghost function FixedBy(e: Engine, step: Step, s: Symbol, before: Price): Price {
    if step.Register? && step.symbol == s then step.price else LastTraded(TradesOf(e, step), s, before)
  }

  lemma MatchFixesPrice(e: Engine, o: Order, now: Time, s: Symbol)
    requires o.symbol in e.books
    ensures
      var m := MatchAndSettle(e, o, now);
      PriceIn(m.engine.lastPrices, s) == LastTraded(m.result.trades, s, PriceIn(e.lastPrices, s))
  {
    var m := MatchAndSettle(e, o, now);
    MatchSetsPrice(e, o, now, s);
    TradesInSymbol(o, B.Resting(e.books[o.symbol], o.side.Other()), o.symbol, now);
    OneSymbolTraded(m.result.trades, o.symbol, s, PriceIn(e.lastPrices, s));
  }

  lemma SubmitFixesPrice(e: Engine, r: OrderRequest, now: Time, s: Symbol)
    ensures
      var submitted := SubmitOrder(e, r, now);
      PriceIn(submitted.engine.lastPrices, s) == LastTraded(submitted.result.trades, s, PriceIn(e.lastPrices, s))
  {
    var e1, o := e.(nextOrderId := e.nextOrderId + 1), BuildOrder(r, e.nextOrderId, now);
    if Rejection(e1, r).None? && o.Started(now) && o.ReleaseBandContains(PriceIn(e1.lastPrices, o.symbol)) {
      MatchFixesPrice(e1, o, now, s);
    }
  }

  lemma {:induction false} MatchAllFixesPrice(e: Engine, orders: seq<Order>, now: Time, s: Symbol)
    ensures
      PriceIn(MatchAll(e, orders, now).lastPrices, s) ==
      LastTraded(AllTrades(MatchResults(e, orders, now)), s, PriceIn(e.lastPrices, s))
    decreases |orders|
  {
    if orders != [] && orders[0].symbol in e.books {
      var first := MatchAndSettle(e, orders[0], now);
      var more := MatchResults(first.engine, orders[1..], now);
      MatchFixesPrice(e, orders[0], now, s);
      MatchAllFixesPrice(first.engine, orders[1..], now, s);
      LastTradedJoin(first.result.trades, AllTrades(more), s, PriceIn(e.lastPrices, s));
      assert ([first.result] + more)[1..] == more;
    }
  }

  lemma StepFixesPrice(e: Engine, step: Step, s: Symbol)
    ensures PriceIn(Next(e, step).lastPrices, s) == FixedBy(e, step, s, PriceIn(e.lastPrices, s))
  {
    match step
    case Submit(r, now) => SubmitFixesPrice(e, r, now, s);
    case Tick(full, now, released, _) => MatchAllFixesPrice(AfterScan(e, full, now), released, now, s);
    case _ =>
  }

  lemma LastStepOfRun(states: seq<Engine>, steps: seq<Step>)
    requires IsRun(states, steps) && steps != []
    ensures IsRun(states[..|steps|], steps[..|steps| - 1])
    ensures states[|steps|] == Next(states[|steps| - 1], steps[|steps| - 1])
  {}

  lemma OneMoreFixed(states: seq<Engine>, steps: seq<Step>, s: Symbol)
    requires |states| == |steps| + 1 && steps != [] && states[|steps|] == Next(states[|steps| - 1], steps[|steps| - 1])
    requires PriceIn(states[|steps| - 1].lastPrices, s) == LastFixed(states[..|steps|], steps[..|steps| - 1], s)
    ensures PriceIn(states[|steps|].lastPrices, s) == LastFixed(states, steps, s)
  {
    StepFixesPrice(states[|steps| - 1], steps[|steps| - 1], s);
    assert LastFixed(states, steps, s) == FixedByLast(states, steps, s);
  }

  /** In every state that whole calls reach, a symbol's last price is that of its last trade or of a
      later registration. */
  lemma {:induction false} PriceIsLastFixed(states: seq<Engine>, steps: seq<Step>, s: Symbol)
    requires IsRun(states, steps)
    ensures PriceIn(states[|steps|].lastPrices, s) == LastFixed(states, steps, s)
    decreases |steps|
  {
    if steps != [] {
      var n := |steps| - 1;
      LastStepOfRun(states, steps);
      PriceIsLastFixed(states[..n + 1], steps[..n], s);
      OneMoreFixed(states, steps, s);
    }
  }

  // ----- which symbols are marked

  lemma TradedInJoin(a: seq<Trade>, b: seq<Trade>)
    ensures TradedIn(a + b) == TradedIn(a) + TradedIn(b)
  {}

  lemma MatchMarks(e: Engine, o: Order, now: Time)
    requires o.symbol in e.books
    ensures
      var m := MatchAndSettle(e, o, now);
      m.engine.dirty == e.dirty + TradedIn(m.result.trades)
  {
    MatchSetsPrice(e, o, now, o.symbol);
    TradesInSymbol(o, B.Resting(e.books[o.symbol], o.side.Other()), o.symbol, now);
    OneSymbolTraded(MatchAndSettle(e, o, now).result.trades, o.symbol, o.symbol, 0.0);
  }

  lemma SubmitMarks(e: Engine, r: OrderRequest, now: Time)
    ensures
      var submitted := SubmitOrder(e, r, now);
      submitted.engine.dirty == e.dirty + TradedIn(submitted.result.trades)
  {
    var e1, o := e.(nextOrderId := e.nextOrderId + 1), BuildOrder(r, e.nextOrderId, now);
    if Rejection(e1, r).None? && o.Started(now) && o.ReleaseBandContains(PriceIn(e1.lastPrices, o.symbol)) {
      MatchMarks(e1, o, now);
    }
  }

  lemma {:induction false} MatchAllMarks(e: Engine, orders: seq<Order>, now: Time)
    ensures MatchAll(e, orders, now).dirty == e.dirty + TradedIn(AllTrades(MatchResults(e, orders, now)))
    decreases |orders|
  {
    if orders != [] && orders[0].symbol in e.books {
      var first := MatchAndSettle(e, orders[0], now);
      var more := MatchResults(first.engine, orders[1..], now);
      MatchMarks(e, orders[0], now);
      MatchAllMarks(first.engine, orders[1..], now);
      TradedInJoin(first.result.trades, AllTrades(more));
      assert ([first.result] + more)[1..] == more;
    }
  }

  /** A symbol has traded since the last dirty-only tick took the marks away. */
  ghost predicate TradedSince(states: seq<Engine>, steps: seq<Step>, s: Symbol)
    requires |states| == |steps| + 1
    decreases |steps|, 1
  {
    steps != [] && TradedByLast(states, steps, s)
  }

  ghost predicate TradedByLast(states: seq<Engine>, steps: seq<Step>, s: Symbol)
    requires |states| == |steps| + 1 && steps != []
    decreases |steps|, 0
  {
    var n := |steps| - 1;
    MarkedBy(states[n], steps[n], s, TradedSince(states[..n + 1], steps[..n], s))
  }

  /** What a call makes of a mark. */
  ghost predicate MarkedBy(e: Engine, step: Step, s: Symbol, before: bool) {
    s in TradedIn(TradesOf(e, step)) || ((step.Tick? ==> step.full) && before)
  }

  lemma StepMarks(e: Engine, step: Step, s: Symbol)
    ensures s in Next(e, step).dirty <==> MarkedBy(e, step, s, s in e.dirty)
  {
    match step
    case Submit(r, now) => SubmitMarks(e, r, now);
    case Tick(full, now, released, _) => MatchAllMarks(AfterScan(e, full, now), released, now);
    case _ =>
  }

  lemma OneMoreMarked(states: seq<Engine>, steps: seq<Step>, s: Symbol)
    requires |states| == |steps| + 1 && steps != [] && states[|steps|] == Next(states[|steps| - 1], steps[|steps| - 1])
    requires s in states[|steps| - 1].dirty <==> TradedSince(states[..|steps|], steps[..|steps| - 1], s)
    ensures s in states[|steps|].dirty <==> TradedSince(states, steps, s)
  {
    StepMarks(states[|steps| - 1], steps[|steps| - 1], s);
    assert TradedSince(states, steps, s) <==> TradedByLast(states, steps, s);
  }

  /** In every state that whole calls reach, the marked symbols are those that have traded since the last
      dirty-only tick, in it included; a full tick takes no mark away. */
  lemma {:induction false} MarkedExactly(states: seq<Engine>, steps: seq<Step>, s: Symbol)
    requires IsRun(states, steps)
    ensures s in states[|steps|].dirty <==> TradedSince(states, steps, s)
    decreases |steps|
  {
    if steps != [] {
      var n := |steps| - 1;
      LastStepOfRun(states, steps);
      MarkedExactly(states[..n + 1], steps[..n], s);
      OneMoreMarked(states, steps, s);
    }
  }

  ghost predicate Answer(results: seq<SubmitResult>, orders: seq<Order>) {
    |results| == |orders| &&
    forall i :: 0 <= i < |orders| ==> results[i].accepted && results[i].orderId == orders[i].id
  }

  lemma OneMoreAnswered(first: SubmitResult, more: seq<SubmitResult>, orders: seq<Order>)
    requires orders != [] && first.accepted && first.orderId == orders[0].id && Answer(more, orders[1..])
    ensures Answer([first] + more, orders)
  {
    forall i | 0 < i < |orders|
      ensures ([first] + more)[i].accepted && ([first] + more)[i].orderId == orders[i].id
    {
      assert ([first] + more)[i] == more[i - 1] && orders[i] == orders[1..][i - 1];
    }
  }

  /** What a tick releases is matched in the order in which it is listed. */
  lemma {:induction false} ResultsInOrder(e: Engine, orders: seq<Order>, now: Time)
    requires forall o :: o in orders ==> o.symbol in e.books
    ensures Answer(MatchResults(e, orders, now), orders)
    decreases |orders|
  {
    if orders != [] {
      assert orders[0] in orders;
      var first := MatchAndSettle(e, orders[0], now);
      MatchAndSettleQuiet(e, orders[0], now);
      ResultsInOrder(first.engine, orders[1..], now);
      OneMoreAnswered(first.result, MatchResults(first.engine, orders[1..], now), orders);
    }
  }

  // ----- an order waits as it was submitted

  lemma AdmitLeavesOthers(e: Engine, o: Order, now: Time, id: OrderId)
    requires o.symbol in e.books && id != o.id && id in Admit(e, o, now).engine.waiting
    ensures id in e.waiting && Admit(e, o, now).engine.waiting[id] == e.waiting[id]
  {
    if o.Started(now) && o.ReleaseBandContains(PriceIn(e.lastPrices, o.symbol)) { MatchAndSettleQuiet(e, o, now); }
  }

  lemma StepLeavesWaiting(e: Engine, step: Step, id: OrderId)
    requires Enabled(e, step) && id < e.nextOrderId && id in Next(e, step).waiting
    ensures id in e.waiting && Next(e, step).waiting[id] == e.waiting[id]
  {
    match step
    case Submit(r, now) =>
      var e1 := e.(nextOrderId := e.nextOrderId + 1);
      if Rejection(e1, r).None? { AdmitLeavesOthers(e1, BuildOrder(r, e.nextOrderId, now), now, id); }
    case Tick(full, now, released, _) => MatchAllQuiet(AfterScan(e, full, now), released, now);
    case _ =>
  }

  lemma IdsGrow(e: Engine, step: Step)
    requires Enabled(e, step)
    ensures Next(e, step).nextOrderId >= e.nextOrderId + if step.Submit? then 1 else 0
  {
    match step
    case Submit(r, now) =>
      var e1 := e.(nextOrderId := e.nextOrderId + 1);
      var o := BuildOrder(r, e.nextOrderId, now);
      if Rejection(e1, r).None? && o.Started(now) && o.ReleaseBandContains(PriceIn(e1.lastPrices, o.symbol)) {
        MatchAndSettleQuiet(e1, o, now);
      }
    case Tick(full, now, released, _) => MatchAllQuiet(AfterScan(e, full, now), released, now);
    case _ =>
  }

  lemma {:induction false} NewIdsAreFresh(states: seq<Engine>, steps: seq<Step>)
    requires IsRun(states, steps)
    ensures forall id :: id in states[|steps|].waiting ==> id < states[|steps|].nextOrderId
    decreases |steps|
  {
    if steps != [] {
      var n := |steps| - 1;
      NewIdsAreFresh(states[..n + 1], steps[..n]);
      StepKeepsFresh(states[n], steps[n]);
    }
  }

  lemma StepKeepsFresh(e: Engine, step: Step)
    requires Enabled(e, step) && forall id :: id in e.waiting ==> id < e.nextOrderId
    ensures forall id :: id in Next(e, step).waiting ==> id < Next(e, step).nextOrderId
  {
    IdsGrow(e, step);
    forall id | id in Next(e, step).waiting ensures id < Next(e, step).nextOrderId {
      if id >= e.nextOrderId { NotWaitingYet(e, step, id); }
    }
  }

  lemma NotWaitingYet(e: Engine, step: Step, id: OrderId)
    requires Enabled(e, step) && id !in e.waiting && id in Next(e, step).waiting
    ensures step.Submit? && id == e.nextOrderId
    ensures Next(e, step).waiting[id] == BuildOrder(step.request, id, step.now)
  {
    match step
    case Submit(r, now) =>
      var e1 := e.(nextOrderId := e.nextOrderId + 1);
      var o := BuildOrder(r, e.nextOrderId, now);
      if Rejection(e1, r).None? {
        if id != o.id { AdmitLeavesOthers(e1, o, now, id); }
        if o.Started(now) && o.ReleaseBandContains(PriceIn(e1.lastPrices, o.symbol)) {
          MatchAndSettleQuiet(e1, o, now);
        }
      }
    case Tick(full, now, released, _) => MatchAllQuiet(AfterScan(e, full, now), released, now);
    case _ =>
  }

  /** What the i-th call submitted waits, as long as it does, as what was asked for. */
  lemma {:induction false} WaitsAsSubmitted(states: seq<Engine>, steps: seq<Step>, i: nat)
    requires IsRun(states, steps) && i < |steps| && steps[i].Submit?
    ensures
      var id := states[i].nextOrderId;
      id < states[|steps|].nextOrderId &&
      (id in states[|steps|].waiting ==>
         states[|steps|].waiting[id] == BuildOrder(steps[i].request, id, steps[i].now))
    decreases |steps|
  {
    var n, id := |steps| - 1, states[i].nextOrderId;
    IdsGrow(states[n], steps[n]);
    if i < n {
      WaitsAsSubmitted(states[..n + 1], steps[..n], i);
      if id in states[n + 1].waiting { StepLeavesWaiting(states[n], steps[n], id); }
    } else {
      NewIdsAreFresh(states[..n + 1], steps[..n]);
      if id in states[n + 1].waiting { NotWaitingYet(states[n], steps[n], id); }
    }
  }

  // ----- released by the last trade

  /** An order without a start date that the i-th call submitted and that still waits is released by the
      next tick, a dirty-only one included, if and only if it has not expired and the price of the last
      trade, or of a later registration, satisfies what was asked for: for a STOP, has reached its trigger. */
  lemma LastTradeReleases(
      states: seq<Engine>, steps: seq<Step>, i: nat, full: bool, now: Time, released: seq<Order>, expired: seq<Order>)
    requires IsRun(states, steps) && forall j :: 0 <= j < |steps| ==> Careful(states[j], steps[j])
    requires i < |steps| && steps[i].Submit? && steps[i].request.notBeforeIn.None?
    requires states[i].nextOrderId in states[|steps|].waiting
    requires TickPicks(states[|steps|], full, now, released, expired)
    ensures
      var r, o := steps[i].request, states[|steps|].waiting[states[i].nextOrderId];
      o in released <==> !o.Expired(now) && Admission.Triggered(r, LastFixed(states, steps, r.symbol))
  {
    var e, r, id := states[|steps|], steps[i].request, states[i].nextOrderId;
    var o := e.waiting[id];
    WaitsAsSubmitted(states, steps, i);
    RunsStayComplete(states, steps);
    PriceIsLastFixed(states, steps, r.symbol);
    Admission.BuiltAsRequested(r, id, steps[i].now, now, PriceIn(e.lastPrices, r.symbol));
    PickedWhenReady(e, full, now, released, expired, o);
  }

  lemma PickedWhenReady(
      e: Engine, full: bool, now: Time, released: seq<Order>, expired: seq<Order>, o: Order)
    requires RegistryOk(e) && Complete(e) && TickPicks(e, full, now, released, expired)
    requires o.id in e.waiting && e.waiting[o.id] == o && o.notBefore.None?
    ensures o in released <==> !o.Expired(now) && o.ReleaseBandContains(PriceIn(e.lastPrices, o.symbol))
  {
    assert ScanAt(e, now).Verdict(o) == Release <==>
      !o.Expired(now) && o.ReleaseBandContains(PriceIn(e.lastPrices, o.symbol));
  }
}
