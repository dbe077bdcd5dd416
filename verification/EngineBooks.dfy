/** Every book of every engine that whole calls can reach is a book that matches and cancellations can
    reach, so all that is known about such books holds inside the engine. */
module EngineBooks {
  import opened Types
  import opened PriceTimeList
  import opened Books
  import opened Registry
  import opened EngineModel
  import opened EngineRuns
  import B = BookRuns
  import A = Admission
  import P = Portfolios

  type Histories = map<Symbol, B.BookRun>

  /** The arrivals a book has seen: ids the engine gave out, none of which waits. */
  ghost predicate Arrived(r: B.BookRun, waiting: set<OrderId>, next: OrderId) {
    forall id :: id in r.arrival ==> id < next && id !in waiting
  }

  ghost predicate BookTracked(e: Engine, s: Symbol, r: B.BookRun) {
    s in e.books && r.book == e.books[s] && B.Invariant(r) && Arrived(r, e.waiting.Keys, e.nextOrderId)
  }

  ghost predicate Followed(e: Engine, runs: Histories, s: Symbol) { s in runs ==> BookTracked(e, s, runs[s]) }

  ghost predicate Tracked(e: Engine, runs: Histories) {
    RegistryOk(e) && runs.Keys == e.books.Keys && forall s :: Followed(e, runs, s)
  }

  ghost predicate NotIn(runs: Histories, id: OrderId) { forall s :: s in runs ==> id !in runs[s].arrival }

  /** An id that has not been matched in any book, nor waits. */
  ghost predicate Unmatched(e: Engine, runs: Histories, id: OrderId) {
    id < e.nextOrderId && id !in e.waiting && NotIn(runs, id)
  }

  lemma ArrivedMore(r: B.BookRun, r': B.BookRun, waiting: set<OrderId>, next: OrderId, more: set<OrderId>)
    requires Arrived(r, waiting, next) && r'.arrival.Keys == r.arrival.Keys + more
    requires forall id :: id in more ==> id < next && id !in waiting
    ensures Arrived(r', waiting, next)
  {
    forall id | id in r'.arrival ensures id < next && id !in waiting {
      assert id in r.arrival.Keys || id in more;
    }
  }

  lemma NotInMore(runs: Histories, s: Symbol, r: B.BookRun, more: set<OrderId>, id: OrderId)
    requires s in runs && NotIn(runs, id) && id !in more && r.arrival.Keys == runs[s].arrival.Keys + more
    ensures NotIn(runs[s := r], id)
  {
    assert id !in runs[s].arrival.Keys;
  }

  /** One book goes on to a state that keeps its invariant, and at most one new id arrives in it. */
  lemma BookMovesOn(e: Engine, runs: Histories, e': Engine, s: Symbol, r: B.BookRun, more: set<OrderId>)
    requires Tracked(e, runs) && s in e.books && B.Invariant(r) && r.arrival.Keys == runs[s].arrival.Keys + more
    requires forall id :: id in more ==> id < e.nextOrderId && id !in e.waiting
    requires e'.books == e.books[s := r.book] && e'.waiting == e.waiting && e'.nextOrderId == e.nextOrderId
    ensures Tracked(e', runs[s := r])
  {
    var runs' := runs[s := r];
    assert Followed(e, runs, s);
    forall t ensures Followed(e', runs', t) {
      assert Followed(e, runs, t);
      if t == s {
        MovedBookTracked(e, runs[s], e', s, r, more);
      } else if t in runs {
        OtherBookTracked(e, e', t, runs[t]);
      }
    }
    assert RegistryOk(e') by { RegistryStaysOk(e, e'); }
    assert runs'.Keys == e'.books.Keys;
  }

  lemma MovedBookTracked(e: Engine, before: B.BookRun, e': Engine, s: Symbol, r: B.BookRun, more: set<OrderId>)
    requires BookTracked(e, s, before) && B.Invariant(r) && r.arrival.Keys == before.arrival.Keys + more
    requires forall id :: id in more ==> id < e.nextOrderId && id !in e.waiting
    requires s in e'.books && e'.books[s] == r.book && e'.waiting == e.waiting && e'.nextOrderId == e.nextOrderId
    ensures BookTracked(e', s, r)
  {
    ArrivedMore(before, r, e.waiting.Keys, e.nextOrderId, more);
  }

  lemma OtherBookTracked(e: Engine, e': Engine, t: Symbol, r: B.BookRun)
    requires BookTracked(e, t, r) && t in e'.books && e'.books[t] == e.books[t]
    requires e'.waiting == e.waiting && e'.nextOrderId == e.nextOrderId
    ensures BookTracked(e', t, r)
  {}

  lemma RegistryStaysOk(e: Engine, e': Engine)
    requires RegistryOk(e) && e'.waiting == e.waiting && e'.nextOrderId == e.nextOrderId
    requires forall s :: s in e.books ==> s in e'.books
    ensures RegistryOk(e')
  {}

  /** Other calls leave the books alone and at most add waiting orders that no book has seen. */
  lemma BooksStay(e: Engine, runs: Histories, e': Engine, more: set<OrderId>)
    requires Tracked(e, runs) && RegistryOk(e') && e'.books == e.books && e'.nextOrderId >= e.nextOrderId
    requires e'.waiting.Keys <= e.waiting.Keys + more && forall id :: id in more ==> NotIn(runs, id)
    ensures Tracked(e', runs)
  {
    forall t | t in runs ensures Followed(e', runs, t) {
      assert Followed(e, runs, t);
      forall id | id in runs[t].arrival ensures id !in e'.waiting {
        if id in more { assert NotIn(runs, id); }
      }
    }
  }

  lemma MatchTracked(e: Engine, runs: Histories, o: Order, now: Time) returns (runs': Histories)
    requires Tracked(e, runs) && o.symbol in e.books && Unmatched(e, runs, o.id)
    ensures Tracked(MatchAndSettle(e, o, now).engine, runs')
    ensures forall id :: Unmatched(e, runs, id) && id != o.id ==> Unmatched(MatchAndSettle(e, o, now).engine, runs', id)
  {
    var s := o.symbol;
    assert Followed(e, runs, s);
    var r := B.Apply(runs[s], B.MatchStep(o, now), s);
    B.MatchKeepsInvariant(runs[s], o, now, s);
    BookMovesOn(e, runs, MatchAndSettle(e, o, now).engine, s, r, {o.id});
    runs' := runs[s := r];
    forall id | Unmatched(e, runs, id) && id != o.id ensures NotIn(runs', id) { NotInMore(runs, s, r, {o.id}, id); }
  }

  lemma {:induction false} MatchAllTracked(e: Engine, runs: Histories, orders: seq<Order>, now: Time)
    returns (runs': Histories)
    requires Tracked(e, runs) && NoRepeat(orders) && forall o :: o in orders ==> Unmatched(e, runs, o.id)
    ensures Tracked(MatchAll(e, orders, now), runs')
    decreases |orders|
  {
    runs' := runs;
    if orders != [] && orders[0].symbol in e.books {
      forall o | o in orders[1..] ensures o.id != orders[0].id { assert o.id in Ids(orders[1..]); }
      runs' := MatchTracked(e, runs, orders[0], now);
      runs' := MatchAllTracked(MatchAndSettle(e, orders[0], now).engine, runs', orders[1..], now);
    }
  }

  lemma HoldTracked(e: Engine, runs: Histories, o: Order)
    requires Tracked(e, runs) && o.symbol in e.books && Unmatched(e, runs, o.id) && o.quantity > 0
    ensures Tracked(e.(waiting := e.waiting[o.id := o]), runs)
  {
    HoldRegistryOk(e, o);
    BooksStay(e, runs, e.(waiting := e.waiting[o.id := o]), {o.id});
  }

  lemma HoldRegistryOk(e: Engine, o: Order)
    requires RegistryOk(e) && o.symbol in e.books && o.id < e.nextOrderId && o.quantity > 0
    ensures RegistryOk(e.(waiting := e.waiting[o.id := o]))
  {}

  lemma AdmitTracked(e: Engine, runs: Histories, o: Order, now: Time) returns (runs': Histories)
    requires Tracked(e, runs) && o.symbol in e.books && Unmatched(e, runs, o.id) && o.quantity > 0
    ensures Tracked(Admit(e, o, now).engine, runs')
  {
    if o.Started(now) && o.ReleaseBandContains(PriceIn(e.lastPrices, o.symbol)) {
      runs' := MatchTracked(e, runs, o, now);
    } else {
      HoldTracked(e, runs, o);
      runs' := runs;
    }
  }

  lemma TakeIdTracked(e: Engine, runs: Histories)
    requires Tracked(e, runs)
    ensures
      var e1 := e.(nextOrderId := e.nextOrderId + 1);
      Tracked(e1, runs) && Unmatched(e1, runs, e.nextOrderId)
  {
    BooksStay(e, runs, e.(nextOrderId := e.nextOrderId + 1), {});
    forall t | t in runs ensures e.nextOrderId !in runs[t].arrival { assert Followed(e, runs, t); }
  }

  lemma ScreenAndAdmitTracked(e: Engine, runs: Histories, r: OrderRequest, id: OrderId, now: Time)
    returns (runs': Histories)
    requires Tracked(e, runs) && Unmatched(e, runs, id)
    ensures Tracked(ScreenAndAdmit(e, r, id, now).engine, runs')
  {
    runs' := runs;
    if Rejection(e, r).None? { runs' := AdmitTracked(e, runs, BuildOrder(r, id, now), now); }
  }

  lemma SubmitTracked(e: Engine, runs: Histories, r: OrderRequest, now: Time) returns (runs': Histories)
    requires Tracked(e, runs)
    ensures Tracked(SubmitOrder(e, r, now).engine, runs')
  {
    var e1 := e.(nextOrderId := e.nextOrderId + 1);
    TakeIdTracked(e, runs);
    runs' := ScreenAndAdmitTracked(e1, runs, r, e.nextOrderId, now);
  }

  lemma ScanTracked(e: Engine, runs: Histories, full: bool, now: Time, released: seq<Order>, expired: seq<Order>)
    requires Tracked(e, runs) && TickPicks(e, full, now, released, expired)
    ensures Tracked(AfterScan(e, full, now), runs) && NoRepeat(released)
    ensures forall o :: o in released ==> Unmatched(AfterScan(e, full, now), runs, o.id)
  {
    var scanned := AfterScan(e, full, now);
    assert scanned.waiting.Keys <= e.waiting.Keys;
    assert RegistryOk(scanned);
    BooksStay(e, runs, scanned, {});
    forall o | o in released ensures Unmatched(scanned, runs, o.id) {
      assert o.id in e.waiting && o.id !in scanned.waiting;
      forall t | t in runs ensures o.id !in runs[t].arrival { assert Followed(e, runs, t); }
    }
  }

  lemma TickTracked(e: Engine, runs: Histories, full: bool, now: Time, released: seq<Order>, expired: seq<Order>)
    returns (runs': Histories)
    requires Tracked(e, runs) && TickPicks(e, full, now, released, expired)
    ensures Tracked(MatchAll(AfterScan(e, full, now), released, now), runs')
  {
    ScanTracked(e, runs, full, now, released, expired);
    runs' := MatchAllTracked(AfterScan(e, full, now), runs, released, now);
  }

  lemma RegisterTracked(e: Engine, runs: Histories, s: Symbol, price: Price) returns (runs': Histories)
    requires Tracked(e, runs)
    ensures Tracked(RegisterSymbol(e, s, price), runs')
  {
    runs' := if s in e.books then runs else runs[s := B.BookRun(Book([], []), map[], 0)];
    if s !in e.books { NewBookTracked(RegisterSymbol(e, s, price), s); }
    forall t ensures Followed(RegisterSymbol(e, s, price), runs', t) {
      assert Followed(e, runs, t);
    }
  }

  lemma NewBookTracked(e: Engine, s: Symbol)
    requires s in e.books && e.books[s] == Book([], [])
    ensures BookTracked(e, s, B.BookRun(Book([], []), map[], 0))
  {}

  lemma CancelTracked(e: Engine, runs: Histories, s: Symbol, side: Side, id: OrderId, at: Option<Price>)
    returns (runs': Histories)
    requires Tracked(e, runs) && s in e.books
    ensures Tracked(
      e.(books := e.books[s := With(e.books[s], side, Remove(Resting(e.books[s], side), id, at))]), runs')
  {
    var b := With(e.books[s], side, Remove(Resting(e.books[s], side), id, at));
    var r := runs[s].(book := b);
    assert Followed(e, runs, s);
    B.RemoveKeepsInvariant(runs[s], side, id, at);
    BookMovesOn(e, runs, e.(books := e.books[s := b]), s, r, {});
    runs' := runs[s := r];
  }

  lemma StepTracked(e: Engine, runs: Histories, step: Step) returns (runs': Histories)
    requires Tracked(e, runs) && Enabled(e, step)
    ensures Tracked(Next(e, step), runs')
  {
    runs' := runs;
    match step
    case Submit(r, now) => runs' := SubmitTracked(e, runs, r, now);
    case Tick(full, now, released, expired) => runs' := TickTracked(e, runs, full, now, released, expired);
    case CancelPriced(s, side, price, id) =>
      if s in e.books { runs' := CancelTracked(e, runs, s, side, id, Some(price)); }
    case Cancel(s, id) =>
      if s in e.books {
        runs' := CancelTracked(e, runs, s, if AnyHit(e.books[s].bids, id, None) then Buy else Sell, id, None);
      }
    case Register(s, price) => runs' := RegisterTracked(e, runs, s, price);
    case CancelWaiting(id) => BooksStay(e, runs, Next(e, step), {});
    case Ensure(_, _) => BooksStay(e, runs, Next(e, step), {});
    case GrantShares(_, _, _) => BooksStay(e, runs, Next(e, step), {});
  }

  /** In every state that whole calls reach, every book is uncrossed, in price and arrival order, with
      positive quantities and no MARKET order. */
  lemma {:induction false} EngineBooksAreReachable(states: seq<Engine>, steps: seq<Step>) returns (runs: Histories)
    requires IsRun(states, steps)
    ensures Tracked(states[|steps|], runs)
    decreases |steps|
  {
    runs := map[];
    if steps != [] {
      var n := |steps| - 1;
      runs := EngineBooksAreReachable(states[..n + 1], steps[..n]);
      runs := StepTracked(states[n], runs, steps[n]);
    }
  }

  /** So in every reachable state an accepted limit buy can be paid for when it is matched. */
  lemma AcceptedLimitBuyIsPaidFor(states: seq<Engine>, steps: seq<Step>, r: OrderRequest, now: Time)
    requires IsRun(states, steps) && r.side == Buy && r.kind != Market
    requires SubmitOrder(states[|steps|], r, now).result.accepted
    ensures P.Cash(SubmitOrder(states[|steps|], r, now).engine.portfolios, r.client) >= 0.0
  {
    var e := states[|steps|];
    var runs := EngineBooksAreReachable(states, steps);
    assert Rejection(e.(nextOrderId := e.nextOrderId + 1), r).None?;
    assert Followed(e, runs, r.symbol);
    A.LimitBuyIsCovered(e, r, now);
  }

  /** And an accepted sell can be delivered. */
  lemma AcceptedSellIsDelivered(states: seq<Engine>, steps: seq<Step>, r: OrderRequest, now: Time)
    requires IsRun(states, steps) && r.side == Sell && SubmitOrder(states[|steps|], r, now).result.accepted
    ensures P.Shares(SubmitOrder(states[|steps|], r, now).engine.portfolios, r.client, r.symbol) >= 0
  {
    var e := states[|steps|];
    var runs := EngineBooksAreReachable(states, steps);
    assert Rejection(e.(nextOrderId := e.nextOrderId + 1), r).None?;
    assert Followed(e, runs, r.symbol);
    A.SellIsCovered(e, r, now);
  }

  /** A MARKET buy that is accepted and matched at once overdraws its client exactly when the asks in
      front cost more than the client has. */
  lemma AcceptedMarketBuyIsPaidForExactly(states: seq<Engine>, steps: seq<Step>, r: OrderRequest, now: Time)
    requires IsRun(states, steps) && r.side == Buy && r.kind == Market
    requires SubmitOrder(states[|steps|], r, now).result.accepted && !SubmitOrder(states[|steps|], r, now).result.queued
    ensures r.symbol in states[|steps|].books
    ensures
      P.Cash(SubmitOrder(states[|steps|], r, now).engine.portfolios, r.client) >= 0.0 <==>
      A.CostTo(r.client, states[|steps|].books[r.symbol].asks, r.quantity) <=
      P.Cash(states[|steps|].portfolios, r.client)
  {
    var e := states[|steps|];
    var runs := EngineBooksAreReachable(states, steps);
    assert Rejection(e.(nextOrderId := e.nextOrderId + 1), r).None?;
    assert Followed(e, runs, r.symbol);
    A.MarketBuyCosts(e, r, now);
  }

  const ASK := Order(1, 8, Sell, Limit, "AAPL", 1, 200.0, NegInf, PosInf, 0, None, None)

  const BEFORE_OFFER := WithShares(8, 1).(portfolios := WithShares(8, 1).portfolios[7 := P.Portfolio(110.0, map[])])

  const ONE_ON_OFFER := BEFORE_OFFER.(books := map["AAPL" := Book([], [ASK])], nextOrderId := 2)

  lemma SellRests()
    ensures
      SubmitOrder(BEFORE_OFFER, OrderRequest(8, Sell, Limit, "AAPL", 1, 200.0, None, None, None, None), 0).engine ==
      ONE_ON_OFFER
  {
    var sell := OrderRequest(8, Sell, Limit, "AAPL", 1, 200.0, None, None, None, None);
    assert BuildOrder(sell, 1, 0) == ASK && Match(Book([], []), ASK, "AAPL", 0) == Matched(Book([], [ASK]), []);
  }

  /** After a last price of 100 one client offers its one share at 200, and another has 110. */
  lemma OneIsOnOffer() returns (states: seq<Engine>, steps: seq<Step>)
    ensures IsRun(states, steps) && states[|steps|] == ONE_ON_OFFER
  {
    var sell := OrderRequest(8, Sell, Limit, "AAPL", 1, 200.0, None, None, None, None);
    states, steps := ClientHoldsShares(8, 1);
    OneMoreStep(states, steps, Ensure(7, 110.0), BEFORE_OFFER);
    states, steps := states + [BEFORE_OFFER], steps + [Ensure(7, 110.0)];
    SellRests();
    OneMoreStep(states, steps, Submit(sell, 0), ONE_ON_OFFER);
    states, steps := states + [ONE_ON_OFFER], steps + [Submit(sell, 0)];
  }

  /** So it can happen: in that state the second client's MARKET buy is accepted. */
  lemma MarketBuyCanOverdraw() returns (states: seq<Engine>, steps: seq<Step>, r: OrderRequest)
    ensures IsRun(states, steps) && r.side == Buy && r.kind == Market
    ensures
      var e := states[|steps|];
      SubmitOrder(e, r, 0).result.accepted &&
      P.Cash(e.portfolios, r.client) == 110.0 && P.Cash(SubmitOrder(e, r, 0).engine.portfolios, r.client) == -90.0
  {
    r := OrderRequest(7, Buy, Market, "AAPL", 1, 0.0, None, None, None, None);
    states, steps := OneIsOnOffer();
    assert [ASK][1..] == [] && A.CostTo(7, [ASK], 1) == 200.0;
    A.PlainOrdersNeverWait(ONE_ON_OFFER, r, 0);
    A.MarketBuyCosts(ONE_ON_OFFER, r, 0);
  }
}
