/** Where an order is: in the registry or in one book, never twice, and how it may leave the registry. */
module OrderPlaces {
  import opened Types
  import opened PriceTimeList
  import opened Books
  import opened Registry
  import opened EngineModel
  import opened EngineRuns

  ghost predicate BookOk(b: Book) { NoRepeat(b.bids) && NoRepeat(b.asks) && Ids(b.bids) !! Ids(b.asks) }

  ghost function BookIds(b: Book): set<OrderId> { Ids(b.bids) + Ids(b.asks) }

  /** A book holds no id twice, none that waits, and none that was not given out. */
  ghost predicate BookPlaced(e: Engine, s: Symbol) {
    s in e.books ==>
      BookOk(e.books[s]) && BookIds(e.books[s]) !! e.waiting.Keys &&
      forall id :: id in BookIds(e.books[s]) ==> id < e.nextOrderId
  }

  ghost predicate BooksApart(e: Engine, s: Symbol, t: Symbol) {
    s in e.books && t in e.books && s != t ==> BookIds(e.books[s]) !! BookIds(e.books[t])
  }

  /** Every id the engine gave out is in at most one place: the registry, or one position of one book. */
  ghost predicate PlacedOnce(e: Engine) {
    RegistryOk(e) && (forall s :: BookPlaced(e, s)) && forall s, t :: BooksApart(e, s, t)
  }

  lemma {:induction false} SweepIds(o: Order, resting: seq<Order>, s: Symbol, now: Time)
    requires NoRepeat(resting)
    ensures
      var rest := Sweep(o, resting, s, now).rest;
      NoRepeat(rest) && Ids(rest) <= Ids(resting)
    decreases |resting|
  {
    if o.quantity > 0 && resting != [] && Crosses(o, resting[0].price) {
      var r, tail := resting[0], resting[1..];
      IdsCons(r, tail);
      assert [r] + tail == resting;
      if o.quantity < r.quantity {
        IdsCons(r.(quantity := r.quantity - o.quantity), tail);
        assert Sweep(o, resting, s, now).rest[1..] == tail;
      } else {
        SweepIds(o.(quantity := o.quantity - r.quantity), tail, s, now);
      }
    }
  }

  lemma {:induction false} InsertIds(resting: seq<Order>, o: Order)
    requires NoRepeat(resting) && o.id !in Ids(resting)
    ensures NoRepeat(Insert(resting, o)) && Ids(Insert(resting, o)) == Ids(resting) + {o.id}
  {
    var after := Insert(resting, o);
    if resting == [] || Before(o.side, o.price, resting[0].price) {
      assert after[1..] == resting;
      IdsCons(o, resting);
    } else {
      var r, tail := resting[0], resting[1..];
      IdsCons(r, tail);
      assert [r] + tail == resting;
      InsertIds(tail, o);
      IdsCons(r, Insert(tail, o));
      assert after[1..] == Insert(tail, o);
    }
  }

  lemma {:induction false} RemoveIds(resting: seq<Order>, id: OrderId, at: Option<Price>)
    requires NoRepeat(resting)
    ensures NoRepeat(Remove(resting, id, at)) && Ids(Remove(resting, id, at)) <= Ids(resting)
  {
    if resting != [] {
      var r, tail := resting[0], resting[1..];
      IdsCons(r, tail);
      assert [r] + tail == resting;
      if !Hit(r, id, at) {
        RemoveIds(tail, id, at);
        IdsCons(r, Remove(tail, id, at));
        assert Remove(resting, id, at)[1..] == Remove(tail, id, at);
      }
    }
  }

  lemma MatchIds(b: Book, o: Order, s: Symbol, now: Time)
    requires BookOk(b) && o.id !in BookIds(b)
    ensures BookOk(Match(b, o, s, now).book) && BookIds(Match(b, o, s, now).book) <= BookIds(b) + {o.id}
  {
    var w := Sweep(o, Resting(b, o.side.Other()), s, now);
    SweepIds(o, Resting(b, o.side.Other()), s, now);
    InsertIds(Resting(b, o.side), o.(quantity := w.left));
  }

  /** An id that is nowhere yet. */
  ghost predicate Nowhere(e: Engine, id: OrderId) {
    id < e.nextOrderId && id !in e.waiting && forall s :: s in e.books ==> id !in BookIds(e.books[s])
  }

  lemma BookReplaced(e: Engine, e': Engine, s: Symbol, b: Book, more: set<OrderId>)
    requires PlacedOnce(e) && s in e.books && BookOk(b) && BookIds(b) <= BookIds(e.books[s]) + more
    requires forall id :: id in more ==> Nowhere(e, id)
    requires e'.books == e.books[s := b] && e'.waiting == e.waiting && e'.nextOrderId == e.nextOrderId
    ensures PlacedOnce(e')
    ensures forall id :: Nowhere(e, id) && id !in more ==> Nowhere(e', id)
  {
    assert BookPlaced(e, s);
    forall t ensures BookPlaced(e', t) { assert BookPlaced(e, t); }
    forall t, u ensures BooksApart(e', t, u) { assert BooksApart(e, t, u); }
  }

  lemma MatchPlaces(e: Engine, o: Order, now: Time)
    requires PlacedOnce(e) && o.symbol in e.books && Nowhere(e, o.id)
    ensures PlacedOnce(MatchAndSettle(e, o, now).engine)
    ensures forall id :: Nowhere(e, id) && id != o.id ==> Nowhere(MatchAndSettle(e, o, now).engine, id)
  {
    assert BookPlaced(e, o.symbol);
    MatchIds(e.books[o.symbol], o, o.symbol, now);
    var b := Match(e.books[o.symbol], o, o.symbol, now).book;
    BookReplaced(e, MatchAndSettle(e, o, now).engine, o.symbol, b, {o.id});
  }

  lemma {:induction false} MatchAllPlaces(e: Engine, orders: seq<Order>, now: Time)
    requires PlacedOnce(e) && NoRepeat(orders)
    requires forall o :: o in orders ==> Nowhere(e, o.id)
    ensures PlacedOnce(MatchAll(e, orders, now))
    decreases |orders|
  {
    if orders != [] && orders[0].symbol in e.books {
      MatchPlaces(e, orders[0], now);
      forall o | o in orders[1..] ensures o.id != orders[0].id { assert o.id in Ids(orders[1..]); }
      MatchAllPlaces(MatchAndSettle(e, orders[0], now).engine, orders[1..], now);
    }
  }

  /** Books that stay stay placed when nothing new waits but ids that are nowhere. */
  lemma BooksStay(e: Engine, e': Engine, more: set<OrderId>)
    requires PlacedOnce(e) && RegistryOk(e') && e'.books == e.books && e'.nextOrderId >= e.nextOrderId
    requires e'.waiting.Keys <= e.waiting.Keys + more && forall id :: id in more ==> Nowhere(e, id)
    ensures PlacedOnce(e')
  {
    forall s ensures BookPlaced(e', s) { assert BookPlaced(e, s); }
    forall s, t ensures BooksApart(e', s, t) { assert BooksApart(e, s, t); }
  }

  lemma TakeIdPlaces(e: Engine)
    requires PlacedOnce(e)
    ensures PlacedOnce(e.(nextOrderId := e.nextOrderId + 1))
    ensures Nowhere(e.(nextOrderId := e.nextOrderId + 1), e.nextOrderId)
  {
    BooksStay(e, e.(nextOrderId := e.nextOrderId + 1), {});
    forall s | s in e.books ensures e.nextOrderId !in BookIds(e.books[s]) { assert BookPlaced(e, s); }
  }

  lemma AdmitPlaces(e: Engine, o: Order, now: Time)
    requires PlacedOnce(e) && o.symbol in e.books && Nowhere(e, o.id) && o.quantity > 0
    ensures PlacedOnce(Admit(e, o, now).engine)
  {
    if o.Started(now) && o.ReleaseBandContains(PriceIn(e.lastPrices, o.symbol)) {
      MatchPlaces(e, o, now);
    } else {
      BooksStay(e, e.(waiting := e.waiting[o.id := o]), {o.id});
    }
  }

  lemma ScreenAndAdmitPlaces(e: Engine, r: OrderRequest, id: OrderId, now: Time)
    requires PlacedOnce(e) && Nowhere(e, id)
    ensures PlacedOnce(ScreenAndAdmit(e, r, id, now).engine)
  {
    if Rejection(e, r).None? { AdmitPlaces(e, BuildOrder(r, id, now), now); }
  }

  lemma SubmitPlaces(e: Engine, r: OrderRequest, now: Time)
    requires PlacedOnce(e)
    ensures PlacedOnce(SubmitOrder(e, r, now).engine)
  {
    TakeIdPlaces(e);
    ScreenAndAdmitPlaces(e.(nextOrderId := e.nextOrderId + 1), r, e.nextOrderId, now);
  }

  /** After the scan of a tick, what it released is nowhere, each id once. */
  lemma ScanPlaces(e: Engine, full: bool, now: Time, released: seq<Order>, expired: seq<Order>)
    requires PlacedOnce(e) && TickPicks(e, full, now, released, expired)
    ensures PlacedOnce(AfterScan(e, full, now)) && NoRepeat(released)
    ensures forall o :: o in released ==> Nowhere(AfterScan(e, full, now), o.id)
  {
    var waiting := AfterScan(e, full, now).waiting;
    assert waiting.Keys <= e.waiting.Keys && forall id :: id in waiting ==> waiting[id] == e.waiting[id];
    BooksStay(e, AfterScan(e, full, now), {});
    forall o | o in released ensures Nowhere(AfterScan(e, full, now), o.id) {
      assert o.id in e.waiting && o.id !in waiting;
      TakenOutIsNowhere(e, AfterScan(e, full, now), o.id);
    }
  }

  lemma TakenOutIsNowhere(e: Engine, e': Engine, id: OrderId)
    requires PlacedOnce(e) && e'.books == e.books && e'.nextOrderId == e.nextOrderId
    requires id in e.waiting && id !in e'.waiting
    ensures Nowhere(e', id)
  {
    forall s | s in e.books ensures id !in BookIds(e.books[s]) { assert BookPlaced(e, s); }
  }

  lemma RegisterPlaces(e: Engine, s: Symbol, price: Price)
    requires PlacedOnce(e)
    ensures PlacedOnce(RegisterSymbol(e, s, price))
  {
    var e' := RegisterSymbol(e, s, price);
    assert BookIds(Book([], [])) == {};
    forall t ensures BookPlaced(e', t) { assert BookPlaced(e, t); }
    forall t, u ensures BooksApart(e', t, u) { assert BooksApart(e, t, u); }
  }

  lemma StepKeepsPlaces(e: Engine, step: Step)
    requires PlacedOnce(e) && Enabled(e, step)
    ensures PlacedOnce(Next(e, step))
  {
    match step
    case Submit(r, now) => SubmitPlaces(e, r, now);
    case Tick(full, now, released, expired) =>
      ScanPlaces(e, full, now, released, expired);
      MatchAllPlaces(AfterScan(e, full, now), released, now);
    case CancelPriced(s, side, price, id) => if s in e.books { CancelPlaces(e, s, side, id, Some(price)); }
    case Cancel(s, id) =>
      if s in e.books { CancelPlaces(e, s, if AnyHit(e.books[s].bids, id, None) then Buy else Sell, id, None); }
    case CancelWaiting(id) => BooksStay(e, Next(e, step), {});
    case Register(s, price) => RegisterPlaces(e, s, price);
    case Ensure(_, _) => BooksStay(e, Next(e, step), {});
    case GrantShares(_, _, _) => BooksStay(e, Next(e, step), {});
  }

  lemma CancelPlaces(e: Engine, s: Symbol, side: Side, id: OrderId, at: Option<Price>)
    requires PlacedOnce(e) && s in e.books
    ensures PlacedOnce(e.(books := e.books[s := With(e.books[s], side, Remove(Resting(e.books[s], side), id, at))]))
  {
    var b := With(e.books[s], side, Remove(Resting(e.books[s], side), id, at));
    assert BookPlaced(e, s);
    RemoveIds(Resting(e.books[s], side), id, at);
    BookReplaced(e, e.(books := e.books[s := b]), s, b, {});
  }

  /** Over any run, an order is in at most one place. */
  lemma {:induction false} OnePlaceEver(states: seq<Engine>, steps: seq<Step>)
    requires IsRun(states, steps)
    ensures PlacedOnce(states[|steps|])
    decreases |steps|
  {
    if steps != [] {
      var n := |steps| - 1;
      OnePlaceEver(states[..n + 1], steps[..n]);
      StepKeepsPlaces(states[n], steps[n]);
    }
  }

  lemma SubmitKeepsWaiting(e: Engine, r: OrderRequest, now: Time, id: OrderId)
    requires id in e.waiting
    ensures id in SubmitOrder(e, r, now).engine.waiting
  {
    var e1 := e.(nextOrderId := e.nextOrderId + 1);
    if Rejection(e1, r).None? { MatchAndSettleQuiet(e1, BuildOrder(r, e.nextOrderId, now), now); }
  }

  lemma OnlyScansRelease(e: Engine, step: Step, id: OrderId)
    requires Enabled(e, step) && id in e.waiting && !step.Tick? && step != CancelWaiting(id)
    ensures id in Next(e, step).waiting
  {
    if step.Submit? { SubmitKeepsWaiting(e, step.request, step.now, id); }
  }

  lemma ScanReleasesReady(
      e: Engine, full: bool, now: Time, released: seq<Order>, expired: seq<Order>, id: OrderId)
    requires TickPicks(e, full, now, released, expired) && id in e.waiting
    ensures e.waiting[id] in released ==>
      var o := e.waiting[id];
      !o.Expired(now) && o.Started(now) && o.ReleaseBandContains(PriceIn(e.lastPrices, o.symbol))
    ensures e.waiting[id] in expired ==> e.waiting[id].Expired(now)
    ensures id in AfterScan(e, full, now).waiting || e.waiting[id] in released || e.waiting[id] in expired
  {
    var o := e.waiting[id];
    if o in released { assert ScanAt(e, now).Verdict(o) == Release; }
    if o in expired { assert ScanAt(e, now).Verdict(o) == Expire; }
  }

  /** An order leaves the registry only by cancellation or through a scan, and through a scan towards
      the book only if the scan saw its band satisfied, its start date passed and its expiry not. */
  lemma LeavesRegistryReady(e: Engine, step: Step, id: OrderId)
    requires PlacedOnce(e) && Enabled(e, step) && id in e.waiting && id !in Next(e, step).waiting
    ensures
      step == CancelWaiting(id) || (step.Tick? && (e.waiting[id] in step.released || e.waiting[id] in step.expired))
    ensures step.Tick? && e.waiting[id] in step.released ==>
      var o := e.waiting[id];
      !o.Expired(step.now) && o.Started(step.now) && o.ReleaseBandContains(PriceIn(e.lastPrices, o.symbol))
    ensures step.Tick? && e.waiting[id] in step.expired ==> e.waiting[id].Expired(step.now)
  {
    if step.Tick? {
      MatchAllQuiet(AfterScan(e, step.full, step.now), step.released, step.now);
      ScanReleasesReady(e, step.full, step.now, step.released, step.expired, id);
    } else if step != CancelWaiting(id) {
      OnlyScansRelease(e, step, id);
    }
  }

  /** The ids a call can bring into a book: of the order it submits, or of those it releases. */
  ghost function Entering(e: Engine, step: Step): set<OrderId> {
    if step.Submit? then {e.nextOrderId} else if step.Tick? then Ids(step.released) else {}
  }

  /** Nothing comes to rest in a book except by being submitted, or released by a scan, in that call. */
  lemma EntersBookReleased(e: Engine, step: Step, s: Symbol)
    requires PlacedOnce(e) && Enabled(e, step) && s in e.books
    ensures s in Next(e, step).books
    ensures BookIds(Next(e, step).books[s]) <= BookIds(e.books[s]) + Entering(e, step)
  {
    match step
    case Submit(r, now) => SubmitEnters(e, r, now, s);
    case Tick(full, now, released, expired) => TickEnters(e, full, now, released, expired, s);
    case CancelPriced(x, side, price, c) =>
      assert BookPlaced(e, x);
      if x in e.books { CancelAtLeavesIds(e.books[x], side, price, c); }
    case Cancel(x, c) =>
      assert BookPlaced(e, x);
      if x in e.books { CancelLeavesIds(e.books[x], c); }
    case _ =>
  }

  lemma TickEnters(e: Engine, full: bool, now: Time, released: seq<Order>, expired: seq<Order>, s: Symbol)
    requires PlacedOnce(e) && TickPicks(e, full, now, released, expired) && s in e.books
    ensures
      var after := MatchAll(AfterScan(e, full, now), released, now);
      s in after.books && BookIds(after.books[s]) <= BookIds(e.books[s]) + Ids(released)
  {
    ScanPlaces(e, full, now, released, expired);
    MatchAllIds(AfterScan(e, full, now), released, now, s);
  }

  lemma CancelAtLeavesIds(b: Book, side: Side, price: Price, id: OrderId)
    requires BookOk(b)
    ensures BookIds(CancelAt(b, side, price, id).book) <= BookIds(b)
  {
    RemoveIds(Resting(b, side), id, Some(price));
  }

  lemma CancelLeavesIds(b: Book, id: OrderId)
    requires BookOk(b)
    ensures BookIds(CancelById(b, id).book) <= BookIds(b)
  {
    RemoveIds(b.bids, id, None);
    RemoveIds(b.asks, id, None);
  }

  lemma AdmitEnters(e: Engine, o: Order, now: Time, s: Symbol)
    requires o.symbol in e.books && s in e.books && BookOk(e.books[o.symbol]) && o.id !in BookIds(e.books[o.symbol])
    ensures s in Admit(e, o, now).engine.books
    ensures BookIds(Admit(e, o, now).engine.books[s]) <= BookIds(e.books[s]) + {o.id}
  {
    MatchIds(e.books[o.symbol], o, o.symbol, now);
  }

  lemma ScreenAndAdmitEnters(e: Engine, r: OrderRequest, id: OrderId, now: Time, s: Symbol)
    requires PlacedOnce(e) && s in e.books && Nowhere(e, id)
    ensures s in ScreenAndAdmit(e, r, id, now).engine.books
    ensures BookIds(ScreenAndAdmit(e, r, id, now).engine.books[s]) <= BookIds(e.books[s]) + {id}
  {
    if Rejection(e, r).None? {
      assert BookPlaced(e, r.symbol);
      AdmitEnters(e, BuildOrder(r, id, now), now, s);
    }
  }

  lemma SubmitEnters(e: Engine, r: OrderRequest, now: Time, s: Symbol)
    requires PlacedOnce(e) && s in e.books
    ensures s in SubmitOrder(e, r, now).engine.books
    ensures BookIds(SubmitOrder(e, r, now).engine.books[s]) <= BookIds(e.books[s]) + {e.nextOrderId}
  {
    TakeIdPlaces(e);
    ScreenAndAdmitEnters(e.(nextOrderId := e.nextOrderId + 1), r, e.nextOrderId, now, s);
  }

  lemma {:induction false} MatchAllIds(e: Engine, orders: seq<Order>, now: Time, s: Symbol)
    requires s in e.books && PlacedOnce(e) && NoRepeat(orders)
    requires forall o :: o in orders ==> Nowhere(e, o.id)
    ensures s in MatchAll(e, orders, now).books
    ensures BookIds(MatchAll(e, orders, now).books[s]) <= BookIds(e.books[s]) + Ids(orders)
    decreases |orders|
  {
    if orders != [] && orders[0].symbol in e.books {
      var o := orders[0];
      assert BookPlaced(e, o.symbol);
      MatchIds(e.books[o.symbol], o, o.symbol, now);
      MatchPlaces(e, o, now);
      forall x | x in orders[1..] ensures x.id != o.id { assert x.id in Ids(orders[1..]); }
      MatchAllIds(MatchAndSettle(e, o, now).engine, orders[1..], now, s);
    }
  }
}
