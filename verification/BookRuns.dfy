/** What every run of matches and cancellations keeps true of a book. */
module BookRuns {
  import opened Types
  import opened PriceTimeList
  import opened Books

  datatype BookStep =
    | MatchStep(order: Order, now: Time)
    | CancelAtStep(side: Side, price: Price, id: OrderId)
    | CancelIdStep(id: OrderId)

  /** A book together with the arrival number of every order ever matched against it. */
  datatype BookRun = BookRun(book: Book, arrival: map<OrderId, nat>, arrivals: nat)

  function Apply(r: BookRun, step: BookStep, symbol: Symbol): BookRun {
    match step
    case MatchStep(o, now) =>
      BookRun(Match(r.book, o, symbol, now).book, r.arrival[o.id := r.arrivals], r.arrivals + 1)
    case CancelAtStep(side, price, id) => r.(book := CancelAt(r.book, side, price, id).book)
    case CancelIdStep(id) => r.(book := CancelById(r.book, id).book)
  }

  function ApplyAll(r: BookRun, steps: seq<BookStep>, symbol: Symbol): BookRun
    decreases |steps|
  {
    if steps == [] then r else ApplyAll(Apply(r, steps[0], symbol), steps[1..], symbol)
  }

  /** The engine gives every order its own id. */
  ghost predicate FreshIds(steps: seq<BookStep>) {
    forall i, j :: 0 <= i < j < |steps| && steps[i].MatchStep? && steps[j].MatchStep? ==>
      steps[i].order.id != steps[j].order.id
  }

  /** No id twice, and at one price whoever arrived first stands first. */
  ghost predicate InTimeOrder(orders: seq<Order>, arrival: map<OrderId, nat>, arrivals: nat) {
    orders == [] ||
    (var first, tail := orders[0], orders[1..];
     first.id in arrival && arrival[first.id] < arrivals && StandsBefore(first, tail, arrival) &&
     InTimeOrder(tail, arrival, arrivals))
  }

  ghost predicate StandsBefore(x: Order, tail: seq<Order>, arrival: map<OrderId, nat>)
    requires x.id in arrival
  {
    forall y :: y in tail ==>
      y.id != x.id && (y.price == x.price ==> y.id in arrival && arrival[x.id] < arrival[y.id])
  }

  /** Price order, time order within a price, positive quantities, the right side, no MARKET order. */
  ghost predicate SideInvariant(side: Side, orders: seq<Order>, arrival: map<OrderId, nat>, arrivals: nat) {
    IsSide(side, orders) && InTimeOrder(orders, arrival, arrivals)
  }

  ghost predicate Uncrossed(b: Book) {
    forall x, y :: x in b.bids && y in b.asks ==> x.price < y.price
  }

  ghost predicate OneSideEach(b: Book) {
    forall x, y :: x in b.bids && y in b.asks ==> x.id != y.id
  }

  ghost predicate Invariant(r: BookRun) {
    SideInvariant(Buy, r.book.bids, r.arrival, r.arrivals) &&
    SideInvariant(Sell, r.book.asks, r.arrival, r.arrivals) &&
    Uncrossed(r.book) && OneSideEach(r.book)
  }

  // ----- one side

  /** A side after the remainder of an incoming order has joined it, or been discarded. */
  function Joined(own: seq<Order>, left: Order): seq<Order> {
    if left.quantity > 0 && left.kind != Market then Insert(own, left) else own
  }

  lemma {:induction false} InsertMembers(resting: seq<Order>, o: Order)
    ensures forall x :: x in Insert(resting, o) <==> x == o || x in resting
  {
    if resting != [] && !Before(o.side, o.price, resting[0].price) {
      InsertMembers(resting[1..], o);
      assert forall x :: x in resting <==> x == resting[0] || x in resting[1..];
    }
  }

  lemma {:induction false} InsertKeepsPriceOrder(resting: seq<Order>, o: Order)
    requires IsSide(o.side, resting) && MayRest(o.side, o)
    ensures IsSide(o.side, Insert(resting, o))
  {
    if resting == [] || Before(o.side, o.price, resting[0].price) {
      assert Insert(resting, o)[1..] == resting;
    } else {
      InsertKeepsPriceOrder(resting[1..], o);
      InsertMembers(resting[1..], o);
      assert Insert(resting, o)[1..] == Insert(resting[1..], o);
    }
  }

  lemma {:induction false} AllArrived(orders: seq<Order>, arrival: map<OrderId, nat>, arrivals: nat)
    requires InTimeOrder(orders, arrival, arrivals)
    ensures forall x :: x in orders ==> x.id in arrival && arrival[x.id] < arrivals
  {
    if orders != [] { AllArrived(orders[1..], arrival, arrivals); }
  }

  lemma {:induction false} OneMoreArrival(orders: seq<Order>, arrival: map<OrderId, nat>, arrivals: nat, id: OrderId)
    requires InTimeOrder(orders, arrival, arrivals) && id !in arrival
    ensures InTimeOrder(orders, arrival[id := arrivals], arrivals + 1)
  {
    if orders != [] { OneMoreArrival(orders[1..], arrival, arrivals, id); }
  }

  lemma {:induction false} InsertKeepsTimeOrder(
      resting: seq<Order>, o: Order, arrival: map<OrderId, nat>, arrivals: nat)
    requires IsSide(o.side, resting) && InTimeOrder(resting, arrival, arrivals) && o.id !in arrival
    ensures InTimeOrder(Insert(resting, o), arrival[o.id := arrivals], arrivals + 1)
  {
    AllArrived(resting, arrival, arrivals);
    if resting == [] || Before(o.side, o.price, resting[0].price) {
      OneMoreArrival(resting, arrival, arrivals, o.id);
      assert Insert(resting, o)[1..] == resting;
    } else {
      InsertKeepsTimeOrder(resting[1..], o, arrival, arrivals);
      InsertMembers(resting[1..], o);
      assert Insert(resting, o)[1..] == Insert(resting[1..], o);
    }
  }

  lemma OwnSideKept(own: seq<Order>, left: Order, arrival: map<OrderId, nat>, arrivals: nat)
    requires SideInvariant(left.side, own, arrival, arrivals) && left.id !in arrival
    ensures SideInvariant(left.side, Joined(own, left), arrival[left.id := arrivals], arrivals + 1)
  {
    if left.quantity > 0 && left.kind != Market {
      InsertKeepsPriceOrder(own, left);
      InsertKeepsTimeOrder(own, left, arrival, arrivals);
    } else {
      OneMoreArrival(own, arrival, arrivals, left.id);
    }
  }

  lemma {:induction false} SweepKeepsSide(o: Order, resting: seq<Order>, symbol: Symbol, now: Time,
                                          arrival: map<OrderId, nat>, arrivals: nat)
    requires SideInvariant(o.side.Other(), resting, arrival, arrivals)
    ensures SideInvariant(o.side.Other(), Sweep(o, resting, symbol, now).rest, arrival, arrivals)
    decreases |resting|
  {
    if o.quantity > 0 && resting != [] && Crosses(o, resting[0].price) {
      if o.quantity >= resting[0].quantity {
        SweepKeepsSide(o.(quantity := o.quantity - resting[0].quantity), resting[1..], symbol, now, arrival, arrivals);
      } else {
        assert Sweep(o, resting, symbol, now).rest[1..] == resting[1..];
      }
    }
  }

  lemma {:induction false} RemoveMembers(resting: seq<Order>, id: OrderId, at: Option<Price>)
    ensures forall x :: x in Remove(resting, id, at) ==> x in resting
  {
    if resting != [] { RemoveMembers(resting[1..], id, at); }
  }

  lemma {:induction false} RemoveKeepsSide(side: Side, resting: seq<Order>, id: OrderId, at: Option<Price>,
                                           arrival: map<OrderId, nat>, arrivals: nat)
    requires SideInvariant(side, resting, arrival, arrivals)
    ensures SideInvariant(side, Remove(resting, id, at), arrival, arrivals)
  {
    if resting != [] && !Hit(resting[0], id, at) {
      RemoveKeepsSide(side, resting[1..], id, at, arrival, arrivals);
      RemoveMembers(resting[1..], id, at);
      assert Remove(resting, id, at)[1..] == Remove(resting[1..], id, at);
    }
  }

  // ----- the two sides against each other

  /** What is left of an incoming order cannot trade with what is left of the other side. */
  lemma {:induction false} LeftCannotTrade(o: Order, resting: seq<Order>, symbol: Symbol, now: Time)
    requires IsSide(o.side.Other(), resting)
    ensures
      var s := Sweep(o, resting, symbol, now);
      s.left > 0 ==> forall x :: x in s.rest ==> !Crosses(o, x.price)
    decreases |resting|
  {
    if o.quantity > 0 && resting != [] && Crosses(o, resting[0].price) && o.quantity >= resting[0].quantity {
      LeftCannotTrade(o.(quantity := o.quantity - resting[0].quantity), resting[1..], symbol, now);
    }
  }

  /** Two sides share no id and cannot trade with each other. */
  ghost predicate Apart(side: Side, own: seq<Order>, other: seq<Order>) {
    forall x, y :: x in own && y in other ==> x.id != y.id && Before(side.Other(), x.price, y.price)
  }

  lemma ApartAfterFront(side: Side, own: seq<Order>, other: seq<Order>, left: Quantity)
    requires Apart(side, own, other) && other != []
    ensures Apart(side, own, other[1..]) && Apart(side, own, [other[0].(quantity := left)] + other[1..])
  {
    assert other[0] in other;
  }

  lemma {:induction false} SweepStaysApart(own: seq<Order>, o: Order, other: seq<Order>, symbol: Symbol, now: Time)
    requires Apart(o.side, own, other)
    ensures Apart(o.side, own, Sweep(o, other, symbol, now).rest)
    decreases |other|
  {
    if o.quantity > 0 && other != [] && Crosses(o, other[0].price) {
      ApartAfterFront(o.side, own, other, other[0].quantity - o.quantity);
      if o.quantity >= other[0].quantity {
        SweepStaysApart(own, o.(quantity := o.quantity - other[0].quantity), other[1..], symbol, now);
      }
    }
  }

  lemma {:induction false} SweepBringsNoId(o: Order, other: seq<Order>, symbol: Symbol, now: Time, id: OrderId)
    requires forall y :: y in other ==> y.id != id
    ensures forall y :: y in Sweep(o, other, symbol, now).rest ==> y.id != id
    decreases |other|
  {
    if o.quantity > 0 && other != [] && Crosses(o, other[0].price) && o.quantity >= other[0].quantity {
      SweepBringsNoId(o.(quantity := o.quantity - other[0].quantity), other[1..], symbol, now, id);
    }
  }

  lemma MatchStaysApart(own: seq<Order>, other: seq<Order>, o: Order, symbol: Symbol, now: Time)
    requires Apart(o.side, own, other) && IsSide(o.side.Other(), other)
    requires forall y :: y in other ==> y.id != o.id
    ensures
      var s := Sweep(o, other, symbol, now);
      Apart(o.side, Joined(own, o.(quantity := s.left)), s.rest)
  {
    var s := Sweep(o, other, symbol, now);
    SweepStaysApart(own, o, other, symbol, now);
    SweepBringsNoId(o, other, symbol, now, o.id);
    LeftCannotTrade(o, other, symbol, now);
    InsertMembers(own, o.(quantity := s.left));
  }

  lemma SidesMakeInvariant(r: BookRun, side: Side)
    ensures Invariant(r) <==>
      SideInvariant(side, Resting(r.book, side), r.arrival, r.arrivals) &&
      SideInvariant(side.Other(), Resting(r.book, side.Other()), r.arrival, r.arrivals) &&
      Apart(side, Resting(r.book, side), Resting(r.book, side.Other()))
  {}

  lemma MatchResting(b: Book, o: Order, symbol: Symbol, now: Time)
    ensures
      var b', s := Match(b, o, symbol, now).book, Sweep(o, Resting(b, o.side.Other()), symbol, now);
      Resting(b', o.side) == Joined(Resting(b, o.side), o.(quantity := s.left)) &&
      Resting(b', o.side.Other()) == s.rest
  {}

  lemma MatchKeepsSides(own: seq<Order>, other: seq<Order>, o: Order, symbol: Symbol, now: Time,
                        arrival: map<OrderId, nat>, arrivals: nat)
    requires SideInvariant(o.side, own, arrival, arrivals) && SideInvariant(o.side.Other(), other, arrival, arrivals)
    requires Apart(o.side, own, other) && o.id !in arrival
    ensures
      var s := Sweep(o, other, symbol, now);
      var own' := Joined(own, o.(quantity := s.left));
      SideInvariant(o.side, own', arrival[o.id := arrivals], arrivals + 1) &&
      SideInvariant(o.side.Other(), s.rest, arrival[o.id := arrivals], arrivals + 1) && Apart(o.side, own', s.rest)
  {
    var s := Sweep(o, other, symbol, now);
    SweepKeepsSide(o, other, symbol, now, arrival, arrivals);
    OneMoreArrival(s.rest, arrival, arrivals, o.id);
    OwnSideKept(own, o.(quantity := s.left), arrival, arrivals);
    AllArrived(other, arrival, arrivals);
    MatchStaysApart(own, other, o, symbol, now);
  }

  lemma MatchKeepsInvariant(r: BookRun, o: Order, now: Time, symbol: Symbol)
    requires Invariant(r) && o.id !in r.arrival
    ensures Invariant(Apply(r, MatchStep(o, now), symbol))
  {
    SidesMakeInvariant(r, o.side);
    MatchKeepsSides(Resting(r.book, o.side), Resting(r.book, o.side.Other()), o, symbol, now, r.arrival, r.arrivals);
    MatchResting(r.book, o, symbol, now);
    SidesMakeInvariant(Apply(r, MatchStep(o, now), symbol), o.side);
  }

  lemma RemoveKeepsInvariant(r: BookRun, side: Side, id: OrderId, at: Option<Price>)
    requires Invariant(r)
    ensures Invariant(r.(book := With(r.book, side, Remove(Resting(r.book, side), id, at))))
  {
    var own := Resting(r.book, side);
    SidesMakeInvariant(r, side);
    RemoveKeepsSide(side, own, id, at, r.arrival, r.arrivals);
    RemoveMembers(own, id, at);
    SidesMakeInvariant(r.(book := With(r.book, side, Remove(own, id, at))), side);
  }

  lemma StepKeepsInvariant(r: BookRun, step: BookStep, symbol: Symbol)
    requires Invariant(r) && (step.MatchStep? ==> step.order.id !in r.arrival)
    ensures Invariant(Apply(r, step, symbol))
  {
    match step
    case MatchStep(o, now) => MatchKeepsInvariant(r, o, now, symbol);
    case CancelAtStep(side, price, id) => RemoveKeepsInvariant(r, side, id, Some(price));
    case CancelIdStep(id) => RemoveKeepsInvariant(r, if AnyHit(r.book.bids, id, None) then Buy else Sell, id, None);
  }

  lemma {:induction false} RunKeepsInvariant(r: BookRun, steps: seq<BookStep>, symbol: Symbol)
    requires Invariant(r) && FreshIds(steps)
    requires forall i :: 0 <= i < |steps| && steps[i].MatchStep? ==> steps[i].order.id !in r.arrival
    ensures Invariant(ApplyAll(r, steps, symbol))
    decreases |steps|
  {
    if steps != [] {
      StepKeepsInvariant(r, steps[0], symbol);
      assert forall i :: 0 <= i < |steps[1..]| ==> steps[1..][i] == steps[i + 1];
      RunKeepsInvariant(Apply(r, steps[0], symbol), steps[1..], symbol);
    }
  }

  /** Every book reached from an empty one is uncrossed, holds each id once, and keeps price-time order. */
  lemma ReachableBooks(steps: seq<BookStep>, symbol: Symbol)
    requires FreshIds(steps)
    ensures Invariant(ApplyAll(BookRun(Book([], []), map[], 0), steps, symbol))
  {
    RunKeepsInvariant(BookRun(Book([], []), map[], 0), steps, symbol);
  }

  /** The invariant by position: who stands before whom. */
  lemma {:induction false} PriceTimePriority(side: Side, orders: seq<Order>, arrival: map<OrderId, nat>, arrivals: nat,
                                             i: nat, j: nat)
    requires SideInvariant(side, orders, arrival, arrivals) && i < j < |orders|
    ensures Before(side, orders[i].price, orders[j].price) ||
      (orders[i].price == orders[j].price && orders[i].id in arrival && orders[j].id in arrival &&
       arrival[orders[i].id] < arrival[orders[j].id])
  {
    if i > 0 {
      PriceTimePriority(side, orders[1..], arrival, arrivals, i - 1, j - 1);
    } else {
      assert orders[j] in orders[1..];
    }
  }

  // ----- the two cancellations

  ghost predicate RestsAt(b: Book, side: Side, price: Price, id: OrderId) {
    AnyHit(Resting(b, side), id, Some(price))
  }

  ghost predicate Rests(b: Book, id: OrderId) { AnyHit(b.bids, id, None) || AnyHit(b.asks, id, None) }

  lemma {:induction false} HitMember(orders: seq<Order>, id: OrderId, at: Option<Price>)
    ensures AnyHit(orders, id, at) <==> exists x :: x in orders && Hit(x, id, at)
  {
    if orders != [] {
      HitMember(orders[1..], id, at);
      assert forall x :: x in orders <==> x == orders[0] || x in orders[1..];
    }
  }

  lemma NotOnOtherSide(b: Book, side: Side, id: OrderId)
    requires OneSideEach(b) && AnyHit(Resting(b, side), id, None)
    ensures !AnyHit(Resting(b, side.Other()), id, None)
  {
    HitMember(b.bids, id, None);
    HitMember(b.asks, id, None);
  }

  /** Where ids are unique, naming the right price makes no difference. */
  lemma {:induction false} SameRemoval(
      orders: seq<Order>, id: OrderId, price: Price, arrival: map<OrderId, nat>, arrivals: nat)
    requires InTimeOrder(orders, arrival, arrivals) && AnyHit(orders, id, Some(price))
    ensures AnyHit(orders, id, None) && Remove(orders, id, Some(price)) == Remove(orders, id, None)
  {
    if !Hit(orders[0], id, Some(price)) {
      HitMember(orders[1..], id, Some(price));
      SameRemoval(orders[1..], id, price, arrival, arrivals);
    }
  }

  /** The two cancellations do the same exactly when the order is where the caller says, or nowhere. */
  lemma CancelsAgree(r: BookRun, side: Side, price: Price, id: OrderId)
    requires Invariant(r)
    ensures CancelAt(r.book, side, price, id) == CancelById(r.book, id)
      <==> (Rests(r.book, id) ==> RestsAt(r.book, side, price, id))
  {
    var b, orders := r.book, Resting(r.book, side);
    if RestsAt(b, side, price, id) {
      SameRemoval(orders, id, price, r.arrival, r.arrivals);
      NotOnOtherSide(b, side, id);
    } else {
      RemoveMisses(orders, id, Some(price));
      if !Rests(b, id) {
        RemoveMisses(b.bids, id, None);
        RemoveMisses(b.asks, id, None);
      }
    }
  }

  lemma {:induction false} RemoveExactly(orders: seq<Order>, id: OrderId, arrival: map<OrderId, nat>, arrivals: nat)
    requires InTimeOrder(orders, arrival, arrivals)
    ensures forall x :: x in Remove(orders, id, None) <==> x in orders && x.id != id
  {
    if orders != [] {
      RemoveExactly(orders[1..], id, arrival, arrivals);
      assert forall x :: x in orders <==> x == orders[0] || x in orders[1..];
    }
  }

  /** A cancellation by id answers whether the order rested, and takes out exactly that order. */
  lemma CancelRemoves(r: BookRun, id: OrderId)
    requires Invariant(r)
    ensures
      var c := CancelById(r.book, id);
      c.found == Rests(r.book, id) &&
      (forall x :: x in c.book.bids <==> x in r.book.bids && x.id != id) &&
      (forall x :: x in c.book.asks <==> x in r.book.asks && x.id != id)
  {
    RemoveExactly(r.book.bids, id, r.arrival, r.arrivals);
    RemoveExactly(r.book.asks, id, r.arrival, r.arrivals);
    HitMember(r.book.bids, id, None);
    HitMember(r.book.asks, id, None);
  }
}
