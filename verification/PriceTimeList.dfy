/** The reference meaning of one side of an order book: a flat list in price-time order that an
    incoming order consumes one resting order at a time. */
module PriceTimeList {
  import opened Types

  /** Whether price `p` is visited strictly before price `q` on side `side`. */
  predicate Before(side: Side, p: Price, q: Price) {
    if side == Buy then p > q else p < q
  }

  /** Whether `o` is willing to trade at a resting price. */
  predicate Crosses(o: Order, resting: Price) {
    o.kind == Market || !Before(o.side, resting, o.price)
  }

  function MakeTrade(o: Order, r: Order, quantity: Quantity, symbol: Symbol, now: Time): Trade {
    if o.side == Buy
    then Trade(o.id, r.id, o.client, r.client, symbol, quantity, r.price, now)
    else Trade(r.id, o.id, r.client, o.client, symbol, quantity, r.price, now)
  }

  /** `rest` is what still rests on the swept side, `left` what the incoming order still wants. */
  datatype Swept = Swept(trades: seq<Trade>, rest: seq<Order>, left: Quantity)

  function Sweep(o: Order, resting: seq<Order>, symbol: Symbol, now: Time): Swept
    decreases |resting|
  {
    if o.quantity <= 0 || resting == [] || !Crosses(o, resting[0].price) then
      Swept([], resting, o.quantity)
    else
      var r := resting[0];
      var t := MakeTrade(o, r, Min(o.quantity, r.quantity), symbol, now);
      if o.quantity < r.quantity then
        Swept([t], [r.(quantity := r.quantity - o.quantity)] + resting[1..], 0)
      else
        var s := Sweep(o.(quantity := o.quantity - r.quantity), resting[1..], symbol, now);
        s.(trades := [t] + s.trades)
  }

  /** What one fill leaves at the head of a queue. */
  function AfterFill(queue: seq<Order>, quantity: Quantity): seq<Order>
    requires queue != []
  {
    if queue[0].quantity == quantity then queue[1..]
    else [queue[0].(quantity := queue[0].quantity - quantity)] + queue[1..]
  }

  lemma PartialFill(o: Order, queue: seq<Order>, rest: seq<Order>, symbol: Symbol, now: Time)
    requires 0 < o.quantity && queue != [] && o.quantity < queue[0].quantity && Crosses(o, queue[0].price)
    ensures
      Sweep(o, queue + rest, symbol, now) ==
      Swept([MakeTrade(o, queue[0], o.quantity, symbol, now)], AfterFill(queue, o.quantity) + rest, 0)
  {
    assert (queue + rest)[1..] == queue[1..] + rest;
    assert AfterFill(queue, o.quantity) + rest ==
      [queue[0].(quantity := queue[0].quantity - o.quantity)] + (queue[1..] + rest);
  }

  /** One fill of a sweep, when the list starts with `queue`. */
  lemma SweepStep(o: Order, queue: seq<Order>, rest: seq<Order>, symbol: Symbol, now: Time)
    requires o.quantity > 0 && queue != [] && queue[0].quantity > 0 && Crosses(o, queue[0].price)
    ensures
      var q := Min(o.quantity, queue[0].quantity);
      var s := Sweep(o.(quantity := o.quantity - q), AfterFill(queue, q) + rest, symbol, now);
      Sweep(o, queue + rest, symbol, now) ==
        s.(trades := [MakeTrade(o, queue[0], q, symbol, now)] + s.trades)
  {
    if o.quantity < queue[0].quantity {
      PartialFill(o, queue, rest, symbol, now);
    } else {
      assert (queue + rest)[1..] == queue[1..] + rest;
    }
  }

  /** Puts `o` behind every resting order at its own or a better price. */
  function Insert(resting: seq<Order>, o: Order): seq<Order> {
    if resting == [] || Before(o.side, o.price, resting[0].price) then [o] + resting
    else [resting[0]] + Insert(resting[1..], o)
  }

  /** Whether `o` is the order a cancellation asks for: by id, at one price or at any. */
  predicate Hit(o: Order, id: OrderId, at: Option<Price>) {
    o.id == id && (at.None? || o.price == at.value)
  }

  predicate AnyHit(resting: seq<Order>, id: OrderId, at: Option<Price>) {
    resting != [] && (Hit(resting[0], id, at) || AnyHit(resting[1..], id, at))
  }

  /** Takes the first order hit out of the list. */
  function Remove(resting: seq<Order>, id: OrderId, at: Option<Price>): seq<Order> {
    if resting == [] then []
    else if Hit(resting[0], id, at) then resting[1..]
    else [resting[0]] + Remove(resting[1..], id, at)
  }

  /** An order that may rest on `side`. */
  predicate MayRest(side: Side, o: Order) {
    o.side == side && o.kind != Market && o.quantity > 0
  }

  /** No order of the list would be visited before a price `p`. */
  ghost predicate NoneBefore(side: Side, resting: seq<Order>, p: Price) {
    forall x :: x in resting ==> !Before(side, x.price, p)
  }

  /** One side of a book: orders that may rest there, best price first. */
  ghost predicate IsSide(side: Side, resting: seq<Order>) {
    resting == [] ||
    (MayRest(side, resting[0]) && NoneBefore(side, resting[1..], resting[0].price) && IsSide(side, resting[1..]))
  }

  lemma {:induction false} AllMayRest(side: Side, resting: seq<Order>)
    requires IsSide(side, resting)
    ensures forall x :: x in resting ==> MayRest(side, x)
  {
    if resting != [] { AllMayRest(side, resting[1..]); }
  }

  lemma {:induction false} RemoveMisses(resting: seq<Order>, id: OrderId, at: Option<Price>)
    requires !AnyHit(resting, id, at)
    ensures Remove(resting, id, at) == resting
  {
    if resting != [] { RemoveMisses(resting[1..], id, at); }
  }

  lemma {:induction false} RemoveHits(before: seq<Order>, o: Order, after: seq<Order>, id: OrderId, at: Option<Price>)
    requires !AnyHit(before, id, at) && Hit(o, id, at)
    ensures Remove(before + ([o] + after), id, at) == before + after
    ensures AnyHit(before + ([o] + after), id, at)
  {
    if before == [] {
      assert before + ([o] + after) == [o] + after;
      assert before + after == after;
    } else {
      assert (before + ([o] + after))[1..] == before[1..] + ([o] + after);
      RemoveHits(before[1..], o, after, id, at);
    }
  }

  lemma {:induction false} AnyHitConcat(a: seq<Order>, b: seq<Order>, id: OrderId, at: Option<Price>)
    ensures AnyHit(a + b, id, at) <==> AnyHit(a, id, at) || AnyHit(b, id, at)
  {
    if a == [] {
      assert a + b == b;
    } else {
      assert (a + b)[1..] == a[1..] + b;
      AnyHitConcat(a[1..], b, id, at);
    }
  }

  lemma {:induction false} AllMiss(resting: seq<Order>, id: OrderId, at: Option<Price>)
    requires forall j :: 0 <= j < |resting| ==> !Hit(resting[j], id, at)
    ensures !AnyHit(resting, id, at)
  {
    if resting != [] { AllMiss(resting[1..], id, at); }
  }
}
