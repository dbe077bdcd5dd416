/** The single-symbol order book: one FIFO queue per price level, best price first, on each side.
    Every operation is tied to its meaning on the flat price-time lists. */
module Books {
  import opened Types
  import opened PriceTimeList

  /** One entry of an ordered price map. */
  datatype Level = Level(price: Price, queue: seq<Order>)

  datatype Book = Book(bids: seq<Order>, asks: seq<Order>)

  datatype BookLevel = BookLevel(price: Price, quantity: Quantity)

  datatype Matched = Matched(book: Book, trades: seq<Trade>)

  // ----- the flat meaning of the book's operations

  function Resting(b: Book, side: Side): seq<Order> { if side == Buy then b.bids else b.asks }

  function With(b: Book, side: Side, orders: seq<Order>): Book {
    if side == Buy then b.(bids := orders) else b.(asks := orders)
  }

  /** The remainder of a MARKET order is dropped, any other remainder rests. */
  function Match(b: Book, o: Order, symbol: Symbol, now: Time): Matched {
    var s := Sweep(o, Resting(b, o.side.Other()), symbol, now);
    var swept := With(b, o.side.Other(), s.rest);
    if s.left > 0 && o.kind != Market
    then Matched(With(swept, o.side, Insert(Resting(b, o.side), o.(quantity := s.left))), s.trades)
    else Matched(swept, s.trades)
  }

  /** What a cancellation answers, and the book it leaves. */
  datatype Cancelled = Cancelled(book: Book, found: bool)

  function CancelAt(b: Book, side: Side, price: Price, id: OrderId): Cancelled {
    var orders := Resting(b, side);
    Cancelled(With(b, side, Remove(orders, id, Some(price))), AnyHit(orders, id, Some(price)))
  }

  function CancelById(b: Book, id: OrderId): Cancelled {
    if AnyHit(b.bids, id, None) then Cancelled(b.(bids := Remove(b.bids, id, None)), true)
    else Cancelled(b.(asks := Remove(b.asks, id, None)), AnyHit(b.asks, id, None))
  }

  // ----- price levels

  function Flat(levels: seq<Level>): seq<Order> {
    if levels == [] then [] else levels[0].queue + Flat(levels[1..])
  }

  ghost predicate LevelOk(side: Side, level: Level) {
    level.queue != [] &&
    forall i :: 0 <= i < |level.queue| ==>
      MayRest(side, level.queue[i]) && level.queue[i].price == level.price
  }

  /** No empty level, every order under its own price and side, best price first. */
  ghost predicate WellFormed(side: Side, levels: seq<Level>) {
    (forall i :: 0 <= i < |levels| ==> LevelOk(side, levels[i])) &&
    (forall i, j :: 0 <= i < j < |levels| ==> Before(side, levels[i].price, levels[j].price))
  }

  /** `map[price].push_back(order)` on an ordered map of queues. */
  function PushBack(levels: seq<Level>, o: Order): seq<Level> {
    if levels == [] || Before(o.side, o.price, levels[0].price) then [Level(o.price, [o])] + levels
    else if levels[0].price == o.price then [Level(o.price, levels[0].queue + [o])] + levels[1..]
    else [levels[0]] + PushBack(levels[1..], o)
  }

  lemma {:induction false} FlatPrices(side: Side, levels: seq<Level>, p: Price)
    requires WellFormed(side, levels)
    requires forall i :: 0 <= i < |levels| ==> Before(side, p, levels[i].price)
    ensures forall x :: x in Flat(levels) ==> MayRest(side, x) && Before(side, p, x.price)
  {
    if levels != [] {
      assert LevelOk(side, levels[0]);
      FlatPrices(side, levels[1..], p);
    }
  }

  lemma {:induction false} QueueThenRest(side: Side, level: Level, rest: seq<Order>)
    requires level.queue != [] ==> LevelOk(side, level)
    requires IsSide(side, rest) && NoneBefore(side, rest, level.price)
    ensures IsSide(side, level.queue + rest)
    decreases |level.queue|
  {
    if level.queue == [] {
      assert level.queue + rest == rest;
    } else {
      var tail := Level(level.price, level.queue[1..]);
      assert MayRest(side, level.queue[0]);
      QueueThenRest(side, tail, rest);
      assert (level.queue + rest)[1..] == tail.queue + rest;
    }
  }

  /** The levels of a side flatten to a list in price order. */
  lemma {:induction false} FlatIsSide(side: Side, levels: seq<Level>)
    requires WellFormed(side, levels)
    ensures IsSide(side, Flat(levels))
  {
    if levels != [] {
      assert LevelOk(side, levels[0]);
      FlatIsSide(side, levels[1..]);
      FlatPrices(side, levels[1..], levels[0].price);
      QueueThenRest(side, levels[0], Flat(levels[1..]));
    }
  }

  lemma {:induction false} InsertBehind(queue: seq<Order>, tail: seq<Order>, o: Order)
    requires forall i :: 0 <= i < |queue| ==> !Before(o.side, o.price, queue[i].price)
    ensures Insert(queue + tail, o) == queue + Insert(tail, o)
  {
    if queue == [] {
      assert queue + tail == tail;
      assert queue + Insert(tail, o) == Insert(tail, o);
    } else {
      assert (queue + tail)[1..] == queue[1..] + tail;
      InsertBehind(queue[1..], tail, o);
    }
  }

  /** Pushing onto a level is insertion into the flat list. */
  lemma {:induction false} PushBackMeaning(levels: seq<Level>, o: Order)
    requires WellFormed(o.side, levels)
    ensures Flat(PushBack(levels, o)) == Insert(Flat(levels), o)
  {
    if levels != [] {
      var first, tail := levels[0], levels[1..];
      assert LevelOk(o.side, first);
      if Before(o.side, o.price, first.price) {
        assert Flat(levels)[0] == first.queue[0];
        assert PushBack(levels, o)[1..] == levels;
      } else if first.price == o.price {
        InsertBehind(first.queue, Flat(tail), o);
        FlatPrices(o.side, tail, o.price);
        assert PushBack(levels, o)[1..] == tail;
        assert first.queue + ([o] + Flat(tail)) == first.queue + [o] + Flat(tail);
      } else {
        InsertBehind(first.queue, Flat(tail), o);
        PushBackMeaning(tail, o);
        assert PushBack(levels, o)[1..] == PushBack(tail, o);
      }
    }
  }

  ghost predicate AllBehind(side: Side, p: Price, levels: seq<Level>) {
    forall i :: 0 <= i < |levels| ==> Before(side, p, levels[i].price)
  }

  lemma {:induction false} WellFormedCons(side: Side, first: Level, tail: seq<Level>)
    requires LevelOk(side, first) && WellFormed(side, tail) && AllBehind(side, first.price, tail)
    ensures WellFormed(side, [first] + tail)
  {}

  lemma {:induction false} PushBackBehind(levels: seq<Level>, o: Order, p: Price)
    requires AllBehind(o.side, p, levels) && Before(o.side, p, o.price)
    ensures AllBehind(o.side, p, PushBack(levels, o))
  {
    if levels != [] { PushBackBehind(levels[1..], o, p); }
  }

  lemma {:induction false} PushBackWellFormed(levels: seq<Level>, o: Order)
    requires WellFormed(o.side, levels) && MayRest(o.side, o)
    ensures WellFormed(o.side, PushBack(levels, o))
  {
    assert LevelOk(o.side, Level(o.price, [o]));
    if levels == [] || Before(o.side, o.price, levels[0].price) {
      WellFormedCons(o.side, Level(o.price, [o]), levels);
    } else {
      var first, tail := levels[0], levels[1..];
      assert LevelOk(o.side, first);
      if first.price == o.price {
        assert LevelOk(o.side, Level(o.price, first.queue + [o]));
        WellFormedCons(o.side, Level(o.price, first.queue + [o]), tail);
      } else {
        PushBackWellFormed(tail, o);
        PushBackBehind(tail, o, first.price);
        WellFormedCons(o.side, first, PushBack(tail, o));
      }
    }
  }

  /** Taking orders from the front level leaves a well-formed side. */
  lemma FrontReplaced(side: Side, levels: seq<Level>, queue: seq<Order>)
    requires WellFormed(side, levels) && levels != []
    requires queue != [] ==> LevelOk(side, Level(levels[0].price, queue))
    ensures
      var after := if queue == [] then levels[1..] else levels[0 := Level(levels[0].price, queue)];
      WellFormed(side, after) && Flat(after) == queue + Flat(levels[1..])
  {
    if queue == [] {
      assert queue + Flat(levels[1..]) == Flat(levels[1..]);
    } else {
      assert levels[0 := Level(levels[0].price, queue)][1..] == levels[1..];
    }
  }

  // ----- the book

  class OrderBook {
    const symbol: Symbol
    var bids: seq<Level>  // highest price first
    var asks: seq<Level>  // lowest price first

    ghost predicate Valid() reads this { WellFormed(Buy, bids) && WellFormed(Sell, asks) }

    ghost function Value(): Book reads this { Book(Flat(bids), Flat(asks)) }

    constructor (symbol: Symbol)
      ensures Valid() && this.symbol == symbol && Value() == Book([], [])
    {
      this.symbol := symbol;
      bids, asks := [], [];
    }

    method MatchOrder(incoming: Order, now: Time) returns (trades: seq<Trade>)
      requires Valid()
      modifies this
      ensures Valid()
      ensures Matched(Value(), trades) == Match(old(Value()), incoming, symbol, now)
    {
      if incoming.side == Buy {
        trades := MatchIncomingBuy(incoming, now);
      } else {
        trades := MatchIncomingSell(incoming, now);
      }
    }

    /** Trades `order` with the best asks until it is filled, or they run out or no longer cross. */
    method TakeAsks(order: Order, now: Time) returns (trades: seq<Trade>, left: Quantity)
      requires Valid() && order.side == Buy
      modifies this`asks
      ensures Valid()
      ensures Sweep(order, old(Flat(asks)), symbol, now) == Swept(trades, Flat(asks), left)
    {
      var incoming := order;
      trades := [];
      ghost var target := Sweep(order, Flat(asks), symbol, now);
      while incoming.quantity > 0 && asks != []
        invariant WellFormed(Sell, asks)
        invariant incoming == order.(quantity := incoming.quantity)
        invariant Continues(target, trades, Sweep(incoming, Flat(asks), symbol, now))
        decreases |asks|, incoming.quantity
      {
        var levelPrice := asks[0].price;
        assert LevelOk(Sell, asks[0]);
        if incoming.kind != Market && incoming.price < levelPrice {
          break;
        }
        var queue, fills;
        incoming, queue, fills :=
          FillFromLevel(Sell, incoming, asks[0], symbol, now, Flat(asks[1..]), target, trades);
        trades := trades + fills;
        FrontReplaced(Sell, asks, queue);
        asks := if queue == [] then asks[1..] else asks[0 := Level(levelPrice, queue)];
      }
      left := incoming.quantity;
      assert Continues(target, trades, Swept([], Flat(asks), left));
    }

    method MatchIncomingBuy(order: Order, now: Time) returns (trades: seq<Trade>)
      requires Valid() && order.side == Buy
      modifies this
      ensures Valid()
      ensures Matched(Value(), trades) == Match(old(Value()), order, symbol, now)
    {
      var left;
      trades, left := TakeAsks(order, now);
      if left > 0 && order.kind != Market {
        var incoming := order.(quantity := left);
        PushBackMeaning(bids, incoming);
        PushBackWellFormed(bids, incoming);
        bids := PushBack(bids, incoming);
      }
    }

    /** Trades `order` with the best bids until it is filled, or they run out or no longer cross. */
    method TakeBids(order: Order, now: Time) returns (trades: seq<Trade>, left: Quantity)
      requires Valid() && order.side == Sell
      modifies this`bids
      ensures Valid()
      ensures Sweep(order, old(Flat(bids)), symbol, now) == Swept(trades, Flat(bids), left)
    {
      var incoming := order;
      trades := [];
      ghost var target := Sweep(order, Flat(bids), symbol, now);
      while incoming.quantity > 0 && bids != []
        invariant WellFormed(Buy, bids)
        invariant incoming == order.(quantity := incoming.quantity)
        invariant Continues(target, trades, Sweep(incoming, Flat(bids), symbol, now))
        decreases |bids|, incoming.quantity
      {
        var levelPrice := bids[0].price;
        assert LevelOk(Buy, bids[0]);
        if incoming.kind != Market && incoming.price > levelPrice {
          break;
        }
        var queue, fills;
        incoming, queue, fills :=
          FillFromLevel(Buy, incoming, bids[0], symbol, now, Flat(bids[1..]), target, trades);
        trades := trades + fills;
        FrontReplaced(Buy, bids, queue);
        bids := if queue == [] then bids[1..] else bids[0 := Level(levelPrice, queue)];
      }
      left := incoming.quantity;
      assert Continues(target, trades, Swept([], Flat(bids), left));
    }

    method MatchIncomingSell(order: Order, now: Time) returns (trades: seq<Trade>)
      requires Valid() && order.side == Sell
      modifies this
      ensures Valid()
      ensures Matched(Value(), trades) == Match(old(Value()), order, symbol, now)
    {
      var left;
      trades, left := TakeBids(order, now);
      if left > 0 && order.kind != Market {
        var incoming := order.(quantity := left);
        PushBackMeaning(asks, incoming);
        PushBackWellFormed(asks, incoming);
        asks := PushBack(asks, incoming);
      }
    }

    method CancelPriced(side: Side, price: Price, id: OrderId) returns (found: bool)
      requires Valid()
      modifies this
      ensures Valid()
      ensures Cancelled(Value(), found) == CancelAt(old(Value()), side, price, id)
    {
      var levels := if side == Buy then bids else asks;
      var k := FindLevel(levels, price);
      if k == |levels| {
        OtherPrices(side, levels, price, id);
        RemoveMisses(Flat(levels), id, Some(price));
        return false;
      }
      var i := FindOrder(levels[k].queue, id);
      OtherPrices(side, levels[..k], price, id);
      assert LevelOk(side, levels[k]);
      if i == |levels[k].queue| {
        OtherPrices(side, levels[k + 1..], price, id);
        NoHitAround(levels, k, id, Some(price));
        RemoveMisses(Flat(levels), id, Some(price));
        return false;
      }
      EraseFlat(levels, k, i, id, Some(price));
      EraseWellFormed(side, levels, k, i);
      if side == Buy {
        bids := Erase(bids, k, i);
      } else {
        asks := Erase(asks, k, i);
      }
      found := true;
    }

    method Cancel(id: OrderId) returns (found: bool)
      requires Valid()
      modifies this
      ensures Valid()
      ensures Cancelled(Value(), found) == CancelById(old(Value()), id)
    {
      bids, found := CancelInSide(Buy, bids, id);
      if !found {
        asks, found := CancelInSide(Sell, asks, id);
      }
    }

    method BestBid() returns (best: Option<Price>)
      requires Valid()
      ensures best.None? <==> Value().bids == []
      ensures best.Some? ==> Value().bids != [] && Value().bids[0].price == best.value
      ensures best.Some? ==> forall x :: x in Value().bids ==> x.price <= best.value
    {
      FlatIsSide(Buy, bids);
      if bids == [] { return None; }
      assert LevelOk(Buy, bids[0]);
      assert Flat(bids)[0] == bids[0].queue[0];
      best := Some(bids[0].price);
    }

    method BestAsk() returns (best: Option<Price>)
      requires Valid()
      ensures best.None? <==> Value().asks == []
      ensures best.Some? ==> Value().asks != [] && Value().asks[0].price == best.value
      ensures best.Some? ==> forall x :: x in Value().asks ==> x.price >= best.value
    {
      FlatIsSide(Sell, asks);
      if asks == [] { return None; }
      assert LevelOk(Sell, asks[0]);
      assert Flat(asks)[0] == asks[0].queue[0];
      best := Some(asks[0].price);
    }

    method RestingOrders() returns (result: seq<Order>)
      requires Valid()
      ensures result == Value().bids + Value().asks
    {
      var bidOrders := Collect(bids);
      var askOrders := Collect(asks);
      result := bidOrders + askOrders;
    }

    method Snapshot(depth: nat) returns (bidLevels: seq<BookLevel>, askLevels: seq<BookLevel>)
      requires Valid()
      ensures Aggregates(Buy, bidLevels, Value().bids, depth) && Aggregates(Sell, askLevels, Value().asks, depth)
    {
      bidLevels := TopLevels(Buy, bids, depth);
      askLevels := TopLevels(Sell, asks, depth);
    }
  }

  /** The inner loop of both sweeps: trades `order` against one level's queue, front first. The
      ghost arguments say what the whole sweep is to end as, and what lies behind this level. */
  method FillFromLevel(side: Side, order: Order, level: Level, symbol: Symbol, now: Time,
                       ghost rest: seq<Order>, ghost target: Swept, ghost before: seq<Trade>)
    returns (incoming: Order, queue: seq<Order>, trades: seq<Trade>)
    requires LevelOk(side, level) && order.side == side.Other() && Crosses(order, level.price)
    requires Continues(target, before, Sweep(order, level.queue + rest, symbol, now))
    ensures incoming == order.(quantity := incoming.quantity)
    ensures incoming.quantity <= 0 || queue == []
    ensures queue != [] ==> LevelOk(side, Level(level.price, queue))
    ensures Continues(target, before + trades, Sweep(incoming, queue + rest, symbol, now))
  {
    incoming, queue, trades := order, level.queue, [];
    while incoming.quantity > 0 && queue != []
      invariant incoming == order.(quantity := incoming.quantity)
      invariant queue != [] ==> LevelOk(side, Level(level.price, queue))
      invariant Continues(target, before + trades, Sweep(incoming, queue + rest, symbol, now))
      decreases |queue|, incoming.quantity
    {
      var resting := queue[0];
      assert MayRest(side, resting) && resting.price == level.price;
      var tradedQty := Min(incoming.quantity, resting.quantity);
      var trade := if incoming.side == Buy
        then Trade(incoming.id, resting.id, incoming.client, resting.client, symbol, tradedQty, level.price, now)
        else Trade(resting.id, incoming.id, resting.client, incoming.client, symbol, tradedQty, level.price, now);
      FillContinues(side, incoming, level.price, queue, rest, target, before + trades, symbol, now);
      assert before + (trades + [trade]) == before + trades + [trade];
      trades := trades + [trade];
      incoming := incoming.(quantity := incoming.quantity - tradedQty);
      resting := resting.(quantity := resting.quantity - tradedQty);
      if resting.quantity == 0 {
        queue := queue[1..];
      } else {
        queue := [resting] + queue[1..];
      }
    }
  }

  method FindLevel(levels: seq<Level>, price: Price) returns (k: nat)
    ensures k <= |levels|
    ensures k < |levels| ==> levels[k].price == price
    ensures forall j :: 0 <= j < k ==> levels[j].price != price
  {
    k := 0;
    while k < |levels| && levels[k].price != price
      invariant k <= |levels| && forall j :: 0 <= j < k ==> levels[j].price != price
    {
      k := k + 1;
    }
  }

  method FindOrder(queue: seq<Order>, id: OrderId) returns (i: nat)
    ensures i <= |queue|
    ensures i < |queue| ==> queue[i].id == id
    ensures forall j :: 0 <= j < i ==> queue[j].id != id
  {
    i := 0;
    while i < |queue| && queue[i].id != id
      invariant i <= |queue| && forall j :: 0 <= j < i ==> queue[j].id != id
    {
      i := i + 1;
    }
  }

  method CancelInSide(side: Side, levels: seq<Level>, id: OrderId) returns (after: seq<Level>, found: bool)
    requires WellFormed(side, levels)
    ensures WellFormed(side, after)
    ensures Flat(after) == Remove(Flat(levels), id, None) && found == AnyHit(Flat(levels), id, None)
    ensures !found ==> after == levels
  {
    var k := 0;
    while k < |levels|
      invariant k <= |levels| && !AnyHit(Flat(levels[..k]), id, None)
    {
      var i := FindOrder(levels[k].queue, id);
      if i < |levels[k].queue| {
        EraseFlat(levels, k, i, id, None);
        EraseWellFormed(side, levels, k, i);
        return Erase(levels, k, i), true;
      }
      AllMiss(levels[k].queue, id, None);
      AnyHitConcat(Flat(levels[..k]), levels[k].queue, id, None);
      FlatSnoc(levels, k);
      k := k + 1;
    }
    assert levels[..k] == levels;
    RemoveMisses(Flat(levels), id, None);
    return levels, false;
  }

  method Collect(levels: seq<Level>) returns (result: seq<Order>)
    ensures result == Flat(levels)
  {
    result := [];
    for k := 0 to |levels|
      invariant result == Flat(levels[..k])
    {
      FlatSnoc(levels, k);
      result := result + levels[k].queue;
    }
    assert levels[..|levels|] == levels;
  }

  // ----- aggregated levels

  function QuantityAt(orders: seq<Order>, price: Price): Quantity {
    if orders == [] then 0
    else (if orders[0].price == price then orders[0].quantity else 0) + QuantityAt(orders[1..], price)
  }

  /** The best `depth` prices of a side, best first, with the whole quantity resting at each: every
      resting order is accounted for unless `depth` levels were already filled with better prices. */
  ghost predicate Aggregates(side: Side, levels: seq<BookLevel>, orders: seq<Order>, depth: nat) {
    |levels| <= depth &&
    (forall i, j :: 0 <= i < j < |levels| ==> Before(side, levels[i].price, levels[j].price)) &&
    (forall k :: 0 <= k < |levels| ==> levels[k].quantity == QuantityAt(orders, levels[k].price) > 0) &&
    (forall i :: 0 <= i < |orders| ==>
      (exists k :: 0 <= k < |levels| && levels[k].price == orders[i].price) ||
      (|levels| == depth && forall k :: 0 <= k < |levels| ==>
        Before(side, levels[k].price, orders[i].price)))
  }

  method TopLevels(side: Side, levels: seq<Level>, depth: nat) returns (top: seq<BookLevel>)
    requires WellFormed(side, levels)
    ensures Aggregates(side, top, Flat(levels), depth)
  {
    top := [];
    var count := 0;
    while count < |levels| && count < depth
      invariant count == |top| <= |levels| && count <= depth
      invariant forall k :: 0 <= k < count ==>
        top[k].price == levels[k].price && top[k].quantity == QuantityAt(Flat(levels), levels[k].price) > 0
    {
      assert LevelOk(side, levels[count]);
      var total := 0;
      for i := 0 to |levels[count].queue|
        invariant total == QuantityAt(levels[count].queue[..i], levels[count].price) && (i > 0 ==> total > 0)
      {
        QuantityAtConcat(levels[count].queue[..i], [levels[count].queue[i]], levels[count].price);
        assert levels[count].queue[..i] + [levels[count].queue[i]] == levels[count].queue[..i + 1];
        total := total + levels[count].queue[i].quantity;
      }
      assert levels[count].queue[..|levels[count].queue|] == levels[count].queue;
      QuantityAtLevel(side, levels, count);
      top := top + [BookLevel(levels[count].price, total)];
      count := count + 1;
    }
    forall i | 0 <= i < |Flat(levels)|
      ensures (exists k :: 0 <= k < |top| && top[k].price == Flat(levels)[i].price) ||
        (|top| == depth && forall k :: 0 <= k < |top| ==> Before(side, top[k].price, Flat(levels)[i].price))
    {
      var k := LevelOf(side, levels, i);
      if k < |top| { assert top[k].price == Flat(levels)[i].price; }
    }
  }

  lemma {:induction false} QuantityAtConcat(a: seq<Order>, b: seq<Order>, price: Price)
    ensures QuantityAt(a + b, price) == QuantityAt(a, price) + QuantityAt(b, price)
  {
    if a == [] {
      assert a + b == b;
    } else {
      assert (a + b)[1..] == a[1..] + b;
      QuantityAtConcat(a[1..], b, price);
    }
  }

  lemma {:induction false} NothingAt(orders: seq<Order>, price: Price)
    requires forall i :: 0 <= i < |orders| ==> orders[i].price != price
    ensures QuantityAt(orders, price) == 0
  {
    if orders != [] { NothingAt(orders[1..], price); }
  }

  /** A level holds the whole quantity resting at its price. */
  lemma {:induction false} QuantityAtLevel(side: Side, levels: seq<Level>, k: nat)
    requires WellFormed(side, levels) && k < |levels|
    ensures QuantityAt(Flat(levels), levels[k].price) == QuantityAt(levels[k].queue, levels[k].price)
  {
    var first, tail := levels[0], levels[1..];
    assert LevelOk(side, first);
    QuantityAtConcat(first.queue, Flat(tail), levels[k].price);
    if k == 0 {
      FlatPrices(side, tail, first.price);
      NothingAt(Flat(tail), first.price);
    } else {
      NothingAt(first.queue, levels[k].price);
      QuantityAtLevel(side, tail, k - 1);
    }
  }

  lemma {:induction false} LevelOf(side: Side, levels: seq<Level>, i: nat) returns (k: nat)
    requires WellFormed(side, levels) && i < |Flat(levels)|
    ensures k < |levels| && levels[k].price == Flat(levels)[i].price && Flat(levels)[i].side == side
  {
    assert LevelOk(side, levels[0]);
    if i < |levels[0].queue| {
      k := 0;
    } else {
      var j := LevelOf(side, levels[1..], i - |levels[0].queue|);
      k := j + 1;
    }
  }

  // ----- sweeping and erasing one order from its level

  /** A level whose queue has become `kept`, between the others; an empty one is erased. */
  function Rebuild(first: seq<Level>, price: Price, kept: seq<Order>, last: seq<Level>): seq<Level> {
    if kept == [] then first + last else first + [Level(price, kept)] + last
  }

  function Erase(levels: seq<Level>, k: nat, i: nat): seq<Level>
    requires k < |levels| && i < |levels[k].queue|
  {
    Rebuild(levels[..k], levels[k].price, levels[k].queue[..i] + levels[k].queue[i + 1..], levels[k + 1..])
  }

  lemma {:induction false} FlatConcat(a: seq<Level>, b: seq<Level>)
    ensures Flat(a + b) == Flat(a) + Flat(b)
  {
    if a == [] {
      assert a + b == b;
    } else {
      assert (a + b)[1..] == a[1..] + b;
      FlatConcat(a[1..], b);
    }
  }

  lemma FlatSnoc(levels: seq<Level>, k: nat)
    requires k < |levels|
    ensures Flat(levels[..k + 1]) == Flat(levels[..k]) + levels[k].queue
  {
    FlatConcat(levels[..k], [levels[k]]);
    assert Flat([levels[k]]) == levels[k].queue + Flat([]);
    assert levels[..k] + [levels[k]] == levels[..k + 1];
  }

  lemma FlatAround(before: seq<Level>, level: Level, after: seq<Level>)
    ensures Flat(before + [level] + after) == Flat(before) + level.queue + Flat(after)
  {
    FlatConcat(before, [level] + after);
    assert before + [level] + after == before + ([level] + after);
    assert ([level] + after)[1..] == after;
    assert Flat(before) + level.queue + Flat(after) == Flat(before) + (level.queue + Flat(after));
  }

  /** No order rests at a price that has no level. */
  lemma {:induction false} OtherPrices(side: Side, levels: seq<Level>, price: Price, id: OrderId)
    requires forall k :: 0 <= k < |levels| ==> LevelOk(side, levels[k]) && levels[k].price != price
    ensures !AnyHit(Flat(levels), id, Some(price))
  {
    if levels != [] {
      assert LevelOk(side, levels[0]);
      AllMiss(levels[0].queue, id, Some(price));
      AnyHitConcat(levels[0].queue, Flat(levels[1..]), id, Some(price));
      OtherPrices(side, levels[1..], price, id);
    }
  }

  lemma NoHitAround(levels: seq<Level>, k: nat, id: OrderId, at: Option<Price>)
    requires k < |levels|
    requires !AnyHit(Flat(levels[..k]), id, at) && !AnyHit(Flat(levels[k + 1..]), id, at)
    requires forall j :: 0 <= j < |levels[k].queue| ==> levels[k].queue[j].id != id
    ensures !AnyHit(Flat(levels), id, at)
  {
    FlatAround(levels[..k], levels[k], levels[k + 1..]);
    assert levels[..k] + [levels[k]] + levels[k + 1..] == levels;
    AllMiss(levels[k].queue, id, at);
    AnyHitConcat(Flat(levels[..k]), levels[k].queue, id, at);
    AnyHitConcat(Flat(levels[..k]) + levels[k].queue, Flat(levels[k + 1..]), id, at);
  }

  lemma FlatRebuild(first: seq<Level>, price: Price, kept: seq<Order>, last: seq<Level>)
    ensures Flat(Rebuild(first, price, kept, last)) == Flat(first) + kept + Flat(last)
  {
    if kept == [] {
      FlatConcat(first, last);
      assert Flat(first) + kept == Flat(first);
    } else {
      FlatAround(first, Level(price, kept), last);
    }
  }

  lemma EraseFlat(levels: seq<Level>, k: nat, i: nat, id: OrderId, at: Option<Price>)
    requires k < |levels| && i < |levels[k].queue|
    requires !AnyHit(Flat(levels[..k]), id, at) && Hit(levels[k].queue[i], id, at)
    requires forall j :: 0 <= j < i ==> levels[k].queue[j].id != id
    ensures Flat(Erase(levels, k, i)) == Remove(Flat(levels), id, at) && AnyHit(Flat(levels), id, at)
  {
    var q, first, last := levels[k].queue, levels[..k], levels[k + 1..];
    assert levels == first + [levels[k]] + last;
    FlatAround(first, levels[k], last);
    RemoveInside(Flat(first), q, i, Flat(last), id, at);
    FlatRebuild(first, levels[k].price, q[..i] + q[i + 1..], last);
  }

  lemma RemoveInside(before: seq<Order>, q: seq<Order>, i: nat, after: seq<Order>, id: OrderId, at: Option<Price>)
    requires i < |q| && !AnyHit(before, id, at) && Hit(q[i], id, at)
    requires forall j :: 0 <= j < i ==> q[j].id != id
    ensures Remove(before + q + after, id, at) == before + (q[..i] + q[i + 1..]) + after
    ensures AnyHit(before + q + after, id, at)
  {
    AllMiss(q[..i], id, at);
    AnyHitConcat(before, q[..i], id, at);
    RemoveHits(before + q[..i], q[i], q[i + 1..] + after, id, at);
    SplitAround(before, q, i, after);
  }

  lemma SplitAround(before: seq<Order>, q: seq<Order>, i: nat, after: seq<Order>)
    requires i < |q|
    ensures before + q[..i] + ([q[i]] + (q[i + 1..] + after)) == before + q + after
    ensures before + q[..i] + (q[i + 1..] + after) == before + (q[..i] + q[i + 1..]) + after
  {}

  lemma EraseWellFormed(side: Side, levels: seq<Level>, k: nat, i: nat)
    requires WellFormed(side, levels) && k < |levels| && i < |levels[k].queue|
    ensures WellFormed(side, Erase(levels, k, i))
  {
    assert LevelOk(side, levels[k]);
    var queue := levels[k].queue[..i] + levels[k].queue[i + 1..];
    if queue != [] {
      assert LevelOk(side, Level(levels[k].price, queue));
    }
  }

  /** A sweep that has produced `trades` and goes on as `s` ends as `target`. */
  ghost predicate Continues(target: Swept, trades: seq<Trade>, s: Swept) {
    target.trades == trades + s.trades && target.rest == s.rest && target.left == s.left
  }

  lemma FilledLevelOk(side: Side, price: Price, queue: seq<Order>, q: Quantity)
    requires queue != [] && LevelOk(side, Level(price, queue)) && q <= queue[0].quantity
    ensures AfterFill(queue, q) != [] ==> LevelOk(side, Level(price, AfterFill(queue, q)))
  {}

  /** One fill at the head of a level's queue. */
  lemma FillContinues(side: Side, o: Order, price: Price, queue: seq<Order>, rest: seq<Order>,
                      target: Swept, trades: seq<Trade>, symbol: Symbol, now: Time)
    requires o.quantity > 0 && queue != [] && o.side == side.Other() && Crosses(o, price)
    requires LevelOk(side, Level(price, queue))
    requires Continues(target, trades, Sweep(o, queue + rest, symbol, now))
    ensures
      var q := Min(o.quantity, queue[0].quantity);
      var next := AfterFill(queue, q);
      (next != [] ==> LevelOk(side, Level(price, next))) &&
      Continues(target, trades + [MakeTrade(o, queue[0], q, symbol, now)],
                Sweep(o.(quantity := o.quantity - q), next + rest, symbol, now))
  {
    assert MayRest(side, queue[0]) && queue[0].price == price;
    FilledLevelOk(side, price, queue, Min(o.quantity, queue[0].quantity));
    SweepStep(o, queue, rest, symbol, now);
  }
}
