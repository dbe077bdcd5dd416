/** What one match achieves: it fills as much as it can, in price-time order, at the best total
    price any allocation could reach; and selling is buying with every price negated. */
module BestExecution {
  import opened Types
  import opened PriceTimeList
  import opened Books

  function Turnover(trades: seq<Trade>): real {
    if trades == [] then 0.0 else Notional(trades[0].quantity, trades[0].price) + Turnover(trades[1..])
  }

  /** The whole quantity an incoming order would be willing to trade with. */
  function Acceptable(o: Order, resting: seq<Order>): Quantity {
    if resting == [] then 0
    else (if Crosses(o, resting[0].price) then resting[0].quantity else 0) + Acceptable(o, resting[1..])
  }

  lemma {:induction false} NothingBehindCrosses(o: Order, resting: seq<Order>, p: Price)
    requires !Crosses(o, p) && NoneBefore(o.side.Other(), resting, p)
    ensures Acceptable(o, resting) == 0
  {
    if resting != [] { NothingBehindCrosses(o, resting[1..], p); }
  }

  lemma {:induction false} AcceptableIgnoresQuantity(o: Order, q: Quantity, resting: seq<Order>)
    ensures Acceptable(o.(quantity := q), resting) == Acceptable(o, resting)
  {
    if resting != [] { AcceptableIgnoresQuantity(o, q, resting[1..]); }
  }

  lemma {:induction false} AcceptableNonNegative(side: Side, o: Order, resting: seq<Order>)
    requires IsSide(side, resting)
    ensures Acceptable(o, resting) >= 0
  {
    if resting != [] { AcceptableNonNegative(side, o, resting[1..]); }
  }

  /** A match fills exactly the smaller of what is wanted and what is on offer at an acceptable price. */
  lemma {:induction false} FillsAllItCan(o: Order, resting: seq<Order>, symbol: Symbol, now: Time)
    requires o.quantity >= 0 && IsSide(o.side.Other(), resting)
    ensures
      var s := Sweep(o, resting, symbol, now);
      Filled(s.trades) == Min(o.quantity, Acceptable(o, resting)) && s.left == o.quantity - Filled(s.trades)
    decreases |resting|
  {
    if resting != [] {
      var tail := resting[1..];
      AcceptableNonNegative(o.side.Other(), o, tail);
      if !Crosses(o, resting[0].price) {
        NothingBehindCrosses(o, tail, resting[0].price);
      } else if o.quantity > 0 && o.quantity >= resting[0].quantity {
        var o' := o.(quantity := o.quantity - resting[0].quantity);
        AcceptableIgnoresQuantity(o, o'.quantity, tail);
        FillsAllItCan(o', tail, symbol, now);
        var s := Sweep(o, resting, symbol, now);
        assert s.trades[1..] == Sweep(o', tail, symbol, now).trades;
      }
    }
  }

  function RestingId(o: Order, t: Trade): OrderId { if o.side == Buy then t.sellOrderId else t.buyOrderId }

  /** Whether trade `t` of `o` takes something from `r` at the price of `r`. */
  predicate Takes(o: Order, t: Trade, r: Order) {
    RestingId(o, t) == r.id && t.price == r.price && Crosses(o, r.price) && 0 < t.quantity <= r.quantity
  }

  /** The i-th trade takes from the i-th order of the list, and takes all of it unless it is the last. */
  lemma {:induction false} TradesInListOrder(o: Order, resting: seq<Order>, symbol: Symbol, now: Time)
    requires IsSide(o.side.Other(), resting)
    ensures
      var s := Sweep(o, resting, symbol, now);
      |s.trades| <= |resting| &&
      (forall i :: 0 <= i < |s.trades| ==> Takes(o, s.trades[i], resting[i])) &&
      (forall i :: 0 <= i < |s.trades| - 1 ==> s.trades[i].quantity == resting[i].quantity)
    decreases |resting|
  {
    if o.quantity > 0 && resting != [] && Crosses(o, resting[0].price) && o.quantity >= resting[0].quantity {
      var o' := o.(quantity := o.quantity - resting[0].quantity);
      TradesInListOrder(o', resting[1..], symbol, now);
      var s, s' := Sweep(o, resting, symbol, now), Sweep(o', resting[1..], symbol, now);
      forall i | 1 <= i < |s.trades|
        ensures Takes(o, s.trades[i], resting[i])
        ensures i < |s.trades| - 1 ==> s.trades[i].quantity == resting[i].quantity
      {
        assert s.trades[i] == s'.trades[i - 1] && resting[i] == resting[1..][i - 1];
        assert Takes(o', s'.trades[i - 1], resting[1..][i - 1]);
      }
    }
  }

  /** The list without its first `n` orders, the last of them kept with what is left of it when only
      `last` was taken from it. */
  function AfterPrefix(resting: seq<Order>, n: nat, last: Quantity): seq<Order>
    requires n <= |resting|
  {
    if n > 0 && last < resting[n - 1].quantity
    then [resting[n - 1].(quantity := resting[n - 1].quantity - last)] + resting[n..]
    else resting[n..]
  }

  lemma AfterPrefixOfTail(resting: seq<Order>, n: nat, last: Quantity)
    requires 1 < n <= |resting|
    ensures AfterPrefix(resting, n, last) == AfterPrefix(resting[1..], n - 1, last)
  {
    assert resting[1..][n - 1..] == resting[n..];
  }

  lemma {:induction false} ConsumesPrefix(o: Order, resting: seq<Order>, symbol: Symbol, now: Time)
    ensures
      var s := Sweep(o, resting, symbol, now);
      var n := |s.trades|;
      n <= |resting| && s.rest == AfterPrefix(resting, n, if n == 0 then 0 else s.trades[n - 1].quantity)
    decreases |resting|
  {
    if o.quantity > 0 && resting != [] && Crosses(o, resting[0].price) && o.quantity >= resting[0].quantity {
      var o' := o.(quantity := o.quantity - resting[0].quantity);
      ConsumesPrefix(o', resting[1..], symbol, now);
      var s, s' := Sweep(o, resting, symbol, now), Sweep(o', resting[1..], symbol, now);
      var n := |s.trades|;
      assert s.trades == [s.trades[0]] + s'.trades && s.rest == s'.rest;
      if n > 1 {
        assert s.trades[n - 1] == s'.trades[n - 2];
        AfterPrefixOfTail(resting, n, s.trades[n - 1].quantity);
      }
    }
  }

  // ----- price optimality

  /** A way of taking `q` from the resting orders. */
  ghost predicate Allocation(take: seq<Quantity>, resting: seq<Order>, q: Quantity) {
    |take| == |resting| && Sum(take) == q &&
    forall i :: 0 <= i < |take| ==> 0 <= take[i] <= resting[i].quantity
  }

  function Sum(take: seq<Quantity>): Quantity {
    if take == [] then 0 else take[0] + Sum(take[1..])
  }

  function AllocationTurnover(take: seq<Quantity>, resting: seq<Order>): real
    requires |take| == |resting|
  {
    if take == [] then 0.0
    else Notional(take[0], resting[0].price) + AllocationTurnover(take[1..], resting[1..])
  }

  /** The price as the side that takes it sees it: lower is better. */
  function Worth(side: Side, p: Price): real { if side == Buy then p else -p }

  /** What taking `q` strictly in list order costs. */
  function InOrder(side: Side, resting: seq<Order>, q: Quantity): real {
    if q <= 0 || resting == [] then 0.0
    else
      var t := Min(q, resting[0].quantity);
      Notional(t, Worth(side, resting[0].price)) + InOrder(side, resting[1..], q - t)
  }

  lemma DearerIsWorthMore(d: Quantity, x: real, p: real)
    requires d >= 0 && x >= p
    ensures Notional(d, x) >= Notional(d, p)
  {}

  lemma Distribute(a: Quantity, b: Quantity, x: real)
    ensures Notional(a + b, x) == Notional(a, x) + Notional(b, x)
  {}

  lemma Negate(a: Quantity, x: real)
    ensures Notional(a, -x) == -Notional(a, x)
  {}

  function Offered(resting: seq<Order>): Quantity {
    if resting == [] then 0 else resting[0].quantity + Offered(resting[1..])
  }

  /** Taking `d` more from orders that all cost at least `p` costs at least `d * p` more. */
  lemma {:induction false} ExtraCost(side: Side, resting: seq<Order>, q: Quantity, d: Quantity, p: real)
    requires q >= 0 && d >= 0 && q + d <= Offered(resting)
    requires forall x :: x in resting ==> x.quantity > 0 && Worth(side, x.price) >= p
    ensures InOrder(side, resting, q + d) >= InOrder(side, resting, q) + Notional(d, p)
  {
    if resting != [] {
      var n, x, tail := resting[0].quantity, Worth(side, resting[0].price), resting[1..];
      if q >= n {
        ExtraCost(side, tail, q - n, d, p);
      } else if q + d <= n {
        Distribute(q, d, x);
        DearerIsWorthMore(d, x, p);
      } else {
        var d' := q + d - n;
        ExtraCost(side, tail, 0, d', p);
        Distribute(q, n - q, x);
        DearerIsWorthMore(n - q, x, p);
        Distribute(n - q, d', p);
      }
    }
  }

  lemma {:induction false} AllocationBound(take: seq<Quantity>, resting: seq<Order>, q: Quantity)
    requires Allocation(take, resting, q)
    ensures 0 <= q <= Offered(resting)
  {
    if take != [] { AllocationBound(take[1..], resting[1..], q - take[0]); }
  }

  function Signed(side: Side, turnover: real): real { if side == Buy then turnover else -turnover }

  lemma {:induction false} InOrderIsCheapest(side: Side, take: seq<Quantity>, resting: seq<Order>, q: Quantity)
    requires IsSide(side.Other(), resting) && Allocation(take, resting, q)
    ensures Signed(side, AllocationTurnover(take, resting)) >= InOrder(side, resting, q)
  {
    if resting != [] {
      var n, x, tail := resting[0].quantity, Worth(side, resting[0].price), resting[1..];
      AllMayRest(side.Other(), tail);
      AllocationBound(take[1..], tail, q - take[0]);
      InOrderIsCheapest(side, take[1..], tail, q - take[0]);
      var t := Min(q, n);
      ExtraCost(side, tail, q - t, t - take[0], x);
      Distribute(take[0], t - take[0], x);
      Negate(take[0], resting[0].price);
    }
  }

  lemma {:induction false} SweepIsInOrder(o: Order, resting: seq<Order>, symbol: Symbol, now: Time)
    requires IsSide(o.side.Other(), resting)
    ensures
      var trades := Sweep(o, resting, symbol, now).trades;
      Signed(o.side, Turnover(trades)) == InOrder(o.side, resting, Filled(trades)) && Filled(trades) >= 0
    decreases |resting|
  {
    if o.quantity > 0 && resting != [] && Crosses(o, resting[0].price) {
      var s := Sweep(o, resting, symbol, now);
      Negate(s.trades[0].quantity, resting[0].price);
      if o.quantity >= resting[0].quantity {
        var o' := o.(quantity := o.quantity - resting[0].quantity);
        SweepIsInOrder(o', resting[1..], symbol, now);
        assert s.trades[1..] == Sweep(o', resting[1..], symbol, now).trades;
      } else {
        assert s.trades[1..] == [];
      }
    }
  }

  /** No other way of taking the filled quantity from the resting orders is cheaper for a buyer or
      earns a seller more. */
  lemma BestPrice(o: Order, resting: seq<Order>, symbol: Symbol, now: Time, take: seq<Quantity>)
    requires IsSide(o.side.Other(), resting)
    requires Allocation(take, resting, Filled(Sweep(o, resting, symbol, now).trades))
    ensures
      var trades := Sweep(o, resting, symbol, now).trades;
      if o.side == Buy then Turnover(trades) <= AllocationTurnover(take, resting)
      else Turnover(trades) >= AllocationTurnover(take, resting)
  {
    SweepIsInOrder(o, resting, symbol, now);
    InOrderIsCheapest(o.side, take, resting, Filled(Sweep(o, resting, symbol, now).trades));
  }

  // ----- the mirror

  function Mirror(o: Order): Order { o.(side := o.side.Other(), price := -o.price) }

  function MirrorAll(orders: seq<Order>): seq<Order> {
    if orders == [] then [] else [Mirror(orders[0])] + MirrorAll(orders[1..])
  }

  function MirrorBook(b: Book): Book { Book(MirrorAll(b.asks), MirrorAll(b.bids)) }

  function MirrorTrade(t: Trade): Trade {
    Trade(t.sellOrderId, t.buyOrderId, t.seller, t.buyer, t.symbol, t.quantity, -t.price, t.timestamp)
  }

  function MirrorTrades(trades: seq<Trade>): seq<Trade> {
    if trades == [] then [] else [MirrorTrade(trades[0])] + MirrorTrades(trades[1..])
  }

  lemma MirrorHead(o: Order, r: Order, q: Quantity, symbol: Symbol, now: Time)
    ensures Crosses(Mirror(o), Mirror(r).price) == Crosses(o, r.price)
    ensures MakeTrade(Mirror(o), Mirror(r), q, symbol, now) == MirrorTrade(MakeTrade(o, r, q, symbol, now))
    ensures Mirror(o.(quantity := q)) == Mirror(o).(quantity := q)
  {}

  lemma {:induction false} SweepMirrors(o: Order, resting: seq<Order>, symbol: Symbol, now: Time)
    ensures
      var s, m := Sweep(o, resting, symbol, now), Sweep(Mirror(o), MirrorAll(resting), symbol, now);
      m == Swept(MirrorTrades(s.trades), MirrorAll(s.rest), s.left)
    decreases |resting|
  {
    if resting != [] {
      var r, tail := resting[0], resting[1..];
      assert MirrorAll(resting)[1..] == MirrorAll(tail);
      var q := Min(o.quantity, r.quantity);
      MirrorHead(o, r, q, symbol, now);
      MirrorHead(o, r, o.quantity - r.quantity, symbol, now);
      MirrorHead(r, o, r.quantity - o.quantity, symbol, now);
      SweepMirrors(o.(quantity := o.quantity - r.quantity), tail, symbol, now);
      if o.quantity > 0 && Crosses(o, r.price) {
        var s := Sweep(o, resting, symbol, now);
        var t := MakeTrade(o, r, q, symbol, now);
        if o.quantity < r.quantity {
          assert s.rest[1..] == tail;
          assert s.trades[1..] == [];
        } else {
          assert s.trades[1..] == Sweep(o.(quantity := o.quantity - r.quantity), tail, symbol, now).trades;
        }
      }
    }
  }

  lemma {:induction false} InsertMirrors(resting: seq<Order>, o: Order)
    ensures Insert(MirrorAll(resting), Mirror(o)) == MirrorAll(Insert(resting, o))
  {
    if resting == [] || Before(o.side, o.price, resting[0].price) {
      assert Insert(resting, o)[1..] == resting;
    } else {
      InsertMirrors(resting[1..], o);
      assert MirrorAll(resting)[1..] == MirrorAll(resting[1..]);
      assert Insert(resting, o)[1..] == Insert(resting[1..], o);
    }
  }

  /** Matching a sell is matching the mirrored buy: sides swapped, prices negated. */
  lemma MatchMirrors(b: Book, o: Order, symbol: Symbol, now: Time)
    ensures
      var m := Match(b, o, symbol, now);
      Match(MirrorBook(b), Mirror(o), symbol, now) == Matched(MirrorBook(m.book), MirrorTrades(m.trades))
  {
    SweepMirrors(o, Resting(b, o.side.Other()), symbol, now);
    var s := Sweep(o, Resting(b, o.side.Other()), symbol, now);
    InsertMirrors(Resting(b, o.side), o.(quantity := s.left));
  }
}
