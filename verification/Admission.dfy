/** What it means to be admitted: when an order is ready, and what the risk check is good for. */
module Admission {
  import opened Types
  import opened PriceTimeList
  import opened Books
  import opened Portfolios
  import opened BestExecution
  import opened Settlement
  import E = EngineModel

  /** A reference price at which a request's release condition holds. A STOP is by side: a breakout buy
      waits for the price to rise to its trigger, a stop-loss sell for it to fall. */
  predicate Triggered(r: OrderRequest, reference: Price) {
    if r.kind == Stop then
      var trigger := if r.triggerUpper.Some? then r.triggerUpper.value else r.price;
      if r.side == Buy then reference >= trigger else reference <= trigger
    else
      (r.triggerLower.None? || r.triggerLower.value <= reference) &&
      (r.triggerUpper.None? || reference <= r.triggerUpper.value)
  }

  /** The band, start date and expiry an order is built with say what its request asked for. */
  lemma BuiltAsRequested(r: OrderRequest, id: OrderId, now: Time, later: Time, reference: Price)
    ensures
      var o := E.BuildOrder(r, id, now);
      (o.ReleaseBandContains(reference) <==> Triggered(r, reference)) &&
      (o.Started(later) <==> r.notBeforeIn.None? || later - now >= r.notBeforeIn.value) &&
      (o.Expired(later) <==> r.expiresIn.Some? && later - now >= r.expiresIn.value) &&
      o.id == id && o.client == r.client && o.side == r.side && o.kind == r.kind && o.symbol == r.symbol &&
      o.quantity == r.quantity && o.price == r.price && o.submittedAt == now
  {}

  /** An order that asks for nothing special never waits. */
  lemma PlainOrdersNeverWait(e: E.Engine, r: OrderRequest, now: Time)
    requires r.kind != Stop && r.triggerLower.None? && r.triggerUpper.None? && r.notBeforeIn.None?
    ensures !E.SubmitOrder(e, r, now).result.queued && E.SubmitOrder(e, r, now).engine.waiting == e.waiting
  {
    BuiltAsRequested(r, e.nextOrderId, now, now, E.PriceIn(e.lastPrices, r.symbol));
  }

  // ----- who is refused, and why

  /** A trade of the whole quantity at the limit, with somebody else. */
  function FullFill(r: OrderRequest, other: ClientId, now: Time): Trade {
    if r.side == Buy then Trade(0, 0, r.client, other, r.symbol, r.quantity, r.price, now)
    else Trade(0, 0, other, r.client, r.symbol, r.quantity, r.price, now)
  }

  /** An order that is well formed, of a known client on a known symbol. */
  predicate Checkable(e: E.Engine, r: OrderRequest) {
    r.quantity > 0 && (r.kind != OrderKind.Market ==> r.price > 0.0) && r.symbol in e.books && r.client in e.portfolios
  }

  /** A limit buy is refused, and for want of cash, exactly when a full fill at its limit would overdraw;
      a sell, for want of shares, exactly when it would deliver more than there is; and a MARKET buy
      exactly when it would cost more than there is at the last price and a tenth. Otherwise each is
      accepted. */
  lemma RefusedExactly(e: E.Engine, r: OrderRequest, now: Time, other: ClientId)
    requires Checkable(e, r) && other != r.client
    ensures
      var result, after := E.SubmitOrder(e, r, now).result, Settle(e.portfolios, FullFill(r, other, now));
      var last := if r.symbol in e.lastPrices then e.lastPrices[r.symbol] else 0.0;
      (r.side == Buy && r.kind != OrderKind.Market ==>
         (result.reject == Some(E.InsufficientCash) <==> Cash(after, r.client) < 0.0)) &&
      (r.side == Sell ==>
         (result.reject == Some(E.InsufficientHoldings) <==> Shares(after, r.client, r.symbol) < 0)) &&
      (r.side == Buy && r.kind == OrderKind.Market ==>
         (result.reject == Some(E.InsufficientCash) <==>
          Cash(e.portfolios, r.client) < r.quantity as real * (last + last / 10.0))) &&
      (result.accepted <==> result.reject.None?)
  {
    SettleMoves(e.portfolios, FullFill(r, other, now), r.client, r.symbol);
    var last := E.PriceIn(e.lastPrices, r.symbol);
    assert last * 1.10 == last + last / 10.0;
  }

  /** Everything else is refused in this order of reasons; a refusal changes nothing but the next id.
      Accepted or refused, the order is answered under the id it was given, and with what was filled. */
  lemma RefusedOtherwise(e: E.Engine, r: OrderRequest, now: Time)
    ensures
      var submitted := E.SubmitOrder(e, r, now);
      var why := submitted.result.reject;
      (why == Some(E.QuantityNotPositive) <==> r.quantity <= 0) &&
      (why == Some(E.PriceNotPositive) <==> r.quantity > 0 && r.kind != OrderKind.Market && r.price <= 0.0) &&
      (why == Some(E.UnknownSymbol) <==>
         r.quantity > 0 && (r.kind != OrderKind.Market ==> r.price > 0.0) && r.symbol !in e.books) &&
      (r.quantity > 0 && (r.kind != OrderKind.Market ==> r.price > 0.0) && r.symbol in e.books &&
         r.client !in e.portfolios ==>
           why == Some(if r.side == Buy then E.InsufficientCash else E.InsufficientHoldings)) &&
      (why.Some? ==>
         submitted.engine == e.(nextOrderId := e.nextOrderId + 1) && submitted.result.trades == [] &&
         !submitted.result.queued) &&
      submitted.result.orderId == e.nextOrderId && submitted.result.filled == Filled(submitted.result.trades)
  {}

  /** An accepted order waits exactly when its condition is not met by the last price or its start is still
      to come. */
  lemma QueuedExactly(e: E.Engine, r: OrderRequest, now: Time)
    requires E.SubmitOrder(e, r, now).result.accepted
    ensures
      var submitted := E.SubmitOrder(e, r, now);
      var ready := Triggered(r, E.PriceIn(e.lastPrices, r.symbol)) && (r.notBeforeIn.None? || r.notBeforeIn.value <= 0);
      (submitted.result.queued <==> !ready) && (e.nextOrderId !in e.waiting ==>
        (submitted.result.queued <==> e.nextOrderId in submitted.engine.waiting))
  {
    BuiltAsRequested(r, e.nextOrderId, now, now, E.PriceIn(e.lastPrices, r.symbol));
  }

  // ----- what the trades of one match do to whoever asked for it

  lemma {:induction false} SettleAllMoves(e: E.Engine, trades: seq<Trade>, c: ClientId, s: Symbol)
    ensures Cash(E.SettleAll(e, trades).portfolios, c) == Cash(e.portfolios, c) + CashFrom(trades, c)
    ensures Shares(E.SettleAll(e, trades).portfolios, c, s) == Shares(e.portfolios, c, s) + SharesFrom(trades, c, s)
    decreases |trades|
  {
    if trades != [] {
      SettleMoves(e.portfolios, trades[0], c, s);
      SettleAllMoves(E.SettleOne(e, trades[0]), trades[1..], c, s);
    }
  }

  /** Trades an order at a limit buys with: within the limit, and not for somebody else. */
  ghost predicate BoughtWithin(trades: seq<Trade>, c: ClientId, limit: Price) {
    trades == [] ||
    (trades[0].buyer == c && trades[0].quantity > 0 && trades[0].price <= limit && BoughtWithin(trades[1..], c, limit))
  }

  ghost predicate SoldBy(trades: seq<Trade>, c: ClientId) {
    trades == [] || (trades[0].seller == c && trades[0].quantity > 0 && SoldBy(trades[1..], c))
  }

  lemma {:induction false} SweepBuysWithin(o: Order, resting: seq<Order>, s: Symbol, now: Time)
    requires o.side == Buy && o.kind != OrderKind.Market && IsSide(Sell, resting)
    ensures BoughtWithin(Sweep(o, resting, s, now).trades, o.client, o.price)
    decreases |resting|
  {
    if o.quantity > 0 && resting != [] && Crosses(o, resting[0].price) && o.quantity >= resting[0].quantity {
      var o' := o.(quantity := o.quantity - resting[0].quantity);
      SweepBuysWithin(o', resting[1..], s, now);
      assert Sweep(o, resting, s, now).trades[1..] == Sweep(o', resting[1..], s, now).trades;
    }
  }

  lemma {:induction false} SweepSells(o: Order, resting: seq<Order>, s: Symbol, now: Time)
    requires o.side == Sell && IsSide(Buy, resting)
    ensures SoldBy(Sweep(o, resting, s, now).trades, o.client)
    decreases |resting|
  {
    if o.quantity > 0 && resting != [] && Crosses(o, resting[0].price) && o.quantity >= resting[0].quantity {
      var o' := o.(quantity := o.quantity - resting[0].quantity);
      SweepSells(o', resting[1..], s, now);
      assert Sweep(o, resting, s, now).trades[1..] == Sweep(o', resting[1..], s, now).trades;
    }
  }

  lemma NotionalGrows(q: Quantity, r: Quantity, p: Price, limit: Price)
    requires 0 <= q && 0 <= r && p <= limit && 0.0 <= limit
    ensures Notional(q, p) <= Notional(q, limit) && Notional(q + r, limit) == Notional(q, limit) + Notional(r, limit)
    ensures 0.0 <= Notional(q, limit)
  {}

  /** They cost at most the filled quantity at the limit. */
  lemma {:induction false} CostsAtMost(trades: seq<Trade>, c: ClientId, limit: Price)
    requires BoughtWithin(trades, c, limit) && 0.0 <= limit
    ensures Filled(trades) >= 0 && CashFrom(trades, c) >= -Notional(Filled(trades), limit)
  {
    if trades != [] {
      CostsAtMost(trades[1..], c, limit);
      NotionalGrows(trades[0].quantity, Filled(trades[1..]), trades[0].price, limit);
    }
  }

  lemma {:induction false} SellsAtMost(trades: seq<Trade>, c: ClientId, s: Symbol)
    requires SoldBy(trades, c)
    ensures Filled(trades) >= 0 && SharesFrom(trades, c, s) >= -Filled(trades)
  {
    if trades != [] { SellsAtMost(trades[1..], c, s); }
  }

  /** A match costs its buyer at most the order's quantity at its limit. */
  lemma MatchedBuyCosts(e: E.Engine, o: Order, now: Time)
    requires o.side == Buy && o.kind != OrderKind.Market && o.quantity > 0 && o.price >= 0.0
    requires o.symbol in e.books && IsSide(Sell, e.books[o.symbol].asks)
    ensures
      Cash(E.MatchAndSettle(e, o, now).engine.portfolios, o.client) >=
      Cash(e.portfolios, o.client) - Notional(o.quantity, o.price)
  {
    var asks, m := e.books[o.symbol].asks, Match(e.books[o.symbol], o, o.symbol, now);
    SweepBuysWithin(o, asks, o.symbol, now);
    CostsAtMost(m.trades, o.client, o.price);
    FillsAllItCan(o, asks, o.symbol, now);
    AcceptableNonNegative(Sell, o, asks);
    var filled := Filled(m.trades);
    NotionalGrows(filled, o.quantity - filled, o.price, o.price);
    NotionalGrows(o.quantity - filled, 0, o.price, o.price);
    SettleAllMoves(e.(books := e.books[o.symbol := m.book]), m.trades, o.client, o.symbol);
  }

  lemma MatchedSellDelivers(e: E.Engine, o: Order, now: Time)
    requires o.side == Sell && o.quantity > 0 && o.symbol in e.books && IsSide(Buy, e.books[o.symbol].bids)
    ensures
      Shares(E.MatchAndSettle(e, o, now).engine.portfolios, o.client, o.symbol) >=
      Shares(e.portfolios, o.client, o.symbol) - o.quantity
  {
    var bids, m := e.books[o.symbol].bids, Match(e.books[o.symbol], o, o.symbol, now);
    SweepSells(o, bids, o.symbol, now);
    SellsAtMost(m.trades, o.client, o.symbol);
    FillsAllItCan(o, bids, o.symbol, now);
    SettleAllMoves(e.(books := e.books[o.symbol := m.book]), m.trades, o.client, o.symbol);
  }

  /** What passes the risk check with a limit can be paid for: however much of it is matched on
      submission, and at whatever prices, the client's cash does not go below zero. */
  lemma LimitBuyIsCovered(e: E.Engine, r: OrderRequest, now: Time)
    requires r.side == Buy && r.kind != OrderKind.Market
    requires r.symbol in e.books && IsSide(Sell, e.books[r.symbol].asks)
    requires E.SubmitOrder(e, r, now).result.accepted
    ensures Cash(E.SubmitOrder(e, r, now).engine.portfolios, r.client) >= 0.0
  {
    var e1, o := e.(nextOrderId := e.nextOrderId + 1), E.BuildOrder(r, e.nextOrderId, now);
    assert E.Rejection(e1, r).None?;
    NotionalGrows(r.quantity, 0, r.price, r.price);
    MatchedBuyCosts(e1, o, now);
  }

  /** And a sell that passes can be delivered, at any kind of price. */
  lemma SellIsCovered(e: E.Engine, r: OrderRequest, now: Time)
    requires r.side == Sell && r.symbol in e.books && IsSide(Buy, e.books[r.symbol].bids)
    requires E.SubmitOrder(e, r, now).result.accepted
    ensures Shares(E.SubmitOrder(e, r, now).engine.portfolios, r.client, r.symbol) >= 0
  {
    var e1, o := e.(nextOrderId := e.nextOrderId + 1), E.BuildOrder(r, e.nextOrderId, now);
    assert E.Rejection(e1, r).None?;
    MatchedSellDelivers(e1, o, now);
  }

  /** What taking `quantity` from the front of a list of asks costs a client, who pays nothing for its own. */
  function CostTo(c: ClientId, asks: seq<Order>, quantity: Quantity): real {
    if quantity <= 0 || asks == [] then 0.0
    else
      var q := Min(quantity, asks[0].quantity);
      (if asks[0].client == c then 0.0 else Notional(q, asks[0].price)) + CostTo(c, asks[1..], quantity - q)
  }

  lemma {:induction false} SweepCosts(o: Order, asks: seq<Order>, s: Symbol, now: Time)
    requires o.side == Buy && o.kind == OrderKind.Market && IsSide(Sell, asks)
    ensures CashFrom(Sweep(o, asks, s, now).trades, o.client) == -CostTo(o.client, asks, o.quantity)
    decreases |asks|
  {
    if o.quantity > 0 && asks != [] {
      var q := Min(o.quantity, asks[0].quantity);
      var t := MakeTrade(o, asks[0], q, s, now);
      assert CashOf(t, o.client) == if asks[0].client == o.client then 0.0 else -Notional(q, asks[0].price);
      if o.quantity < asks[0].quantity {
        assert [t][1..] == [] && CashFrom([t], o.client) == CashOf(t, o.client) + CashFrom([], o.client);
      } else {
        var o' := o.(quantity := o.quantity - q);
        SweepCosts(o', asks[1..], s, now);
        assert Sweep(o, asks, s, now).trades[1..] == Sweep(o', asks[1..], s, now).trades;
      }
    }
  }

  /** A MARKET buy is only checked against the last price and a margin, so what it costs may be more
      than its client has. Accepted and matched at once, it leaves the client exactly that much less:
      the cash stays at zero or more if and only if it covers the asks in front. */
  lemma MarketBuyCosts(e: E.Engine, r: OrderRequest, now: Time)
    requires r.side == Buy && r.kind == OrderKind.Market && r.symbol in e.books && IsSide(Sell, e.books[r.symbol].asks)
    requires E.SubmitOrder(e, r, now).result.accepted && !E.SubmitOrder(e, r, now).result.queued
    ensures
      var cost := CostTo(r.client, e.books[r.symbol].asks, r.quantity);
      var after := E.SubmitOrder(e, r, now).engine;
      Cash(after.portfolios, r.client) == Cash(e.portfolios, r.client) - cost &&
      (Cash(after.portfolios, r.client) >= 0.0 <==> cost <= Cash(e.portfolios, r.client))
  {
    var e1, o := e.(nextOrderId := e.nextOrderId + 1), E.BuildOrder(r, e.nextOrderId, now);
    var m := Match(e.books[r.symbol], o, r.symbol, now);
    assert E.Rejection(e1, r).None?;
    SweepCosts(o, e.books[r.symbol].asks, r.symbol, now);
    SettleAllMoves(e1.(books := e1.books[r.symbol := m.book]), m.trades, r.client, r.symbol);
  }
}
