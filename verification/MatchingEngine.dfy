/** The engine object: every call changes its books, maps and registry in place and is proved to do
    what the engine as a value does. */
module MatchingEngine {
  import opened Types
  import opened Books
  import opened Registry
  import opened Portfolios
  import P = Portfolios
  import M = EngineModel

  ghost predicate WaitingKnown(m: M.Engine) {
    forall id :: id in m.waiting ==> id < m.nextOrderId && m.waiting[id].symbol in m.books
  }

  class MatchingEngine {
    var books: map<Symbol, OrderBook>
    var lastPrices: map<Symbol, Price>
    var portfolios: PortfolioMap
    var dirtySymbols: set<Symbol>
    var nextOrderId: OrderId
    const registry: OrderRegistry

    /** The engine as a value. */
    ghost var model: M.Engine

    ghost predicate Valid()
      reads this, registry, books.Values
    {
      BooksAgree(model.books) && FieldsAgree() && registry.Valid() && model.waiting == registry.contents &&
      WaitingKnown(model)
    }

    ghost predicate FieldsAgree()
      reads this
    {
      model.lastPrices == lastPrices && model.portfolios == portfolios && model.dirty == dirtySymbols &&
      model.nextOrderId == nextOrderId
    }

    ghost predicate BookAgrees(s: Symbol, values: map<Symbol, Book>)
      reads this`books, books.Values
    {
      s in books ==> s in values && books[s].Valid() && books[s].symbol == s && books[s].Value() == values[s]
    }

    ghost predicate BooksAgree(values: map<Symbol, Book>)
      reads this`books, books.Values
    {
      values.Keys == books.Keys && forall s :: BookAgrees(s, values)
    }

    constructor ()
      ensures Valid() && model == M.Engine(map[], map[], map[], map[], {}, 1) && fresh(registry)
    {
      registry := new OrderRegistry();
      books, lastPrices, portfolios, dirtySymbols, nextOrderId := map[], map[], map[], {}, 1;
      model := M.Engine(map[], map[], map[], map[], {}, 1);
    }

    method RegisterSymbol(symbol: Symbol, initialPrice: Price)
      requires Valid()
      modifies this
      ensures Valid() && model == M.RegisterSymbol(old(model), symbol, initialPrice)
      ensures forall b :: b in books.Values ==> b in old(books.Values) || fresh(b)
    {
      if symbol !in books { OpenBook(symbol); }
      SetPrice(symbol, initialPrice);
    }

    method OpenBook(symbol: Symbol)
      requires Valid() && symbol !in books
      modifies this`books, this`model
      ensures Valid() && model == old(model).(books := old(model).books[symbol := Book([], [])])
      ensures forall b :: b in books.Values ==> b in old(books.Values) || fresh(b)
    {
      var book := new OrderBook(symbol);
      books := books[symbol := book];
      ghost var values := model.books;
      model := model.(books := model.books[symbol := Book([], [])]);
      forall s ensures BookAgrees(s, model.books) { assert old(BookAgrees(s, values)); }
      forall b | b in books.Values ensures b in old(books.Values) || fresh(b) {
        var s :| s in books && books[s] == b;
        if s != symbol { assert s in old(books) && old(books)[s] == b; }
      }
    }

    method SetPrice(symbol: Symbol, price: Price)
      requires Valid()
      modifies this`lastPrices, this`model
      ensures Valid() && model == old(model).(lastPrices := old(model).lastPrices[symbol := price])
    {
      lastPrices := lastPrices[symbol := price];
      model := model.(lastPrices := lastPrices);
    }

    method EnsureClient(client: ClientId, initialCash: real)
      requires Valid()
      modifies this`portfolios, this`model
      ensures Valid() && model == old(model).(portfolios := P.EnsureClient(old(portfolios), client, initialCash))
    {
      if client !in portfolios {
        portfolios := portfolios[client := Portfolio(initialCash, map[])];
      }
      model := model.(portfolios := P.EnsureClient(model.portfolios, client, initialCash));
    }

    method GrantInitialHoldings(client: ClientId, symbol: Symbol, quantity: Quantity)
      requires Valid()
      modifies this`portfolios, this`model
      ensures Valid() && model == old(model).(portfolios := P.Grant(old(portfolios), client, symbol, quantity))
    {
      var p := Of(portfolios, client);
      portfolios := portfolios[client := p.(holdings := p.holdings[symbol := p.Holding(symbol) + quantity])];
      model := model.(portfolios := P.Grant(model.portfolios, client, symbol, quantity));
    }

    method LastPrice(symbol: Symbol) returns (price: Price)
      ensures price == M.PriceIn(lastPrices, symbol)
    {
      price := if symbol in lastPrices then lastPrices[symbol] else 0.0;
    }

    /** Pays for one trade, buyer first. */
    method SettleTrade(trade: Trade)
      modifies this`portfolios
      ensures portfolios == P.Settle(old(portfolios), trade)
    {
      var notional := Notional(trade.quantity, trade.price);
      var buyer := Of(portfolios, trade.buyer);
      portfolios := portfolios[trade.buyer := Portfolio(buyer.cash - notional,
        buyer.holdings[trade.symbol := buyer.Holding(trade.symbol) + trade.quantity])];
      var seller := Of(portfolios, trade.seller);
      portfolios := portfolios[trade.seller := Portfolio(seller.cash + notional,
        seller.holdings[trade.symbol := seller.Holding(trade.symbol) - trade.quantity])];
    }

    method MarkDirty(symbol: Symbol)
      modifies this`dirtySymbols
      ensures dirtySymbols == old(dirtySymbols) + {symbol}
    {
      dirtySymbols := dirtySymbols + {symbol};
    }

    method SettleOne(trade: Trade)
      requires FieldsAgree()
      modifies this`portfolios, this`lastPrices, this`dirtySymbols, this`model
      ensures FieldsAgree() && model == M.SettleOne(old(model), trade)
    {
      SettleTrade(trade);
      lastPrices := lastPrices[trade.symbol := trade.price];
      MarkDirty(trade.symbol);
      model := M.SettleOne(model, trade);
    }

    /** Settles the trades of a match one by one. */
    method SettleTrades(trades: seq<Trade>) returns (filled: Quantity)
      requires FieldsAgree()
      modifies this`portfolios, this`lastPrices, this`dirtySymbols, this`model
      ensures FieldsAgree() && model == M.SettleAll(old(model), trades) && filled == Filled(trades)
    {
      filled := 0;
      ghost var target := M.SettleAll(model, trades);
      for i := 0 to |trades|
        invariant FieldsAgree() && M.SettleAll(model, trades[i..]) == target
        invariant filled + Filled(trades[i..]) == Filled(trades)
      {
        assert trades[i..][1..] == trades[i + 1..];
        SettleOne(trades[i]);
        filled := filled + trades[i].quantity;
      }
    }

    method MatchInBook(order: Order, now: Time) returns (trades: seq<Trade>)
      requires Valid() && order.symbol in books
      modifies this`model, books[order.symbol]
      ensures
        var m := Match(old(model).books[order.symbol], order, order.symbol, now);
        Valid() && trades == m.trades && model == old(model).(books := old(model).books[order.symbol := m.book])
    {
      assert BookAgrees(order.symbol, model.books);
      trades := books[order.symbol].MatchOrder(order, now);
      ghost var m := Match(model.books[order.symbol], order, order.symbol, now);
      ghost var values, changed := model.books, model.books[order.symbol := m.book];
      forall s ensures BookAgrees(s, changed) { assert old(BookAgrees(s, values)); }
      model := model.(books := changed);
    }

    method SettleMatched(trades: seq<Trade>) returns (filled: Quantity)
      requires Valid()
      modifies this`portfolios, this`lastPrices, this`dirtySymbols, this`model
      ensures Valid() && model == M.SettleAll(old(model), trades) && filled == Filled(trades)
    {
      filled := SettleTrades(trades);
      assert BooksAgree(model.books);
    }

    method MatchAndSettle(order: Order, now: Time) returns (result: M.SubmitResult)
      requires Valid() && order.symbol in books
      modifies this`portfolios, this`lastPrices, this`dirtySymbols, this`model, books[order.symbol]
      ensures Valid()
      ensures M.Submitted(model, result) == M.MatchAndSettle(old(model), order, now)
    {
      var trades := MatchInBook(order, now);
      var filled := SettleMatched(trades);
      result := M.SubmitResult(true, false, None, order.id, filled, trades);
    }

    /** The checks an order must pass before it touches a book or the registry. */
    method Screen(request: OrderRequest) returns (reject: Option<M.Reject>)
      requires Valid()
      ensures reject == M.Rejection(model, request)
    {
      if request.quantity <= 0 {
        return Some(M.QuantityNotPositive);
      }
      if request.kind != Market && request.price <= 0.0 {
        return Some(M.PriceNotPositive);
      }
      if request.symbol !in books {
        return Some(M.UnknownSymbol);
      }
      if !M.PassesRiskCheck(portfolios, lastPrices, request) {
        return Some(if request.side == Buy then M.InsufficientCash else M.InsufficientHoldings);
      }
      reject := None;
    }

    method TakeOrderId() returns (id: OrderId)
      requires Valid()
      modifies this`nextOrderId, this`model
      ensures Valid() && id == old(model).nextOrderId && model == old(model).(nextOrderId := id + 1)
    {
      id := nextOrderId;
      nextOrderId := nextOrderId + 1;
      model := model.(nextOrderId := nextOrderId);
    }

    lemma SubmitMeans(before: M.Engine, taken: M.Engine, request: OrderRequest, id: OrderId, now: Time)
      requires id == before.nextOrderId && taken == before.(nextOrderId := id + 1)
      ensures M.SubmitOrder(before, request, now) == M.ScreenAndAdmit(taken, request, id, now)
    {}

    method SubmitOrder(request: OrderRequest, now: Time) returns (result: M.SubmitResult)
      requires Valid()
      modifies this`nextOrderId, this`portfolios, this`lastPrices, this`dirtySymbols, this`model, registry, books.Values
      ensures Valid()
      ensures M.Submitted(model, result) == M.SubmitOrder(old(model), request, now)
    {
      ghost var before := model;
      var id := TakeOrderId();
      SubmitMeans(before, model, request, id, now);
      result := ScreenAndAdmit(request, id, now);
    }

    method ScreenAndAdmit(request: OrderRequest, id: OrderId, now: Time) returns (result: M.SubmitResult)
      requires Valid() && id < nextOrderId && id !in registry.contents
      modifies this`portfolios, this`lastPrices, this`dirtySymbols, this`model, registry, books.Values
      ensures Valid()
      ensures M.Submitted(model, result) == M.ScreenAndAdmit(old(model), request, id, now)
    {
      var reject := Screen(request);
      if reject.Some? {
        result := M.SubmitResult(false, false, reject, id, 0, []);
      } else {
        result := AdmitOrder(M.BuildOrder(request, id, now), now);
      }
    }

    method FileOrder(order: Order)
      requires Valid() && order.id !in registry.contents
      modifies registry
      ensures registry.Valid() && registry.contents == old(registry.contents)[order.id := order]
    {
      registry.Add(order);
    }

    ghost method SetWaiting(waiting: map<OrderId, Order>)
      requires BooksAgree(model.books) && FieldsAgree() && registry.Valid() && waiting == registry.contents
      requires forall id :: id in waiting ==> id < model.nextOrderId && waiting[id].symbol in model.books
      modifies this`model
      ensures Valid() && model == old(model).(waiting := waiting)
    {
      model := model.(waiting := waiting);
    }

    method HoldOrder(order: Order)
      requires Valid() && order.symbol in books && order.id < nextOrderId && order.id !in registry.contents
      modifies this`model, registry
      ensures Valid() && model == old(model).(waiting := old(model).waiting[order.id := order])
    {
      ghost var waiting := model.waiting[order.id := order];
      assert forall id :: id in waiting ==> id < model.nextOrderId && waiting[id].symbol in model.books;
      FileOrder(order);
      assert BooksAgree(model.books);
      SetWaiting(waiting);
    }

    /** Matches an order that is ready, and files any other in the registry. */
    method AdmitOrder(order: Order, now: Time) returns (result: M.SubmitResult)
      requires Valid() && order.symbol in books && order.id < nextOrderId && order.id !in registry.contents
      modifies this`portfolios, this`lastPrices, this`dirtySymbols, this`model, registry, books[order.symbol]
      ensures Valid()
      ensures M.Submitted(model, result) == M.Admit(old(model), order, now)
    {
      var reference := LastPrice(order.symbol);
      if order.Started(now) && order.ReleaseBandContains(reference) {
        result := MatchAndSettle(order, now);
      } else {
        HoldOrder(order);
        result := M.SubmitResult(true, true, None, order.id, 0, []);
      }
    }

    /** Takes the dirty symbols and leaves none. */
    method DrainDirtySymbols() returns (drained: set<Symbol>)
      modifies this`dirtySymbols
      ensures drained == old(dirtySymbols) && dirtySymbols == {}
    {
      drained := dirtySymbols;
      dirtySymbols := {};
    }

    /** The scan of a dirty-only tick, which visits the drained symbols in no particular order. */
    method ScanDirtySymbols(symbols: set<Symbol>, scan: Scan) returns (released: seq<Order>, expired: seq<Order>)
      requires registry.Valid()
      modifies registry
      ensures registry.Valid()
      ensures Picks(released, old(registry.contents), WaitingOn(old(registry.contents), symbols), scan, Release)
      ensures Picks(expired, old(registry.contents), WaitingOn(old(registry.contents), symbols), scan, Expire)
      ensures registry.contents == Kept(old(registry.contents), WaitingOn(old(registry.contents), symbols), scan)
    {
      ghost var before := registry.contents;
      ghost var done: set<Symbol> := {};
      var left := symbols;
      released, expired := [], [];
      assert WaitingOn(before, {}) == {};
      while left != {}
        invariant registry.Valid() && done <= symbols && left == symbols - done
        invariant Picks(released, before, WaitingOn(before, done), scan, Release)
        invariant Picks(expired, before, WaitingOn(before, done), scan, Expire)
        invariant registry.contents == Kept(before, WaitingOn(before, done), scan)
        decreases left
      {
        var symbol :| symbol in left;
        ScannedMore(before, done, symbol, scan);
        var moreReleased, moreExpired := registry.ScanAndReleaseSymbol(symbol, scan);
        PicksBoth(released, moreReleased, before, WaitingOn(before, done), WaitingOn(before, {symbol}), scan, Release);
        PicksBoth(expired, moreExpired, before, WaitingOn(before, done), WaitingOn(before, {symbol}), scan, Expire);
        released, expired := released + moreReleased, expired + moreExpired;
        left, done := left - {symbol}, done + {symbol};
      }
      assert done == symbols;
    }

    method ScanForRelease(full: bool, now: Time) returns (released: seq<Order>, expired: seq<Order>)
      requires Valid()
      modifies this`dirtySymbols, this`model, registry
      ensures Valid() && model == M.AfterScan(old(model), full, now)
      ensures M.TickPicks(old(model), full, now, released, expired)
    {
      var scan := M.ScanPrices(lastPrices, now);
      if full {
        released, expired := registry.ScanAndRelease(scan);
      } else {
        var symbols := DrainDirtySymbols();
        released, expired := ScanDirtySymbols(symbols, scan);
      }
      model := M.AfterScan(model, full, now);
    }

    /** Matches the next released order, which leaves the rest of them to do. */
    method MatchNext(
        order: Order, now: Time, ghost rest: seq<Order>, results: seq<M.SubmitResult>,
        ghost target: M.Engine, ghost all: seq<M.SubmitResult>)
      returns (results': seq<M.SubmitResult>, ghost rest': seq<Order>)
      requires Valid() && order.symbol in books && rest != [] && rest[0] == order
      requires M.MatchAll(model, rest, now) == target && results + M.MatchResults(model, rest, now) == all
      modifies this`portfolios, this`lastPrices, this`dirtySymbols, this`model, books[order.symbol]
      ensures Valid() && rest' == rest[1..]
      ensures M.MatchAll(model, rest', now) == target && results' + M.MatchResults(model, rest', now) == all
    {
      var result := MatchAndSettle(order, now);
      rest' := rest[1..];
      results' := results + [result];
      ghost var more := M.MatchResults(model, rest', now);
      assert results + ([result] + more) == results' + more;
    }

    /** Matches released orders one after the other, in the order the scan listed them. */
    method MatchReleased(released: seq<Order>, now: Time) returns (results: seq<M.SubmitResult>)
      requires Valid() && forall o :: o in released ==> o.symbol in books
      modifies this`portfolios, this`lastPrices, this`dirtySymbols, this`model, books.Values
      ensures Valid() && model == M.MatchAll(old(model), released, now)
      ensures results == M.MatchResults(old(model), released, now)
    {
      results := [];
      ghost var rest, target, all := released, M.MatchAll(model, released, now), M.MatchResults(model, released, now);
      for i := 0 to |released|
        invariant Valid() && rest == released[i..] && M.MatchAll(model, rest, now) == target
        invariant results + M.MatchResults(model, rest, now) == all
      {
        assert released[i] in released;
        results, rest := MatchNext(released[i], now, rest, results, target, all);
      }
    }

    /** One release tick; what the scan released is also returned, in the order it was matched. */
    method TryReleaseWaitingOrders(full: bool, now: Time)
      returns (results: seq<M.SubmitResult>, released: seq<Order>, expired: seq<Order>)
      requires Valid()
      modifies this`portfolios, this`lastPrices, this`dirtySymbols, this`model, registry, books.Values
      ensures Valid()
      ensures M.TickPicks(old(model), full, now, released, expired)
      ensures model == M.MatchAll(M.AfterScan(old(model), full, now), released, now)
      ensures results == M.MatchResults(M.AfterScan(old(model), full, now), released, now)
    {
      released, expired := ScanForRelease(full, now);
      results := MatchReleased(released, now);
    }

    method CancelPricedInBook(symbol: Symbol, side: Side, price: Price, id: OrderId) returns (found: bool)
      requires Valid() && symbol in books
      modifies this`model, books[symbol]
      ensures
        var c := CancelAt(old(model).books[symbol], side, price, id);
        Valid() && found == c.found && model == old(model).(books := old(model).books[symbol := c.book])
    {
      assert BookAgrees(symbol, model.books);
      found := books[symbol].CancelPriced(side, price, id);
      ghost var c := CancelAt(model.books[symbol], side, price, id);
      ghost var values, changed := model.books, model.books[symbol := c.book];
      forall s ensures BookAgrees(s, changed) { assert old(BookAgrees(s, values)); }
      model := model.(books := changed);
    }

    method CancelOrderPriced(symbol: Symbol, side: Side, price: Price, id: OrderId) returns (found: bool)
      requires Valid()
      modifies this`model, books.Values
      ensures Valid()
      ensures M.Cancellation(model, found) == M.CancelPriced(old(model), symbol, side, price, id)
    {
      if symbol !in books {
        return false;
      }
      found := CancelPricedInBook(symbol, side, price, id);
    }

    method CancelInBook(symbol: Symbol, id: OrderId) returns (found: bool)
      requires Valid() && symbol in books
      modifies this`model, books[symbol]
      ensures
        var c := CancelById(old(model).books[symbol], id);
        Valid() && found == c.found && model == old(model).(books := old(model).books[symbol := c.book])
    {
      assert BookAgrees(symbol, model.books);
      found := books[symbol].Cancel(id);
      ghost var c := CancelById(model.books[symbol], id);
      ghost var values, changed := model.books, model.books[symbol := c.book];
      forall s ensures BookAgrees(s, changed) { assert old(BookAgrees(s, values)); }
      model := model.(books := changed);
    }

    method CancelOrder(symbol: Symbol, id: OrderId) returns (found: bool)
      requires Valid()
      modifies this`model, books.Values
      ensures Valid()
      ensures M.Cancellation(model, found) == M.Cancel(old(model), symbol, id)
    {
      if symbol !in books {
        return false;
      }
      found := CancelInBook(symbol, id);
    }

    method CancelWaitingOrder(id: OrderId) returns (found: bool)
      requires Valid()
      modifies this`model, registry
      ensures Valid()
      ensures M.Cancellation(model, found) == M.CancelWaiting(old(model), id)
    {
      found := registry.Cancel(id);
      model := M.CancelWaiting(model, id).engine;
    }
  }
}
