/** What one match does to the others: who is party to its trades, what it takes from whose resting
    orders, and where it leaves the last price. */
module MatchEffects {
  import opened Types
  import opened PriceTimeList
  import opened Books
  import opened Portfolios
  import opened Settlement
  import A = Admission
  import E = EngineModel

  // ----- the parties

  /** A trade of the incoming `o` with the resting `r`, field by field. */
  predicate IsTradeBetween(t: Trade, o: Order, r: Order, symbol: Symbol, now: Time) {
    t.symbol == symbol && t.timestamp == now && t.price == r.price &&
    (o.side == Buy ==>
       t.buyOrderId == o.id && t.buyer == o.client && t.sellOrderId == r.id && t.seller == r.client) &&
    (o.side == Sell ==>
       t.sellOrderId == o.id && t.seller == o.client && t.buyOrderId == r.id && t.buyer == r.client)
  }

  /** The i-th trade is between the incoming order and the i-th resting one. */
  lemma {:induction false} PartiesOfTrades(o: Order, resting: seq<Order>, symbol: Symbol, now: Time)
    ensures
      var trades := Sweep(o, resting, symbol, now).trades;
      |trades| <= |resting| &&
      forall i :: 0 <= i < |trades| ==> IsTradeBetween(trades[i], o, resting[i], symbol, now)
    decreases |resting|
  {
    if o.quantity > 0 && resting != [] && Crosses(o, resting[0].price) && o.quantity >= resting[0].quantity {
      var o' := o.(quantity := o.quantity - resting[0].quantity);
      PartiesOfTrades(o', resting[1..], symbol, now);
      var trades, more := Sweep(o, resting, symbol, now).trades, Sweep(o', resting[1..], symbol, now).trades;
      forall i | 1 <= i < |trades| ensures IsTradeBetween(trades[i], o, resting[i], symbol, now) {
        assert trades[i] == more[i - 1] && resting[i] == resting[1..][i - 1];
        assert IsTradeBetween(more[i - 1], o', resting[1..][i - 1], symbol, now);
      }
    }
  }

  // ----- what everybody gains and loses

  /** Whether an order counts: a client's own or, with `own` false, everybody else's. */
  predicate Counts(r: Order, c: ClientId, own: bool) { (r.client == c) == own }

  /** The shares those orders of a list offer or want. */
  function Rests(orders: seq<Order>, c: ClientId, own: bool): Quantity {
    if orders == [] then 0
    else (if Counts(orders[0], c, own) then orders[0].quantity else 0) + Rests(orders[1..], c, own)
  }

  /** And what they are worth at the orders' own prices. */
  function Worth(orders: seq<Order>, c: ClientId, own: bool): real {
    if orders == [] then 0.0
    else
      (if Counts(orders[0], c, own) then Notional(orders[0].quantity, orders[0].price) else 0.0) +
      Worth(orders[1..], c, own)
  }

  lemma NotionalSplits(p: Quantity, q: Quantity, price: Price)
    ensures Notional(p, price) == Notional(q, price) + Notional(p - q, price)
  {}

  lemma FrontLoses(resting: seq<Order>, q: Quantity, c: ClientId, own: bool)
    requires resting != []
    ensures
      var after := [resting[0].(quantity := resting[0].quantity - q)] + resting[1..];
      var counts := Counts(resting[0], c, own);
      Rests(after, c, own) == Rests(resting, c, own) - (if counts then q else 0) &&
      Worth(after, c, own) == Worth(resting, c, own) - if counts then Notional(q, resting[0].price) else 0.0
  {
    var after := [resting[0].(quantity := resting[0].quantity - q)] + resting[1..];
    assert after[1..] == resting[1..];
    NotionalSplits(resting[0].quantity, q, resting[0].price);
  }

  /** Whether `c` is paid, and delivers, in the trades of `o`: against a buy everybody else, against a
      sell the incoming client. Otherwise it pays and receives. */
  predicate Delivers(o: Order, c: ClientId) { (o.side == Buy) == (c != o.client) }

  /** A trade moves the shares and the money of both its parties. */
  lemma PartyMoves(t: Trade, o: Order, r: Order, symbol: Symbol, now: Time, c: ClientId)
    requires IsTradeBetween(t, o, r, symbol, now)
    ensures
      var amount := if Counts(r, c, c != o.client) then Notional(t.quantity, r.price) else 0.0;
      var shares := if Counts(r, c, c != o.client) then t.quantity else 0;
      CashOf(t, c) == (if Delivers(o, c) then amount else -amount) &&
      SharesOf(t, c, symbol) == (if Delivers(o, c) then -shares else shares)
  {}

  /** What trades of `o` move for `c`, as against what resting orders lost between two lists: the
      client's own or, for the incoming client, everybody else's. */
  ghost predicate MovedByLoss(
      trades: seq<Trade>, o: Order, before: seq<Order>, after: seq<Order>, symbol: Symbol, c: ClientId)
  {
    var own := c != o.client;
    var cash, shares := Worth(before, c, own) - Worth(after, c, own), Rests(before, c, own) - Rests(after, c, own);
    CashFrom(trades, c) == (if Delivers(o, c) then cash else -cash) &&
    SharesFrom(trades, c, symbol) == (if Delivers(o, c) then -shares else shares)
  }

  lemma OneTradeMoves(t: Trade, o: Order, resting: seq<Order>, symbol: Symbol, now: Time, c: ClientId)
    requires resting != [] && IsTradeBetween(t, o, resting[0], symbol, now)
    ensures MovedByLoss(
      [t], o, resting, [resting[0].(quantity := resting[0].quantity - t.quantity)] + resting[1..], symbol, c)
  {
    PartyMoves(t, o, resting[0], symbol, now, c);
    FrontLoses(resting, t.quantity, c, c != o.client);
    assert [t][1..] == [];
  }

  lemma MoreTradesMove(
      t: Trade, more: seq<Trade>, o: Order, resting: seq<Order>, after: seq<Order>,
      symbol: Symbol, now: Time, c: ClientId)
    requires resting != [] && IsTradeBetween(t, o, resting[0], symbol, now)
    requires t.quantity == resting[0].quantity && MovedByLoss(more, o, resting[1..], after, symbol, c)
    ensures MovedByLoss([t] + more, o, resting, after, symbol, c)
  {
    PartyMoves(t, o, resting[0], symbol, now, c);
    assert ([t] + more)[1..] == more;
  }

  lemma NothingMoves(o: Order, resting: seq<Order>, symbol: Symbol, c: ClientId)
    ensures MovedByLoss([], o, resting, resting, symbol, c)
  {}

  /** In a match every client but the incoming one is paid, or pays, and delivers, or receives, exactly
      what its own resting orders lost, at their own prices; and the incoming one the other way round
      what everybody else's lost. */
  lemma {:induction false} EverybodyMovesByLoss(o: Order, resting: seq<Order>, symbol: Symbol, now: Time, c: ClientId)
    ensures
      var s := Sweep(o, resting, symbol, now);
      MovedByLoss(s.trades, o, resting, s.rest, symbol, c)
    decreases |resting|
  {
    if o.quantity > 0 && resting != [] && Crosses(o, resting[0].price) {
      var q := Min(o.quantity, resting[0].quantity);
      var t := MakeTrade(o, resting[0], q, symbol, now);
      if o.quantity < resting[0].quantity {
        OneTradeMoves(t, o, resting, symbol, now, c);
      } else {
        var o' := o.(quantity := o.quantity - q);
        EverybodyMovesByLoss(o', resting[1..], symbol, now, c);
        var rest := Sweep(o', resting[1..], symbol, now);
        assert MovedByLoss(rest.trades, o, resting[1..], rest.rest, symbol, c);
        MoreTradesMove(t, rest.trades, o, resting, rest.rest, symbol, now, c);
      }
    } else {
      NothingMoves(o, resting, symbol, c);
    }
  }

  /** Trades in one symbol move shares of no other. */
  lemma {:induction false} OtherSharesStay(trades: seq<Trade>, symbol: Symbol, c: ClientId, s: Symbol)
    requires s != symbol && forall t :: t in trades ==> t.symbol == symbol
    ensures SharesFrom(trades, c, s) == 0
  {
    if trades != [] {
      assert trades[0] in trades;
      OtherSharesStay(trades[1..], symbol, c, s);
    }
  }

  lemma TradesInSymbol(o: Order, resting: seq<Order>, symbol: Symbol, now: Time)
    ensures forall t :: t in Sweep(o, resting, symbol, now).trades ==> t.symbol == symbol
  {
    PartiesOfTrades(o, resting, symbol, now);
    var trades := Sweep(o, resting, symbol, now).trades;
    forall t | t in trades ensures t.symbol == symbol {
      var i :| 0 <= i < |trades| && trades[i] == t;
      assert IsTradeBetween(trades[i], o, resting[i], symbol, now);
    }
  }

  /** A whole match, settled. Nobody's shares of another symbol change. */
  lemma MatchMovesPortfolios(e: E.Engine, o: Order, now: Time, c: ClientId, s: Symbol)
    requires o.symbol in e.books
    ensures
      var after, side, own := E.MatchAndSettle(e, o, now).engine, o.side.Other(), c != o.client;
      var had, has := Resting(e.books[o.symbol], side), Resting(after.books[o.symbol], side);
      var cash, shares := Worth(had, c, own) - Worth(has, c, own), Rests(had, c, own) - Rests(has, c, own);
      Cash(after.portfolios, c) == Cash(e.portfolios, c) + (if Delivers(o, c) then cash else -cash) &&
      Shares(after.portfolios, c, s) == Shares(e.portfolios, c, s) +
        (if s != o.symbol then 0 else if Delivers(o, c) then -shares else shares)
  {
    var resting := Resting(e.books[o.symbol], o.side.Other());
    var m := Match(e.books[o.symbol], o, o.symbol, now);
    EverybodyMovesByLoss(o, resting, o.symbol, now, c);
    TradesInSymbol(o, resting, o.symbol, now);
    if s != o.symbol { OtherSharesStay(m.trades, o.symbol, c, s); }
    A.SettleAllMoves(e.(books := e.books[o.symbol := m.book]), m.trades, c, s);
    SweptSide(e, o, now);
  }

  lemma SweptSide(e: E.Engine, o: Order, now: Time)
    requires o.symbol in e.books
    ensures
      Resting(E.MatchAndSettle(e, o, now).engine.books[o.symbol], o.side.Other()) ==
      Sweep(o, Resting(e.books[o.symbol], o.side.Other()), o.symbol, now).rest
  {}

  // ----- the last price

  /** The price of the last of the trades in a symbol or, if there is none, the price before. */
  function LastTraded(trades: seq<Trade>, s: Symbol, before: Price): Price
    decreases |trades|
  {
    if trades == [] then before
    else if trades[|trades| - 1].symbol == s then trades[|trades| - 1].price
    else LastTraded(trades[..|trades| - 1], s, before)
  }

  lemma {:induction false} LastTradedJoin(a: seq<Trade>, b: seq<Trade>, s: Symbol, before: Price)
    ensures LastTraded(a + b, s, before) == LastTraded(b, s, LastTraded(a, s, before))
    decreases |b|
  {
    if b == [] {
      assert a + b == a;
    } else {
      assert (a + b)[..|a + b| - 1] == a + b[..|b| - 1];
      LastTradedJoin(a, b[..|b| - 1], s, before);
    }
  }

  /** The symbols that some trade is in. */
  ghost function TradedIn(trades: seq<Trade>): set<Symbol> { set t | t in trades :: t.symbol }

  lemma {:induction false} SettledPrices(e: E.Engine, trades: seq<Trade>, s: Symbol)
    ensures E.PriceIn(E.SettleAll(e, trades).lastPrices, s) == LastTraded(trades, s, E.PriceIn(e.lastPrices, s))
    ensures E.SettleAll(e, trades).dirty == e.dirty + TradedIn(trades)
    decreases |trades|
  {
    if trades != [] {
      var e1 := E.SettleOne(e, trades[0]);
      SettledPrices(e1, trades[1..], s);
      assert trades == [trades[0]] + trades[1..];
      LastTradedJoin([trades[0]], trades[1..], s, E.PriceIn(e.lastPrices, s));
      assert [trades[0]][..0] == [];
    }
  }

  /** After a match the symbol's price is that of the last trade, if there was one, and it is marked as
      traded just then. Every other symbol keeps its price and its mark. */
  lemma MatchSetsPrice(e: E.Engine, o: Order, now: Time, s: Symbol)
    requires o.symbol in e.books
    ensures
      var m := E.MatchAndSettle(e, o, now);
      var trades := m.result.trades;
      E.PriceIn(m.engine.lastPrices, s) == (
        if s == o.symbol && trades != [] then trades[|trades| - 1].price else E.PriceIn(e.lastPrices, s)) &&
      m.engine.dirty == (if trades == [] then e.dirty else e.dirty + {o.symbol})
  {
    var m := Match(e.books[o.symbol], o, o.symbol, now);
    TradesInSymbol(o, Resting(e.books[o.symbol], o.side.Other()), o.symbol, now);
    SettledPrices(e.(books := e.books[o.symbol := m.book]), m.trades, s);
    OneSymbolTraded(m.trades, o.symbol, s, E.PriceIn(e.lastPrices, s));
  }

  lemma {:induction false} OneSymbolTraded(trades: seq<Trade>, symbol: Symbol, s: Symbol, before: Price)
    requires forall t :: t in trades ==> t.symbol == symbol
    ensures LastTraded(trades, s, before) ==
      if s == symbol && trades != [] then trades[|trades| - 1].price else before
    ensures TradedIn(trades) == if trades == [] then {} else {symbol}
    decreases |trades|
  {
    if trades != [] {
      assert trades[|trades| - 1] in trades;
      OneSymbolTraded(trades[..|trades| - 1], symbol, s, before);
    }
  }
}
