/** The market maker's cancel-and-requote step: however often it quotes, and whatever others do meanwhile,
    it never has more than one resting buy and one resting sell. */
module MarketMaker {
  import opened Types
  import opened PriceTimeList
  import opened Books
  import opened EngineModel
  import opened EngineRuns
  import OrderPlaces
  import Registry
  import Admission
  import ME = MatchingEngine

  /** The symbol quoted last and the orders remembered there; zero is none. */
  datatype Quotes = Quotes(symbol: Symbol, buy: OrderId, sell: OrderId)

  /** What a tick draws at random or reads elsewhere. */
  datatype Draw = Draw(symbol: Symbol, fallback: Price, buyQuantity: Quantity, sellQuantity: Quantity, now: Time)

  datatype Quoted = Quoted(quotes: Quotes, engine: Engine)

  function Larger(a: real, b: real): real { if a < b then b else a }

  function QuoteRequest(c: ClientId, side: Side, s: Symbol, quantity: Quantity, price: Price): OrderRequest {
    OrderRequest(c, side, Limit, s, quantity, price, None, None, None, None)
  }

  function Withdraw(e: Engine, s: Symbol, id: OrderId): Engine {
    if id != 0 then EngineModel.Cancel(e, s, id).engine else e
  }

  /** An order is remembered only if something is left of it. */
  function Remember(result: SubmitResult, quantity: Quantity): OrderId {
    if result.accepted && result.filled < quantity then result.orderId else 0
  }

  /** A quote posted on one side, and remembered. */
  function PostOne(e: Engine, c: ClientId, side: Side, q: Quotes, quantity: Quantity, price: Price, now: Time): Quoted {
    var posted := SubmitOrder(e, QuoteRequest(c, side, q.symbol, quantity, price), now);
    var id := Remember(posted.result, quantity);
    Quoted(if side == Buy then q.(buy := id) else q.(sell := id), posted.engine)
  }

  /** A buy posted and then a sell. */
  function PostBoth(e: Engine, c: ClientId, bid: Price, ask: Price, d: Draw): Quoted {
    var buy := PostOne(e, c, Buy, Quotes(d.symbol, 0, 0), d.buyQuantity, bid, d.now);
    PostOne(buy.engine, c, Sell, buy.quotes, d.sellQuantity, ask, d.now)
  }

  /** The last trade decides, and only without one what the market data say. */
  function MidPrice(e: Engine, s: Symbol, fallback: Price): Price {
    var last := PriceIn(e.lastPrices, s);
    if last <= 0.0 then fallback else last
  }

  function Bid(mid: Price, spread: real): Price { Larger(0.01, mid - mid * spread / 2.0) }

  function Ask(mid: Price, spread: real): Price { mid + mid * spread / 2.0 }

  /** Away from the smallest price the quotes lie evenly round the middle, the whole spread apart; they are
      in order exactly when the ask is above that price. */
  lemma QuotesAroundMiddle(mid: Price, spread: real)
    requires mid > 0.0 && spread > 0.0
    ensures Bid(mid, spread) >= 0.01 && Ask(mid, spread) > mid
    ensures Bid(mid, spread) < Ask(mid, spread) <==> Ask(mid, spread) > 0.01
    ensures Bid(mid, spread) > 0.01 ==>
      Bid(mid, spread) < mid && mid - Bid(mid, spread) == Ask(mid, spread) - mid &&
      Ask(mid, spread) - Bid(mid, spread) == mid * spread
  {
    assert mid * spread > 0.0;
  }

  function Requote(e: Engine, q: Quotes, c: ClientId, spread: real, d: Draw): Quoted {
    QuoteAround(Cleared(e, q), c, spread, d)
  }

  function Cleared(e: Engine, q: Quotes): Engine { Withdraw(Withdraw(e, q.symbol, q.buy), q.symbol, q.sell) }

  function QuoteAround(e: Engine, c: ClientId, spread: real, d: Draw): Quoted {
    var mid := MidPrice(e, d.symbol, d.fallback);
    if mid <= 0.0 then Quoted(Quotes(d.symbol, 0, 0), e)
    else PostBoth(e, c, Bid(mid, spread), Ask(mid, spread), d)
  }

  /** The last trade's price, failing that the other source's. */
  lemma MiddleIs(e: Engine, s: Symbol, fallback: Price)
    ensures MidPrice(e, s, fallback) ==
      if s in e.lastPrices && e.lastPrices[s] > 0.0 then e.lastPrices[s] else fallback
  {}

  /** With a price to go by, a tick submits a limit buy and then a limit sell, of the quantities drawn, and
      away from the smallest price evenly round the middle. */
  lemma TickSubmits(e: Engine, c: ClientId, spread: real, d: Draw) returns (buy: OrderRequest, sell: OrderRequest)
    requires MidPrice(e, d.symbol, d.fallback) > 0.0 && spread > 0.0
    ensures buy.side == Buy && sell.side == Sell && buy.client == c && sell.client == c
    ensures buy.kind == Limit && sell.kind == Limit && buy.symbol == d.symbol && sell.symbol == d.symbol
    ensures buy.quantity == d.buyQuantity && sell.quantity == d.sellQuantity && 0.01 <= buy.price
    ensures buy.price > 0.01 ==>
      var mid := MidPrice(e, d.symbol, d.fallback);
      buy.price < mid < sell.price && sell.price - buy.price == mid * spread && mid - buy.price == sell.price - mid
    ensures
      QuoteAround(e, c, spread, d).engine ==
      SubmitOrder(SubmitOrder(e, buy, d.now).engine, sell, d.now).engine
  {
    var mid := MidPrice(e, d.symbol, d.fallback);
    QuotesAroundMiddle(mid, spread);
    buy := QuoteRequest(c, Buy, d.symbol, d.buyQuantity, Bid(mid, spread));
    sell := QuoteRequest(c, Sell, d.symbol, d.sellQuantity, Ask(mid, spread));
  }

  // ----- where a client's orders are

  /** The client's orders of a list all carry this id. */
  ghost predicate Only(orders: seq<Order>, c: ClientId, id: OrderId) {
    forall x :: x in orders && x.client == c ==> x.id == id && id != 0
  }

  /** In this book the client has nothing but its quotes, and in any other nothing. */
  ghost predicate OnlyQuotes(e: Engine, s: Symbol, c: ClientId, q: Quotes)
    requires s in e.books
  {
    Only(e.books[s].bids, c, if s == q.symbol then q.buy else 0) &&
    Only(e.books[s].asks, c, if s == q.symbol then q.sell else 0)
  }

  ghost predicate BooksTidy(e: Engine, c: ClientId, q: Quotes) {
    forall s :: s in e.books ==> OnlyQuotes(e, s, c, q)
  }

  ghost predicate NoneWaiting(e: Engine, c: ClientId) { forall id :: id in e.waiting ==> e.waiting[id].client != c }

  ghost predicate Tidy(e: Engine, c: ClientId, q: Quotes) {
    OrderPlaces.PlacedOnce(e) && e.nextOrderId > 0 && NoneWaiting(e, c) && BooksTidy(e, c, q)
  }

  lemma {:induction false} IdsDiffer(orders: seq<Order>, i: nat, j: nat)
    requires Registry.NoRepeat(orders) && i < j < |orders|
    ensures orders[i].id != orders[j].id
  {
    if i > 0 {
      IdsDiffer(orders[1..], i - 1, j - 1);
    } else {
      assert orders[j] in orders[1..];
      assert orders[j].id in Registry.Ids(orders[1..]);
    }
  }

  /** Then it has at most one resting order on either side, over all books. */
  lemma OneQuoteASide(e: Engine, c: ClientId, q: Quotes, side: Side, s: Symbol, i: nat, t: Symbol, j: nat)
    requires Tidy(e, c, q) && s in e.books && t in e.books
    requires i < |Resting(e.books[s], side)| && Resting(e.books[s], side)[i].client == c
    requires j < |Resting(e.books[t], side)| && Resting(e.books[t], side)[j].client == c
    ensures s == t && i == j
  {
    assert OnlyQuotes(e, s, c, q) && OnlyQuotes(e, t, c, q);
    assert Resting(e.books[s], side)[i] in Resting(e.books[s], side);
    assert Resting(e.books[t], side)[j] in Resting(e.books[t], side);
    assert s == t;
    assert OrderPlaces.BookPlaced(e, s);
    if i < j { IdsDiffer(Resting(e.books[s], side), i, j); }
    if j < i { IdsDiffer(Resting(e.books[s], side), j, i); }
  }

  // ----- matches and cancellations, seen by one client

  lemma {:induction false} SweepOnly(o: Order, resting: seq<Order>, s: Symbol, now: Time, c: ClientId, id: OrderId)
    requires Only(resting, c, id)
    ensures Only(Sweep(o, resting, s, now).rest, c, id)
    decreases |resting|
  {
    if o.quantity > 0 && resting != [] && Crosses(o, resting[0].price) {
      assert resting[0] in resting;
      assert Only(resting[1..], c, id);
      if o.quantity >= resting[0].quantity {
        SweepOnly(o.(quantity := o.quantity - resting[0].quantity), resting[1..], s, now, c, id);
      }
    }
  }

  lemma {:induction false} InsertOnly(resting: seq<Order>, o: Order, c: ClientId, id: OrderId)
    requires Only(resting, c, id) && (o.client == c ==> o.id == id && id != 0)
    ensures Only(Insert(resting, o), c, id)
  {
    if resting != [] && !Before(o.side, o.price, resting[0].price) {
      assert resting[0] in resting;
      assert Only(resting[1..], c, id);
      InsertOnly(resting[1..], o, c, id);
    }
  }

  lemma {:induction false} RemoveOnly(resting: seq<Order>, id: OrderId, at: Option<Price>, c: ClientId, mine: OrderId)
    requires Only(resting, c, mine)
    ensures Only(Remove(resting, id, at), c, mine)
  {
    if resting != [] && !Hit(resting[0], id, at) {
      assert resting[0] in resting;
      assert Only(resting[1..], c, mine);
      RemoveOnly(resting[1..], id, at, c, mine);
    }
  }

  /** Taking out the client's one id leaves nothing of the client's. */
  lemma {:induction false} RemoveLeavesNone(resting: seq<Order>, c: ClientId, id: OrderId)
    requires Registry.NoRepeat(resting) && Only(resting, c, id)
    ensures Only(Remove(resting, id, None), c, 0)
  {
    if resting != [] {
      assert resting[0] in resting;
      assert Only(resting[1..], c, id);
      if Hit(resting[0], id, None) {
        forall x | x in resting[1..] ensures x.id in Registry.Ids(resting[1..]) {}
      } else {
        RemoveLeavesNone(resting[1..], c, id);
      }
    }
  }

  lemma {:induction false} NoHitLeavesNone(resting: seq<Order>, c: ClientId, id: OrderId)
    requires Only(resting, c, id) && !AnyHit(resting, id, None)
    ensures Only(resting, c, 0)
  {
    if resting != [] {
      assert resting[0] in resting;
      assert Only(resting[1..], c, id);
      NoHitLeavesNone(resting[1..], c, id);
    }
  }

  lemma {:induction false} SweepLeft(o: Order, resting: seq<Order>, s: Symbol, now: Time)
    ensures Sweep(o, resting, s, now).left == o.quantity - Filled(Sweep(o, resting, s, now).trades)
    decreases |resting|
  {
    if o.quantity > 0 && resting != [] && Crosses(o, resting[0].price) && o.quantity >= resting[0].quantity {
      var o' := o.(quantity := o.quantity - resting[0].quantity);
      SweepLeft(o', resting[1..], s, now);
      assert Sweep(o, resting, s, now).trades[1..] == Sweep(o', resting[1..], s, now).trades;
    }
  }

  /** Somebody else's match leaves the client's orders under the same ids. */
  lemma OthersMatch(b: Book, o: Order, s: Symbol, now: Time, c: ClientId, buy: OrderId, sell: OrderId)
    requires Only(b.bids, c, buy) && Only(b.asks, c, sell) && o.client != c
    ensures
      var b' := Match(b, o, s, now).book;
      Only(b'.bids, c, buy) && Only(b'.asks, c, sell)
  {
    var other, own := o.side.Other(), if o.side == Buy then buy else sell;
    SweepOnly(o, Resting(b, other), s, now, c, if o.side == Buy then sell else buy);
    InsertOnly(Resting(b, o.side), o.(quantity := Sweep(o, Resting(b, other), s, now).left), c, own);
  }

  /** The client's own match leaves at most the new order on its side, and that only if it is not filled. */
  lemma OwnMatch(b: Book, o: Order, s: Symbol, now: Time, other: OrderId)
    requires Only(Resting(b, o.side), o.client, 0) && Only(Resting(b, o.side.Other()), o.client, other) && o.id != 0
    ensures
      var m := Match(b, o, s, now);
      Only(Resting(m.book, o.side), o.client, if Filled(m.trades) < o.quantity then o.id else 0) &&
      Only(Resting(m.book, o.side.Other()), o.client, other)
  {
    var swept := Sweep(o, Resting(b, o.side.Other()), s, now);
    SweepOnly(o, Resting(b, o.side.Other()), s, now, o.client, other);
    SweepLeft(o, Resting(b, o.side.Other()), s, now);
    assert Only(Resting(b, o.side), o.client, o.id);
    InsertOnly(Resting(b, o.side), o.(quantity := swept.left), o.client, o.id);
  }

  // ----- one call of anybody else

  lemma OneBookTidy(e: Engine, e': Engine, s: Symbol, c: ClientId, q: Quotes)
    requires BooksTidy(e, c, q) && s in e.books && e'.books.Keys == e.books.Keys
    requires forall t :: t in e.books && t != s ==> e'.books[t] == e.books[t]
    requires OnlyQuotes(e', s, c, q)
    ensures BooksTidy(e', c, q)
  {
    forall t | t in e'.books ensures OnlyQuotes(e', t, c, q) {
      if t != s { assert OnlyQuotes(e, t, c, q); }
    }
  }

  lemma OthersMatchTidy(e: Engine, o: Order, now: Time, c: ClientId, q: Quotes)
    requires BooksTidy(e, c, q) && o.symbol in e.books && o.client != c
    ensures BooksTidy(MatchAndSettle(e, o, now).engine, c, q)
  {
    var s := o.symbol;
    assert OnlyQuotes(e, s, c, q);
    OthersMatch(e.books[s], o, s, now, c, if s == q.symbol then q.buy else 0, if s == q.symbol then q.sell else 0);
    OneBookTidy(e, MatchAndSettle(e, o, now).engine, s, c, q);
  }

  lemma {:induction false} OthersMatchAllTidy(e: Engine, orders: seq<Order>, now: Time, c: ClientId, q: Quotes)
    requires BooksTidy(e, c, q) && forall o :: o in orders ==> o.client != c
    ensures BooksTidy(MatchAll(e, orders, now), c, q)
    decreases |orders|
  {
    if orders != [] && orders[0].symbol in e.books {
      assert orders[0] in orders;
      OthersMatchTidy(e, orders[0], now, c, q);
      OthersMatchAllTidy(MatchAndSettle(e, orders[0], now).engine, orders[1..], now, c, q);
    }
  }

  lemma RemovalTidy(e: Engine, s: Symbol, side: Side, id: OrderId, at: Option<Price>, c: ClientId, q: Quotes)
    requires BooksTidy(e, c, q) && s in e.books
    ensures BooksTidy(
      e.(books := e.books[s := With(e.books[s], side, Remove(Resting(e.books[s], side), id, at))]), c, q)
  {
    assert OnlyQuotes(e, s, c, q);
    var mine := if s != q.symbol then 0 else if side == Buy then q.buy else q.sell;
    RemoveOnly(Resting(e.books[s], side), id, at, c, mine);
    var b := With(e.books[s], side, Remove(Resting(e.books[s], side), id, at));
    OneBookTidy(e, e.(books := e.books[s := b]), s, c, q);
  }

  lemma OthersAdmitTidy(e: Engine, o: Order, now: Time, c: ClientId, q: Quotes)
    requires BooksTidy(e, c, q) && NoneWaiting(e, c) && o.client != c && o.symbol in e.books
    ensures BooksTidy(Admit(e, o, now).engine, c, q) && NoneWaiting(Admit(e, o, now).engine, c)
  {
    if o.Started(now) && o.ReleaseBandContains(PriceIn(e.lastPrices, o.symbol)) {
      OthersMatchTidy(e, o, now, c, q);
      MatchAndSettleQuiet(e, o, now);
    } else {
      SameBooksTidy(e, Admit(e, o, now).engine, c, q);
    }
  }

  lemma SameBooksTidy(e: Engine, e': Engine, c: ClientId, q: Quotes)
    requires BooksTidy(e, c, q) && e'.books == e.books
    ensures BooksTidy(e', c, q)
  {
    forall s | s in e'.books ensures OnlyQuotes(e', s, c, q) { assert OnlyQuotes(e, s, c, q); }
  }

  lemma OthersSubmitTidy(e: Engine, r: OrderRequest, now: Time, c: ClientId, q: Quotes)
    requires BooksTidy(e, c, q) && NoneWaiting(e, c) && r.client != c
    ensures BooksTidy(SubmitOrder(e, r, now).engine, c, q) && NoneWaiting(SubmitOrder(e, r, now).engine, c)
  {
    var e1 := e.(nextOrderId := e.nextOrderId + 1);
    SameBooksTidy(e, e1, c, q);
    if Rejection(e1, r).None? { OthersAdmitTidy(e1, BuildOrder(r, e.nextOrderId, now), now, c, q); }
  }

  lemma OthersTickTidy(
      e: Engine, full: bool, now: Time, released: seq<Order>, expired: seq<Order>, c: ClientId, q: Quotes)
    requires BooksTidy(e, c, q) && NoneWaiting(e, c) && TickPicks(e, full, now, released, expired)
    ensures
      var e' := MatchAll(AfterScan(e, full, now), released, now);
      BooksTidy(e', c, q) && NoneWaiting(e', c)
  {
    var scanned := AfterScan(e, full, now);
    SameBooksTidy(e, scanned, c, q);
    forall o | o in released ensures o.client != c { assert e.waiting[o.id] == o; }
    OthersMatchAllTidy(scanned, released, now, c, q);
    MatchAllQuiet(scanned, released, now);
  }

  lemma RegisterTidy(e: Engine, s: Symbol, price: Price, c: ClientId, q: Quotes)
    requires BooksTidy(e, c, q)
    ensures BooksTidy(RegisterSymbol(e, s, price), c, q)
  {
    forall t | t in e.books ensures OnlyQuotes(RegisterSymbol(e, s, price), t, c, q) { assert OnlyQuotes(e, t, c, q); }
  }

  lemma IdsOnlyGrow(e: Engine, step: Step)
    requires Enabled(e, step)
    ensures Next(e, step).nextOrderId >= e.nextOrderId
  {
    if step.Tick? { MatchAllQuiet(AfterScan(e, step.full, step.now), step.released, step.now); }
  }

  /** Whatever others call, the market maker's orders are its quotes and nothing more. */
  lemma OthersStayTidy(e: Engine, step: Step, c: ClientId, q: Quotes)
    requires Tidy(e, c, q) && Enabled(e, step) && (step.Submit? ==> step.request.client != c)
    ensures Tidy(Next(e, step), c, q)
  {
    OrderPlaces.StepKeepsPlaces(e, step);
    IdsOnlyGrow(e, step);
    match step
    case Submit(r, now) => OthersSubmitTidy(e, r, now, c, q);
    case Tick(full, now, released, expired) => OthersTickTidy(e, full, now, released, expired, c, q);
    case CancelPriced(s, side, price, id) => if s in e.books { RemovalTidy(e, s, side, id, Some(price), c, q); }
    case Cancel(s, id) =>
      if s in e.books { RemovalTidy(e, s, if AnyHit(e.books[s].bids, id, None) then Buy else Sell, id, None, c, q); }
    case Register(s, price) => RegisterTidy(e, s, price, c, q);
    case _ => SameBooksTidy(e, Next(e, step), c, q);
  }

  // ----- one tick of its own

  /** Withdrawing the remembered buy leaves none of its buys, and then withdrawing the remembered sell
      none of its sells. */
  lemma BuyIsWithdrawn(e: Engine, c: ClientId, q: Quotes)
    requires Tidy(e, c, q)
    ensures Tidy(Withdraw(e, q.symbol, q.buy), c, q.(buy := 0))
  {
    var e', q' := Withdraw(e, q.symbol, q.buy), q.(buy := 0);
    OrderPlaces.StepKeepsPlaces(e, Step.Cancel(q.symbol, q.buy));
    if q.symbol in e.books {
      var b := e.books[q.symbol];
      assert OnlyQuotes(e, q.symbol, c, q) && OrderPlaces.BookPlaced(e, q.symbol);
      RemoveLeavesNone(b.bids, c, q.buy);
      RemoveOnly(b.asks, q.buy, None, c, q.sell);
      if !AnyHit(b.bids, q.buy, None) { NoHitLeavesNone(b.bids, c, q.buy); }
      assert OnlyQuotes(e', q.symbol, c, q');
    }
    forall s | s in e'.books && s != q.symbol ensures OnlyQuotes(e', s, c, q') { assert OnlyQuotes(e, s, c, q); }
  }

  lemma SellIsWithdrawn(e: Engine, c: ClientId, q: Quotes)
    requires Tidy(e, c, q) && q.buy == 0
    ensures Tidy(Withdraw(e, q.symbol, q.sell), c, q.(sell := 0))
  {
    var e', q' := Withdraw(e, q.symbol, q.sell), q.(sell := 0);
    OrderPlaces.StepKeepsPlaces(e, Step.Cancel(q.symbol, q.sell));
    if q.symbol in e.books {
      var b := e.books[q.symbol];
      assert OnlyQuotes(e, q.symbol, c, q) && OrderPlaces.BookPlaced(e, q.symbol);
      RemoveLeavesNone(b.asks, c, q.sell);
      RemoveOnly(b.bids, q.sell, None, c, 0);
      if AnyHit(b.bids, q.sell, None) { HitElsewhere(b, c, q.sell); }
      assert OnlyQuotes(e', q.symbol, c, q');
    }
    forall s | s in e'.books && s != q.symbol ensures OnlyQuotes(e', s, c, q') { assert OnlyQuotes(e, s, c, q); }
  }

  /** An id on the buy side is not on the sell side. */
  lemma HitElsewhere(b: Book, c: ClientId, id: OrderId)
    requires OrderPlaces.BookOk(b) && AnyHit(b.bids, id, None) && Only(b.asks, c, id)
    ensures Only(b.asks, c, 0)
  {
    HitHasId(b.bids, id);
    forall x | x in b.asks ensures x.id in Registry.Ids(b.asks) {}
  }

  lemma {:induction false} HitHasId(resting: seq<Order>, id: OrderId)
    requires AnyHit(resting, id, None)
    ensures id in Registry.Ids(resting)
  {
    if Hit(resting[0], id, None) { assert resting[0] in resting; } else { HitHasId(resting[1..], id); }
  }

  /** A quote posted on an empty side is at most the one order that is remembered. */
  lemma PostTidy(e: Engine, c: ClientId, q: Quotes, side: Side, quantity: Quantity, price: Price, now: Time)
    requires Tidy(e, c, q) && (if side == Buy then q.buy else q.sell) == 0
    ensures
      var posted := PostOne(e, c, side, q, quantity, price, now);
      Tidy(posted.engine, c, posted.quotes)
  {
    var r := QuoteRequest(c, side, q.symbol, quantity, price);
    OrderPlaces.StepKeepsPlaces(e, Step.Submit(r, now));
    Admission.PlainOrdersNeverWait(e, r, now);
    var e1 := e.(nextOrderId := e.nextOrderId + 1);
    SameBooksTidy(e, e1, c, q);
    if Rejection(e1, r).None? {
      PostedBook(e1, BuildOrder(r, e.nextOrderId, now), now, c, q);
      MatchAndSettleQuiet(e1, BuildOrder(r, e.nextOrderId, now), now);
    }
  }

  /** What is remembered rests: nothing is remembered of an order that was refused or filled. */
  lemma RememberedRests(e: Engine, c: ClientId, side: Side, q: Quotes, quantity: Quantity, price: Price, now: Time)
    requires q.symbol in e.books && e.nextOrderId > 0
    ensures
      var posted := PostOne(e, c, side, q, quantity, price, now);
      var id := if side == Buy then posted.quotes.buy else posted.quotes.sell;
      (id == 0 || id == e.nextOrderId) && q.symbol in posted.engine.books &&
      (id != 0 ==> exists x :: x in Resting(posted.engine.books[q.symbol], side) && x.id == id)
  {
    var r := QuoteRequest(c, side, q.symbol, quantity, price);
    var e1, o := e.(nextOrderId := e.nextOrderId + 1), BuildOrder(r, e.nextOrderId, now);
    if Rejection(e1, r).None? {
      MatchAndSettleQuiet(e1, o, now);
      LeftRests(e1.books[q.symbol], o, now);
    }
  }

  lemma LeftRests(b: Book, o: Order, now: Time)
    requires o.kind != Market
    ensures
      var m := Match(b, o, o.symbol, now);
      Filled(m.trades) < o.quantity ==> exists x :: x in Resting(m.book, o.side) && x.id == o.id
  {
    var swept := Sweep(o, Resting(b, o.side.Other()), o.symbol, now);
    SweepLeft(o, Resting(b, o.side.Other()), o.symbol, now);
    InsertedIsThere(Resting(b, o.side), o.(quantity := swept.left));
  }

  lemma {:induction false} InsertedIsThere(resting: seq<Order>, o: Order)
    ensures o in Insert(resting, o)
  {
    if resting != [] && !Before(o.side, o.price, resting[0].price) { InsertedIsThere(resting[1..], o); }
  }

  lemma PostedBook(e: Engine, o: Order, now: Time, c: ClientId, q: Quotes)
    requires BooksTidy(e, c, q) && o.symbol == q.symbol && q.symbol in e.books && o.client == c && o.id != 0
    requires (if o.side == Buy then q.buy else q.sell) == 0
    ensures
      var matched := MatchAndSettle(e, o, now);
      var id := if matched.result.filled < o.quantity then o.id else 0;
      BooksTidy(matched.engine, c, if o.side == Buy then q.(buy := id) else q.(sell := id))
  {
    var s, matched := o.symbol, MatchAndSettle(e, o, now);
    var id := if matched.result.filled < o.quantity then o.id else 0;
    var q' := if o.side == Buy then q.(buy := id) else q.(sell := id);
    assert OnlyQuotes(e, s, c, q);
    OwnMatch(e.books[s], o, s, now, if o.side == Buy then q.sell else q.buy);
    assert OnlyQuotes(matched.engine, s, c, q');
    forall t | t in matched.engine.books && t != s ensures OnlyQuotes(matched.engine, t, c, q') {
      assert OnlyQuotes(e, t, c, q);
    }
  }

  /** Both quotes withdrawn, it has nothing in any book, so any symbol may be next. */
  lemma ClearedTidy(e: Engine, q: Quotes, c: ClientId, next: Symbol)
    requires Tidy(e, c, q)
    ensures Tidy(Cleared(e, q), c, Quotes(next, 0, 0))
  {
    BuyIsWithdrawn(e, c, q);
    SellIsWithdrawn(Withdraw(e, q.symbol, q.buy), c, q.(buy := 0));
    NothingAnywhere(Cleared(e, q), c, q.symbol, next);
  }

  lemma NothingAnywhere(e: Engine, c: ClientId, s: Symbol, next: Symbol)
    requires Tidy(e, c, Quotes(s, 0, 0))
    ensures Tidy(e, c, Quotes(next, 0, 0))
  {
    forall t | t in e.books ensures OnlyQuotes(e, t, c, Quotes(next, 0, 0)) {
      assert OnlyQuotes(e, t, c, Quotes(s, 0, 0));
    }
  }

  lemma PostBothTidy(e: Engine, c: ClientId, bid: Price, ask: Price, d: Draw)
    requires Tidy(e, c, Quotes(d.symbol, 0, 0))
    ensures Tidy(PostBoth(e, c, bid, ask, d).engine, c, PostBoth(e, c, bid, ask, d).quotes)
  {
    var buy := PostOne(e, c, Buy, Quotes(d.symbol, 0, 0), d.buyQuantity, bid, d.now);
    PostTidy(e, c, Quotes(d.symbol, 0, 0), Buy, d.buyQuantity, bid, d.now);
    PostTidy(buy.engine, c, buy.quotes, Sell, d.sellQuantity, ask, d.now);
  }

  /** A whole tick, whatever it draws. */
  lemma RequoteTidy(e: Engine, q: Quotes, c: ClientId, spread: real, d: Draw)
    requires Tidy(e, c, q)
    ensures Tidy(Requote(e, q, c, spread, d).engine, c, Requote(e, q, c, spread, d).quotes)
  {
    var clear := Cleared(e, q);
    ClearedTidy(e, q, c, d.symbol);
    var mid := MidPrice(clear, d.symbol, d.fallback);
    if mid > 0.0 { PostBothTidy(clear, c, Bid(mid, spread), Ask(mid, spread), d); }
  }

  // ----- runs

  /** How far the bot's thread is in its tick, with the price it has seen. */
  datatype Phase = Between | BuyWithdrawn | BothWithdrawn | Picked | Priced(mid: Price) | BuyPosted(mid: Price)

  /** A call of anybody else, or what the bot does between two moments at which others can call. */
  datatype Move =
    | Others(step: Step)
    | WithdrawBuy
    | WithdrawSell
    | Pick(symbol: Symbol)
    | LookUp(fallback: Price)
    | PostBuy(quantity: Quantity, now: Time)
    | PostSell(quantity: Quantity, now: Time)

  datatype World = World(engine: Engine, quotes: Quotes, phase: Phase)

  ghost predicate MoveEnabled(w: World, m: Move, c: ClientId) {
    match m
    case Others(step) => Enabled(w.engine, step) && (step.Submit? ==> step.request.client != c)
    case WithdrawBuy => w.phase.Between?
    case WithdrawSell => w.phase.BuyWithdrawn?
    case Pick(_) => w.phase.BothWithdrawn?
    case LookUp(_) => w.phase.Picked?
    case PostBuy(_, _) => w.phase.Priced?
    case PostSell(_, _) => w.phase.BuyPosted?
  }

  function Posted(w: World, c: ClientId, side: Side, quantity: Quantity, price: Price, now: Time, next: Phase): World {
    var posted := PostOne(w.engine, c, side, w.quotes, quantity, price, now);
    World(posted.engine, posted.quotes, next)
  }

  ghost function After(w: World, m: Move, c: ClientId, spread: real): World
    requires MoveEnabled(w, m, c)
  {
    var e, q := w.engine, w.quotes;
    match m
    case Others(step) => w.(engine := Next(e, step))
    case WithdrawBuy => World(Withdraw(e, q.symbol, q.buy), q.(buy := 0), BuyWithdrawn)
    case WithdrawSell => World(Withdraw(e, q.symbol, q.sell), q.(sell := 0), BothWithdrawn)
    case Pick(s) => World(e, q.(symbol := s), Picked)
    case LookUp(fallback) =>
      var mid := MidPrice(e, q.symbol, fallback);
      w.(phase := if mid <= 0.0 then Between else Priced(mid))
    case PostBuy(quantity, now) =>
      Posted(w, c, Buy, quantity, Bid(w.phase.mid, spread), now, BuyPosted(w.phase.mid))
    case PostSell(quantity, now) => Posted(w, c, Sell, quantity, Ask(w.phase.mid, spread), now, Between)
  }

  /** If nobody else calls meanwhile, the moves of a tick are the tick. */
  lemma UndisturbedTick(w: World, c: ClientId, spread: real, d: Draw)
    requires w.phase.Between?
    ensures
      var cleared := After(After(w, WithdrawBuy, c, spread), WithdrawSell, c, spread);
      var looked := After(After(cleared, Pick(d.symbol), c, spread), LookUp(d.fallback), c, spread);
      var tick := Requote(w.engine, w.quotes, c, spread, d);
      if looked.phase.Between? then looked == World(tick.engine, tick.quotes, Between)
      else
        var bought := After(looked, PostBuy(d.buyQuantity, d.now), c, spread);
        After(bought, PostSell(d.sellQuantity, d.now), c, spread) == World(tick.engine, tick.quotes, Between)
  {}

  /** What the bot knows of its quotes in each phase. */
  ghost predicate KnowsItsQuotes(w: World, c: ClientId) {
    Tidy(w.engine, c, w.quotes) &&
    match w.phase
    case Between => true
    case BuyWithdrawn => w.quotes.buy == 0
    case BuyPosted(_) => w.quotes.sell == 0
    case _ => w.quotes.buy == 0 && w.quotes.sell == 0
  }

  lemma MoveKeepsQuotes(w: World, m: Move, c: ClientId, spread: real)
    requires MoveEnabled(w, m, c) && KnowsItsQuotes(w, c)
    ensures KnowsItsQuotes(After(w, m, c, spread), c)
  {
    var e, q := w.engine, w.quotes;
    match m
    case Others(step) => OthersStayTidy(e, step, c, q);
    case WithdrawBuy => BuyIsWithdrawn(e, c, q);
    case WithdrawSell => SellIsWithdrawn(e, c, q);
    case Pick(s) => NothingAnywhere(e, c, q.symbol, s);
    case LookUp(_) =>
    case PostBuy(quantity, now) => PostTidy(e, c, q, Buy, quantity, Bid(w.phase.mid, spread), now);
    case PostSell(quantity, now) => PostTidy(e, c, q, Sell, quantity, Ask(w.phase.mid, spread), now);
  }

  ghost predicate IsMarket(worlds: seq<World>, moves: seq<Move>, c: ClientId, spread: real) {
    |worlds| == |moves| + 1 && worlds[0] == World(EMPTY, Quotes("", 0, 0), Between) &&
    forall i :: 0 <= i < |moves| ==>
      MoveEnabled(worlds[i], moves[i], c) && worlds[i + 1] == After(worlds[i], moves[i], c, spread)
  }

  /** Over any number of ticks, with any calls of others between them and between the withdrawals, the
      look at the price and the submissions of one, the market maker has nothing but the quotes it
      remembers. */
  lemma {:induction false} AlwaysTidy(worlds: seq<World>, moves: seq<Move>, c: ClientId, spread: real)
    requires IsMarket(worlds, moves, c, spread)
    ensures KnowsItsQuotes(worlds[|moves|], c)
    decreases |moves|
  {
    if moves != [] {
      var n := |moves| - 1;
      AlwaysTidy(worlds[..n + 1], moves[..n], c, spread);
      MoveKeepsQuotes(worlds[n], moves[n], c, spread);
    }
  }

  /** So it has at most one resting buy and one resting sell over all symbols, at any moment. */
  lemma AtMostOneQuoteASide(
      worlds: seq<World>, moves: seq<Move>, c: ClientId, spread: real, side: Side, s: Symbol, i: nat, t: Symbol, j: nat)
    requires IsMarket(worlds, moves, c, spread)
    requires
      var books := worlds[|moves|].engine.books;
      s in books && t in books &&
      i < |Resting(books[s], side)| && Resting(books[s], side)[i].client == c &&
      j < |Resting(books[t], side)| && Resting(books[t], side)[j].client == c
    ensures s == t && i == j
  {
    AlwaysTidy(worlds, moves, c, spread);
    OneQuoteASide(worlds[|moves|].engine, c, worlds[|moves|].quotes, side, s, i, t, j);
  }

  // ----- the object

  class MarketMakerBot {
    const engine: ME.MatchingEngine
    const client: ClientId
    const spreadFraction: real
    var lastQuoteSymbol: Symbol
    var lastBuyOrder: OrderId
    var lastSellOrder: OrderId

    constructor (engine: ME.MatchingEngine, client: ClientId, spreadFraction: real)
      ensures this.engine == engine && this.client == client && this.spreadFraction == spreadFraction
      ensures Remembered() == Quotes("", 0, 0)
    {
      this.engine, this.client, this.spreadFraction := engine, client, spreadFraction;
      lastQuoteSymbol, lastBuyOrder, lastSellOrder := "", 0, 0;
    }

    ghost function Remembered(): Quotes
      reads this
    {
      Quotes(lastQuoteSymbol, lastBuyOrder, lastSellOrder)
    }

    method WithdrawLast(id: OrderId)
      requires engine.Valid()
      modifies engine`model, engine.books.Values
      ensures engine.Valid() && engine.model == Withdraw(old(engine.model), lastQuoteSymbol, id)
    {
      if id != 0 {
        var found := engine.CancelOrder(lastQuoteSymbol, id);
      }
    }

    method Post(side: Side, symbol: Symbol, quantity: Quantity, price: Price, now: Time) returns (id: OrderId)
      requires engine.Valid()
      modifies engine`nextOrderId, engine`portfolios, engine`lastPrices, engine`dirtySymbols, engine`model
      modifies engine.registry, engine.books.Values
      ensures engine.Valid()
      ensures
        var posted := SubmitOrder(old(engine.model), QuoteRequest(client, side, symbol, quantity, price), now);
        engine.model == posted.engine && id == Remember(posted.result, quantity)
    {
      var result := engine.SubmitOrder(QuoteRequest(client, side, symbol, quantity, price), now);
      id := if result.accepted && result.filled < quantity then result.orderId else 0;
    }

    method DropBuy()
      requires engine.Valid()
      modifies this`lastBuyOrder, engine`model, engine.books.Values
      ensures engine.Valid() && lastBuyOrder == 0
      ensures engine.model == Withdraw(old(engine.model), lastQuoteSymbol, old(lastBuyOrder))
    {
      WithdrawLast(lastBuyOrder);
      lastBuyOrder := 0;
    }

    method DropSell()
      requires engine.Valid()
      modifies this`lastSellOrder, engine`model, engine.books.Values
      ensures engine.Valid() && lastSellOrder == 0
      ensures engine.model == Withdraw(old(engine.model), lastQuoteSymbol, old(lastSellOrder))
    {
      WithdrawLast(lastSellOrder);
      lastSellOrder := 0;
    }

    method WithdrawQuotes()
      requires engine.Valid()
      modifies this`lastBuyOrder, this`lastSellOrder, engine`model, engine.books.Values
      ensures engine.Valid() && lastBuyOrder == 0 && lastSellOrder == 0
      ensures engine.model == Cleared(old(engine.model), old(Remembered()))
    {
      DropBuy();
      DropSell();
    }

    method PostBuy(d: Draw, bid: Price)
      requires engine.Valid()
      modifies this`lastBuyOrder
      modifies engine`nextOrderId, engine`portfolios, engine`lastPrices, engine`dirtySymbols, engine`model
      modifies engine.registry, engine.books.Values
      ensures engine.Valid()
      ensures Quoted(Quotes(d.symbol, lastBuyOrder, 0), engine.model) == PostOne(
        old(engine.model), client, Buy, Quotes(d.symbol, 0, 0), d.buyQuantity, bid, d.now)
    {
      lastBuyOrder := Post(Buy, d.symbol, d.buyQuantity, bid, d.now);
    }

    method PostSell(d: Draw, ask: Price)
      requires engine.Valid()
      modifies this`lastSellOrder
      modifies engine`nextOrderId, engine`portfolios, engine`lastPrices, engine`dirtySymbols, engine`model
      modifies engine.registry, engine.books.Values
      ensures engine.Valid()
      ensures Quoted(Quotes(d.symbol, lastBuyOrder, lastSellOrder), engine.model) == PostOne(
        old(engine.model), client, Sell, Quotes(d.symbol, lastBuyOrder, 0), d.sellQuantity, ask, d.now)
    {
      lastSellOrder := Post(Sell, d.symbol, d.sellQuantity, ask, d.now);
    }

    method PostQuotes(d: Draw, bid: Price, ask: Price)
      requires engine.Valid() && lastQuoteSymbol == d.symbol
      modifies this`lastBuyOrder, this`lastSellOrder
      modifies engine`nextOrderId, engine`portfolios, engine`lastPrices, engine`dirtySymbols, engine`model
      modifies engine.registry, engine.books.Values
      ensures engine.Valid() && Quoted(Remembered(), engine.model) == PostBoth(old(engine.model), client, bid, ask, d)
    {
      PostBuy(d, bid);
      PostSell(d, ask);
    }

    method Middle(d: Draw) returns (mid: Price)
      requires engine.Valid()
      ensures mid == MidPrice(engine.model, d.symbol, d.fallback)
    {
      mid := engine.LastPrice(d.symbol);
      if mid <= 0.0 { mid := d.fallback; }
    }

    method PricesAround(mid: Price) returns (bid: Price, ask: Price)
      ensures bid == Bid(mid, spreadFraction) && ask == Ask(mid, spreadFraction)
    {
      var halfSpread := mid * spreadFraction / 2.0;
      bid := Larger(0.01, mid - halfSpread);
      ask := mid + halfSpread;
    }

    /** Posts a buy and a sell around the symbol's price, if it has one. */
    method QuoteBothSides(d: Draw)
      requires engine.Valid() && lastQuoteSymbol == d.symbol && lastBuyOrder == 0 && lastSellOrder == 0
      modifies this`lastBuyOrder, this`lastSellOrder
      modifies engine`nextOrderId, engine`portfolios, engine`lastPrices, engine`dirtySymbols, engine`model
      modifies engine.registry, engine.books.Values
      ensures engine.Valid()
      ensures Quoted(Remembered(), engine.model) == QuoteAround(old(engine.model), client, spreadFraction, d)
    {
      var mid := Middle(d);
      if mid <= 0.0 { return; }
      var bid, ask := PricesAround(mid);
      PostQuotes(d, bid, ask);
    }

    /** Withdraws the last quotes, picks a symbol, and quotes it. */
    method Step(d: Draw)
      requires engine.Valid()
      modifies this, engine`nextOrderId, engine`portfolios, engine`lastPrices, engine`dirtySymbols, engine`model
      modifies engine.registry, engine.books.Values
      ensures engine.Valid()
      ensures
        Quoted(Remembered(), engine.model) ==
        Requote(old(engine.model), old(Remembered()), client, spreadFraction, d)
    {
      WithdrawQuotes();
      lastQuoteSymbol := d.symbol;
      QuoteBothSides(d);
    }
  }
}
