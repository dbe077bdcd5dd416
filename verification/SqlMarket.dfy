/** The SQL market: its two books of sorted rows, and the auction and continuous sweeps over them. */
module SqlMarket {
  import opened Types
  import opened Crossing
  import opened MapOrder

  type Books = map<ActionId, seq<Row>>

  datatype Transaction = Transaction(action: ActionId, fill: Fill, price: Price)

  function Rows(books: Books, action: ActionId): seq<Row> { if action in books then books[action] else [] }

  ghost predicate AllSorted(side: Side, books: Books) { forall a :: a in books ==> Sorted(side, books[a]) }

  // ----- insertion and removal

  lemma {:induction false} SortedAt(side: Side, rows: seq<Row>, i: nat, j: nat)
    requires Sorted(side, rows) && i < j < |rows|
    ensures !Priority(side, rows[j], rows[i])
  {
    if i == 0 { assert rows[j] == rows[1..][j - 1]; } else { SortedAt(side, rows[1..], i - 1, j - 1); }
  }

  lemma AheadBefore(side: Side, rows: seq<Row>, r: Row, i: nat, m: nat)
    requires Sorted(side, rows) && i <= m < |rows| && Priority(side, rows[m], r)
    ensures Priority(side, rows[i], r)
  {
    if i < m {
      SortedAt(side, rows, i, m);
      if !Priority(side, rows[i], r) { NotBehind(side, r, rows[i], rows[m]); }
    }
  }

  /** The first row that `r` need not stand behind, by bisection. */
  method LowerBound(side: Side, rows: seq<Row>, r: Row) returns (first: nat)
    requires Sorted(side, rows)
    ensures first <= |rows|
    ensures forall i :: 0 <= i < first ==> Priority(side, rows[i], r)
    ensures first < |rows| ==> !Priority(side, rows[first], r)
  {
    first := 0;
    var length := |rows|;
    while length > 0
      invariant 0 <= length && first + length <= |rows|
      invariant forall i :: 0 <= i < first ==> Priority(side, rows[i], r)
      invariant first + length < |rows| ==> !Priority(side, rows[first + length], r)
    {
      var half := length / 2;
      var middle := first + half;
      if Priority(side, rows[middle], r) {
        forall i | 0 <= i <= middle ensures Priority(side, rows[i], r) { AheadBefore(side, rows, r, i, middle); }
        first := middle + 1;
        length := length - half - 1;
      } else {
        length := half;
      }
    }
  }

  /** Drops the first row with that id, if there is one. */
  function EraseId(rows: seq<Row>, id: int): seq<Row> {
    if rows == [] then [] else if rows[0].orderId == id then rows[1..] else [rows[0]] + EraseId(rows[1..], id)
  }

  lemma {:induction false} EraseIdMembers(rows: seq<Row>, id: int, x: Row)
    requires x in EraseId(rows, id)
    ensures x in rows
  {
    if rows != [] && rows[0].orderId != id && x != rows[0] {
      assert x in EraseId(rows[1..], id);
      EraseIdMembers(rows[1..], id, x);
    }
  }

  lemma {:induction false} EraseIdSorted(side: Side, rows: seq<Row>, id: int)
    requires Sorted(side, rows)
    ensures Sorted(side, EraseId(rows, id))
  {
    if rows != [] && rows[0].orderId != id {
      EraseIdSorted(side, rows[1..], id);
      assert EraseId(rows, id)[1..] == EraseId(rows[1..], id);
      forall x | x in EraseId(rows[1..], id) ensures !Priority(side, x, rows[0]) { EraseIdMembers(rows[1..], id, x); }
    }
  }

  lemma {:induction false} EraseIdAt(rows: seq<Row>, id: int, k: nat)
    requires k <= |rows| && (forall i :: 0 <= i < k ==> rows[i].orderId != id) && (k < |rows| ==> rows[k].orderId == id)
    ensures EraseId(rows, id) == if k < |rows| then rows[..k] + rows[k + 1..] else rows
  {
    if k > 0 {
      EraseIdAt(rows[1..], id, k - 1);
      assert rows == [rows[0]] + rows[1..];
      if k < |rows| {
        assert rows[..k] == [rows[0]] + rows[1..][..k - 1];
        assert rows[1..][k..] == rows[k + 1..];
      }
    }
  }

  /** Taking an order back undoes adding it. */
  lemma {:induction false} EraseUndoesInsert(side: Side, rows: seq<Row>, r: Row)
    requires forall x :: x in rows ==> x.orderId != r.orderId
    ensures EraseId(InsertRow(side, rows, r), r.orderId) == rows
  {
    var after := InsertRow(side, rows, r);
    if rows != [] && Priority(side, rows[0], r) {
      EraseUndoesInsert(side, rows[1..], r);
      assert after[1..] == InsertRow(side, rows[1..], r);
      assert rows == [rows[0]] + rows[1..];
    } else {
      assert after[1..] == rows;
    }
  }

  // ----- the transactions of a sweep

  /** The price fixed last in this session. */
  function LastPrice(done: seq<Transaction>): Price {
    if done == [] then 0.0 else done[|done| - 1].price
  }

  /** The transactions after one more fill. `quote` answers the look-ups of an action's last price,
      numbered by the transactions made so far. */
  function RecordOne(
      before: seq<Transaction>, f: Fill, action: ActionId, quote: (ActionId, nat) -> Price): seq<Transaction>
  {
    before + [Transaction(action, f, Resolve(f, quote(action, |before|), LastPrice(before)))]
  }

  function Record(
      before: seq<Transaction>, fills: seq<Fill>, action: ActionId, quote: (ActionId, nat) -> Price): seq<Transaction>
  {
    if fills == [] then before
    else RecordOne(Record(before, fills[..|fills| - 1], action, quote), fills[|fills| - 1], action, quote)
  }

  /** The fills of one action among the transactions made since there were `from` of them. */
  function FillsSince(from: nat, done: seq<Transaction>, action: ActionId): seq<Fill>
    decreases |done|
  {
    if |done| <= from then []
    else
      var last := |done| - 1;
      FillsSince(from, done[..last], action) + if done[last].action == action then [done[last].fill] else []
  }

  lemma FillsSinceOne(from: nat, done: seq<Transaction>, t: Transaction, action: ActionId)
    requires from <= |done|
    ensures
      FillsSince(from, done + [t], action) ==
      if t.action == action then FillsSince(from, done, action) + [t.fill] else FillsSince(from, done, action)
  {
    assert (done + [t])[..|done|] == done;
  }

  lemma LastApart(fills: seq<Fill>)
    requires fills != []
    ensures fills[..|fills| - 1] + [fills[|fills| - 1]] == fills
  {}

  lemma RecordOneFills(
      from: nat, done: seq<Transaction>, prior: seq<Fill>, fills: seq<Fill>, f: Fill,
      action: ActionId, other: ActionId, quote: (ActionId, nat) -> Price)
    requires from <= |done|
    requires FillsSince(from, done, other) == if action == other then prior + fills else prior
    ensures
      FillsSince(from, RecordOne(done, f, action, quote), other) ==
      if action == other then prior + (fills + [f]) else prior
  {
    FillsSinceOne(from, done, Transaction(action, f, Resolve(f, quote(action, |done|), LastPrice(done))), other);
    assert (prior + fills) + [f] == prior + (fills + [f]);
  }

  lemma {:induction false} FillsOfRecord(
      from: nat, before: seq<Transaction>, fills: seq<Fill>, action: ActionId, other: ActionId,
      quote: (ActionId, nat) -> Price)
    requires from <= |before|
    ensures |Record(before, fills, action, quote)| == |before| + |fills|
    ensures
      FillsSince(from, Record(before, fills, action, quote), other) ==
      if action == other then FillsSince(from, before, other) + fills else FillsSince(from, before, other)
  {
    if fills != [] {
      var init, f := fills[..|fills| - 1], fills[|fills| - 1];
      FillsOfRecord(from, before, init, action, other, quote);
      RecordOneFills(
        from, Record(before, init, action, quote), FillsSince(from, before, other), init, f, action, other, quote);
      LastApart(fills);
    }
  }

  /** Everything ever traded respected the limits. */
  ghost predicate AllWithinLimits(done: seq<Transaction>) {
    forall t :: t in done ==> WithinLimits(t.fill, t.price) && t.fill.quantity > 0
  }

  lemma {:induction false} RecordWithinLimits(
      before: seq<Transaction>, fills: seq<Fill>, action: ActionId, quote: (ActionId, nat) -> Price)
    requires AllWithinLimits(before) && forall f :: f in fills ==> f.quantity > 0 && f.buyer.price >= f.seller.price
    ensures AllWithinLimits(Record(before, fills, action, quote))
  {
    if fills != [] { RecordWithinLimits(before, fills[..|fills| - 1], action, quote); }
  }

  lemma CrossLimits(
      buys: seq<Row>, sells: seq<Row>, clients: set<ClientId>, ids: nat -> int, n: nat,
      action: ActionId, before: seq<Transaction>, quote: (ActionId, nat) -> Price)
    requires AllWithinLimits(before)
    ensures AllWithinLimits(Record(before, Cross(buys, sells, clients, ids, n).fills, action, quote))
  {
    CrossConserves(buys, sells, clients, ids, n);
    RecordWithinLimits(before, Cross(buys, sells, clients, ids, n).fills, action, quote);
  }

  // ----- when a sweep has a single price

  /** The limit at which share number `t` of a side is asked or offered, or none if a MARKET order does. */
  function LimitAt(rows: seq<Row>, t: int): Option<Price> {
    if rows == [] then None
    else if t < rows[0].quantity then (if rows[0].trigger == MarketTrigger then None else Some(rows[0].price))
    else LimitAt(rows[1..], t - rows[0].quantity)
  }

  /** What share number `t` changes hands at: the seller's limit, failing that the buyer's. */
  function ShareLimit(buys: seq<Row>, sells: seq<Row>, t: int): Option<Price> {
    if LimitAt(sells, t).Some? then LimitAt(sells, t) else LimitAt(buys, t)
  }

  /** How many pairs of orders trade before the pair that share number `t` passes between. */
  function PairsBefore(buys: seq<Row>, sells: seq<Row>, t: int): nat
    decreases |buys| + |sells|
  {
    if buys == [] || sells == [] then 0
    else
      var q := Min(buys[0].quantity, sells[0].quantity);
      if t < q then 0 else 1 + PairsBefore(Rest(buys, q, 0), Rest(sells, q, 0), t - q)
  }

  /** Share number `t` passes at `p`: at the limit that decides it or, between two MARKET orders, at the
      price that is looked up if that is positive and failing that the last one. `made` transactions came
      before, the last at `last`. */
  ghost predicate ShareAt(
      buys: seq<Row>, sells: seq<Row>, made: nat, last: Price, action: ActionId, quote: (ActionId, nat) -> Price,
      t: int, p: Price)
  {
    match ShareLimit(buys, sells, t)
    case Some(limit) => limit == p
    case None =>
      var k := PairsBefore(buys, sells, t);
      var looked := quote(action, made + k);
      p == if looked > 0.0 then looked else if k == 0 then last else p
  }

  /** So do the first `v` shares. */
  ghost predicate SharesAt(
      buys: seq<Row>, sells: seq<Row>, made: nat, last: Price, action: ActionId, quote: (ActionId, nat) -> Price,
      v: int, p: Price)
  {
    forall t :: 0 <= t < v ==> ShareAt(buys, sells, made, last, action, quote, t, p)
  }

  /** Every transaction made since there were `from` of them is at `p`. */
  ghost predicate AllAt(done: seq<Transaction>, from: nat, p: Price) {
    |done| <= from || (done[|done| - 1].price == p && AllAt(done[..|done| - 1], from, p))
  }

  lemma {:induction false} RecordExtends(
      before: seq<Transaction>, fills: seq<Fill>, action: ActionId, quote: (ActionId, nat) -> Price)
    ensures before <= Record(before, fills, action, quote)
    ensures |Record(before, fills, action, quote)| == |before| + |fills|
  {
    if fills != [] { RecordExtends(before, fills[..|fills| - 1], action, quote); }
  }

  // ----- the price of every transaction

  /** A transaction is at the seller's limit, opposite a MARKET seller at the buyer's; between two MARKET
      orders at the price looked up for the action, if that is positive, whatever was traded before, and
      only otherwise at the price of the transaction before it. */
  ghost predicate PricedByRule(t: Transaction, looked: Price, last: Price) {
    (t.fill.seller.trigger != MarketTrigger ==> t.price == t.fill.seller.price) &&
    (t.fill.seller.trigger == MarketTrigger && t.fill.buyer.trigger != MarketTrigger ==>
       t.price == t.fill.buyer.price) &&
    (t.fill.seller.trigger == MarketTrigger && t.fill.buyer.trigger == MarketTrigger ==>
       (looked > 0.0 ==> t.price == looked) && (looked <= 0.0 ==> t.price == last))
  }

  ghost predicate ByRule(done: seq<Transaction>, k: nat, quote: (ActionId, nat) -> Price)
    requires k < |done|
  {
    PricedByRule(done[k], quote(done[k].action, k), if k == 0 then 0.0 else done[k - 1].price)
  }

  /** Every transaction made since there were `from` of them. */
  ghost predicate AllByRule(done: seq<Transaction>, from: nat, quote: (ActionId, nat) -> Price) {
    forall k :: from <= k < |done| ==> ByRule(done, k, quote)
  }

  lemma LastByRule(before: seq<Transaction>, f: Fill, action: ActionId, quote: (ActionId, nat) -> Price, from: nat)
    requires AllByRule(before, from, quote)
    ensures AllByRule(RecordOne(before, f, action, quote), from, quote)
  {
    var done := RecordOne(before, f, action, quote);
    forall k | from <= k < |done| ensures ByRule(done, k, quote) {
      if k < |before| { assert ByRule(before, k, quote); }
    }
  }

  /** Every transaction of a sweep is priced so. */
  lemma {:induction false} RecordByRule(
      before: seq<Transaction>, fills: seq<Fill>, action: ActionId, quote: (ActionId, nat) -> Price, from: nat)
    requires AllByRule(before, from, quote)
    ensures AllByRule(Record(before, fills, action, quote), from, quote)
  {
    if fills != [] {
      RecordByRule(before, fills[..|fills| - 1], action, quote, from);
      LastByRule(
        Record(before, fills[..|fills| - 1], action, quote), fills[|fills| - 1], action, quote, from);
    }
  }

  /** The first fill may be recorded first. */
  lemma {:induction false} RecordFirst(
      before: seq<Transaction>, f: Fill, fills: seq<Fill>, action: ActionId, quote: (ActionId, nat) -> Price)
    ensures
      Record(before, [f] + fills, action, quote) == Record(RecordOne(before, f, action, quote), fills, action, quote)
    decreases |fills|
  {
    var all := [f] + fills;
    if fills == [] {
      assert all[..0] == [] && all[|all| - 1] == f;
    } else {
      RecordFirst(before, f, fills[..|fills| - 1], action, quote);
      assert all[..|all| - 1] == [f] + fills[..|fills| - 1];
    }
  }

  lemma LimitAfter(rows: seq<Row>, q: int, id: int, t: int)
    requires rows != [] && 0 < q <= rows[0].quantity && q <= t
    ensures LimitAt(Rest(rows, q, id), t - q) == LimitAt(rows, t)
  {
    if rows[0].quantity > q { assert Rest(rows, q, id)[1..] == rows[1..]; }
  }

  lemma {:induction false} PairsIgnoreIds(buys: seq<Row>, sells: seq<Row>, buys': seq<Row>, sells': seq<Row>, t: int)
    requires SameRows(buys, buys') && SameRows(sells, sells')
    ensures PairsBefore(buys, sells, t) == PairsBefore(buys', sells', t)
    decreases |buys| + |sells|
  {
    if buys != [] && sells != [] {
      var q := Min(buys[0].quantity, sells[0].quantity);
      RestIgnoresIds(buys, buys', q, 0, 0);
      RestIgnoresIds(sells, sells', q, 0, 0);
      if t >= q { PairsIgnoreIds(Rest(buys, q, 0), Rest(sells, q, 0), Rest(buys', q, 0), Rest(sells', q, 0), t - q); }
    }
  }

  lemma PairsAfter(buys: seq<Row>, sells: seq<Row>, q: int, id: int, t: int)
    requires buys != [] && sells != [] && q == Min(buys[0].quantity, sells[0].quantity) <= t
    ensures PairsBefore(buys, sells, t) == 1 + PairsBefore(Rest(buys, q, id), Rest(sells, q, id), t - q)
  {
    SameRowsReflexive(buys);
    SameRowsReflexive(sells);
    RestIgnoresIds(buys, buys, q, 0, id);
    RestIgnoresIds(sells, sells, q, 0, id);
    PairsIgnoreIds(Rest(buys, q, 0), Rest(sells, q, 0), Rest(buys, q, id), Rest(sells, q, id), t - q);
  }

  lemma ShareAfter(
      buys: seq<Row>, sells: seq<Row>, q: int, id: int, made: nat, last: Price,
      action: ActionId, quote: (ActionId, nat) -> Price, t: int, p: Price)
    requires buys != [] && sells != [] && 0 < q == Min(buys[0].quantity, sells[0].quantity) <= t
    ensures
      ShareAt(buys, sells, made, last, action, quote, t, p) <==>
      ShareAt(Rest(buys, q, id), Rest(sells, q, id), made + 1, p, action, quote, t - q, p)
  {
    LimitAfter(buys, q, id, t);
    LimitAfter(sells, q, id, t);
    PairsAfter(buys, sells, q, id, t);
  }

  /** One fill decides its own shares, and what it leaves decides the others. */
  lemma SharesAfter(
      buys: seq<Row>, sells: seq<Row>, q: int, id: int, made: nat, last: Price,
      action: ActionId, quote: (ActionId, nat) -> Price, v: int, p: Price)
    requires buys != [] && sells != [] && 0 < q == Min(buys[0].quantity, sells[0].quantity) <= v
    ensures
      SharesAt(buys, sells, made, last, action, quote, v, p) <==>
      ShareAt(buys, sells, made, last, action, quote, 0, p) &&
      SharesAt(Rest(buys, q, id), Rest(sells, q, id), made + 1, p, action, quote, v - q, p)
  {
    var b, s, next := Rest(buys, q, id), Rest(sells, q, id), made + 1;
    forall t | 0 <= t < v
      ensures
        ShareAt(buys, sells, made, last, action, quote, t, p) <==>
        if t < q then ShareAt(buys, sells, made, last, action, quote, 0, p)
        else ShareAt(b, s, next, p, action, quote, t - q, p)
    {
      if t >= q { ShareAfter(buys, sells, q, id, made, last, action, quote, t, p); }
    }
    if SharesAt(buys, sells, made, last, action, quote, v, p) {
      forall t | 0 <= t < v - q ensures ShareAt(b, s, next, p, action, quote, t, p) {
        assert ShareAt(buys, sells, made, last, action, quote, t + q, p);
        assert t + q - q == t;
      }
    }
  }

  /** The fills, recorded after `before`, are all at `p` exactly when the shares they move pass at it. */
  ghost predicate PricedAt(
      buys: seq<Row>, sells: seq<Row>, fills: seq<Fill>,
      action: ActionId, before: seq<Transaction>, quote: (ActionId, nat) -> Price, p: Price)
  {
    AllAt(Record(before, fills, action, quote), |before|, p) <==>
    SharesAt(buys, sells, |before|, LastPrice(before), action, quote, Volume(fills), p)
  }

  lemma PricedAfter(
      buys: seq<Row>, sells: seq<Row>, id: int, f: Fill, rest: seq<Fill>,
      action: ActionId, before: seq<Transaction>, quote: (ActionId, nat) -> Price, p: Price)
    requires buys != [] && sells != [] && f == Fill(buys[0], sells[0], Min(buys[0].quantity, sells[0].quantity))
    requires f.quantity > 0 && Volume(rest) >= 0
    requires PricedAt(
      Rest(buys, f.quantity, id), Rest(sells, f.quantity, id), rest,
      action, RecordOne(before, f, action, quote), quote, p)
    ensures PricedAt(buys, sells, [f] + rest, action, before, quote, p)
  {
    assert ([f] + rest)[1..] == rest;
    SharesAfter(
      buys, sells, f.quantity, id, |before|, LastPrice(before), action, quote, f.quantity + Volume(rest), p);
    FirstIsAt(before, f, rest, action, quote, p);
    HeadShare(buys, sells, |before|, LastPrice(before), action, quote, p);
  }

  /** The first fill of a sweep and what it leaves. */
  lemma FirstFill(buys: seq<Row>, sells: seq<Row>, clients: set<ClientId>, ids: nat -> int, n: nat)
    returns (f: Fill, b: seq<Row>, s: seq<Row>, m: nat)
    requires buys != [] && sells != [] && CanTrade(buys[0], sells[0], clients)
    ensures f == Fill(buys[0], sells[0], Min(buys[0].quantity, sells[0].quantity)) && f.quantity > 0
    ensures b == Rest(buys, f.quantity, ids(n + 2)) && s == Rest(sells, f.quantity, ids(n + 2))
    ensures |b| + |s| < |buys| + |sells| && Volume(Cross(b, s, clients, ids, m).fills) >= 0
    ensures Cross(buys, sells, clients, ids, n).fills == [f] + Cross(b, s, clients, ids, m).fills
    ensures Volume(Cross(buys, sells, clients, ids, n).fills) == f.quantity + Volume(Cross(b, s, clients, ids, m).fills)
  {
    f := Fill(buys[0], sells[0], Min(buys[0].quantity, sells[0].quantity));
    b, s, m := Rest(buys, f.quantity, ids(n + 2)), Rest(sells, f.quantity, ids(n + 2)), n + IdsDrawn(f.buyer, f.seller);
    CrossStep(buys, sells, clients, ids, n, f, Cross(b, s, clients, ids, m));
    CrossConserves(b, s, clients, ids, m);
    VolumeNonNegative(Cross(b, s, clients, ids, m).fills);
  }

  lemma {:induction false} PricedExactly(
      buys: seq<Row>, sells: seq<Row>, clients: set<ClientId>, ids: nat -> int, n: nat,
      action: ActionId, before: seq<Transaction>, quote: (ActionId, nat) -> Price, p: Price)
    ensures PricedAt(buys, sells, Cross(buys, sells, clients, ids, n).fills, action, before, quote, p)
    decreases |buys| + |sells|
  {
    if buys != [] && sells != [] && CanTrade(buys[0], sells[0], clients) {
      var f, b, s, m := FirstFill(buys, sells, clients, ids, n);
      PricedExactly(b, s, clients, ids, m, action, RecordOne(before, f, action, quote), quote, p);
      PricedAfter(buys, sells, ids(n + 2), f, Cross(b, s, clients, ids, m).fills, action, before, quote, p);
    }
  }

  lemma HeadShare(
      buys: seq<Row>, sells: seq<Row>, made: nat, last: Price,
      action: ActionId, quote: (ActionId, nat) -> Price, p: Price)
    requires buys != [] && sells != [] && buys[0].quantity > 0 && sells[0].quantity > 0
    ensures
      ShareAt(buys, sells, made, last, action, quote, 0, p) <==>
      Resolve(Fill(buys[0], sells[0], Min(buys[0].quantity, sells[0].quantity)), quote(action, made), last) == p
  {}

  lemma {:induction false} AllAtFirst(done: seq<Transaction>, from: nat, p: Price)
    requires from < |done|
    ensures AllAt(done, from, p) <==> done[from].price == p && AllAt(done, from + 1, p)
  {
    if from + 1 < |done| {
      AllAtFirst(done[..|done| - 1], from, p);
      assert done[..|done| - 1][from] == done[from];
    }
  }

  lemma FirstIsAt(
      before: seq<Transaction>, f: Fill, rest: seq<Fill>, action: ActionId, quote: (ActionId, nat) -> Price, p: Price)
    ensures
      var price, before' := Resolve(f, quote(action, |before|), LastPrice(before)), RecordOne(before, f, action, quote);
      LastPrice(before') == price &&
      (AllAt(Record(before, [f] + rest, action, quote), |before|, p) <==>
       price == p && AllAt(Record(before', rest, action, quote), |before'|, p))
  {
    var before' := RecordOne(before, f, action, quote);
    var done := Record(before', rest, action, quote);
    RecordFirst(before, f, rest, action, quote);
    RecordExtends(before', rest, action, quote);
    assert done[|before|] == before'[|before|];
    AllAtFirst(done, |before|, p);
  }

  lemma {:induction false} VolumeNonNegative(fills: seq<Fill>)
    requires forall f :: f in fills ==> f.quantity > 0
    ensures Volume(fills) >= 0
  {
    if fills != [] {
      assert fills[0] in fills;
      VolumeNonNegative(fills[1..]);
    }
  }

  /** A sweep does not always execute at a single price. It does at `p` exactly when every share that
      trades, taking both sides in price-time order share by share, passes at `p`: at the seller's limit,
      opposite a MARKET seller at the buyer's, and between two MARKET orders at the price looked up. */
  lemma SinglePriceExactly(
      buys: seq<Row>, sells: seq<Row>, clients: set<ClientId>, ids: nat -> int, n: nat,
      action: ActionId, before: seq<Transaction>, quote: (ActionId, nat) -> Price, v: int, p: Price)
    requires Sorted(Buy, buys) && Sorted(Sell, sells)
    requires IsGreatestVolume(Head(buys, clients), Head(sells, clients), v)
    ensures
      AllAt(Record(before, Cross(buys, sells, clients, ids, n).fills, action, quote), |before|, p) <==>
      SharesAt(buys, sells, |before|, LastPrice(before), action, quote, v, p)
  {
    CrossTradesTheGreatestVolume(buys, sells, clients, ids, n);
    PricedExactly(buys, sells, clients, ids, n, action, before, quote, p);
  }

  function DrawnBy(fills: seq<Fill>): nat {
    if fills == [] then 0
    else DrawnBy(fills[..|fills| - 1]) + IdsDrawn(fills[|fills| - 1].buyer, fills[|fills| - 1].seller)
  }

  lemma RecordMore(
      before: seq<Transaction>, done: seq<Fill>, f: Fill, action: ActionId, quote: (ActionId, nat) -> Price)
    ensures
      Record(before, done + [f], action, quote) == RecordOne(Record(before, done, action, quote), f, action, quote)
    ensures DrawnBy(done + [f]) == DrawnBy(done) + IdsDrawn(f.buyer, f.seller)
  {
    assert (done + [f])[..|done|] == done;
  }

  // ----- sweeps

  /** Both sides from where the sweep has got to, and the fills made on the way, amount to the whole crossing. */
  ghost predicate OnCourse(
      whole: Crossed, done: seq<Fill>, buys: seq<Row>, sells: seq<Row>, clients: set<ClientId>, ids: nat -> int, n: nat)
  {
    var rest := Cross(buys, sells, clients, ids, n);
    whole.buys == rest.buys && whole.sells == rest.sells && whole.fills == done + rest.fills
  }

  lemma Regrouped(a: seq<Fill>, b: seq<Fill>, c: seq<Fill>)
    ensures a + (b + c) == (a + b) + c
  {}

  lemma StayOnCourse(
      whole: Crossed, done: seq<Fill>, buys: seq<Row>, sells: seq<Row>, clients: set<ClientId>, ids: nat -> int, n: nat,
      f: Fill, buys': seq<Row>, sells': seq<Row>, n': nat)
    requires OnCourse(whole, done, buys, sells, clients, ids, n)
    requires buys != [] && sells != [] && CanTrade(buys[0], sells[0], clients)
    requires f == Fill(buys[0], sells[0], Min(buys[0].quantity, sells[0].quantity))
    requires buys' == Rest(buys, f.quantity, ids(n + 2)) && sells' == Rest(sells, f.quantity, ids(n + 2))
    requires n' == n + IdsDrawn(f.buyer, f.seller)
    ensures OnCourse(whole, done + [f], buys', sells', clients, ids, n')
  {
    var rest := Cross(buys', sells', clients, ids, n');
    CrossStep(buys, sells, clients, ids, n, f, rest);
    Regrouped(done, [f], rest.fills);
  }

  /** What a sweep of one action has to amount to, whatever ids it gives the remainders: the crossing
      of the rows that were there. */
  ghost predicate Swept(
      buys: seq<Row>, sells: seq<Row>, buys': seq<Row>, sells': seq<Row>, fills: seq<Fill>, clients: set<ClientId>)
  {
    SameCrossing(Cross(buys, sells, clients, n => 0, 0), Crossed(buys', sells', fills))
  }

  /** Everything about a market that a sweep may change. */
  datatype State = State(buys: Books, sells: Books, drawn: nat, done: seq<Transaction>)

  /** Sweeping one action: the crossing of its rows, recorded and put back. */
  function SweepAction(
      m: State, action: ActionId, clients: set<ClientId>, ids: nat -> int, quote: (ActionId, nat) -> Price): State
  {
    var c := Cross(Rows(m.buys, action), Rows(m.sells, action), clients, ids, m.drawn);
    State(
      m.buys[action := c.buys], m.sells[action := c.sells], m.drawn + DrawnBy(c.fills),
      Record(m.done, c.fills, action, quote))
  }

  /** Since `m0` this action's fills and rows have become those of the crossing of the rows it had. */
  ghost predicate Fixed(m0: State, m: State, action: ActionId, clients: set<ClientId>) {
    Swept(
      Rows(m0.buys, action), Rows(m0.sells, action), Rows(m.buys, action), Rows(m.sells, action),
      FillsSince(|m0.done|, m.done, action), clients)
  }

  ghost predicate Untouched(m0: State, m: State, action: ActionId) {
    Rows(m.buys, action) == Rows(m0.buys, action) && Rows(m.sells, action) == Rows(m0.sells, action) &&
    FillsSince(|m0.done|, m.done, action) == []
  }

  lemma SweepFixes(
      m0: State, m: State, action: ActionId, clients: set<ClientId>, ids: nat -> int, quote: (ActionId, nat) -> Price)
    requires Untouched(m0, m, action) && |m0.done| <= |m.done|
    ensures Fixed(m0, SweepAction(m, action, clients, ids, quote), action, clients)
  {
    var buys, sells := Rows(m.buys, action), Rows(m.sells, action);
    var c := Cross(buys, sells, clients, ids, m.drawn);
    FillsOfRecord(|m0.done|, m.done, c.fills, action, action, quote);
    SameRowsReflexive(buys);
    SameRowsReflexive(sells);
    CrossIgnoresIds(buys, sells, n => 0, 0, buys, sells, ids, m.drawn, clients);
    assert [] + c.fills == c.fills;
  }

  lemma SweepLeavesOthers(
      m0: State, m: State, action: ActionId, other: ActionId,
      clients: set<ClientId>, ids: nat -> int, quote: (ActionId, nat) -> Price)
    requires other != action && |m0.done| <= |m.done|
    ensures Untouched(m0, m, other) ==> Untouched(m0, SweepAction(m, action, clients, ids, quote), other)
    ensures Fixed(m0, m, other, clients) ==> Fixed(m0, SweepAction(m, action, clients, ids, quote), other, clients)
  {
    SameElsewhere(|m0.done|, m, action, other, clients, ids, quote);
    SameForAction(m0, m, SweepAction(m, action, clients, ids, quote), other, clients);
  }

  lemma SameElsewhere(
      from: nat, m: State, action: ActionId, other: ActionId,
      clients: set<ClientId>, ids: nat -> int, quote: (ActionId, nat) -> Price)
    requires other != action && from <= |m.done|
    ensures
      var m' := SweepAction(m, action, clients, ids, quote);
      Rows(m'.buys, other) == Rows(m.buys, other) && Rows(m'.sells, other) == Rows(m.sells, other) &&
      FillsSince(from, m'.done, other) == FillsSince(from, m.done, other)
  {
    var c := Cross(Rows(m.buys, action), Rows(m.sells, action), clients, ids, m.drawn);
    FillsOfRecord(from, m.done, c.fills, action, other, quote);
  }

  lemma SameForAction(m0: State, m: State, m': State, action: ActionId, clients: set<ClientId>)
    requires Rows(m'.buys, action) == Rows(m.buys, action) && Rows(m'.sells, action) == Rows(m.sells, action)
    requires FillsSince(|m0.done|, m'.done, action) == FillsSince(|m0.done|, m.done, action)
    ensures Untouched(m0, m, action) ==> Untouched(m0, m', action)
    ensures Fixed(m0, m, action, clients) ==> Fixed(m0, m', action, clients)
  {}

  /** A sweep adds transactions to those made, all priced by the rule. */
  lemma SweepByRule(
      m: State, action: ActionId, clients: set<ClientId>, ids: nat -> int, quote: (ActionId, nat) -> Price, from: nat)
    requires AllByRule(m.done, from, quote)
    ensures
      var done := SweepAction(m, action, clients, ids, quote).done;
      m.done <= done && AllByRule(done, from, quote)
  {
    var c := Cross(Rows(m.buys, action), Rows(m.sells, action), clients, ids, m.drawn);
    RecordExtends(m.done, c.fills, action, quote);
    RecordByRule(m.done, c.fills, action, quote, from);
  }

  lemma NothingToFix(m0: State, m: State, action: ActionId, clients: set<ClientId>)
    requires Untouched(m0, m, action)
    ensures action !in m.buys || action !in m.sells ==> Fixed(m0, m, action, clients)
  {
    SameRowsReflexive(Rows(m.buys, action));
    SameRowsReflexive(Rows(m.sells, action));
  }

  class Market {
    var buyOrders: Books
    var sellOrders: Books
    var exchangePrice: Price
    var clients: set<ClientId>
    /** How many fresh order ids have been drawn. */
    var drawn: nat
    var transactions: seq<Transaction>
    const freshId: nat -> int
    const quote: (ActionId, nat) -> Price

    ghost function Now(): State
      reads this
    {
      State(buyOrders, sellOrders, drawn, transactions)
    }

    ghost predicate Valid()
      reads this
    {
      AllSorted(Buy, buyOrders) && AllSorted(Sell, sellOrders) && AllWithinLimits(transactions) &&
      exchangePrice == LastPrice(transactions)
    }

    constructor (clients: set<ClientId>, freshId: nat -> int, quote: (ActionId, nat) -> Price)
      ensures Valid() && buyOrders == map[] && sellOrders == map[] && transactions == [] && drawn == 0
      ensures this.clients == clients && this.freshId == freshId && this.quote == quote
    {
      buyOrders, sellOrders, exchangePrice, drawn, transactions := map[], map[], 0.0, 0, [];
      this.clients, this.freshId, this.quote := clients, freshId, quote;
    }

    /** An unknown client's order is refused; any other is inserted at its price-time priority. */
    method AccumulateOrder(side: Side, action: ActionId, order: Row)
      requires Valid()
      modifies this`buyOrders, this`sellOrders
      ensures Valid()
      ensures buyOrders == if order.client in clients && side == Buy
        then old(buyOrders)[action := InsertRow(Buy, Rows(old(buyOrders), action), order)] else old(buyOrders)
      ensures sellOrders == if order.client in clients && side == Sell
        then old(sellOrders)[action := InsertRow(Sell, Rows(old(sellOrders), action), order)] else old(sellOrders)
    {
      if order.client !in clients { return; }
      var rows := Rows(if side == Buy then buyOrders else sellOrders, action);
      var at := LowerBound(side, rows, order);
      InsertRowAt(side, rows, order, at);
      InsertRowSorted(side, rows, order);
      rows := rows[..at] + [order] + rows[at..];
      if side == Buy { buyOrders := buyOrders[action := rows]; } else { sellOrders := sellOrders[action := rows]; }
    }

    method DeaccumulateOrder(client: ClientId, id: int, side: Side, action: ActionId)
      requires Valid()
      modifies this`buyOrders, this`sellOrders
      ensures Valid()
      ensures buyOrders == if client in clients && side == Buy
        then old(buyOrders)[action := EraseId(Rows(old(buyOrders), action), id)] else old(buyOrders)
      ensures sellOrders == if client in clients && side == Sell
        then old(sellOrders)[action := EraseId(Rows(old(sellOrders), action), id)] else old(sellOrders)
    {
      if client !in clients { return; }
      var rows := Rows(if side == Buy then buyOrders else sellOrders, action);
      var at := 0;
      while at < |rows| && rows[at].orderId != id
        invariant 0 <= at <= |rows|
        invariant forall i :: 0 <= i < at ==> rows[i].orderId != id
      {
        at := at + 1;
      }
      EraseIdAt(rows, id, at);
      EraseIdSorted(side, rows, id);
      if at < |rows| { rows := rows[..at] + rows[at + 1..]; }
      if side == Buy { buyOrders := buyOrders[action := rows]; } else { sellOrders := sellOrders[action := rows]; }
    }

    /** Settles one pair and draws the ids of its two completed halves. */
    method Execute(action: ActionId, f: Fill)
      requires exchangePrice == LastPrice(transactions)
      modifies this`exchangePrice, this`transactions, this`drawn
      ensures transactions == RecordOne(old(transactions), f, action, quote)
      ensures PricedByRule(transactions[|transactions| - 1], quote(action, |old(transactions)|), old(exchangePrice))
      ensures exchangePrice == LastPrice(transactions) && drawn == old(drawn) + 2
    {
      exchangePrice := Resolve(f, quote(action, |transactions|), exchangePrice);
      transactions := transactions + [Transaction(action, f, exchangePrice)];
      drawn := drawn + 2;
    }

    /** A row with quantity left takes its own place again under a fresh id; a filled one is passed. */
    method Advance(rows: seq<Row>, i: nat, q: int) returns (rows': seq<Row>, i': nat)
      requires i < |rows|
      modifies this`drawn
      ensures i' <= |rows'| && rows'[i'..] == Rest(rows[i..], q, freshId(old(drawn)))
      ensures drawn == old(drawn) + if rows[i].quantity > q then 1 else 0
      ensures |rows'| - i' == |rows| - i - if rows[i].quantity > q then 0 else 1
    {
      rows', i' := rows, i;
      if rows[i].quantity > q {
        rows' := rows[i := rows[i].(orderId := freshId(drawn), quantity := rows[i].quantity - q)];
        drawn := drawn + 1;
      } else {
        i' := i + 1;
      }
    }

    /** A sweep that began with `before` recorded and `n` ids drawn has got to these rows. */
    ghost predicate Underway(
        whole: Crossed, done: seq<Fill>, action: ActionId, before: seq<Transaction>, n: nat,
        buys: seq<Row>, sells: seq<Row>)
      reads this
    {
      OnCourse(whole, done, buys, sells, clients, freshId, drawn) && drawn == n + DrawnBy(done) &&
      transactions == Record(before, done, action, quote) && exchangePrice == LastPrice(transactions)
    }

    /** One pair trades. */
    method Trade(action: ActionId, buys: seq<Row>, i: nat, sells: seq<Row>, j: nat)
      returns (buys': seq<Row>, i': nat, sells': seq<Row>, j': nat)
      requires i < |buys| && j < |sells| && exchangePrice == LastPrice(transactions)
      modifies this`exchangePrice, this`transactions, this`drawn
      ensures i' <= |buys'| && j' <= |sells'|
      ensures
        var q := Min(buys[i].quantity, sells[j].quantity);
        buys'[i'..] == Rest(buys[i..], q, freshId(old(drawn) + 2)) &&
        sells'[j'..] == Rest(sells[j..], q, freshId(old(drawn) + 2)) &&
        transactions == RecordOne(old(transactions), Fill(buys[i], sells[j], q), action, quote)
      ensures exchangePrice == LastPrice(transactions) && drawn == old(drawn) + IdsDrawn(buys[i], sells[j])
      ensures |buys'| - i' + |sells'| - j' < |buys| - i + |sells| - j
    {
      var q := Min(buys[i].quantity, sells[j].quantity);
      Execute(action, Fill(buys[i], sells[j], q));
      buys', i' := Advance(buys, i, q);
      if buys[i].quantity > q { assert Rest(sells[j..], q, freshId(drawn)) == sells[j..][1..]; }
      sells', j' := Advance(sells, j, q);
    }

    /** The trade keeps the sweep on course. */
    method TradeUnderway(
        action: ActionId, buys: seq<Row>, i: nat, sells: seq<Row>, j: nat,
        ghost whole: Crossed, ghost done: seq<Fill>, ghost before: seq<Transaction>, ghost n: nat)
      returns (buys': seq<Row>, i': nat, sells': seq<Row>, j': nat)
      requires i < |buys| && j < |sells| && CanTrade(buys[i], sells[j], clients)
      requires Underway(whole, done, action, before, n, buys[i..], sells[j..])
      modifies this`exchangePrice, this`transactions, this`drawn
      ensures i' <= |buys'| && j' <= |sells'| && |buys'| - i' + |sells'| - j' < |buys| - i + |sells| - j
      ensures
        var f := Fill(buys[i], sells[j], Min(buys[i].quantity, sells[j].quantity));
        Underway(whole, done + [f], action, before, n, buys'[i'..], sells'[j'..])
    {
      ghost var f, drawn0 := Fill(buys[i], sells[j], Min(buys[i].quantity, sells[j].quantity)), drawn;
      buys', i', sells', j' := Trade(action, buys, i, sells, j);
      StayOnCourse(
        whole, done, buys[i..], sells[j..], clients, freshId, drawn0, f, buys'[i'..], sells'[j'..], drawn);
      RecordMore(before, done, f, action, quote);
    }

    /** The sweep is over: the filled prefix of either side goes. */
    method ErasePrefixes(
        action: ActionId, buys: seq<Row>, i: nat, sells: seq<Row>, j: nat,
        ghost done: seq<Fill>, ghost before: seq<Transaction>, ghost n: nat)
      requires AllSorted(Buy, buyOrders) && AllSorted(Sell, sellOrders) && AllWithinLimits(before)
      requires action in buyOrders && action in sellOrders && i <= |buys| && j <= |sells|
      requires i == |buys| || j == |sells| || !CanTrade(buys[i], sells[j], clients)
      requires
        var whole := Cross(buyOrders[action], sellOrders[action], clients, freshId, n);
        Underway(whole, done, action, before, n, buys[i..], sells[j..])
      modifies this`buyOrders, this`sellOrders
      ensures Valid()
      ensures
        Now() == SweepAction(State(old(buyOrders), old(sellOrders), n, before), action, clients, freshId, quote)
    {
      ghost var whole := Cross(buyOrders[action], sellOrders[action], clients, freshId, n);
      assert done == whole.fills && buys[i..] == whole.buys && sells[j..] == whole.sells;
      assert Sorted(Buy, buys[i..]) && Sorted(Sell, sells[j..]) by {
        CrossSorted(buyOrders[action], sellOrders[action], clients, freshId, n);
      }
      assert AllWithinLimits(transactions) by {
        CrossLimits(buyOrders[action], sellOrders[action], clients, freshId, n, action, before, quote);
      }
      buyOrders := buyOrders[action := buys[i..]];
      sellOrders := sellOrders[action := sells[j..]];
    }

    /** The auction's sweep of two sides with two indices, until nothing more trades. */
    method SweepSides(action: ActionId, buys0: seq<Row>, sells0: seq<Row>, ghost whole: Crossed)
      returns (buys: seq<Row>, i: nat, sells: seq<Row>, j: nat, ghost done: seq<Fill>)
      requires Underway(whole, [], action, transactions, drawn, buys0, sells0)
      modifies this`exchangePrice, this`transactions, this`drawn
      ensures i <= |buys| && j <= |sells| && (i == |buys| || j == |sells| || !CanTrade(buys[i], sells[j], clients))
      ensures Underway(whole, done, action, old(transactions), old(drawn), buys[i..], sells[j..])
    {
      buys, i, sells, j, done := buys0, 0, sells0, 0, [];
      while i < |buys| && j < |sells|
        invariant i <= |buys| && j <= |sells|
        invariant Underway(whole, done, action, old(transactions), old(drawn), buys[i..], sells[j..])
        decreases |buys| - i + |sells| - j
      {
        if buys[i].client !in clients || sells[j].client !in clients { break; }
        if buys[i].price < sells[j].price { break; }
        if buys[i].quantity <= 0 || sells[j].quantity <= 0 { break; }
        ghost var f := Fill(buys[i], sells[j], Min(buys[i].quantity, sells[j].quantity));
        buys, i, sells, j := TradeUnderway(action, buys, i, sells, j, whole, done, old(transactions), old(drawn));
        done := done + [f];
      }
    }

    /** One turn of the auction: both books of one action swept from the front. */
    method FixAction(action: ActionId)
      requires Valid() && action in buyOrders && action in sellOrders
      modifies this`buyOrders, this`sellOrders, this`exchangePrice, this`transactions, this`drawn
      ensures Valid() && Now() == SweepAction(old(Now()), action, clients, freshId, quote)
    {
      ghost var whole := Cross(buyOrders[action], sellOrders[action], clients, freshId, drawn);
      var buys, i, sells, j, done := SweepSides(action, buyOrders[action], sellOrders[action], whole);
      ErasePrefixes(action, buys, i, sells, j, done, old(transactions), old(drawn));
    }

    /** The continuous sweep of two sides; here the price is looked at first. */
    method SweepSidesByPrice(action: ActionId, buys0: seq<Row>, sells0: seq<Row>, ghost whole: Crossed)
      returns (buys: seq<Row>, i: nat, sells: seq<Row>, j: nat, ghost done: seq<Fill>)
      requires Underway(whole, [], action, transactions, drawn, buys0, sells0)
      modifies this`exchangePrice, this`transactions, this`drawn
      ensures i <= |buys| && j <= |sells| && (i == |buys| || j == |sells| || !CanTrade(buys[i], sells[j], clients))
      ensures Underway(whole, done, action, old(transactions), old(drawn), buys[i..], sells[j..])
    {
      buys, i, sells, j, done := buys0, 0, sells0, 0, [];
      while i < |buys| && j < |sells|
        invariant i <= |buys| && j <= |sells|
        invariant Underway(whole, done, action, old(transactions), old(drawn), buys[i..], sells[j..])
        decreases |buys| - i + |sells| - j
      {
        if buys[i].price < sells[j].price { break; }
        if buys[i].client !in clients || sells[j].client !in clients { break; }
        if buys[i].quantity <= 0 || sells[j].quantity <= 0 { break; }
        ghost var f := Fill(buys[i], sells[j], Min(buys[i].quantity, sells[j].quantity));
        buys, i, sells, j := TradeUnderway(action, buys, i, sells, j, whole, done, old(transactions), old(drawn));
        done := done + [f];
      }
    }

    method SweepContinuously(action: ActionId)
      requires Valid() && action in buyOrders && action in sellOrders
      modifies this`buyOrders, this`sellOrders, this`exchangePrice, this`transactions, this`drawn
      ensures Valid() && Now() == SweepAction(old(Now()), action, clients, freshId, quote)
    {
      ghost var whole := Cross(buyOrders[action], sellOrders[action], clients, freshId, drawn);
      var buys, i, sells, j, done := SweepSidesByPrice(action, buyOrders[action], sellOrders[action], whole);
      ErasePrefixes(action, buys, i, sells, j, done, old(transactions), old(drawn));
    }

    /** The sweep of one action when an order has just come in. */
    method ProcessContinuousTrading(action: ActionId)
      requires Valid()
      modifies this`buyOrders, this`sellOrders, this`exchangePrice, this`transactions, this`drawn
      ensures Valid() && Fixed(old(Now()), Now(), action, clients)
      ensures Now() == if action in old(buyOrders) && action in old(sellOrders)
        then SweepAction(old(Now()), action, clients, freshId, quote) else old(Now())
      ensures old(transactions) <= transactions && AllByRule(transactions, |old(transactions)|, quote)
    {
      ghost var start := Now();
      SweepByRule(start, action, clients, freshId, quote, |start.done|);
      NothingToFix(start, start, action, clients);
      SweepFixes(start, start, action, clients, freshId, quote);
      if action in buyOrders && action in sellOrders { SweepContinuously(action); }
    }

    /** The auction over every action that has a buy side, whichever order they are taken in. */
    method ProcessFixing()
      requires Valid()
      modifies this`buyOrders, this`sellOrders, this`exchangePrice, this`transactions, this`drawn
      ensures Valid()
      ensures forall a :: Fixed(old(Now()), Now(), a, clients)
      ensures old(transactions) <= transactions && AllByRule(transactions, |old(transactions)|, quote)
    {
      var todo := buyOrders.Keys;
      ghost var start := Now();
      forall a ensures Untouched(start, Now(), a) && (a !in todo ==> Fixed(start, Now(), a, clients)) {
        if a !in todo { NothingToFix(start, Now(), a, clients); }
      }
      while todo != {}
        invariant Valid() && todo <= buyOrders.Keys
        invariant start.done <= transactions && AllByRule(transactions, |start.done|, quote)
        invariant forall a :: a in todo ==> Untouched(start, Now(), a)
        invariant forall a :: a !in todo ==> Fixed(start, Now(), a, clients)
        decreases |todo|
      {
        var action := PickOne(todo);
        ghost var before := Now();
        if action in sellOrders {
          FixAction(action);
          SweepByRule(before, action, clients, freshId, quote, |start.done|);
          AfterTurn(start, before, todo, action);
        } else {
          NothingToFix(start, before, action, clients);
        }
        todo := todo - {action};
      }
    }

    lemma AfterTurn(start: State, before: State, todo: set<ActionId>, action: ActionId)
      requires action in todo && |start.done| <= |before.done|
      requires Now() == SweepAction(before, action, clients, freshId, quote)
      requires forall a :: a in todo ==> Untouched(start, before, a)
      requires forall a :: a !in todo ==> Fixed(start, before, a, clients)
      ensures |start.done| <= |transactions|
      ensures forall a :: a in todo && a != action ==> Untouched(start, Now(), a)
      ensures forall a :: a !in todo || a == action ==> Fixed(start, Now(), a, clients)
    {
      var c := Cross(Rows(before.buys, action), Rows(before.sells, action), clients, freshId, before.drawn);
      FillsOfRecord(0, before.done, c.fills, action, action, quote);
      SweepFixes(start, before, action, clients, freshId, quote);
      forall a | a != action
        ensures Untouched(start, before, a) ==> Untouched(start, Now(), a)
        ensures Fixed(start, before, a, clients) ==> Fixed(start, Now(), a, clients)
      {
        SweepLeavesOthers(start, before, action, a, clients, freshId, quote);
      }
    }
  }

  // ----- what a sweep means, whatever the ids

  lemma {:induction false} SameRowsMeaning(a: seq<Row>, b: seq<Row>)
    requires SameRows(a, b)
    ensures Pending(a) == Pending(b)
    ensures forall x :: x in b ==> exists y :: y in a && y.price == x.price && y.quantity == x.quantity
  {
    if a != [] {
      SameRowsMeaning(a[1..], b[1..]);
      forall x | x in b ensures exists y :: y in a && y.price == x.price && y.quantity == x.quantity {
        if x == b[0] {
          assert a[0] in a && a[0].price == x.price && a[0].quantity == x.quantity;
        } else {
          assert x in b[1..];
          var y :| y in a[1..] && y.price == x.price && y.quantity == x.quantity;
          assert y in a;
        }
      }
    }
  }

  lemma {:induction false} SameRowsBack(a: seq<Row>, b: seq<Row>)
    requires SameRows(a, b)
    ensures SameRows(b, a)
  {
    if a != [] { SameRowsBack(a[1..], b[1..]); }
  }

  lemma {:induction false} SameHeads(a: seq<Row>, b: seq<Row>, clients: set<ClientId>)
    requires SameRows(a, b)
    ensures SameRows(Head(a, clients), Head(b, clients))
  {
    if Head(a, clients) != [] {
      SameHeads(a[1..], b[1..], clients);
      assert Head(a, clients)[1..] == Head(a[1..], clients) && Head(b, clients)[1..] == Head(b[1..], clients);
    }
  }

  lemma {:induction false} SameFillsMeaning(a: seq<Fill>, b: seq<Fill>)
    requires SameFills(a, b)
    ensures Volume(a) == Volume(b)
  {
    if a != [] { SameFillsMeaning(a[1..], b[1..]); }
  }

  lemma SameUncrossed(buys: seq<Row>, sells: seq<Row>, buys': seq<Row>, sells': seq<Row>)
    requires SameRows(buys, buys') && SameRows(sells, sells')
    ensures Uncrossed(buys, sells) ==> Uncrossed(buys', sells')
    ensures NothingLeftCrosses(buys, sells) ==> NothingLeftCrosses(buys', sells')
  {
    SameRowsMeaning(buys, buys');
    SameRowsMeaning(sells, sells');
  }

  /** After either sweep of an action: pending plus completed quantity is what it was on both sides; up to
      the first row that stops it, nothing left crosses and the volume is the greatest any single price
      allows. Of the whole sides it is the greatest if and only if nothing with quantity left crosses. */
  lemma SweptMeaning(
      buys: seq<Row>, sells: seq<Row>, buys': seq<Row>, sells': seq<Row>, fills: seq<Fill>, clients: set<ClientId>)
    requires Swept(buys, sells, buys', sells', fills, clients)
    ensures Pending(buys') + Volume(fills) == Pending(buys) && Pending(sells') + Volume(fills) == Pending(sells)
    ensures Sorted(Buy, buys) && Sorted(Sell, sells) ==>
      Uncrossed(Head(buys', clients), Head(sells', clients)) &&
      IsGreatestVolume(Head(buys, clients), Head(sells, clients), Volume(fills)) &&
      (NoneNegative(buys) && NoneNegative(sells) ==>
        (IsGreatestVolume(buys, sells, Volume(fills)) <==> NothingLeftCrosses(buys', sells'))) &&
      (Tradable(buys, clients) && Tradable(sells, clients) ==>
        Uncrossed(buys', sells') && IsGreatestVolume(buys, sells, Volume(fills)))
  {
    var c := Cross(buys, sells, clients, n => 0, 0);
    CrossConserves(buys, sells, clients, n => 0, 0);
    SameRowsMeaning(c.buys, buys');
    SameRowsMeaning(c.sells, sells');
    SameFillsMeaning(c.fills, fills);
    if Sorted(Buy, buys) && Sorted(Sell, sells) {
      CrossUncrosses(buys, sells, clients, n => 0, 0);
      CrossTradesTheGreatestVolume(buys, sells, clients, n => 0, 0);
      SameHeads(c.buys, buys', clients);
      SameHeads(c.sells, sells', clients);
      SameUncrossed(Head(c.buys, clients), Head(c.sells, clients), Head(buys', clients), Head(sells', clients));
      if NoneNegative(buys) && NoneNegative(sells) {
        GreatestOfWholeSides(buys, sells, clients, n => 0, 0);
        SameRowsBack(c.buys, buys');
        SameRowsBack(c.sells, sells');
        SameUncrossed(c.buys, c.sells, buys', sells');
        SameUncrossed(buys', sells', c.buys, c.sells);
      }
      if Tradable(buys, clients) && Tradable(sells, clients) {
        HeadOfTradable(buys, clients);
        HeadOfTradable(sells, clients);
        SameUncrossed(c.buys, c.sells, buys', sells');
      }
    }
  }

  lemma {:induction false} SameRowsAsSame(a: seq<Row>, b: seq<Row>, c: seq<Row>)
    requires SameRows(a, b) && SameRows(a, c)
    ensures SameRows(b, c)
  {
    if a != [] { SameRowsAsSame(a[1..], b[1..], c[1..]); }
  }

  lemma {:induction false} SameFillsAsSame(a: seq<Fill>, b: seq<Fill>, c: seq<Fill>)
    requires SameFills(a, b) && SameFills(a, c)
    ensures SameFills(b, c)
  {
    if a != [] { SameFillsAsSame(a[1..], b[1..], c[1..]); }
  }

  /** Two sweeps of an action from the same state leave the same rows and have made the same fills, up to
      ids: whether one was the auction, among other actions in any order, and the other the continuous
      sweep, and whatever they looked prices up as. */
  lemma SweepsAgree(m0: State, m1: State, m2: State, action: ActionId, clients: set<ClientId>)
    requires Fixed(m0, m1, action, clients) && Fixed(m0, m2, action, clients)
    ensures SameRows(Rows(m1.buys, action), Rows(m2.buys, action))
    ensures SameRows(Rows(m1.sells, action), Rows(m2.sells, action))
    ensures SameFills(FillsSince(|m0.done|, m1.done, action), FillsSince(|m0.done|, m2.done, action))
  {
    var c := Cross(Rows(m0.buys, action), Rows(m0.sells, action), clients, n => 0, 0);
    SameRowsAsSame(c.buys, Rows(m1.buys, action), Rows(m2.buys, action));
    SameRowsAsSame(c.sells, Rows(m1.sells, action), Rows(m2.sells, action));
    SameFillsAsSame(c.fills, FillsSince(|m0.done|, m1.done, action), FillsSince(|m0.done|, m2.done, action));
  }
}
