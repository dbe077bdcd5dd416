/** The crossing of two sorted lists of orders, as the SQL market's auction and its continuous
    trading do it, and what it achieves: the greatest volume any single price could. */
module Crossing {
  import opened Types

  type ActionId = int

  datatype Trigger = NoTrigger | MarketTrigger | LimitTrigger | StopTrigger | LimitStopTrigger

  /** A row of the orders table. A MARKET row's price is only a placeholder for its priority. */
  datatype Row = Row(
    orderId: int, date: int, daily: int, client: ClientId, quantity: int, trigger: Trigger, price: Price,
    triggerLower: Price, triggerUpper: Price, expirationDate: int, expirationDaily: int)

  predicate Earlier(a: Row, b: Row) { if a.date != b.date then a.date < b.date else a.daily < b.daily }

  predicate BuyPriority(a: Row, b: Row) { if a.price != b.price then a.price > b.price else Earlier(a, b) }

  predicate SellPriority(a: Row, b: Row) { if a.price != b.price then a.price < b.price else Earlier(a, b) }

  predicate Priority(side: Side, a: Row, b: Row) { if side == Buy then BuyPriority(a, b) else SellPriority(a, b) }

  /** Price-time order: no row has priority over one that stands before it. */
  ghost predicate Sorted(side: Side, rows: seq<Row>) {
    rows == [] || ((forall x :: x in rows[1..] ==> !Priority(side, x, rows[0])) && Sorted(side, rows[1..]))
  }

  /** The best price first and, at one price, the earliest: by day and then by the time of day. */
  lemma {:induction false} SortedMeans(side: Side, rows: seq<Row>, i: nat, j: nat)
    requires Sorted(side, rows) && i < j < |rows|
    ensures if side == Buy then rows[i].price >= rows[j].price else rows[i].price <= rows[j].price
    ensures rows[i].price == rows[j].price ==>
      rows[i].date < rows[j].date || (rows[i].date == rows[j].date && rows[i].daily <= rows[j].daily)
  {
    if i == 0 { assert rows[j] in rows[1..]; } else { SortedMeans(side, rows[1..], i - 1, j - 1); }
  }

  // ----- inserting

  /** Puts a row before the first one it does not have to stand behind. */
  function InsertRow(side: Side, rows: seq<Row>, r: Row): seq<Row> {
    if rows == [] || !Priority(side, rows[0], r) then [r] + rows
    else [rows[0]] + InsertRow(side, rows[1..], r)
  }

  lemma {:induction false} InsertRowMembers(side: Side, rows: seq<Row>, r: Row)
    ensures forall x :: x in InsertRow(side, rows, r) <==> x == r || x in rows
    ensures multiset(InsertRow(side, rows, r)) == multiset(rows) + multiset{r}
  {
    if rows != [] && Priority(side, rows[0], r) {
      InsertRowMembers(side, rows[1..], r);
      assert rows == [rows[0]] + rows[1..];
    }
  }

  lemma NotBehind(side: Side, a: Row, b: Row, c: Row)
    requires !Priority(side, b, a) && !Priority(side, c, b)
    ensures !Priority(side, c, a)
  {}

  lemma {:induction false} InsertRowSorted(side: Side, rows: seq<Row>, r: Row)
    requires Sorted(side, rows)
    ensures Sorted(side, InsertRow(side, rows, r))
  {
    var after := InsertRow(side, rows, r);
    if rows == [] || !Priority(side, rows[0], r) {
      assert after[1..] == rows;
      forall x | x in rows ensures !Priority(side, x, r) {
        if x != rows[0] {
          assert x in rows[1..];
          NotBehind(side, r, rows[0], x);
        }
      }
    } else {
      InsertRowSorted(side, rows[1..], r);
      InsertRowMembers(side, rows[1..], r);
      assert after[1..] == InsertRow(side, rows[1..], r);
    }
  }

  /** Where a binary search for the first row not ahead of `r` ends, the insertion happens. */
  lemma {:induction false} InsertRowAt(side: Side, rows: seq<Row>, r: Row, k: nat)
    requires k <= |rows|
    requires forall i :: 0 <= i < k ==> Priority(side, rows[i], r)
    requires k < |rows| ==> !Priority(side, rows[k], r)
    ensures InsertRow(side, rows, r) == rows[..k] + [r] + rows[k..]
  {
    if k > 0 {
      InsertRowAt(side, rows[1..], r, k - 1);
      assert rows[..k] == [rows[0]] + rows[1..][..k - 1];
      assert rows[1..][k - 1..] == rows[k..];
    }
  }

  /** The newcomer stands before every row that has no priority over it: so, among rows of one price and
      one time, first and not last. */
  lemma {:induction false} NewcomerLeadsItsTies(side: Side, rows: seq<Row>, r: Row, j: nat) returns (k: nat)
    requires j < |rows| && !Priority(side, rows[j], r)
    ensures k <= j && InsertRow(side, rows, r) == rows[..k] + [r] + rows[k..]
    ensures !Priority(side, r, rows[j]) ==> rows[j].price == r.price && !Earlier(rows[j], r) && !Earlier(r, rows[j])
  {
    if !Priority(side, rows[0], r) {
      k := 0;
    } else {
      var behind := NewcomerLeadsItsTies(side, rows[1..], r, j - 1);
      k := behind + 1;
      assert rows[..k] == [rows[0]] + rows[1..][..behind] && rows[1..][behind..] == rows[k..];
    }
  }

  // ----- crossing

  datatype Fill = Fill(buyer: Row, seller: Row, quantity: int)

  /** The rows left on both sides, and the fills in the order they were made. */
  datatype Crossed = Crossed(buys: seq<Row>, sells: seq<Row>, fills: seq<Fill>)

  predicate CanTrade(b: Row, s: Row, clients: set<ClientId>) {
    b.client in clients && s.client in clients && b.price >= s.price && b.quantity > 0 && s.quantity > 0
  }

  /** What one fill of `q` leaves of a list: the filled row goes, or its remainder takes its place
      under a fresh id. */
  function Rest(rows: seq<Row>, q: int, id: int): seq<Row>
    requires rows != []
  {
    if rows[0].quantity > q then [rows[0].(orderId := id, quantity := rows[0].quantity - q)] + rows[1..]
    else rows[1..]
  }

  /** Each fill draws two ids for the completed halves, then one for each remainder. */
  function IdsDrawn(b: Row, s: Row): nat {
    if b.quantity == s.quantity then 2 else 3
  }

  function Cross(buys: seq<Row>, sells: seq<Row>, clients: set<ClientId>, ids: nat -> int, n: nat): Crossed
    decreases |buys| + |sells|, 1
  {
    if buys == [] || sells == [] || !CanTrade(buys[0], sells[0], clients) then Crossed(buys, sells, [])
    else CrossOn(buys, sells, clients, ids, n)
  }

  /** One fill, and the crossing of what it leaves. */
  function CrossOn(buys: seq<Row>, sells: seq<Row>, clients: set<ClientId>, ids: nat -> int, n: nat): Crossed
    requires buys != [] && sells != [] && CanTrade(buys[0], sells[0], clients)
    decreases |buys| + |sells|, 0
  {
    var q := Min(buys[0].quantity, sells[0].quantity);
    var c := Cross(
      Rest(buys, q, ids(n + 2)), Rest(sells, q, ids(n + 2)), clients, ids, n + IdsDrawn(buys[0], sells[0]));
    c.(fills := [Fill(buys[0], sells[0], q)] + c.fills)
  }

  function Volume(fills: seq<Fill>): int {
    if fills == [] then 0 else fills[0].quantity + Volume(fills[1..])
  }

  function Pending(rows: seq<Row>): int {
    if rows == [] then 0 else rows[0].quantity + Pending(rows[1..])
  }

  /** The first fill of a crossing, and the crossing of what it leaves. */
  lemma CrossStep(
      buys: seq<Row>, sells: seq<Row>, clients: set<ClientId>, ids: nat -> int, n: nat, f: Fill, rest: Crossed)
    requires buys != [] && sells != [] && CanTrade(buys[0], sells[0], clients)
    requires f == Fill(buys[0], sells[0], Min(buys[0].quantity, sells[0].quantity))
    requires rest == Cross(
      Rest(buys, f.quantity, ids(n + 2)), Rest(sells, f.quantity, ids(n + 2)), clients, ids,
      n + IdsDrawn(f.buyer, f.seller))
    ensures Cross(buys, sells, clients, ids, n) == Crossed(rest.buys, rest.sells, [f] + rest.fills)
    ensures Volume(Cross(buys, sells, clients, ids, n).fills) == f.quantity + Volume(rest.fills)
  {
    assert ([f] + rest.fills)[1..] == rest.fills;
  }

  /** Pending plus completed quantity is unchanged on both sides, and every fill crosses. */
  lemma {:induction false} CrossConserves(
      buys: seq<Row>, sells: seq<Row>, clients: set<ClientId>, ids: nat -> int, n: nat)
    ensures
      var c := Cross(buys, sells, clients, ids, n);
      Pending(c.buys) + Volume(c.fills) == Pending(buys) && Pending(c.sells) + Volume(c.fills) == Pending(sells) &&
      (forall f :: f in c.fills ==> f.quantity > 0 && CanTrade(f.buyer, f.seller, clients))
    decreases |buys| + |sells|
  {
    if buys != [] && sells != [] && CanTrade(buys[0], sells[0], clients) {
      var q := Min(buys[0].quantity, sells[0].quantity);
      var b, s := Rest(buys, q, ids(n + 2)), Rest(sells, q, ids(n + 2));
      CrossConserves(b, s, clients, ids, n + IdsDrawn(buys[0], sells[0]));
      assert b != [] && buys[0].quantity > q ==> b[1..] == buys[1..];
      assert s != [] && sells[0].quantity > q ==> s[1..] == sells[1..];
      var c := Cross(buys, sells, clients, ids, n);
      assert c.fills[1..] == Cross(b, s, clients, ids, n + IdsDrawn(buys[0], sells[0])).fills;
    }
  }

  // ----- whose orders a crossing fills

  /** An order, whatever is left of it and whichever id its remainder has. */
  function Whose(r: Row): Row { r.(orderId := 0, quantity := 0) }

  function PendingOf(rows: seq<Row>, who: Row): int {
    if rows == [] then 0 else (if Whose(rows[0]) == who then rows[0].quantity else 0) + PendingOf(rows[1..], who)
  }

  function BoughtBy(fills: seq<Fill>, who: Row): int {
    if fills == [] then 0
    else (if Whose(fills[0].buyer) == who then fills[0].quantity else 0) + BoughtBy(fills[1..], who)
  }

  function SoldBy(fills: seq<Fill>, who: Row): int {
    if fills == [] then 0
    else (if Whose(fills[0].seller) == who then fills[0].quantity else 0) + SoldBy(fills[1..], who)
  }

  lemma RestOfEach(rows: seq<Row>, q: int, id: int, who: Row)
    requires rows != [] && q <= rows[0].quantity
    ensures PendingOf(Rest(rows, q, id), who) == PendingOf(rows, who) - if Whose(rows[0]) == who then q else 0
  {
    if rows[0].quantity > q { assert Rest(rows, q, id)[1..] == rows[1..]; }
  }

  /** Every order by itself: what it still wants and what it has been filled make up what it wanted. */
  lemma {:induction false} CrossFillsEach(
      buys: seq<Row>, sells: seq<Row>, clients: set<ClientId>, ids: nat -> int, n: nat, who: Row)
    ensures
      var c := Cross(buys, sells, clients, ids, n);
      PendingOf(c.buys, who) + BoughtBy(c.fills, who) == PendingOf(buys, who) &&
      PendingOf(c.sells, who) + SoldBy(c.fills, who) == PendingOf(sells, who)
    decreases |buys| + |sells|
  {
    if buys != [] && sells != [] && CanTrade(buys[0], sells[0], clients) {
      var q := Min(buys[0].quantity, sells[0].quantity);
      var b, s, m := Rest(buys, q, ids(n + 2)), Rest(sells, q, ids(n + 2)), n + IdsDrawn(buys[0], sells[0]);
      var f, rest := Fill(buys[0], sells[0], q), Cross(b, s, clients, ids, m);
      CrossFillsEach(b, s, clients, ids, m, who);
      RestOfEach(buys, q, ids(n + 2), who);
      RestOfEach(sells, q, ids(n + 2), who);
      CrossStep(buys, sells, clients, ids, n, f, rest);
      assert ([f] + rest.fills)[1..] == rest.fills;
    }
  }

  /** A list after `v` shares have been taken from its front. */
  function WithoutFront(rows: seq<Row>, v: int): seq<Row> {
    if rows == [] || v <= 0 then rows
    else if rows[0].quantity <= v then WithoutFront(rows[1..], v - rows[0].quantity)
    else [rows[0].(quantity := rows[0].quantity - v)] + rows[1..]
  }

  lemma FrontAfterRest(rows: seq<Row>, q: int, id: int, v: int)
    requires rows != [] && 0 < q <= rows[0].quantity && v >= 0
    ensures SameRows(WithoutFront(rows, q + v), WithoutFront(Rest(rows, q, id), v))
  {
    if rows[0].quantity > q {
      var rest := Rest(rows, q, 0);
      assert rest[1..] == rows[1..];
      var other := Rest(rows, q, id);
      assert other[1..] == rows[1..];
      if v > 0 && rest[0].quantity > v {
        SameRowsReflexive(rows[1..]);
        assert WithoutFront(rows, q + v)[1..] == rows[1..] && WithoutFront(other, v)[1..] == rows[1..];
      } else if v > 0 {
        SameRowsReflexive(WithoutFront(rows[1..], v - rest[0].quantity));
      } else {
        SameRowsReflexive(rows[1..]);
        assert WithoutFront(rows, q)[1..] == rows[1..];
      }
    } else {
      SameRowsReflexive(WithoutFront(rows[1..], v));
    }
  }

  /** Price-time priority: either side loses the volume traded from its front and nothing else. */
  lemma {:induction false} CrossTakesFronts(
      buys: seq<Row>, sells: seq<Row>, clients: set<ClientId>, ids: nat -> int, n: nat)
    ensures
      var c := Cross(buys, sells, clients, ids, n);
      Volume(c.fills) >= 0 &&
      SameRows(WithoutFront(buys, Volume(c.fills)), c.buys) && SameRows(WithoutFront(sells, Volume(c.fills)), c.sells)
    decreases |buys| + |sells|
  {
    if buys != [] && sells != [] && CanTrade(buys[0], sells[0], clients) {
      var q := Min(buys[0].quantity, sells[0].quantity);
      var b, s, m := Rest(buys, q, ids(n + 2)), Rest(sells, q, ids(n + 2)), n + IdsDrawn(buys[0], sells[0]);
      var f, rest := Fill(buys[0], sells[0], q), Cross(b, s, clients, ids, m);
      CrossTakesFronts(b, s, clients, ids, m);
      CrossStep(buys, sells, clients, ids, n, f, rest);
      FrontAfterRest(buys, q, ids(n + 2), Volume(rest.fills));
      FrontAfterRest(sells, q, ids(n + 2), Volume(rest.fills));
      SameRowsJoin(WithoutFront(buys, q + Volume(rest.fills)), WithoutFront(b, Volume(rest.fills)), rest.buys);
      SameRowsJoin(WithoutFront(sells, q + Volume(rest.fills)), WithoutFront(s, Volume(rest.fills)), rest.sells);
    } else {
      SameRowsReflexive(buys);
      SameRowsReflexive(sells);
    }
  }

  lemma {:induction false} SameRowsJoin(a: seq<Row>, b: seq<Row>, c: seq<Row>)
    requires SameRows(a, b) && SameRows(b, c)
    ensures SameRows(a, c)
  {
    if a != [] { SameRowsJoin(a[1..], b[1..], c[1..]); }
  }

  /** The head of a sorted list has the best price. */
  lemma HeadIsBest(side: Side, rows: seq<Row>, x: Row)
    requires Sorted(side, rows) && x in rows
    ensures if side == Buy then x.price <= rows[0].price else x.price >= rows[0].price
  {
    assert x == rows[0] || x in rows[1..];
  }

  lemma RestSorted(side: Side, rows: seq<Row>, q: int, id: int)
    requires rows != [] && Sorted(side, rows)
    ensures Sorted(side, Rest(rows, q, id))
  {
    if rows[0].quantity > q { assert Rest(rows, q, id)[1..] == rows[1..]; }
  }

  /** The remainders keep both lists in price-time order. */
  lemma {:induction false} CrossSorted(buys: seq<Row>, sells: seq<Row>, clients: set<ClientId>, ids: nat -> int, n: nat)
    requires Sorted(Buy, buys) && Sorted(Sell, sells)
    ensures Sorted(Buy, Cross(buys, sells, clients, ids, n).buys)
    ensures Sorted(Sell, Cross(buys, sells, clients, ids, n).sells)
    decreases |buys| + |sells|
  {
    if buys != [] && sells != [] && CanTrade(buys[0], sells[0], clients) {
      var q := Min(buys[0].quantity, sells[0].quantity);
      RestSorted(Buy, buys, q, ids(n + 2));
      RestSorted(Sell, sells, q, ids(n + 2));
      CrossSorted(Rest(buys, q, ids(n + 2)), Rest(sells, q, ids(n + 2)), clients, ids, n + IdsDrawn(buys[0], sells[0]));
    }
  }

  // ----- the greatest volume

  /** Existing clients and positive quantities. */
  ghost predicate Tradable(rows: seq<Row>, clients: set<ClientId>) {
    forall x :: x in rows ==> x.client in clients && x.quantity > 0
  }

  /** The quantity on offer to buy at `p` or more, and to sell at `p` or less. */
  function Demand(buys: seq<Row>, p: Price): int {
    if buys == [] then 0 else (if buys[0].price >= p then buys[0].quantity else 0) + Demand(buys[1..], p)
  }

  function Supply(sells: seq<Row>, p: Price): int {
    if sells == [] then 0 else (if sells[0].price <= p then sells[0].quantity else 0) + Supply(sells[1..], p)
  }

  /** What could change hands if everybody traded at `p`. */
  function VolumeAt(buys: seq<Row>, sells: seq<Row>, p: Price): int { Min(Demand(buys, p), Supply(sells, p)) }

  /** Above the best bid there is no demand. */
  lemma {:induction false} NobodyBuys(buys: seq<Row>, p: Price)
    requires Sorted(Buy, buys) && buys != [] && buys[0].price < p
    ensures Demand(buys, p) == 0
  {
    if |buys| > 1 {
      HeadIsBest(Buy, buys, buys[1]);
      NobodyBuys(buys[1..], p);
    }
  }

  /** Below the best ask there is no supply. */
  lemma {:induction false} NobodySells(sells: seq<Row>, p: Price)
    requires Sorted(Sell, sells) && sells != [] && sells[0].price > p
    ensures Supply(sells, p) == 0
  {
    if |sells| > 1 {
      HeadIsBest(Sell, sells, sells[1]);
      NobodySells(sells[1..], p);
    }
  }

  lemma {:induction false} BoundedCurves(rows: seq<Row>, clients: set<ClientId>, p: Price)
    requires Tradable(rows, clients)
    ensures Demand(rows, p) >= 0 && Supply(rows, p) >= 0
  {
    if rows != [] { BoundedCurves(rows[1..], clients, p); }
  }

  lemma RestCurves(rows: seq<Row>, q: int, id: int, p: Price)
    requires rows != [] && q <= rows[0].quantity
    ensures Demand(Rest(rows, q, id), p) == Demand(rows, p) - (if rows[0].price >= p then q else 0)
    ensures Supply(Rest(rows, q, id), p) == Supply(rows, p) - (if rows[0].price <= p then q else 0)
  {
    if rows[0].quantity > q { assert Rest(rows, q, id)[1..] == rows[1..]; }
  }

  lemma RestKeeps(buys: seq<Row>, sells: seq<Row>, clients: set<ClientId>, id: int)
    requires Sorted(Buy, buys) && Sorted(Sell, sells) && Tradable(buys, clients) && Tradable(sells, clients)
    requires buys != [] && sells != []
    ensures
      var q := Min(buys[0].quantity, sells[0].quantity);
      var b, s := Rest(buys, q, id), Rest(sells, q, id);
      Sorted(Buy, b) && Sorted(Sell, s) && Tradable(b, clients) && Tradable(s, clients) &&
      (s != [] ==> s[0].price >= sells[0].price)
  {
    var q := Min(buys[0].quantity, sells[0].quantity);
    RestSorted(Buy, buys, q, id);
    RestSorted(Sell, sells, q, id);
    if Rest(sells, q, id) != [] && sells[0].quantity <= q { HeadIsBest(Sell, sells, sells[1]); }
  }

  lemma NothingTradesWhenStuck(buys: seq<Row>, sells: seq<Row>, clients: set<ClientId>, p: Price)
    requires Sorted(Buy, buys) && Sorted(Sell, sells) && Tradable(buys, clients) && Tradable(sells, clients)
    requires buys == [] || sells == [] || buys[0].price < sells[0].price
    ensures VolumeAt(buys, sells, p) == 0
  {
    BoundedCurves(buys, clients, p);
    BoundedCurves(sells, clients, p);
    if buys != [] && sells != [] {
      if buys[0].price < p { NobodyBuys(buys, p); } else { NobodySells(sells, p); }
    }
  }

  lemma {:induction false} TradableVolumeBound(
      buys: seq<Row>, sells: seq<Row>, clients: set<ClientId>, ids: nat -> int, n: nat, p: Price)
    requires Sorted(Buy, buys) && Sorted(Sell, sells) && Tradable(buys, clients) && Tradable(sells, clients)
    ensures VolumeAt(buys, sells, p) <= Volume(Cross(buys, sells, clients, ids, n).fills)
    decreases |buys| + |sells|
  {
    if buys == [] || sells == [] || buys[0].price < sells[0].price {
      NothingTradesWhenStuck(buys, sells, clients, p);
    } else {
      var q := Min(buys[0].quantity, sells[0].quantity);
      var b, s, m := Rest(buys, q, ids(n + 2)), Rest(sells, q, ids(n + 2)), n + IdsDrawn(buys[0], sells[0]);
      RestKeeps(buys, sells, clients, ids(n + 2));
      TradableVolumeBound(b, s, clients, ids, m, p);
      assert VolumeAt(buys, sells, p) <= q + VolumeAt(b, s, p) by {
        RestCurves(buys, q, ids(n + 2), p);
        RestCurves(sells, q, ids(n + 2), p);
      }
      CrossStep(buys, sells, clients, ids, n, Fill(buys[0], sells[0], q), Cross(b, s, clients, ids, m));
    }
  }

  /** Demand at `p` comes from the best bid, which the fill took `q` from. */
  lemma DemandBefore(buys: seq<Row>, q: int, id: int, p: Price)
    requires buys != [] && Sorted(Buy, buys) && 0 < q <= buys[0].quantity && Demand(Rest(buys, q, id), p) > 0
    ensures Demand(buys, p) == Demand(Rest(buys, q, id), p) + q
  {
    var b := Rest(buys, q, id);
    RestSorted(Buy, buys, q, id);
    if b[0].price < p { NobodyBuys(b, p); }
    if buys[0].quantity <= q { HeadIsBest(Buy, buys, b[0]); }
    RestCurves(buys, q, id, p);
  }

  lemma SupplyBefore(sells: seq<Row>, q: int, id: int, p: Price)
    requires sells != [] && Sorted(Sell, sells) && 0 < q <= sells[0].quantity && Supply(Rest(sells, q, id), p) > 0
    ensures Supply(sells, p) == Supply(Rest(sells, q, id), p) + q
  {
    var s := Rest(sells, q, id);
    RestSorted(Sell, sells, q, id);
    if s[0].price > p { NobodySells(s, p); }
    if sells[0].quantity <= q { HeadIsBest(Sell, sells, s[0]); }
    RestCurves(sells, q, id, p);
  }

  /** If `p` trades what is left after a fill, some price trades that and the fill. */
  lemma OneMoreFill(buys: seq<Row>, sells: seq<Row>, clients: set<ClientId>, id: int, p: Price) returns (p': Price)
    requires Sorted(Buy, buys) && Sorted(Sell, sells) && Tradable(buys, clients) && Tradable(sells, clients)
    requires buys != [] && sells != [] && buys[0].price >= sells[0].price
    ensures
      var q := Min(buys[0].quantity, sells[0].quantity);
      VolumeAt(buys, sells, p') >= q + VolumeAt(Rest(buys, q, id), Rest(sells, q, id), p)
  {
    var q := Min(buys[0].quantity, sells[0].quantity);
    if VolumeAt(Rest(buys, q, id), Rest(sells, q, id), p) <= 0 {
      p' := sells[0].price;
      BoundedCurves(buys[1..], clients, p');
      BoundedCurves(sells[1..], clients, p');
    } else {
      p' := p;
      DemandBefore(buys, q, id, p);
      SupplyBefore(sells, q, id, p);
    }
  }

  lemma {:induction false} TradableVolumeReached(
      buys: seq<Row>, sells: seq<Row>, clients: set<ClientId>, ids: nat -> int, n: nat)
    returns (p: Price)
    requires Sorted(Buy, buys) && Sorted(Sell, sells) && Tradable(buys, clients) && Tradable(sells, clients)
    ensures VolumeAt(buys, sells, p) >= Volume(Cross(buys, sells, clients, ids, n).fills)
    decreases |buys| + |sells|
  {
    if buys != [] && sells != [] && buys[0].price >= sells[0].price {
      var q := Min(buys[0].quantity, sells[0].quantity);
      var b, s, m := Rest(buys, q, ids(n + 2)), Rest(sells, q, ids(n + 2)), n + IdsDrawn(buys[0], sells[0]);
      RestKeeps(buys, sells, clients, ids(n + 2));
      p := TradableVolumeReached(b, s, clients, ids, m);
      p := OneMoreFill(buys, sells, clients, ids(n + 2), p);
      CrossStep(buys, sells, clients, ids, n, Fill(buys[0], sells[0], q), Cross(b, s, clients, ids, m));
    } else {
      p := 0.0;
      BoundedCurves(buys, clients, p);
      BoundedCurves(sells, clients, p);
    }
  }

  // ----- where the sweep stops

  /** The rows before the first one of an unknown client or without quantity, at which a sweep stops. */
  function Head(rows: seq<Row>, clients: set<ClientId>): seq<Row> {
    if rows == [] || rows[0].client !in clients || rows[0].quantity <= 0 then []
    else [rows[0]] + Head(rows[1..], clients)
  }

  lemma {:induction false} HeadTradable(rows: seq<Row>, clients: set<ClientId>)
    ensures Tradable(Head(rows, clients), clients) && Head(rows, clients) <= rows
  {
    if Head(rows, clients) != [] { HeadTradable(rows[1..], clients); }
  }

  lemma {:induction false} HeadOfTradable(rows: seq<Row>, clients: set<ClientId>)
    requires Tradable(rows, clients)
    ensures Head(rows, clients) == rows
  {
    if rows != [] { HeadOfTradable(rows[1..], clients); }
  }

  lemma {:induction false} HeadSorted(side: Side, rows: seq<Row>, clients: set<ClientId>)
    requires Sorted(side, rows)
    ensures Sorted(side, Head(rows, clients))
  {
    if Head(rows, clients) != [] {
      HeadSorted(side, rows[1..], clients);
      HeadTradable(rows[1..], clients);
      assert Head(rows, clients)[1..] == Head(rows[1..], clients);
    }
  }

  lemma HeadOfRest(rows: seq<Row>, q: int, id: int, clients: set<ClientId>)
    requires Head(rows, clients) != []
    ensures Head(Rest(rows, q, id), clients) == Rest(Head(rows, clients), q, id)
  {
    assert Head(rows, clients)[1..] == Head(rows[1..], clients);
    if rows[0].quantity > q { assert Rest(rows, q, id)[1..] == rows[1..]; }
  }

  /** Nothing behind its heads takes part in a crossing. */
  lemma {:induction false} OnlyHeadsCross(
      buys: seq<Row>, sells: seq<Row>, clients: set<ClientId>, ids: nat -> int, n: nat)
    ensures
      var c := Cross(buys, sells, clients, ids, n);
      Crossed(Head(c.buys, clients), Head(c.sells, clients), c.fills) ==
      Cross(Head(buys, clients), Head(sells, clients), clients, ids, n)
    decreases |buys| + |sells|
  {
    if buys != [] && sells != [] && CanTrade(buys[0], sells[0], clients) {
      var q := Min(buys[0].quantity, sells[0].quantity);
      HeadOfRest(buys, q, ids(n + 2), clients);
      HeadOfRest(sells, q, ids(n + 2), clients);
      OnlyHeadsCross(
        Rest(buys, q, ids(n + 2)), Rest(sells, q, ids(n + 2)), clients, ids, n + IdsDrawn(buys[0], sells[0]));
    }
  }

  // ----- the greatest volume of any book

  lemma HeadsCross(buys: seq<Row>, sells: seq<Row>, clients: set<ClientId>, ids: nat -> int, n: nat)
    returns (b: seq<Row>, s: seq<Row>)
    requires Sorted(Buy, buys) && Sorted(Sell, sells)
    ensures b == Head(buys, clients) && s == Head(sells, clients)
    ensures Sorted(Buy, b) && Sorted(Sell, s) && Tradable(b, clients) && Tradable(s, clients)
    ensures Cross(buys, sells, clients, ids, n).fills == Cross(b, s, clients, ids, n).fills
  {
    b, s := Head(buys, clients), Head(sells, clients);
    HeadSorted(Buy, buys, clients);
    HeadSorted(Sell, sells, clients);
    HeadTradable(buys, clients);
    HeadTradable(sells, clients);
    OnlyHeadsCross(buys, sells, clients, ids, n);
  }

  /** No single price could trade more of the two heads than the crossing does. */
  lemma NoPriceTradesMore(
      buys: seq<Row>, sells: seq<Row>, clients: set<ClientId>, ids: nat -> int, n: nat, p: Price)
    requires Sorted(Buy, buys) && Sorted(Sell, sells)
    ensures VolumeAt(Head(buys, clients), Head(sells, clients), p) <= Volume(Cross(buys, sells, clients, ids, n).fills)
  {
    var b, s := HeadsCross(buys, sells, clients, ids, n);
    TradableVolumeBound(b, s, clients, ids, n, p);
  }

  /** Some price reaches the volume of the crossing. */
  lemma SomePriceTradesAll(buys: seq<Row>, sells: seq<Row>, clients: set<ClientId>, ids: nat -> int, n: nat)
    returns (p: Price)
    requires Sorted(Buy, buys) && Sorted(Sell, sells)
    ensures VolumeAt(Head(buys, clients), Head(sells, clients), p) >= Volume(Cross(buys, sells, clients, ids, n).fills)
  {
    var b, s := HeadsCross(buys, sells, clients, ids, n);
    p := TradableVolumeReached(b, s, clients, ids, n);
  }

  /** The greatest volume that any single price allows. */
  ghost predicate IsGreatestVolume(buys: seq<Row>, sells: seq<Row>, v: int) {
    (exists p :: VolumeAt(buys, sells, p) == v) && forall p :: VolumeAt(buys, sells, p) <= v
  }

  /** The auction trades the greatest volume any single price allows of the rows before the first at
      which it stops on each side: some price reaches it and none exceeds it. */
  lemma CrossTradesTheGreatestVolume(
      buys: seq<Row>, sells: seq<Row>, clients: set<ClientId>, ids: nat -> int, n: nat)
    requires Sorted(Buy, buys) && Sorted(Sell, sells)
    ensures
      IsGreatestVolume(
        Head(buys, clients), Head(sells, clients), Volume(Cross(buys, sells, clients, ids, n).fills))
  {
    var b, s, v := Head(buys, clients), Head(sells, clients), Volume(Cross(buys, sells, clients, ids, n).fills);
    var best := SomePriceTradesAll(buys, sells, clients, ids, n);
    NoPriceTradesMore(buys, sells, clients, ids, n, best);
    forall p ensures VolumeAt(b, s, p) <= v { NoPriceTradesMore(buys, sells, clients, ids, n, p); }
  }

  // ----- what the sweep leaves behind

  /** No buyer left reaches a seller left. */
  ghost predicate Uncrossed(buys: seq<Row>, sells: seq<Row>) {
    forall x, y :: x in buys && y in sells ==> x.price < y.price
  }

  lemma UncrossedHeads(buys: seq<Row>, sells: seq<Row>, clients: set<ClientId>)
    requires Sorted(Buy, buys) && Sorted(Sell, sells)
    requires buys == [] || sells == [] || !CanTrade(buys[0], sells[0], clients)
    ensures Uncrossed(Head(buys, clients), Head(sells, clients))
  {
    var b, s := Head(buys, clients), Head(sells, clients);
    HeadTradable(buys, clients);
    HeadTradable(sells, clients);
    forall x, y | x in b && y in s ensures x.price < y.price {
      HeadIsBest(Buy, buys, x);
      HeadIsBest(Sell, sells, y);
    }
  }

  lemma {:induction false} CrossStops(
      buys: seq<Row>, sells: seq<Row>, clients: set<ClientId>, ids: nat -> int, n: nat)
    ensures
      var c := Cross(buys, sells, clients, ids, n);
      c.buys == [] || c.sells == [] || !CanTrade(c.buys[0], c.sells[0], clients)
    decreases |buys| + |sells|
  {
    if buys != [] && sells != [] && CanTrade(buys[0], sells[0], clients) {
      var q := Min(buys[0].quantity, sells[0].quantity);
      CrossStops(
        Rest(buys, q, ids(n + 2)), Rest(sells, q, ids(n + 2)), clients, ids, n + IdsDrawn(buys[0], sells[0]));
    }
  }

  lemma {:induction false} CrossLeavesTradable(
      buys: seq<Row>, sells: seq<Row>, clients: set<ClientId>, ids: nat -> int, n: nat)
    requires Tradable(buys, clients) && Tradable(sells, clients)
    ensures
      var c := Cross(buys, sells, clients, ids, n);
      Tradable(c.buys, clients) && Tradable(c.sells, clients)
    decreases |buys| + |sells|
  {
    if buys != [] && sells != [] && CanTrade(buys[0], sells[0], clients) {
      var q := Min(buys[0].quantity, sells[0].quantity);
      CrossLeavesTradable(
        Rest(buys, q, ids(n + 2)), Rest(sells, q, ids(n + 2)), clients, ids, n + IdsDrawn(buys[0], sells[0]));
    }
  }

  /** The sweep leaves the two sides uncrossed up to the first row that stops it, and with no such row it
      leaves them uncrossed. */
  lemma CrossUncrosses(buys: seq<Row>, sells: seq<Row>, clients: set<ClientId>, ids: nat -> int, n: nat)
    requires Sorted(Buy, buys) && Sorted(Sell, sells)
    ensures
      var c := Cross(buys, sells, clients, ids, n);
      Uncrossed(Head(c.buys, clients), Head(c.sells, clients)) &&
      (Tradable(buys, clients) && Tradable(sells, clients) ==> Uncrossed(c.buys, c.sells))
  {
    var c := Cross(buys, sells, clients, ids, n);
    CrossSorted(buys, sells, clients, ids, n);
    CrossStops(buys, sells, clients, ids, n);
    UncrossedHeads(c.buys, c.sells, clients);
    if Tradable(buys, clients) && Tradable(sells, clients) {
      CrossLeavesTradable(buys, sells, clients, ids, n);
      HeadOfTradable(c.buys, clients);
      HeadOfTradable(c.sells, clients);
    }
  }

  // ----- when it is the greatest volume of whole sides

  ghost predicate NoneNegative(rows: seq<Row>) { forall x :: x in rows ==> x.quantity >= 0 }

  /** No buyer with quantity left reaches a seller with quantity left. */
  ghost predicate NothingLeftCrosses(buys: seq<Row>, sells: seq<Row>) {
    forall x, y :: x in buys && y in sells && x.quantity > 0 && y.quantity > 0 ==> x.price < y.price
  }

  lemma {:induction false} CurvesOfHead(rows: seq<Row>, clients: set<ClientId>, p: Price)
    requires NoneNegative(rows)
    ensures 0 <= Demand(Head(rows, clients), p) <= Demand(rows, p)
    ensures 0 <= Supply(Head(rows, clients), p) <= Supply(rows, p)
  {
    if rows != [] {
      assert rows[0] in rows;
      CurvesOfHead(rows[1..], clients, p);
      assert Head(rows, clients) != [] ==> Head(rows, clients)[1..] == Head(rows[1..], clients);
    }
  }

  lemma {:induction false} SomeoneBuys(buys: seq<Row>, p: Price) returns (x: Row)
    requires Demand(buys, p) > 0
    ensures x in buys && x.quantity > 0 && x.price >= p
  {
    if buys[0].price >= p && buys[0].quantity > 0 { x := buys[0]; } else { x := SomeoneBuys(buys[1..], p); }
  }

  lemma {:induction false} SomeoneSells(sells: seq<Row>, p: Price) returns (y: Row)
    requires Supply(sells, p) > 0
    ensures y in sells && y.quantity > 0 && y.price <= p
  {
    if sells[0].price <= p && sells[0].quantity > 0 { y := sells[0]; } else { y := SomeoneSells(sells[1..], p); }
  }

  lemma {:induction false} BuyerCounts(buys: seq<Row>, x: Row, p: Price)
    requires NoneNegative(buys) && (x in buys ==> x.price >= p)
    ensures Demand(buys, p) >= if x in buys then x.quantity else 0
  {
    if buys != [] {
      assert buys[0] in buys;
      BuyerCounts(buys[1..], x, p);
    }
  }

  lemma {:induction false} SellerCounts(sells: seq<Row>, y: Row, p: Price)
    requires NoneNegative(sells) && (y in sells ==> y.price <= p)
    ensures Supply(sells, p) >= if y in sells then y.quantity else 0
  {
    if sells != [] {
      assert sells[0] in sells;
      SellerCounts(sells[1..], y, p);
    }
  }

  /** What a sweep leaves is no better than the best it began with. */
  lemma {:induction false} LeftIsNoBetter(
      buys: seq<Row>, sells: seq<Row>, clients: set<ClientId>, ids: nat -> int, n: nat, x: Row, y: Row)
    requires Sorted(Buy, buys) && Sorted(Sell, sells)
    requires x in Cross(buys, sells, clients, ids, n).buys && y in Cross(buys, sells, clients, ids, n).sells
    ensures buys != [] && x.price <= buys[0].price && sells != [] && y.price >= sells[0].price
    decreases |buys| + |sells|
  {
    if buys != [] && sells != [] && CanTrade(buys[0], sells[0], clients) {
      var q := Min(buys[0].quantity, sells[0].quantity);
      var b, s := Rest(buys, q, ids(n + 2)), Rest(sells, q, ids(n + 2));
      RestSorted(Buy, buys, q, ids(n + 2));
      RestSorted(Sell, sells, q, ids(n + 2));
      LeftIsNoBetter(b, s, clients, ids, n + IdsDrawn(buys[0], sells[0]), x, y);
      if buys[0].quantity <= q { HeadIsBest(Buy, buys, b[0]); }
      if sells[0].quantity <= q { HeadIsBest(Sell, sells, s[0]); }
    } else {
      HeadIsBest(Buy, buys, x);
      HeadIsBest(Sell, sells, y);
    }
  }

  /** One fill takes its quantity at most from the volume at any price, and just that between the best
      sell and the best buy. */
  lemma VolumeAfterFill(buys: seq<Row>, sells: seq<Row>, clients: set<ClientId>, id: int, p: Price)
    requires buys != [] && sells != [] && CanTrade(buys[0], sells[0], clients)
    ensures
      var q := Min(buys[0].quantity, sells[0].quantity);
      var after := q + VolumeAt(Rest(buys, q, id), Rest(sells, q, id), p);
      VolumeAt(buys, sells, p) <= after &&
      (sells[0].price <= p <= buys[0].price ==> VolumeAt(buys, sells, p) == after)
  {
    var q := Min(buys[0].quantity, sells[0].quantity);
    RestCurves(buys, q, id, p);
    RestCurves(sells, q, id, p);
  }

  lemma {:induction false} VolumeFalls(
      buys: seq<Row>, sells: seq<Row>, clients: set<ClientId>, ids: nat -> int, n: nat, p: Price)
    ensures
      var c := Cross(buys, sells, clients, ids, n);
      VolumeAt(buys, sells, p) <= Volume(c.fills) + VolumeAt(c.buys, c.sells, p)
    decreases |buys| + |sells|
  {
    if buys != [] && sells != [] && CanTrade(buys[0], sells[0], clients) {
      var q := Min(buys[0].quantity, sells[0].quantity);
      var b, s, m := Rest(buys, q, ids(n + 2)), Rest(sells, q, ids(n + 2)), n + IdsDrawn(buys[0], sells[0]);
      VolumeFalls(b, s, clients, ids, m, p);
      VolumeAfterFill(buys, sells, clients, ids(n + 2), p);
      CrossStep(buys, sells, clients, ids, n, Fill(buys[0], sells[0], q), Cross(b, s, clients, ids, m));
    }
  }

  /** Between the prices of a buyer and a seller that are left, by what was traded. */
  lemma {:induction false} VolumeLeft(
      buys: seq<Row>, sells: seq<Row>, clients: set<ClientId>, ids: nat -> int, n: nat, x: Row, y: Row, p: Price)
    requires Sorted(Buy, buys) && Sorted(Sell, sells) && y.price <= p <= x.price
    requires x in Cross(buys, sells, clients, ids, n).buys && y in Cross(buys, sells, clients, ids, n).sells
    ensures
      var c := Cross(buys, sells, clients, ids, n);
      VolumeAt(buys, sells, p) == Volume(c.fills) + VolumeAt(c.buys, c.sells, p)
    decreases |buys| + |sells|
  {
    if buys != [] && sells != [] && CanTrade(buys[0], sells[0], clients) {
      var q := Min(buys[0].quantity, sells[0].quantity);
      var b, s, m := Rest(buys, q, ids(n + 2)), Rest(sells, q, ids(n + 2)), n + IdsDrawn(buys[0], sells[0]);
      LeftIsNoBetter(buys, sells, clients, ids, n, x, y);
      RestSorted(Buy, buys, q, ids(n + 2));
      RestSorted(Sell, sells, q, ids(n + 2));
      VolumeLeft(b, s, clients, ids, m, x, y, p);
      VolumeAfterFill(buys, sells, clients, ids(n + 2), p);
      CrossStep(buys, sells, clients, ids, n, Fill(buys[0], sells[0], q), Cross(b, s, clients, ids, m));
    }
  }

  lemma {:induction false} CrossLeavesNoneNegative(
      buys: seq<Row>, sells: seq<Row>, clients: set<ClientId>, ids: nat -> int, n: nat)
    requires NoneNegative(buys) && NoneNegative(sells)
    ensures
      var c := Cross(buys, sells, clients, ids, n);
      NoneNegative(c.buys) && NoneNegative(c.sells)
    decreases |buys| + |sells|
  {
    if buys != [] && sells != [] && CanTrade(buys[0], sells[0], clients) {
      var q := Min(buys[0].quantity, sells[0].quantity);
      CrossLeavesNoneNegative(
        Rest(buys, q, ids(n + 2)), Rest(sells, q, ids(n + 2)), clients, ids, n + IdsDrawn(buys[0], sells[0]));
    }
  }

  lemma NothingCrossesNoVolume(buys: seq<Row>, sells: seq<Row>, p: Price)
    requires NothingLeftCrosses(buys, sells)
    ensures VolumeAt(buys, sells, p) <= 0
  {
    if VolumeAt(buys, sells, p) > 0 {
      var x := SomeoneBuys(buys, p);
      var y := SomeoneSells(sells, p);
    }
  }

  /** The volume is the greatest that any single price allows of the whole sides if and only if nothing
      that has quantity left crosses. */
  lemma GreatestOfWholeSides(buys: seq<Row>, sells: seq<Row>, clients: set<ClientId>, ids: nat -> int, n: nat)
    requires Sorted(Buy, buys) && Sorted(Sell, sells) && NoneNegative(buys) && NoneNegative(sells)
    ensures
      var c := Cross(buys, sells, clients, ids, n);
      IsGreatestVolume(buys, sells, Volume(c.fills)) <==> NothingLeftCrosses(c.buys, c.sells)
  {
    var c := Cross(buys, sells, clients, ids, n);
    var v := Volume(c.fills);
    if NothingLeftCrosses(c.buys, c.sells) {
      forall p ensures VolumeAt(buys, sells, p) <= v {
        VolumeFalls(buys, sells, clients, ids, n, p);
        NothingCrossesNoVolume(c.buys, c.sells, p);
      }
      var best := SomePriceTradesAll(buys, sells, clients, ids, n);
      CurvesOfHead(buys, clients, best);
      CurvesOfHead(sells, clients, best);
      assert VolumeAt(buys, sells, best) == v;
    } else {
      var x, y :| x in c.buys && y in c.sells && x.quantity > 0 && y.quantity > 0 && x.price >= y.price;
      MoreAtThisPrice(buys, sells, clients, ids, n, x, y);
    }
  }

  lemma MoreAtThisPrice(
      buys: seq<Row>, sells: seq<Row>, clients: set<ClientId>, ids: nat -> int, n: nat, x: Row, y: Row)
    requires Sorted(Buy, buys) && Sorted(Sell, sells) && NoneNegative(buys) && NoneNegative(sells)
    requires x in Cross(buys, sells, clients, ids, n).buys && y in Cross(buys, sells, clients, ids, n).sells
    requires x.quantity > 0 && y.quantity > 0 && x.price >= y.price
    ensures VolumeAt(buys, sells, y.price) > Volume(Cross(buys, sells, clients, ids, n).fills)
  {
    var c := Cross(buys, sells, clients, ids, n);
    CrossLeavesNoneNegative(buys, sells, clients, ids, n);
    VolumeLeft(buys, sells, clients, ids, n, x, y, y.price);
    BuyerCounts(c.buys, x, y.price);
    SellerCounts(c.sells, y, y.price);
  }

  lemma {:induction false} EmptyRowAddsNothing(side: Side, rows: seq<Row>, r: Row, p: Price)
    requires r.quantity == 0
    ensures Demand(InsertRow(side, rows, r), p) == Demand(rows, p)
    ensures Supply(InsertRow(side, rows, r), p) == Supply(rows, p)
  {
    var after := InsertRow(side, rows, r);
    if rows == [] || !Priority(side, rows[0], r) {
      assert after[1..] == rows;
    } else {
      EmptyRowAddsNothing(side, rows[1..], r, p);
      assert after[1..] == InsertRow(side, rows[1..], r);
    }
  }

  /** An order without quantity that outbids the others stops the action: nothing trades any more,
      though at every price as much could as before. */
  lemma EmptyOrderStopsTheSweep(
      buys: seq<Row>, sells: seq<Row>, r: Row, clients: set<ClientId>, ids: nat -> int, n: nat)
    requires r.quantity == 0 && (buys != [] ==> buys[0].price < r.price)
    ensures Cross(InsertRow(Buy, buys, r), sells, clients, ids, n).fills == []
    ensures forall p :: VolumeAt(InsertRow(Buy, buys, r), sells, p) == VolumeAt(buys, sells, p)
  {
    forall p ensures VolumeAt(InsertRow(Buy, buys, r), sells, p) == VolumeAt(buys, sells, p) {
      EmptyRowAddsNothing(Buy, buys, r, p);
    }
  }

  /** The price a MARKET buy is sorted by. */
  const MAX_NUMBER: Price := 65535.0

  /** A MARKET buy of nothing, which anybody can afford, keeps a buyer at 12 and a seller at 10 from
      trading their five shares. */
  lemma EmptyMarketBuyStopsTheSweep(ids: nat -> int)
    ensures
      var b := Row(1, 0, 0, 1, 5, LimitTrigger, 12.0, 0.0, 0.0, 0, 0);
      var s := Row(2, 0, 0, 2, 5, LimitTrigger, 10.0, 0.0, 0.0, 0, 0);
      var r := Row(3, 0, 0, 3, 0, MarketTrigger, MAX_NUMBER, 0.0, 0.0, 0, 0);
      Volume(Cross([b], [s], {1, 2, 3}, ids, 0).fills) == 5 &&
      InsertRow(Buy, [b], r) == [r, b] && Cross([r, b], [s], {1, 2, 3}, ids, 0).fills == [] &&
      VolumeAt([r, b], [s], 11.0) == 5
  {
    var b := Row(1, 0, 0, 1, 5, LimitTrigger, 12.0, 0.0, 0.0, 0, 0);
    var s := Row(2, 0, 0, 2, 5, LimitTrigger, 10.0, 0.0, 0.0, 0, 0);
    var r := Row(3, 0, 0, 3, 0, MarketTrigger, MAX_NUMBER, 0.0, 0.0, 0, 0);
    EmptyOrderStopsTheSweep([b], [s], r, {1, 2, 3}, ids, 0);
    assert InsertRow(Buy, [b], r) == [r, b];
    assert [b][1..] == [] && [s][1..] == [];
    assert Demand([b], 11.0) == 5 && Supply([s], 11.0) == 5;
    CrossStep([b], [s], {1, 2, 3}, ids, 0, Fill(b, s, 5), Crossed([], [], []));
  }

  /** The same rows up to the ids they carry. */
  predicate SameRows(a: seq<Row>, b: seq<Row>) {
    |a| == |b| && (a == [] || (SameRow(a[0], b[0]) && SameRows(a[1..], b[1..])))
  }

  predicate SameRow(a: Row, b: Row) { a.(orderId := b.orderId) == b }

  predicate SameFills(a: seq<Fill>, b: seq<Fill>) {
    |a| == |b| &&
    (a == [] ||
     (SameRow(a[0].buyer, b[0].buyer) && SameRow(a[0].seller, b[0].seller) && a[0].quantity == b[0].quantity &&
      SameFills(a[1..], b[1..])))
  }

  predicate SameCrossing(a: Crossed, b: Crossed) {
    SameRows(a.buys, b.buys) && SameRows(a.sells, b.sells) && SameFills(a.fills, b.fills)
  }

  lemma {:induction false} SameRowsReflexive(a: seq<Row>)
    ensures SameRows(a, a)
  {
    if a != [] { SameRowsReflexive(a[1..]); }
  }

  lemma RestIgnoresIds(a: seq<Row>, b: seq<Row>, q: int, i: int, j: int)
    requires a != [] && SameRows(a, b)
    ensures SameRows(Rest(a, q, i), Rest(b, q, j))
  {
    if a[0].quantity > q {
      assert Rest(a, q, i)[1..] == a[1..] && Rest(b, q, j)[1..] == b[1..];
    }
  }

  /** Which fresh ids the remainders get decides nothing else. */
  lemma {:induction false} CrossIgnoresIds(
      buys: seq<Row>, sells: seq<Row>, ids: nat -> int, n: nat,
      buys': seq<Row>, sells': seq<Row>, ids': nat -> int, n': nat, clients: set<ClientId>)
    requires SameRows(buys, buys') && SameRows(sells, sells')
    ensures SameCrossing(Cross(buys, sells, clients, ids, n), Cross(buys', sells', clients, ids', n'))
    decreases |buys| + |sells|
  {
    if buys != [] && sells != [] && CanTrade(buys[0], sells[0], clients) {
      var q := Min(buys[0].quantity, sells[0].quantity);
      RestIgnoresIds(buys, buys', q, ids(n + 2), ids'(n' + 2));
      RestIgnoresIds(sells, sells', q, ids(n + 2), ids'(n' + 2));
      var b, s, m := Rest(buys, q, ids(n + 2)), Rest(sells, q, ids(n + 2)), n + IdsDrawn(buys[0], sells[0]);
      var b', s', m' :=
        Rest(buys', q, ids'(n' + 2)), Rest(sells', q, ids'(n' + 2)), n' + IdsDrawn(buys'[0], sells'[0]);
      CrossIgnoresIds(b, s, ids, m, b', s', ids', m', clients);
      var rest, rest' := Cross(b, s, clients, ids, m), Cross(b', s', clients, ids', m');
      var f, f' := Fill(buys[0], sells[0], q), Fill(buys'[0], sells'[0], q);
      CrossStep(buys, sells, clients, ids, n, f, rest);
      CrossStep(buys', sells', clients, ids', n', f', rest');
      assert ([f] + rest.fills)[1..] == rest.fills && ([f'] + rest'.fills)[1..] == rest'.fills;
    }
  }

  // ----- prices

  /** The last known price or, failing that, the price fixed last in this session. */
  function MarketPrice(reference: Price, exchange: Price): Price { if reference > 0.0 then reference else exchange }

  /** What a pair pays: never a MARKET order's placeholder. Between two MARKET orders the price
      looked up decides. */
  function Resolve(f: Fill, reference: Price, exchange: Price): Price {
    var buyerMarket, sellerMarket := f.buyer.trigger == MarketTrigger, f.seller.trigger == MarketTrigger;
    if buyerMarket && sellerMarket then MarketPrice(reference, exchange)
    else if sellerMarket then f.buyer.price
    else f.seller.price
  }

  /** A MARKET order's placeholder never is the price of a trade: another placeholder changes nothing. */
  lemma PlaceholderNeverTrades(f: Fill, reference: Price, exchange: Price, buy: Price, sell: Price)
    ensures
      var other := f.(
        buyer := if f.buyer.trigger == MarketTrigger then f.buyer.(price := buy) else f.buyer,
        seller := if f.seller.trigger == MarketTrigger then f.seller.(price := sell) else f.seller);
      Resolve(other, reference, exchange) == Resolve(f, reference, exchange)
  {}

  /** Every order that names a limit gets it. */
  predicate WithinLimits(f: Fill, price: Price) {
    (f.buyer.trigger != MarketTrigger ==> price <= f.buyer.price) &&
    (f.seller.trigger != MarketTrigger ==> price >= f.seller.price)
  }

  /** Whatever the reference prices are, no order but a MARKET order trades outside its limit. */
  lemma CrossRespectsLimits(
      buys: seq<Row>, sells: seq<Row>, clients: set<ClientId>, ids: nat -> int, n: nat,
      f: Fill, reference: Price, exchange: Price)
    requires f in Cross(buys, sells, clients, ids, n).fills
    ensures WithinLimits(f, Resolve(f, reference, exchange))
  {
    CrossConserves(buys, sells, clients, ids, n);
  }

  /** Two sellers at 10 and 11 against one buyer of both at 12 are paid two prices. */
  lemma FixingCanUseTwoPrices(ids: nat -> int)
    ensures
      var b := Row(1, 0, 0, 1, 2, LimitTrigger, 12.0, 0.0, 0.0, 0, 0);
      var s := Row(2, 0, 0, 2, 1, LimitTrigger, 10.0, 0.0, 0.0, 0, 0);
      var t := Row(3, 0, 0, 3, 1, LimitTrigger, 11.0, 0.0, 0.0, 0, 0);
      var fills := Cross([b], [s, t], {1, 2, 3}, ids, 0).fills;
      Sorted(Buy, [b]) && Sorted(Sell, [s, t]) && |fills| == 2 &&
      forall r, x :: Resolve(fills[0], r, x) == 10.0 && Resolve(fills[1], r, x) == 11.0
  {
    var b := Row(1, 0, 0, 1, 2, LimitTrigger, 12.0, 0.0, 0.0, 0, 0);
    var s := Row(2, 0, 0, 2, 1, LimitTrigger, 10.0, 0.0, 0.0, 0, 0);
    var t := Row(3, 0, 0, 3, 1, LimitTrigger, 11.0, 0.0, 0.0, 0, 0);
    var c := b.(orderId := ids(2), quantity := 1);
    assert Rest([b], 1, ids(2)) == [c] && Rest([s, t], 1, ids(2)) == [t];
    assert Rest([c], 1, ids(5)) == [] && Rest([t], 1, ids(5)) == [];
    CrossStep([c], [t], {1, 2, 3}, ids, 3, Fill(c, t, 1), Crossed([], [], []));
    CrossStep([b], [s, t], {1, 2, 3}, ids, 0, Fill(b, s, 1), Crossed([], [], [Fill(c, t, 1)]));
  }
}
