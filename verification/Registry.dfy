/** The registry of orders waiting for their release band or start date: buckets by symbol, and an
    index from id to symbol that must describe the same orders. */
module Registry {
  import opened Types

  type Bucket = map<OrderId, Order>

  /** The two maps of the registry. */
  datatype Maps = Maps(buckets: map<Symbol, Bucket>, index: map<OrderId, Symbol>)

  ghost predicate IndexPoints(m: Maps) {
    forall id :: id in m.index ==> m.index[id] in m.buckets && id in m.buckets[m.index[id]]
  }

  ghost predicate BucketsIndexed(m: Maps) {
    forall s, id :: s in m.buckets && id in m.buckets[s] ==> id in m.index && m.index[id] == s
  }

  ghost predicate BucketsFiled(m: Maps) {
    forall s, id :: s in m.buckets && id in m.buckets[s] ==> m.buckets[s][id].id == id && m.buckets[s][id].symbol == s
  }

  /** The buckets and the index describe the same orders. */
  ghost predicate Agree(m: Maps) { IndexPoints(m) && BucketsIndexed(m) && BucketsFiled(m) }

  /** The waiting orders the two maps describe, by id. */
  ghost predicate Describes(m: Maps, waiting: map<OrderId, Order>) {
    waiting.Keys == m.index.Keys &&
    forall id :: id in waiting ==>
      m.index[id] in m.buckets && id in m.buckets[m.index[id]] && m.buckets[m.index[id]][id] == waiting[id]
  }

  function BucketOf(m: Maps, s: Symbol): Bucket { if s in m.buckets then m.buckets[s] else map[] }

  /** Neither map overwrites an entry that is already there. */
  function Added(m: Maps, o: Order): Maps {
    var bucket := BucketOf(m, o.symbol);
    Maps(m.buckets[o.symbol := if o.id in bucket then bucket else bucket[o.id := o]],
         if o.id in m.index then m.index else m.index[o.id := o.symbol])
  }

  /** Adding keeps the two maps in agreement exactly when the id is new or already filed under the
      same symbol. */
  lemma AddKeepsAgreement(m: Maps, o: Order)
    requires Agree(m)
    ensures Agree(Added(m, o)) <==> (o.id in m.index ==> m.index[o.id] == o.symbol)
  {
    var m' := Added(m, o);
    if o.id in m.index && m.index[o.id] != o.symbol {
      assert o.id in m'.buckets[o.symbol] && m'.index[o.id] != o.symbol;
    } else if o.id in m.index {
      AddAgain(m, o);
    } else {
      AddNew(m, o);
    }
  }

  lemma AddNew(m: Maps, o: Order)
    requires Agree(m) && o.id !in m.index
    ensures Agree(Added(m, o))
  {
    var m' := Added(m, o);
    assert o.id !in BucketOf(m, o.symbol);
    assert m'.index == m.index[o.id := o.symbol];
    forall s, id | s in m'.buckets && id in m'.buckets[s]
      ensures id in m'.index && m'.index[id] == s && m'.buckets[s][id].id == id && m'.buckets[s][id].symbol == s
    {
      if s != o.symbol || id != o.id { assert s in m.buckets && id in m.buckets[s]; }
    }
  }

  lemma AddAgain(m: Maps, o: Order)
    requires Agree(m) && o.id in m.index && m.index[o.id] == o.symbol
    ensures Added(m, o) == m
  {
    assert m.buckets[o.symbol := m.buckets[o.symbol]] == m.buckets;
  }

  function WithNew(waiting: map<OrderId, Order>, o: Order): map<OrderId, Order> {
    if o.id in waiting then waiting else waiting[o.id := o]
  }

  lemma AddMeaning(m: Maps, o: Order, waiting: map<OrderId, Order>)
    requires Agree(m) && Describes(m, waiting) && (o.id in m.index ==> m.index[o.id] == o.symbol)
    ensures Agree(Added(m, o)) && Describes(Added(m, o), WithNew(waiting, o))
  {
    if o.id in m.index { AddAgain(m, o); } else { AddNew(m, o); }
  }

  /** Maps that describe what waits go on doing so exactly when they go on agreeing. */
  lemma FilingMeans(m: Maps, o: Order, waiting: map<OrderId, Order>)
    requires Agree(m) && Describes(m, waiting)
    ensures Agree(Added(m, o)) && Describes(Added(m, o), WithNew(waiting, o)) <==>
      (o.id in m.index ==> m.index[o.id] == o.symbol)
  {
    AddKeepsAgreement(m, o);
    if o.id in m.index ==> m.index[o.id] == o.symbol { AddMeaning(m, o, waiting); }
  }

  function Without(m: Maps, s: Symbol, id: OrderId): Maps
    requires s in m.buckets
  {
    Maps(m.buckets[s := m.buckets[s] - {id}], m.index - {id})
  }

  lemma WithoutAgrees(m: Maps, s: Symbol, id: OrderId)
    requires Agree(m) && s in m.buckets && id in m.buckets[s]
    ensures Agree(Without(m, s, id))
  {
    var m' := Without(m, s, id);
    assert id in m.index && m.index[id] == s;
    forall i | i in m'.index ensures m'.index[i] in m'.buckets && i in m'.buckets[m'.index[i]] {
      assert i in m.index;
    }
    forall t, i | t in m'.buckets && i in m'.buckets[t]
      ensures i in m'.index && m'.index[i] == t && m'.buckets[t][i].id == i && m'.buckets[t][i].symbol == t
    {
      assert t in m.buckets && i in m.buckets[t];
    }
  }

  lemma WithoutMeaning(m: Maps, s: Symbol, id: OrderId, waiting: map<OrderId, Order>)
    requires Agree(m) && Describes(m, waiting) && s in m.buckets && id in m.buckets[s]
    ensures Agree(Without(m, s, id)) && Describes(Without(m, s, id), waiting - {id})
  {
    WithoutAgrees(m, s, id);
    var m', left := Without(m, s, id), waiting - {id};
    assert left.Keys == m'.index.Keys;
    forall i | i in left
      ensures m'.index[i] in m'.buckets && i in m'.buckets[m'.index[i]] && m'.buckets[m'.index[i]][i] == left[i]
    {
      assert i in waiting;
    }
  }

  // ----- what a scan decides

  datatype Verdict = Expire | Release | Keep

  function Judge(o: Order, now: Time, reference: Price): Verdict {
    if o.Expired(now) then Expire
    else if o.Started(now) && o.ReleaseBandContains(reference) then Release
    else Keep
  }

  /** When and at which reference prices a scan is made. */
  datatype Scan = Scan(now: Time, reference: Symbol -> Price) {
    function Verdict(o: Order): Verdict { Judge(o, now, reference(o.symbol)) }
  }

  function Ids(orders: seq<Order>): set<OrderId> { set o | o in orders :: o.id }

  /** No id twice in a list. */
  ghost predicate NoRepeat(orders: seq<Order>) {
    orders == [] || (orders[0].id !in Ids(orders[1..]) && NoRepeat(orders[1..]))
  }

  lemma IdsCons(x: Order, rest: seq<Order>)
    ensures Ids([x] + rest) == {x.id} + Ids(rest)
  {}

  lemma IdsConcat(a: seq<Order>, b: seq<Order>)
    ensures Ids(a + b) == Ids(a) + Ids(b)
  {}

  lemma {:induction false} NoRepeatConcat(a: seq<Order>, b: seq<Order>)
    requires NoRepeat(a) && NoRepeat(b) && Ids(a) !! Ids(b)
    ensures NoRepeat(a + b)
  {
    if a == [] {
      assert a + b == b;
    } else {
      assert a == [a[0]] + a[1..] && (a + b)[1..] == a[1..] + b;
      IdsCons(a[0], a[1..]);
      IdsConcat(a[1..], b);
      NoRepeatConcat(a[1..], b);
    }
  }

  /** `orders` lists, each once and in some order, the waiting orders of `visited` that get verdict `v`. */
  ghost predicate Picks(
      orders: seq<Order>, waiting: map<OrderId, Order>, visited: set<OrderId>, scan: Scan, v: Verdict)
  {
    (forall o :: o in orders ==>
      o.id in visited && o.id in waiting && waiting[o.id] == o && scan.Verdict(o) == v) &&
    NoRepeat(orders) &&
    (forall id :: id in visited && id in waiting && scan.Verdict(waiting[id]) == v ==> waiting[id] in orders)
  }

  /** What goes on waiting after the orders of `visited` were judged. */
  ghost function Kept(waiting: map<OrderId, Order>, visited: set<OrderId>, scan: Scan): map<OrderId, Order> {
    map id | id in waiting && (id in visited ==> scan.Verdict(waiting[id]) == Keep) :: waiting[id]
  }

  lemma PicksNext(
      orders: seq<Order>, waiting: map<OrderId, Order>, visited: set<OrderId>, scan: Scan, v: Verdict, id: OrderId)
    requires Picks(orders, waiting, visited, scan, v) && id in waiting && id !in visited && waiting[id].id == id
    ensures Picks(if scan.Verdict(waiting[id]) == v then orders + [waiting[id]] else orders,
                  waiting, visited + {id}, scan, v)
  {
    var o := waiting[id];
    assert [o][1..] == [] && Ids([o]) == {id} && NoRepeat([]);
    NoRepeatConcat(orders, [o]);
  }

  lemma KeptNext(waiting: map<OrderId, Order>, visited: set<OrderId>, scan: Scan, id: OrderId)
    requires id in waiting && id !in visited
    ensures Kept(waiting, visited + {id}, scan) ==
      if scan.Verdict(waiting[id]) == Keep then Kept(waiting, visited, scan) else Kept(waiting, visited, scan) - {id}
  {}

  /** What a scan released, expired and kept does not overlap. */
  lemma ScanDecidesOnce(waiting: map<OrderId, Order>, visited: set<OrderId>, scan: Scan,
                        released: seq<Order>, expired: seq<Order>, id: OrderId)
    requires forall id :: id in waiting ==> waiting[id].id == id
    requires visited <= waiting.Keys && id in waiting
    requires Picks(released, waiting, visited, scan, Release) && Picks(expired, waiting, visited, scan, Expire)
    ensures
      var o, kept := waiting[id], Kept(waiting, visited, scan);
      (o in released || o in expired || (id in kept && kept[id] == o)) &&
      !(o in released && o in expired) && !(id in kept && (o in released || o in expired))
  {
    var v := scan.Verdict(waiting[id]);
    assert waiting[id].id == id;
  }

  /** Every scan splits the orders it visits three ways, losing and duplicating none. */
  lemma ScanSplits(waiting: map<OrderId, Order>, visited: set<OrderId>, scan: Scan,
                   released: seq<Order>, expired: seq<Order>)
    requires forall id :: id in waiting ==> waiting[id].id == id
    requires visited <= waiting.Keys
    requires Picks(released, waiting, visited, scan, Release) && Picks(expired, waiting, visited, scan, Expire)
    ensures forall id :: id in waiting ==>
      var o, kept := waiting[id], Kept(waiting, visited, scan);
      (o in released || o in expired || (id in kept && kept[id] == o)) &&
      !(o in released && o in expired) && !(id in kept && (o in released || o in expired))
    ensures Kept(waiting, visited, scan).Keys <= waiting.Keys
    ensures |Kept(waiting, visited, scan)| + |released| + |expired| == |waiting|
  {
    forall id | id in waiting
      ensures
        var o, kept := waiting[id], Kept(waiting, visited, scan);
        (o in released || o in expired || (id in kept && kept[id] == o)) &&
        !(o in released && o in expired) && !(id in kept && (o in released || o in expired))
    {
      ScanDecidesOnce(waiting, visited, scan, released, expired, id);
    }
    IdsPicked(waiting, visited, scan, released, Release);
    IdsPicked(waiting, visited, scan, expired, Expire);
    CountThreeWays(waiting, visited, scan, Kept(waiting, visited, scan).Keys, Ids(released), Ids(expired));
    DistinctCount(released);
    DistinctCount(expired);
  }

  lemma IdsPicked(
      waiting: map<OrderId, Order>, visited: set<OrderId>, scan: Scan, orders: seq<Order>, v: Verdict)
    requires forall id :: id in waiting ==> waiting[id].id == id
    requires Picks(orders, waiting, visited, scan, v)
    ensures forall id :: id in Ids(orders) <==> id in visited && id in waiting && scan.Verdict(waiting[id]) == v
  {
    forall id | id in visited && id in waiting && scan.Verdict(waiting[id]) == v ensures id in Ids(orders) {
      assert waiting[id] in orders && waiting[id].id == id;
    }
  }

  lemma CountThreeWays(
      waiting: map<OrderId, Order>, visited: set<OrderId>, scan: Scan,
      kept: set<OrderId>, released: set<OrderId>, expired: set<OrderId>)
    requires forall id :: id in kept <==> id in waiting && (id in visited ==> scan.Verdict(waiting[id]) == Keep)
    requires forall id :: id in released <==> id in visited && id in waiting && scan.Verdict(waiting[id]) == Release
    requires forall id :: id in expired <==> id in visited && id in waiting && scan.Verdict(waiting[id]) == Expire
    ensures |kept| + |released| + |expired| == |waiting|
  {
    assert waiting.Keys == kept + released + expired;
    assert kept !! released && (kept + released) !! expired;
    assert |waiting| == |waiting.Keys|;
  }

  lemma {:induction false} DistinctCount(orders: seq<Order>)
    requires NoRepeat(orders)
    ensures |Ids(orders)| == |orders|
  {
    if orders != [] {
      DistinctCount(orders[1..]);
      assert orders == [orders[0]] + orders[1..];
      IdsCons(orders[0], orders[1..]);
    }
  }

  /** Nothing that a scan visited and left waiting was ready, or overdue, at that moment. */
  lemma NoneReadyStays(waiting: map<OrderId, Order>, visited: set<OrderId>, scan: Scan, id: OrderId)
    requires id in Kept(waiting, visited, scan) && id in visited
    ensures
      var o := waiting[id];
      !o.Expired(scan.now) && !(o.Started(scan.now) && o.ReleaseBandContains(scan.reference(o.symbol)))
  {}

  class OrderRegistry {
    var waitingBySymbol: map<Symbol, Bucket>
    var orderSymbolIndex: map<OrderId, Symbol>
    ghost var contents: map<OrderId, Order>

    ghost function State(): Maps reads this { Maps(waitingBySymbol, orderSymbolIndex) }

    ghost predicate Valid() reads this { Agree(State()) && Describes(State(), contents) }

    constructor ()
      ensures Valid() && contents == map[]
    {
      waitingBySymbol, orderSymbolIndex, contents := map[], map[], map[];
    }

    /** Files an order; one that is already filed stays as it is. An id that is filed under another
        symbol is accepted too, and makes the two maps disagree. */
    method Add(order: Order)
      requires Valid()
      modifies this
      ensures State() == Added(old(State()), order) && contents == WithNew(old(contents), order)
      ensures Valid() <==> (order.id in old(orderSymbolIndex) ==> old(orderSymbolIndex)[order.id] == order.symbol)
    {
      FilingMeans(State(), order, contents);
      var bucket := if order.symbol in waitingBySymbol then waitingBySymbol[order.symbol] else map[];
      if order.id !in bucket {
        bucket := bucket[order.id := order];
      }
      waitingBySymbol := waitingBySymbol[order.symbol := bucket];
      if order.id !in orderSymbolIndex {
        orderSymbolIndex := orderSymbolIndex[order.id := order.symbol];
      }
      contents := WithNew(contents, order);
    }

    method Cancel(id: OrderId) returns (found: bool)
      requires Valid()
      modifies this
      ensures Valid()
      ensures found == (id in old(contents)) && contents == old(contents) - {id}
    {
      if id !in orderSymbolIndex {
        return false;
      }
      Erase(orderSymbolIndex[id], id);
      found := true;
    }

    method Erase(symbol: Symbol, id: OrderId)
      requires Valid() && symbol in waitingBySymbol && id in waitingBySymbol[symbol]
      modifies this
      ensures Valid() && waitingBySymbol == old(waitingBySymbol)[symbol := old(waitingBySymbol)[symbol] - {id}]
      ensures contents == old(contents) - {id}
    {
      WithoutMeaning(State(), symbol, id, contents);
      waitingBySymbol := waitingBySymbol[symbol := waitingBySymbol[symbol] - {id}];
      orderSymbolIndex := orderSymbolIndex - {id};
      contents := contents - {id};
    }

    method Size() returns (n: nat)
      requires Valid()
      ensures n == |contents|
    {
      assert |contents.Keys| == |contents|;
      n := |orderSymbolIndex.Keys|;
    }

    /** One step of a scan: judges one waiting order of a bucket. */
    method JudgeOne(symbol: Symbol, id: OrderId, referencePrice: Price, scan: Scan)
      returns (order: Order, verdict: Verdict)
      requires Valid() && symbol in waitingBySymbol && id in waitingBySymbol[symbol]
      requires referencePrice == scan.reference(symbol)
      modifies this
      ensures Valid() && waitingBySymbol.Keys == old(waitingBySymbol.Keys)
      ensures waitingBySymbol[symbol].Keys >= old(waitingBySymbol[symbol].Keys) - {id}
      ensures id in old(contents) && order == old(contents)[id] && order.id == id && order.symbol == symbol
      ensures verdict == scan.Verdict(order)
      ensures contents == if verdict == Keep then old(contents) else old(contents) - {id}
    {
      order := waitingBySymbol[symbol][id];
      if order.Expired(scan.now) {
        verdict := Expire;
        Erase(symbol, id);
      } else if order.Started(scan.now) && order.ReleaseBandContains(referencePrice) {
        verdict := Release;
        Erase(symbol, id);
      } else {
        verdict := Keep;
      }
    }

    /** A scan of a bucket that has still to visit `ids` of what waited before. */
    ghost predicate Scanning(
        symbol: Symbol, scan: Scan, released: seq<Order>, expired: seq<Order>,
        before: map<OrderId, Order>, all: set<OrderId>, ids: set<OrderId>)
      reads this
    {
      Valid() && symbol in waitingBySymbol && ids <= all && ids <= waitingBySymbol[symbol].Keys &&
      Picks(released, before, all - ids, scan, Release) && Picks(expired, before, all - ids, scan, Expire) &&
      contents == Kept(before, all - ids, scan)
    }

    /** Judges one order of the bucket, and lists it if it leaves. */
    method VisitOne(
        symbol: Symbol, id: OrderId, referencePrice: Price, scan: Scan, released: seq<Order>, expired: seq<Order>,
        ghost before: map<OrderId, Order>, ghost all: set<OrderId>, ghost ids: set<OrderId>)
      returns (released': seq<Order>, expired': seq<Order>)
      requires Scanning(symbol, scan, released, expired, before, all, ids) && id in ids
      requires referencePrice == scan.reference(symbol)
      modifies this
      ensures waitingBySymbol.Keys == old(waitingBySymbol.Keys)
      ensures Scanning(symbol, scan, released', expired', before, all, ids - {id})
    {
      released', expired' := released, expired;
      var order, verdict := JudgeOne(symbol, id, referencePrice, scan);
      OneMoreJudged(released, expired, before, all, ids, scan, id);
      match verdict {
        case Expire => expired' := expired + [order];
        case Release => released' := released + [order];
        case Keep =>
      }
    }

    /** The scan of one bucket, whose entries the original visits in no particular order. */
    method ScanBucket(symbol: Symbol, referencePrice: Price, scan: Scan)
      returns (released: seq<Order>, expired: seq<Order>)
      requires Valid() && symbol in waitingBySymbol && referencePrice == scan.reference(symbol)
      modifies this
      ensures Valid() && waitingBySymbol.Keys == old(waitingBySymbol.Keys)
      ensures Picks(released, old(contents), WaitingOn(old(contents), {symbol}), scan, Release)
      ensures Picks(expired, old(contents), WaitingOn(old(contents), {symbol}), scan, Expire)
      ensures contents == Kept(old(contents), WaitingOn(old(contents), {symbol}), scan)
    {
      released, expired := [], [];
      var ids := waitingBySymbol[symbol].Keys;
      ghost var before, all := contents, ids;
      BucketIsWaiting(State(), contents, symbol);
      assert all - ids == {};
      while ids != {}
        invariant waitingBySymbol.Keys == old(waitingBySymbol.Keys)
        invariant Scanning(symbol, scan, released, expired, before, all, ids)
        decreases ids
      {
        var id :| id in ids;
        released, expired := VisitOne(symbol, id, referencePrice, scan, released, expired, before, all, ids);
        ids := ids - {id};
      }
      assert all - ids == all;
    }

    method ScanAndReleaseSymbol(symbol: Symbol, scan: Scan) returns (released: seq<Order>, expired: seq<Order>)
      requires Valid()
      modifies this
      ensures Valid()
      ensures Picks(released, old(contents), WaitingOn(old(contents), {symbol}), scan, Release)
      ensures Picks(expired, old(contents), WaitingOn(old(contents), {symbol}), scan, Expire)
      ensures contents == Kept(old(contents), WaitingOn(old(contents), {symbol}), scan)
    {
      if symbol in waitingBySymbol {
        released, expired := ScanBucket(symbol, scan.reference(symbol), scan);
      } else {
        NothingToScan(State(), contents, symbol, scan);
        released, expired := [], [];
      }
    }

    method ScanAndRelease(scan: Scan) returns (released: seq<Order>, expired: seq<Order>)
      requires Valid()
      modifies this
      ensures Valid()
      ensures Picks(released, old(contents), old(contents).Keys, scan, Release)
      ensures Picks(expired, old(contents), old(contents).Keys, scan, Expire)
      ensures contents == Kept(old(contents), old(contents).Keys, scan)
    {
      released, expired := [], [];
      var symbols := waitingBySymbol.Keys;
      ghost var before, all, done: set<Symbol> := contents, symbols, {};
      assert WaitingOn(before, all) == before.Keys;
      while symbols != {}
        invariant Valid() && waitingBySymbol.Keys == all && done <= all && symbols == all - done
        invariant Picks(released, before, WaitingOn(before, done), scan, Release)
        invariant Picks(expired, before, WaitingOn(before, done), scan, Expire)
        invariant contents == Kept(before, WaitingOn(before, done), scan)
        decreases symbols
      {
        var symbol :| symbol in symbols;
        ScannedMore(before, done, symbol, scan);
        var moreReleased, moreExpired := ScanBucket(symbol, scan.reference(symbol), scan);
        PicksBoth(released, moreReleased, before, WaitingOn(before, done), WaitingOn(before, {symbol}), scan, Release);
        PicksBoth(expired, moreExpired, before, WaitingOn(before, done), WaitingOn(before, {symbol}), scan, Expire);
        released, expired := released + moreReleased, expired + moreExpired;
        symbols, done := symbols - {symbol}, done + {symbol};
      }
      assert done == all;
    }
  }

  /** The waiting orders on some symbols. */
  ghost function WaitingOn(waiting: map<OrderId, Order>, symbols: set<Symbol>): set<OrderId> {
    set id | id in waiting && waiting[id].symbol in symbols
  }

  /** What a scan has listed and kept once one more of a bucket's orders is judged. */
  lemma OneMoreJudged(
      released: seq<Order>, expired: seq<Order>, waiting: map<OrderId, Order>, all: set<OrderId>, ids: set<OrderId>,
      scan: Scan, id: OrderId)
    requires ids <= all && id in ids && id in waiting && waiting[id].id == id
    requires Picks(released, waiting, all - ids, scan, Release) && Picks(expired, waiting, all - ids, scan, Expire)
    ensures
      var o, visited := waiting[id], all - (ids - {id});
      Picks(if scan.Verdict(o) == Release then released + [o] else released, waiting, visited, scan, Release) &&
      Picks(if scan.Verdict(o) == Expire then expired + [o] else expired, waiting, visited, scan, Expire) &&
      Kept(waiting, visited, scan) ==
        if scan.Verdict(o) == Keep then Kept(waiting, all - ids, scan) else Kept(waiting, all - ids, scan) - {id}
  {
    PicksNext(released, waiting, all - ids, scan, Release, id);
    PicksNext(expired, waiting, all - ids, scan, Expire, id);
    KeptNext(waiting, all - ids, scan, id);
    assert all - (ids - {id}) == all - ids + {id};
  }

  lemma BucketIsWaiting(m: Maps, waiting: map<OrderId, Order>, s: Symbol)
    requires Agree(m) && Describes(m, waiting) && s in m.buckets
    ensures m.buckets[s].Keys == WaitingOn(waiting, {s})
  {}

  lemma NothingToScan(m: Maps, waiting: map<OrderId, Order>, s: Symbol, scan: Scan)
    requires Agree(m) && Describes(m, waiting) && s !in m.buckets
    ensures Picks([], waiting, WaitingOn(waiting, {s}), scan, Release)
    ensures Picks([], waiting, WaitingOn(waiting, {s}), scan, Expire)
    ensures Kept(waiting, WaitingOn(waiting, {s}), scan) == waiting
  {
    assert WaitingOn(waiting, {s}) == {};
  }

  /** Scanning one symbol after others judges its orders as scanning them all together does. */
  lemma ScannedMore(waiting: map<OrderId, Order>, done: set<Symbol>, s: Symbol, scan: Scan)
    requires s !in done
    ensures
      var visited, more := WaitingOn(waiting, done), WaitingOn(waiting, {s});
      visited !! more && visited + more == WaitingOn(waiting, done + {s}) &&
      WaitingOn(Kept(waiting, visited, scan), {s}) == more &&
      Kept(Kept(waiting, visited, scan), more, scan) == Kept(waiting, visited + more, scan)
  {}

  lemma PicksBoth(orders: seq<Order>, more: seq<Order>, waiting: map<OrderId, Order>,
                  visited: set<OrderId>, ids: set<OrderId>, scan: Scan, v: Verdict)
    requires visited !! ids && Picks(orders, waiting, visited, scan, v)
    requires Picks(more, Kept(waiting, visited, scan), ids, scan, v)
    ensures Picks(orders + more, waiting, visited + ids, scan, v)
  {
    assert Ids(orders) <= visited && Ids(more) <= ids;
    NoRepeatConcat(orders, more);
  }
}
