/** What every interleaving of the registry's operations, each atomic under its lock, keeps. */
module RegistryRuns {
  import opened Types
  import opened Registry

  type Orders = map<OrderId, Order>

  /** What was ever added, what waits now, and what left by each of the three ways out. */
  datatype Ledger = Ledger(added: Orders, waiting: Orders, released: Orders, expired: Orders, cancelled: Orders)

  const EMPTY := Ledger(map[], map[], map[], map[], map[])

  datatype Operation =
    | AddOne(order: Order)
    | CancelOne(id: OrderId)
    | ScanSome(visited: set<OrderId>, scan: Scan, released: seq<Order>, expired: seq<Order>)

  /** Those of the waiting orders that a scan lists. */
  ghost function Among(waiting: Orders, listed: seq<Order>): Orders {
    map id | id in waiting && waiting[id] in listed :: waiting[id]
  }

  /** Ids are never used twice; a scan of some symbols, or of all, lists what it picks. */
  ghost predicate Enabled(l: Ledger, op: Operation) {
    match op
    case AddOne(o) => o.id !in l.added
    case CancelOne(_) => true
    case ScanSome(visited, scan, released, expired) =>
      visited <= l.waiting.Keys && Picks(released, l.waiting, visited, scan, Release) &&
      Picks(expired, l.waiting, visited, scan, Expire)
  }

  ghost function Next(l: Ledger, op: Operation): Ledger
    requires Enabled(l, op)
  {
    match op
    case AddOne(o) => l.(added := l.added[o.id := o], waiting := l.waiting[o.id := o])
    case CancelOne(id) =>
      if id in l.waiting then l.(waiting := l.waiting - {id}, cancelled := l.cancelled[id := l.waiting[id]]) else l
    case ScanSome(visited, scan, released, expired) =>
      l.(waiting := Kept(l.waiting, visited, scan), released := l.released + Among(l.waiting, released),
         expired := l.expired + Among(l.waiting, expired))
  }

  ghost predicate Agrees(id: OrderId, place: Orders, added: Orders) {
    id in place ==> id in added && place[id] == added[id]
  }

  function Once(b: bool): nat { if b then 1 else 0 }

  /** An order that was added is in exactly one place, unchanged; one that was not is in none. */
  ghost predicate Placed(l: Ledger, id: OrderId) {
    Agrees(id, l.waiting, l.added) && Agrees(id, l.released, l.added) && Agrees(id, l.expired, l.added) &&
    Agrees(id, l.cancelled, l.added) && (id in l.added ==> l.added[id].id == id) &&
    Once(id in l.waiting) + Once(id in l.released) + Once(id in l.expired) + Once(id in l.cancelled) ==
    Once(id in l.added)
  }

  ghost predicate InOnePlace(l: Ledger) { forall id :: Placed(l, id) }

  lemma ScanKeepsPlace(
      l: Ledger, visited: set<OrderId>, scan: Scan, released: seq<Order>, expired: seq<Order>, id: OrderId)
    requires InOnePlace(l) && Enabled(l, ScanSome(visited, scan, released, expired))
    ensures Placed(Next(l, ScanSome(visited, scan, released, expired)), id)
  {
    assert Placed(l, id);
    if id in l.waiting {
      forall i | i in l.waiting ensures l.waiting[i].id == i { assert Placed(l, i); }
      ScanDecidesOnce(l.waiting, visited, scan, released, expired, id);
    }
  }

  lemma OperationKeepsPlaces(l: Ledger, op: Operation)
    requires InOnePlace(l) && Enabled(l, op)
    ensures InOnePlace(Next(l, op))
  {
    forall id ensures Placed(Next(l, op), id) {
      assert Placed(l, id);
      if op.ScanSome? { ScanKeepsPlace(l, op.visited, op.scan, op.released, op.expired, id); }
    }
  }

  ghost predicate IsRun(states: seq<Ledger>, ops: seq<Operation>) {
    |states| == |ops| + 1 && states[0] == EMPTY &&
    forall i :: 0 <= i < |ops| ==> Enabled(states[i], ops[i]) && states[i + 1] == Next(states[i], ops[i])
  }

  /** However adds, cancellations and scans interleave, what was added is what waits, was released,
      expired or was cancelled: nothing is lost, nothing is in two places. */
  lemma {:induction false} AddedIsAccounted(states: seq<Ledger>, ops: seq<Operation>)
    requires IsRun(states, ops)
    ensures InOnePlace(states[|ops|])
    ensures
      var l := states[|ops|];
      |l.added| == |l.waiting| + |l.released| + |l.expired| + |l.cancelled|
    decreases |ops|
  {
    if ops != [] {
      var n := |ops| - 1;
      AddedIsAccounted(states[..n + 1], ops[..n]);
      OperationKeepsPlaces(states[n], ops[n]);
    }
    CountPlaces(states[|ops|]);
  }

  lemma SetsApart(l: Ledger)
    requires InOnePlace(l)
    ensures l.waiting.Keys !! l.released.Keys && l.waiting.Keys !! l.expired.Keys && l.waiting.Keys !! l.cancelled.Keys
    ensures l.released.Keys !! l.expired.Keys && l.released.Keys !! l.cancelled.Keys
    ensures l.expired.Keys !! l.cancelled.Keys
    ensures forall id :: id in l.added <==> id in l.waiting || id in l.released || id in l.expired || id in l.cancelled
  {
    forall id
      ensures id in l.added <==> id in l.waiting || id in l.released || id in l.expired || id in l.cancelled
      ensures !(id in l.waiting && id in l.released) && !(id in l.waiting && id in l.expired)
      ensures !(id in l.waiting && id in l.cancelled) && !(id in l.released && id in l.expired)
      ensures !(id in l.released && id in l.cancelled) && !(id in l.expired && id in l.cancelled)
    {
      assert Placed(l, id);
    }
  }

  lemma CountPlaces(l: Ledger)
    requires InOnePlace(l)
    ensures |l.added| == |l.waiting| + |l.released| + |l.expired| + |l.cancelled|
  {
    SetsApart(l);
    CountFour(l.added.Keys, l.waiting.Keys, l.released.Keys, l.expired.Keys, l.cancelled.Keys);
    assert |l.added.Keys| == |l.added| && |l.waiting.Keys| == |l.waiting| && |l.released.Keys| == |l.released|;
    assert |l.expired.Keys| == |l.expired| && |l.cancelled.Keys| == |l.cancelled|;
  }

  lemma CountFour(all: set<OrderId>, w: set<OrderId>, r: set<OrderId>, e: set<OrderId>, c: set<OrderId>)
    requires w !! r && w !! e && w !! c && r !! e && r !! c && e !! c
    requires forall id :: id in all <==> id in w || id in r || id in e || id in c
    ensures |all| == |w| + |r| + |e| + |c|
  {
    assert all == w + r + e + c;
    assert w + r !! e && w + r + e !! c;
  }
}
