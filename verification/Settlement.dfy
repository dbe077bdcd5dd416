/** Any number of threads submit orders at once. Matching holds a book's lock and settling one trade
    holds the portfolios' lock, so the two interleave freely: what that can and cannot change. */
module Settlement {
  import opened Types
  import opened Books
  import opened Portfolios

  /** `threads[i]` lists the trades thread i has matched and not settled yet. `granted` and `trades`
      record what was paid in and what every book traded. */
  datatype Market = Market(
    books: map<Symbol, Book>, portfolios: PortfolioMap, threads: seq<seq<Trade>>,
    granted: PortfolioMap, trades: seq<Trade>)

  datatype Step =
    | MatchStep(thread: nat, order: Order, now: Time)
    | SettleStep(thread: nat)
    | EnsureStep(client: ClientId, cash: real)
    | GrantStep(client: ClientId, symbol: Symbol, quantity: Quantity)

  /** A thread matches its next order only once it has settled the trades of its last one. */
  predicate Enabled(m: Market, step: Step) {
    match step
    case MatchStep(i, o, _) => i < |m.threads| && m.threads[i] == [] && o.symbol in m.books
    case SettleStep(i) => i < |m.threads| && m.threads[i] != []
    case _ => true
  }

  function Next(m: Market, step: Step): Market
    requires Enabled(m, step)
  {
    match step
    case MatchStep(i, o, now) =>
      var r := Match(m.books[o.symbol], o, o.symbol, now);
      m.(books := m.books[o.symbol := r.book], threads := m.threads[i := r.trades], trades := m.trades + r.trades)
    case SettleStep(i) =>
      m.(portfolios := Settle(m.portfolios, m.threads[i][0]), threads := m.threads[i := m.threads[i][1..]])
    case EnsureStep(c, cash) =>
      if c in m.portfolios then m
      else m.(portfolios := EnsureClient(m.portfolios, c, cash), granted := Credit(m.granted, c, cash))
    case GrantStep(c, s, q) =>
      m.(portfolios := Grant(m.portfolios, c, s, q), granted := Grant(m.granted, c, s, q))
  }

  function Credit(ps: PortfolioMap, c: ClientId, cash: real): PortfolioMap {
    ps[c := Of(ps, c).(cash := Of(ps, c).cash + cash)]
  }

  ghost predicate Initial(m: Market) {
    m.portfolios == map[] && m.granted == map[] && m.trades == [] &&
    forall i :: 0 <= i < |m.threads| ==> m.threads[i] == []
  }

  ghost predicate IsRun(states: seq<Market>, steps: seq<Step>) {
    |states| == |steps| + 1 && Initial(states[0]) &&
    forall i :: 0 <= i < |steps| ==> Enabled(states[i], steps[i]) && states[i + 1] == Next(states[i], steps[i])
  }

  // ----- what trades do to one client

  function CashOf(t: Trade, c: ClientId): real {
    (if t.seller == c then Notional(t.quantity, t.price) else 0.0) -
    (if t.buyer == c then Notional(t.quantity, t.price) else 0.0)
  }

  function SharesOf(t: Trade, c: ClientId, s: Symbol): Quantity {
    if t.symbol != s then 0
    else (if t.buyer == c then t.quantity else 0) - (if t.seller == c then t.quantity else 0)
  }

  function CashFrom(trades: seq<Trade>, c: ClientId): real {
    if trades == [] then 0.0 else CashOf(trades[0], c) + CashFrom(trades[1..], c)
  }

  function SharesFrom(trades: seq<Trade>, c: ClientId, s: Symbol): Quantity {
    if trades == [] then 0 else SharesOf(trades[0], c, s) + SharesFrom(trades[1..], c, s)
  }

  function Pending(threads: seq<seq<Trade>>): seq<Trade> {
    if threads == [] then [] else threads[0] + Pending(threads[1..])
  }

  lemma {:induction false} FromConcat(a: seq<Trade>, b: seq<Trade>, c: ClientId, s: Symbol)
    ensures CashFrom(a + b, c) == CashFrom(a, c) + CashFrom(b, c)
    ensures SharesFrom(a + b, c, s) == SharesFrom(a, c, s) + SharesFrom(b, c, s)
  {
    if a == [] {
      assert a + b == b;
    } else {
      assert (a + b)[1..] == a[1..] + b;
      FromConcat(a[1..], b, c, s);
    }
  }

  /** Replacing one thread's list changes what is pending by the difference. */
  lemma {:induction false} PendingReplaced(threads: seq<seq<Trade>>, i: nat, ts: seq<Trade>, c: ClientId, s: Symbol)
    requires i < |threads|
    ensures CashFrom(Pending(threads[i := ts]), c) ==
      CashFrom(Pending(threads), c) - CashFrom(threads[i], c) + CashFrom(ts, c)
    ensures SharesFrom(Pending(threads[i := ts]), c, s) ==
      SharesFrom(Pending(threads), c, s) - SharesFrom(threads[i], c, s) + SharesFrom(ts, c, s)
  {
    FromConcat(threads[0], Pending(threads[1..]), c, s);
    if i == 0 {
      assert threads[i := ts][1..] == threads[1..];
      FromConcat(ts, Pending(threads[1..]), c, s);
    } else {
      assert threads[i := ts][1..] == threads[1..][i - 1 := ts];
      PendingReplaced(threads[1..], i - 1, ts, c, s);
      FromConcat(threads[0], Pending(threads[1..][i - 1 := ts]), c, s);
    }
  }

  /** Settling one trade moves exactly its own cash and shares, whoever trades with whom. */
  lemma SettleMoves(ps: PortfolioMap, t: Trade, c: ClientId, s: Symbol)
    ensures Cash(Settle(ps, t), c) == Cash(ps, c) + CashOf(t, c)
    ensures Shares(Settle(ps, t), c, s) == Shares(ps, c, s) + SharesOf(t, c, s)
  {}

  /** A client's portfolio and still-unsettled trades make up what was paid in plus all book trades. */
  ghost predicate Accounted(m: Market, c: ClientId, s: Symbol) {
    Cash(m.portfolios, c) + CashFrom(Pending(m.threads), c) == Cash(m.granted, c) + CashFrom(m.trades, c) &&
    Shares(m.portfolios, c, s) + SharesFrom(Pending(m.threads), c, s) ==
      Shares(m.granted, c, s) + SharesFrom(m.trades, c, s)
  }

  lemma StepKeepsAccounts(m: Market, step: Step, c: ClientId, s: Symbol)
    requires Enabled(m, step) && Accounted(m, c, s)
    ensures Accounted(Next(m, step), c, s)
  {
    match step
    case MatchStep(i, o, now) => MatchKeepsAccounts(m, i, o, now, c, s);
    case SettleStep(i) => SettleKeepsAccounts(m, i, c, s);
    case EnsureStep(x, cash) => if x !in m.portfolios { CashPaidIn(m.portfolios, m.granted, x, cash, c, s); }
    case GrantStep(x, t, q) =>
      SharesPaidIn(m.portfolios, x, t, q, c, s);
      SharesPaidIn(m.granted, x, t, q, c, s);
  }

  lemma CashPaidIn(ps: PortfolioMap, granted: PortfolioMap, x: ClientId, cash: real, c: ClientId, s: Symbol)
    requires x !in ps
    ensures Cash(EnsureClient(ps, x, cash), c) - Cash(ps, c) == Cash(Credit(granted, x, cash), c) - Cash(granted, c)
    ensures Shares(EnsureClient(ps, x, cash), c, s) == Shares(ps, c, s)
    ensures Shares(Credit(granted, x, cash), c, s) == Shares(granted, c, s)
  {}

  lemma SharesPaidIn(ps: PortfolioMap, x: ClientId, t: Symbol, q: Quantity, c: ClientId, s: Symbol)
    ensures Cash(Grant(ps, x, t, q), c) == Cash(ps, c)
    ensures Shares(Grant(ps, x, t, q), c, s) == Shares(ps, c, s) + if x == c && t == s then q else 0
  {}

  lemma SettleKeepsAccounts(m: Market, i: nat, c: ClientId, s: Symbol)
    requires Enabled(m, SettleStep(i)) && Accounted(m, c, s)
    ensures Accounted(Next(m, SettleStep(i)), c, s)
  {
    PendingReplaced(m.threads, i, m.threads[i][1..], c, s);
    SettleMoves(m.portfolios, m.threads[i][0], c, s);
  }

  lemma MatchKeepsAccounts(m: Market, i: nat, o: Order, now: Time, c: ClientId, s: Symbol)
    requires Enabled(m, MatchStep(i, o, now)) && Accounted(m, c, s)
    ensures Accounted(Next(m, MatchStep(i, o, now)), c, s)
  {
    var trades := Match(m.books[o.symbol], o, o.symbol, now).trades;
    PendingReplaced(m.threads, i, trades, c, s);
    FromConcat(m.trades, trades, c, s);
  }

  lemma {:induction false} NothingPending(threads: seq<seq<Trade>>)
    requires forall i :: 0 <= i < |threads| ==> threads[i] == []
    ensures Pending(threads) == []
  {
    if threads != [] { NothingPending(threads[1..]); }
  }

  /** In every interleaving, every client is accounted for at every moment. */
  lemma {:induction false} AlwaysAccounted(states: seq<Market>, steps: seq<Step>, c: ClientId, s: Symbol)
    requires IsRun(states, steps)
    ensures Accounted(states[|steps|], c, s)
    decreases |steps|
  {
    if steps == [] {
      NothingPending(states[0].threads);
    } else {
      var n := |steps| - 1;
      AlwaysAccounted(states[..n + 1], steps[..n], c, s);
      StepKeepsAccounts(states[n], steps[n], c, s);
    }
  }

  // ----- order of settlement

  ghost predicate Settled(m: Market) { forall i :: 0 <= i < |m.threads| ==> m.threads[i] == [] }

  /** A trade counts the same wherever it stands in the list. */
  lemma TakeOut(b: seq<Trade>, k: nat, c: ClientId, s: Symbol)
    requires k < |b|
    ensures
      var rest := b[..k] + b[k + 1..];
      CashFrom(b, c) == CashOf(b[k], c) + CashFrom(rest, c) &&
      SharesFrom(b, c, s) == SharesOf(b[k], c, s) + SharesFrom(rest, c, s)
  {
    assert b == b[..k] + ([b[k]] + b[k + 1..]);
    FromConcat(b[..k], [b[k]] + b[k + 1..], c, s);
    assert ([b[k]] + b[k + 1..])[1..] == b[k + 1..];
    FromConcat(b[..k], b[k + 1..], c, s);
  }

  lemma WithoutFirst(s: seq<Trade>)
    requires s != []
    ensures multiset(s[1..]) == multiset(s) - multiset{s[0]}
  {
    assert s == [s[0]] + s[1..];
  }

  lemma WithoutOne(s: seq<Trade>, k: nat)
    requires k < |s|
    ensures multiset(s[..k] + s[k + 1..]) == multiset(s) - multiset{s[k]}
  {
    assert s == s[..k] + ([s[k]] + s[k + 1..]);
  }

  lemma SameWithout(a: seq<Trade>, b: seq<Trade>, k: nat)
    requires a != [] && k < |b| && a[0] == b[k] && multiset(a) == multiset(b)
    ensures multiset(a[1..]) == multiset(b[..k] + b[k + 1..])
  {
    WithoutFirst(a);
    WithoutOne(b, k);
  }

  lemma CashFromMultiset(a: seq<Trade>, b: seq<Trade>, c: ClientId, s: Symbol)
    requires multiset(a) == multiset(b)
    ensures CashFrom(a, c) == CashFrom(b, c) && SharesFrom(a, c, s) == SharesFrom(b, c, s)
    decreases |a|
  {
    if a == [] {
      assert |multiset(b)| == 0;
    } else {
      assert a[0] in multiset(b);
      var k :| 0 <= k < |b| && b[k] == a[0];
      TakeOut(b, k, c, s);
      SameWithout(a, b, k);
      CashFromMultiset(a[1..], b[..k] + b[k + 1..], c, s);
    }
  }

  /** Two runs that granted the same and traded the same, in whatever order and on whatever threads
      they settled, end with the same portfolio for every client. */
  lemma SettlementOrderIrrelevant(
      a: seq<Market>, steps: seq<Step>, b: seq<Market>, steps': seq<Step>, c: ClientId, s: Symbol)
    requires IsRun(a, steps) && IsRun(b, steps')
    requires Settled(a[|steps|]) && Settled(b[|steps'|])
    requires a[|steps|].granted == b[|steps'|].granted
    requires multiset(a[|steps|].trades) == multiset(b[|steps'|].trades)
    ensures Cash(a[|steps|].portfolios, c) == Cash(b[|steps'|].portfolios, c)
    ensures Shares(a[|steps|].portfolios, c, s) == Shares(b[|steps'|].portfolios, c, s)
  {
    AlwaysAccounted(a, steps, c, s);
    AlwaysAccounted(b, steps', c, s);
    NothingPending(a[|steps|].threads);
    NothingPending(b[|steps'|].threads);
    CashFromMultiset(a[|steps|].trades, b[|steps'|].trades, c, s);
  }

  // ----- totals

  datatype Total = Total(cash: real, shares: Quantity)

  ghost function Pick<T>(s: set<T>): (x: T)
    requires s != {}
    ensures x in s
  {
    var x :| x in s; x
  }

  /** The cash of a set of clients, and their shares of one symbol. */
  ghost function TotalOf(ps: PortfolioMap, cs: set<ClientId>, s: Symbol): Total {
    if cs == {} then Total(0.0, 0)
    else
      var c := Pick(cs);
      Plus(TotalOf(ps, cs - {c}, s), Cash(ps, c), Shares(ps, c, s))
  }

  function Plus(t: Total, cash: real, shares: Quantity): Total { Total(t.cash + cash, t.shares + shares) }

  /** A total may be taken in any order. */
  lemma {:induction false} TotalRemove(ps: PortfolioMap, cs: set<ClientId>, c: ClientId, s: Symbol)
    requires c in cs
    ensures TotalOf(ps, cs, s) == Plus(TotalOf(ps, cs - {c}, s), Cash(ps, c), Shares(ps, c, s))
    decreases cs
  {
    var d := Pick(cs);
    if d != c {
      TotalRemove(ps, cs - {d}, c, s);
      TotalRemove(ps, cs - {c}, d, s);
      assert cs - {d} - {c} == cs - {c} - {d};
      var x := TotalOf(ps, cs - {c} - {d}, s);
      assert TotalOf(ps, cs, s) == Plus(Plus(x, Cash(ps, c), Shares(ps, c, s)), Cash(ps, d), Shares(ps, d, s));
      assert TotalOf(ps, cs - {c}, s) == Plus(x, Cash(ps, d), Shares(ps, d, s));
    } else {
      assert TotalOf(ps, cs, s) == Plus(TotalOf(ps, cs - {c}, s), Cash(ps, c), Shares(ps, c, s));
    }
  }

  /** Changing the portfolio of one client changes the total by the difference. */
  lemma {:induction false} TotalUpdate(ps: PortfolioMap, c: ClientId, p: Portfolio, cs: set<ClientId>, s: Symbol)
    ensures TotalOf(ps[c := p], cs, s) ==
      if c in cs then Plus(TotalOf(ps, cs, s), p.cash - Cash(ps, c), p.Holding(s) - Shares(ps, c, s))
      else TotalOf(ps, cs, s)
    decreases cs
  {
    if cs != {} {
      var d := if c in cs then c else Pick(cs);
      TotalRemove(ps, cs, d, s);
      TotalRemove(ps[c := p], cs, d, s);
      TotalUpdate(ps, c, p, cs - {d}, s);
    }
  }

  lemma SettleKeepsTotal(ps: PortfolioMap, t: Trade, cs: set<ClientId>, s: Symbol)
    requires t.buyer in cs && t.seller in cs
    ensures TotalOf(Settle(ps, t), cs, s) == TotalOf(ps, cs, s)
  {
    var amount := Notional(t.quantity, t.price);
    var bought := ps[t.buyer := Of(ps, t.buyer).Pay(amount, t.symbol, t.quantity)];
    TotalUpdate(ps, t.buyer, bought[t.buyer], cs, s);
    TotalUpdate(bought, t.seller, Of(bought, t.seller).Pay(-amount, t.symbol, -t.quantity), cs, s);
  }

  lemma StepKeepsTotal(m: Market, step: Step, cs: set<ClientId>, s: Symbol)
    requires Enabled(m, step) && Next(m, step).portfolios.Keys <= cs
    requires TotalOf(m.portfolios, cs, s) == TotalOf(m.granted, cs, s)
    ensures TotalOf(Next(m, step).portfolios, cs, s) == TotalOf(Next(m, step).granted, cs, s)
  {
    match step
    case MatchStep(_, _, _) =>
    case SettleStep(i) => SettleKeepsTotal(m.portfolios, m.threads[i][0], cs, s);
    case EnsureStep(c, cash) =>
      if c !in m.portfolios {
        TotalUpdate(m.portfolios, c, Portfolio(cash, map[]), cs, s);
        TotalUpdate(m.granted, c, Of(m.granted, c).(cash := Cash(m.granted, c) + cash), cs, s);
      }
    case GrantStep(c, x, q) =>
      TotalUpdate(m.portfolios, c, Of(m.portfolios, c).Pay(0.0, x, q), cs, s);
      TotalUpdate(m.granted, c, Of(m.granted, c).Pay(0.0, x, q), cs, s);
  }

  /** In every interleaving, at every moment, the clients together hold exactly what was paid in:
      trading and settling create and destroy neither cash nor shares. */
  lemma {:induction false} TotalsConserved(states: seq<Market>, steps: seq<Step>, cs: set<ClientId>, s: Symbol)
    requires IsRun(states, steps) && states[|steps|].portfolios.Keys <= cs
    ensures TotalOf(states[|steps|].portfolios, cs, s) == TotalOf(states[|steps|].granted, cs, s)
    decreases |steps|
  {
    if steps != [] {
      var n := |steps| - 1;
      assert states[n].portfolios.Keys <= states[n + 1].portfolios.Keys;
      TotalsConserved(states[..n + 1], steps[..n], cs, s);
      StepKeepsTotal(states[n], steps[n], cs, s);
    }
  }
}
