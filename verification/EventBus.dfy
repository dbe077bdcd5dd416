/** The asynchronous event bus: any interleaving of publishers, subscribers, flushes, the worker and
    the destructor, one step for each stretch of code that runs under a lock or calls one subscriber. */
module EventBus {
  import opened Types

  datatype Event =
    | TradeEvent(trade: Trade)
    | OrderRejected(orderId: OrderId, client: ClientId, reason: string)
    | OrderAccepted(orderId: OrderId, client: ClientId, symbol: Symbol)
    | OrderQueued(orderId: OrderId, client: ClientId, symbol: Symbol)
    | OrderExpired(orderId: OrderId, client: ClientId, symbol: Symbol)

  type SubscriptionId = nat

  /** One dispatch: who was registered when it began, and who has been called, in order. */
  datatype Round = Round(event: Event, registered: set<SubscriptionId>, called: seq<SubscriptionId>)

  /** Where the worker stands. While it dispatches it holds the subscribers' lock. */
  datatype Worker =
    | Idle
    | Popped(event: Event)
    | Dispatching(round: Round, todo: set<SubscriptionId>)
    | Dispatched(finished: Round)
    | Exited

  /** `published` and `rounds` are history: every event ever published, every dispatch counted as done. */
  datatype Bus = Bus(
    queue: seq<Event>, inFlight: int, stopping: bool, subscribers: set<SubscriptionId>, nextId: SubscriptionId,
    worker: Worker, published: seq<Event>, rounds: seq<Round>)

  const NEW_BUS := Bus([], 0, false, {}, 1, Idle, [], [])

  datatype Step =
    | Publish(event: Event)
    | Pop
    | LockSubscribers
    | Deliver(id: SubscriptionId)
    | UnlockSubscribers
    | Done
    | Subscribe
    | Unsubscribe(id: SubscriptionId)
    | FlushReturns
    | Stop
    | Exit

  predicate Enabled(b: Bus, step: Step) {
    match step
    case Publish(_) => true
    case Pop => b.worker.Idle? && b.queue != []
    case LockSubscribers => b.worker.Popped?
    case Deliver(id) => b.worker.Dispatching? && id in b.worker.todo
    case UnlockSubscribers => b.worker.Dispatching? && b.worker.todo == {}
    case Done => b.worker.Dispatched?
    case Subscribe => !b.worker.Dispatching?
    case Unsubscribe(_) => !b.worker.Dispatching?
    case FlushReturns => b.queue == [] && b.inFlight == 0
    case Stop => true
    case Exit => b.worker.Idle? && b.queue == [] && b.stopping
  }

  function Next(b: Bus, step: Step): Bus
    requires Enabled(b, step)
  {
    match step
    case Publish(e) => b.(queue := b.queue + [e], published := b.published + [e])
    case Pop => b.(queue := b.queue[1..], inFlight := b.inFlight + 1, worker := Popped(b.queue[0]))
    case LockSubscribers => b.(worker := Dispatching(Round(b.worker.event, b.subscribers, []), b.subscribers))
    case Deliver(id) =>
      var r := b.worker.round;
      b.(worker := Dispatching(r.(called := r.called + [id]), b.worker.todo - {id}))
    case UnlockSubscribers => b.(worker := Dispatched(b.worker.round))
    case Done => b.(worker := Idle, inFlight := b.inFlight - 1, rounds := b.rounds + [b.worker.finished])
    case Subscribe => b.(subscribers := b.subscribers + {b.nextId}, nextId := b.nextId + 1)
    case Unsubscribe(id) => b.(subscribers := b.subscribers - {id})
    case FlushReturns => b
    case Stop => b.(stopping := true)
    case Exit => b.(worker := Exited)
  }

  ghost predicate IsRun(b: Bus, steps: seq<Step>)
    decreases |steps|
  {
    steps == [] || (Enabled(b, steps[0]) && IsRun(Next(b, steps[0]), steps[1..]))
  }

  function After(b: Bus, steps: seq<Step>): Bus
    requires IsRun(b, steps)
    decreases |steps|
  {
    if steps == [] then b else After(Next(b, steps[0]), steps[1..])
  }

  // ----- accounting

  function EventsOf(rounds: seq<Round>): seq<Event> {
    if rounds == [] then [] else EventsOf(rounds[..|rounds| - 1]) + [rounds[|rounds| - 1].event]
  }

  function InFlight(w: Worker): seq<Event> {
    match w
    case Popped(e) => [e]
    case Dispatching(r, _) => [r.event]
    case Dispatched(r) => [r.event]
    case _ => []
  }

  /** Everyone registered when the dispatch began was called exactly once, and nobody else. */
  ghost predicate CalledOnceEach(r: Round) { multiset(r.called) == multiset(r.registered) }

  ghost predicate AllComplete(rounds: seq<Round>) { forall r :: r in rounds ==> CalledOnceEach(r) }

  ghost predicate Accounted(b: Bus) {
    b.published == EventsOf(b.rounds) + (InFlight(b.worker) + b.queue) && b.inFlight == |InFlight(b.worker)|
  }

  ghost predicate RoundsInOrder(b: Bus) {
    AllComplete(b.rounds) &&
    (b.worker.Dispatching? ==>
       b.worker.round.registered == b.subscribers &&
       multiset(b.worker.round.called) + multiset(b.worker.todo) == multiset(b.subscribers)) &&
    (b.worker.Dispatched? ==> CalledOnceEach(b.worker.finished))
  }

  ghost predicate IdsAreFresh(b: Bus) { forall id :: id in b.subscribers ==> id < b.nextId }

  ghost predicate Invariant(b: Bus) { Accounted(b) && RoundsInOrder(b) && IdsAreFresh(b) }

  lemma Regroup(past: seq<Event>, now: seq<Event>, next: seq<Event>)
    ensures past + (now + next) == (past + now) + next
  {}

  lemma PublishStaysAccounted(b: Bus, e: Event)
    requires Accounted(b)
    ensures Accounted(Next(b, Publish(e)))
  {
    var past, now := EventsOf(b.rounds), InFlight(b.worker);
    assert past + (now + (b.queue + [e])) == past + (now + b.queue) + [e];
  }

  lemma PopStaysAccounted(b: Bus)
    requires Enabled(b, Pop) && Accounted(b)
    ensures Accounted(Next(b, Pop))
  {
    assert [b.queue[0]] + b.queue[1..] == b.queue == [] + b.queue;
  }

  lemma OneMoreRound(rounds: seq<Round>, r: Round)
    ensures EventsOf(rounds + [r]) == EventsOf(rounds) + [r.event]
  {
    assert (rounds + [r])[..|rounds|] == rounds;
  }

  lemma DoneStaysAccounted(b: Bus)
    requires Enabled(b, Done) && Accounted(b)
    ensures Accounted(Next(b, Done))
  {
    OneMoreRound(b.rounds, b.worker.finished);
    Regroup(EventsOf(b.rounds), [b.worker.finished.event], b.queue);
    assert [] + b.queue == b.queue;
  }

  lemma StepKeepsRounds(b: Bus, step: Step)
    requires Enabled(b, step) && RoundsInOrder(b)
    ensures RoundsInOrder(Next(b, step))
  {
    if step.Deliver? { assert b.worker.todo == (b.worker.todo - {step.id}) + {step.id}; }
  }

  lemma StepKeepsInvariant(b: Bus, step: Step)
    requires Enabled(b, step) && Invariant(b)
    ensures Invariant(Next(b, step)) && b.published <= Next(b, step).published && b.rounds <= Next(b, step).rounds
  {
    StepKeepsRounds(b, step);
    match step {
      case Publish(e) => PublishStaysAccounted(b, e);
      case Pop => PopStaysAccounted(b);
      case Done => DoneStaysAccounted(b);
      case _ =>
    }
  }

  /** In every interleaving what was published is what has been dispatched, then what is in flight, then
      what is queued; and history only grows. */
  lemma {:induction false} RunKeepsInvariant(b: Bus, steps: seq<Step>)
    requires IsRun(b, steps) && Invariant(b)
    ensures Invariant(After(b, steps))
    ensures b.published <= After(b, steps).published && b.rounds <= After(b, steps).rounds
    decreases |steps|
  {
    if steps != [] {
      StepKeepsInvariant(b, steps[0]);
      RunKeepsInvariant(Next(b, steps[0]), steps[1..]);
    }
  }

  // ----- flush

  /** Once a flush returns, everything published before it was called has been dispatched, in the order
      it was published, to everyone registered at its dispatch, exactly once each. */
  lemma FlushDelivers(before: seq<Step>, during: seq<Step>)
    requires IsRun(NEW_BUS, before) && IsRun(After(NEW_BUS, before), during)
    requires Enabled(After(After(NEW_BUS, before), during), FlushReturns)
    ensures
      var called, returned := After(NEW_BUS, before), After(After(NEW_BUS, before), during);
      called.published <= EventsOf(returned.rounds) == returned.published && AllComplete(returned.rounds)
  {
    RunKeepsInvariant(NEW_BUS, before);
    RunKeepsInvariant(After(NEW_BUS, before), during);
  }

  // ----- subscriptions

  ghost predicate HeardBy(id: SubscriptionId, rounds: seq<Round>) {
    forall r :: r in rounds ==> multiset(r.called)[id] == 1
  }

  /** The subscriber is in for the dispatch under way, if there is one, and for the next. */
  ghost predicate Listening(b: Bus, id: SubscriptionId) {
    id in b.subscribers && (b.worker.Dispatched? ==> id in b.worker.finished.registered)
  }

  /** One step leaves the subscriber listening, and a dispatch that it completes has called it once. */
  lemma StepHears(b: Bus, step: Step, id: SubscriptionId)
    requires Enabled(b, step) && Invariant(b) && Listening(b, id) && step != Unsubscribe(id)
    ensures Listening(Next(b, step), id)
    ensures HeardBy(id, Next(b, step).rounds[|b.rounds|..])
  {
    if step.Done? {
      assert Next(b, step).rounds[|b.rounds|..] == [b.worker.finished];
    } else {
      assert Next(b, step).rounds == b.rounds;
    }
  }

  /** A subscriber hears every event dispatched while it stays subscribed, exactly once. */
  lemma {:induction false} SubscriberHearsEverything(b: Bus, steps: seq<Step>, id: SubscriptionId)
    requires IsRun(b, steps) && Invariant(b) && Listening(b, id) && Unsubscribe(id) !in steps
    ensures b.rounds <= After(b, steps).rounds && HeardBy(id, After(b, steps).rounds[|b.rounds|..])
    decreases |steps|
  {
    if steps != [] {
      var b' := Next(b, steps[0]);
      StepKeepsInvariant(b, steps[0]);
      assert Unsubscribe(id) != steps[0] && Unsubscribe(id) !in steps[1..];
      StepHears(b, steps[0], id);
      SubscriberHearsEverything(b', steps[1..], id);
      HeardInBoth(b.rounds, b'.rounds, After(b, steps).rounds, id);
    }
  }

  lemma HeardInBoth(first: seq<Round>, second: seq<Round>, third: seq<Round>, id: SubscriptionId)
    requires first <= second <= third && HeardBy(id, second[|first|..]) && HeardBy(id, third[|second|..])
    ensures HeardBy(id, third[|first|..])
  {
    assert third[|first|..] == second[|first|..] + third[|second|..];
  }

  /** The events a subscriber has been called with, in order. */
  function Heard(rounds: seq<Round>, id: SubscriptionId): seq<Event> {
    if rounds == [] then []
    else
      var last := rounds[|rounds| - 1];
      Heard(rounds[..|rounds| - 1], id) + if id in last.called then [last.event] else []
  }

  lemma {:induction false} HeardAll(rounds: seq<Round>, id: SubscriptionId)
    requires HeardBy(id, rounds)
    ensures Heard(rounds, id) == EventsOf(rounds)
  {
    if rounds != [] {
      HeardAll(rounds[..|rounds| - 1], id);
      assert multiset(rounds[|rounds| - 1].called)[id] == 1;
    }
  }

  lemma {:induction false} OneEventEach(rounds: seq<Round>)
    ensures |EventsOf(rounds)| == |rounds|
  {
    if rounds != [] { OneEventEach(rounds[..|rounds| - 1]); }
  }

  /** A subscriber that was there before the first event has, when a flush returns, been called with
      exactly what was published, in that order. */
  lemma CurrentAfterFlush(b: Bus, steps: seq<Step>, id: SubscriptionId)
    requires Invariant(b) && b.published == [] && Listening(b, id)
    requires IsRun(b, steps) && Unsubscribe(id) !in steps && Enabled(After(b, steps), FlushReturns)
    ensures Heard(After(b, steps).rounds, id) == After(b, steps).published
  {
    OneEventEach(b.rounds);
    RunKeepsInvariant(b, steps);
    SubscriberHearsEverything(b, steps, id);
    HeardAll(After(b, steps).rounds, id);
  }

  /** The events a subscriber has been called with so far, the dispatch under way included. */
  function HeardSoFar(b: Bus, id: SubscriptionId): seq<Event> {
    match b.worker
    case Dispatching(r, _) => Heard(b.rounds + [r], id)
    case Dispatched(r) => Heard(b.rounds + [r], id)
    case _ => Heard(b.rounds, id)
  }

  lemma HeardOneMore(rounds: seq<Round>, r: Round, id: SubscriptionId)
    ensures Heard(rounds + [r], id) == Heard(rounds, id) + if id in r.called then [r.event] else []
  {
    assert (rounds + [r])[..|rounds|] == rounds;
  }

  lemma LockIsHeard(b: Bus, id: SubscriptionId)
    requires Enabled(b, LockSubscribers)
    ensures HeardSoFar(Next(b, LockSubscribers), id) == HeardSoFar(b, id)
  {
    HeardOneMore(b.rounds, Round(b.worker.event, b.subscribers, []), id);
  }

  lemma DeliveryIsHeard(b: Bus, called: SubscriptionId, id: SubscriptionId)
    requires Enabled(b, Deliver(called)) && RoundsInOrder(b)
    ensures HeardSoFar(Next(b, Deliver(called)), id) ==
      HeardSoFar(b, id) + if called == id then [b.worker.round.event] else []
  {
    var r := b.worker.round;
    HeardOneMore(b.rounds, r, id);
    HeardOneMore(b.rounds, r.(called := r.called + [called]), id);
    if called == id { NotYetCalled(b, id); }
  }

  /** A subscriber hears an event exactly when it is called with it. */
  lemma StepIsHeard(b: Bus, step: Step, id: SubscriptionId)
    requires Enabled(b, step) && Invariant(b)
    ensures HeardSoFar(Next(b, step), id) ==
      if step == Deliver(id) then HeardSoFar(b, id) + [b.worker.round.event] else HeardSoFar(b, id)
  {
    match step {
      case LockSubscribers => LockIsHeard(b, id);
      case Deliver(called) => DeliveryIsHeard(b, called, id);
      case _ =>
    }
  }

  lemma NotYetCalled(b: Bus, id: SubscriptionId)
    requires RoundsInOrder(b) && b.worker.Dispatching? && id in b.worker.todo
    ensures id !in b.worker.round.called
  {
    var called, todo := multiset(b.worker.round.called), multiset(b.worker.todo);
    assert (called + todo)[id] <= 1;
    assert id in b.worker.round.called ==> called[id] > 0;
  }

  /** The id is not called now and cannot be called again. */
  ghost predicate Gone(b: Bus, id: SubscriptionId) {
    id < b.nextId && id !in b.subscribers && (b.worker.Dispatching? ==> id !in b.worker.todo)
  }

  lemma {:induction false} GoneStaysGone(b: Bus, steps: seq<Step>, id: SubscriptionId)
    requires IsRun(b, steps) && Gone(b, id)
    ensures Deliver(id) !in steps && Gone(After(b, steps), id)
    decreases |steps|
  {
    if steps != [] {
      GoneStaysGone(Next(b, steps[0]), steps[1..], id);
      assert steps == [steps[0]] + steps[1..];
    }
  }

  /** After an unsubscription returns its callback is never called again, whatever follows. */
  lemma NoCallAfterUnsubscribe(before: seq<Step>, id: SubscriptionId, afterwards: seq<Step>)
    requires IsRun(NEW_BUS, before) && id < After(NEW_BUS, before).nextId
    requires Enabled(After(NEW_BUS, before), Unsubscribe(id))
    requires IsRun(Next(After(NEW_BUS, before), Unsubscribe(id)), afterwards)
    ensures Deliver(id) !in afterwards
  {
    GoneStaysGone(Next(After(NEW_BUS, before), Unsubscribe(id)), afterwards, id);
  }

  // ----- shutdown

  predicate WorkerStep(step: Step) {
    step.Pop? || step.LockSubscribers? || step.Deliver? || step.UnlockSubscribers? || step.Done? || step.Exit?
  }

  /** When the worker leaves, everything published so far has been dispatched. */
  lemma ExitDrains(steps: seq<Step>)
    requires IsRun(NEW_BUS, steps) && Enabled(After(NEW_BUS, steps), Exit)
    ensures EventsOf(After(NEW_BUS, steps).rounds) == After(NEW_BUS, steps).published
    ensures AllComplete(After(NEW_BUS, steps).rounds)
  {
    RunKeepsInvariant(NEW_BUS, steps);
  }

  /** The worker steps still ahead if nothing more is published and nobody new subscribes. */
  function WorkAhead(b: Bus): nat {
    var perEvent := |b.subscribers| + 4;
    (match b.worker
     case Idle => 1
     case Popped(_) => |b.subscribers| + 4
     case Dispatching(_, todo) => |todo| + 3
     case Dispatched(_) => 2
     case Exited => 0) + |b.queue| * perEvent
  }

  lemma MoreEach(n: nat, few: nat, many: nat)
    requires few <= many
    ensures n * few <= n * many
  {}

  lemma FewerSubscribersLessWork(b: Bus, id: SubscriptionId)
    ensures WorkAhead(b.(subscribers := b.subscribers - {id})) <= WorkAhead(b)
  {
    var fewer := b.subscribers - {id};
    assert |fewer| <= |b.subscribers| by {
      if id in b.subscribers { assert b.subscribers == fewer + {id}; } else { assert fewer == b.subscribers; }
    }
    MoreEach(|b.queue|, |fewer| + 4, |b.subscribers| + 4);
  }

  /** Every move of the worker brings it nearer to having nothing left to do, and flushes and
      unsubscriptions do not put that off. */
  lemma StepLessensWork(b: Bus, step: Step)
    requires Enabled(b, step) && !step.Publish? && !step.Subscribe?
    ensures WorkAhead(Next(b, step)) <= WorkAhead(b)
    ensures WorkerStep(step) ==> WorkAhead(Next(b, step)) < WorkAhead(b)
  {
    match step {
      case Pop =>
        assert (|b.queue| - 1) * (|b.subscribers| + 4) + (|b.subscribers| + 4) == |b.queue| * (|b.subscribers| + 4);
      case Unsubscribe(id) => FewerSubscribersLessWork(b, id);
      case Deliver(id) => assert b.worker.todo == (b.worker.todo - {id}) + {id};
      case _ =>
    }
  }

  /** A stopping bus never gets stuck: until it has left, the worker can move, and every move of its own
      brings it nearer to leaving. */
  lemma ShutdownProgress(b: Bus, step: Step)
    requires Enabled(b, step) && !step.Publish? && !step.Subscribe?
    ensures WorkAhead(Next(b, step)) <= WorkAhead(b)
    ensures WorkerStep(step) ==> WorkAhead(Next(b, step)) < WorkAhead(b)
    ensures b.stopping ==> Next(b, step).stopping
    ensures b.stopping && !b.worker.Exited? ==> exists next :: WorkerStep(next) && Enabled(b, next)
  {
    StepLessensWork(b, step);
    if b.stopping && !b.worker.Exited? { WorkerCanMove(b); }
  }

  lemma WorkerCanMove(b: Bus)
    requires b.stopping && !b.worker.Exited?
    ensures exists next :: WorkerStep(next) && Enabled(b, next)
  {
    var next := match b.worker
      case Idle => if b.queue == [] then Exit else Pop
      case Popped(_) => LockSubscribers
      case Dispatching(_, todo) => if todo == {} then UnlockSubscribers else (var id :| id in todo; Deliver(id))
      case _ => Done;
    assert WorkerStep(next) && Enabled(b, next);
  }

  function WorkerSteps(steps: seq<Step>): nat {
    if steps == [] then 0 else (if WorkerStep(steps[0]) then 1 else 0) + WorkerSteps(steps[1..])
  }

  /** The worker leaves only an empty queue behind. */
  predicate LeftNothing(b: Bus) { b.worker.Exited? ==> b.queue == [] }

  /** So however the rest interleaves, the worker takes at most `WorkAhead` steps, stopping or not. */
  lemma {:induction false} WorkTerminates(b: Bus, steps: seq<Step>)
    requires IsRun(b, steps) && Invariant(b) && LeftNothing(b)
    requires forall s :: s in steps ==> !s.Publish? && !s.Subscribe?
    ensures WorkerSteps(steps) + WorkAhead(After(b, steps)) <= WorkAhead(b)
    ensures Invariant(After(b, steps)) && LeftNothing(After(b, steps)) && (b.stopping ==> After(b, steps).stopping)
    decreases |steps|
  {
    if steps != [] {
      assert steps[0] in steps;
      StepLessensWork(b, steps[0]);
      StepKeepsInvariant(b, steps[0]);
      WorkTerminates(Next(b, steps[0]), steps[1..]);
    }
  }

  /** And when the worker can do no more it has left, with everything dispatched to everyone. */
  lemma ShutdownDrains(b: Bus, steps: seq<Step>)
    requires IsRun(b, steps) && b.stopping && Invariant(b) && !b.worker.Exited?
    requires forall s :: s in steps ==> !s.Publish? && !s.Subscribe?
    requires forall next :: WorkerStep(next) ==> !Enabled(After(b, steps), next)
    ensures
      var end := After(b, steps);
      end.worker.Exited? && EventsOf(end.rounds) == end.published && AllComplete(end.rounds)
  {
    WorkTerminates(b, steps);
    if !After(b, steps).worker.Exited? { WorkerCanMove(After(b, steps)); }
  }

  // ----- how long a flush takes

  /** A flush can return if and only if the worker has nothing to do but leave. */
  lemma FlushReturnsWhenIdle(b: Bus)
    requires Invariant(b) && LeftNothing(b)
    ensures Enabled(b, FlushReturns) <==> forall next :: WorkerStep(next) && !next.Exit? ==> !Enabled(b, next)
  {
    if !Enabled(b, FlushReturns) {
      var next := match b.worker
        case Idle => Pop
        case Popped(_) => LockSubscribers
        case Dispatching(_, todo) => if todo == {} then UnlockSubscribers else (var id :| id in todo; Deliver(id))
        case _ => Done;
      assert WorkerStep(next) && !next.Exit? && Enabled(b, next);
    }
  }

  /** Once publishing has stopped a flush waits for fewer than `WorkAhead` steps of the worker, and until
      they are made the worker can make one. */
  lemma FlushTerminates(b: Bus, steps: seq<Step>)
    requires IsRun(b, steps) && Invariant(b) && LeftNothing(b)
    requires forall s :: s in steps ==> !s.Publish? && !s.Subscribe?
    ensures WorkerSteps(steps) + 1 >= WorkAhead(b) ==> Enabled(After(b, steps), FlushReturns)
    ensures Enabled(After(b, steps), FlushReturns) ||
      exists next :: WorkerStep(next) && !next.Exit? && Enabled(After(b, steps), next)
  {
    var end := After(b, steps);
    WorkTerminates(b, steps);
    FlushReturnsWhenIdle(end);
    if WorkAhead(end) <= 1 { LittleWorkIsNone(end); }
  }

  lemma QueueIsWork(b: Bus)
    ensures WorkAhead(b) >= 4 * |b.queue|
  {
    assert |b.queue| * (|b.subscribers| + 4) == |b.queue| * |b.subscribers| + 4 * |b.queue|;
    assert |b.queue| * |b.subscribers| >= 0;
  }

  lemma LittleWorkIsNone(b: Bus)
    requires Invariant(b) && WorkAhead(b) <= 1
    ensures Enabled(b, FlushReturns)
  {
    QueueIsWork(b);
  }

  // ----- what a run has registered and published

  function Subscriptions(steps: seq<Step>): nat {
    if steps == [] then 0 else Subscriptions(steps[..|steps| - 1]) + if steps[|steps| - 1].Subscribe? then 1 else 0
  }

  /** The id the i-th step hands out: ids count up from one. */
  function IdHandedOut(steps: seq<Step>, i: nat): SubscriptionId
    requires i < |steps| && steps[i].Subscribe?
  {
    1 + Subscriptions(steps[..i])
  }

  /** The i-th step subscribed this id, and no later one unsubscribed it. */
  ghost predicate SubscribedAt(steps: seq<Step>, i: nat, id: SubscriptionId) {
    i < |steps| && steps[i].Subscribe? && IdHandedOut(steps, i) == id && Unsubscribe(id) !in steps[i + 1..]
  }

  function EventsPublished(steps: seq<Step>): seq<Event> {
    if steps == [] then []
    else
      var last := steps[|steps| - 1];
      EventsPublished(steps[..|steps| - 1]) + if last.Publish? then [last.event] else []
  }

  lemma {:induction false} RunSplits(b: Bus, steps: seq<Step>, more: seq<Step>)
    requires IsRun(b, steps + more)
    ensures IsRun(b, steps) && IsRun(After(b, steps), more) && After(b, steps + more) == After(After(b, steps), more)
    decreases |steps|
  {
    if steps == [] {
      assert steps + more == more;
    } else {
      assert (steps + more)[1..] == steps[1..] + more;
      RunSplits(Next(b, steps[0]), steps[1..], more);
    }
  }

  lemma LastOfRun(b: Bus, steps: seq<Step>) returns (before: Bus)
    requires IsRun(b, steps) && steps != []
    ensures IsRun(b, steps[..|steps| - 1]) && before == After(b, steps[..|steps| - 1])
    ensures Enabled(before, steps[|steps| - 1]) && After(b, steps) == Next(before, steps[|steps| - 1])
  {
    var n := |steps| - 1;
    assert steps == steps[..n] + [steps[n]];
    RunSplits(b, steps[..n], [steps[n]]);
    before := After(b, steps[..n]);
  }

  lemma StillSubscribed(steps: seq<Step>, step: Step, i: nat, id: SubscriptionId)
    requires i < |steps|
    ensures SubscribedAt(steps + [step], i, id) <==> SubscribedAt(steps, i, id) && step != Unsubscribe(id)
  {
    assert (steps + [step])[..i] == steps[..i];
    assert (steps + [step])[i + 1..] == steps[i + 1..] + [step];
  }

  lemma JustSubscribed(steps: seq<Step>, step: Step, id: SubscriptionId)
    ensures SubscribedAt(steps + [step], |steps|, id) <==> step.Subscribe? && id == 1 + Subscriptions(steps)
  {
    assert (steps + [step])[..|steps|] == steps && (steps + [step])[|steps| + 1..] == [];
  }

  ghost predicate IsSubscribed(steps: seq<Step>, id: SubscriptionId) { exists i :: SubscribedAt(steps, i, id) }

  lemma OneMoreSubscribed(steps: seq<Step>, step: Step, id: SubscriptionId)
    ensures IsSubscribed(steps + [step], id) <==>
      (IsSubscribed(steps, id) && step != Unsubscribe(id)) || (step.Subscribe? && id == 1 + Subscriptions(steps))
  {
    JustSubscribed(steps, step, id);
    forall i | 0 <= i < |steps|
      ensures SubscribedAt(steps + [step], i, id) <==> SubscribedAt(steps, i, id) && step != Unsubscribe(id)
    {
      StillSubscribed(steps, step, i, id);
    }
  }

  lemma StepSubscribes(b: Bus, step: Step, id: SubscriptionId)
    requires Enabled(b, step)
    ensures Next(b, step).nextId == b.nextId + if step.Subscribe? then 1 else 0
    ensures id in Next(b, step).subscribers <==>
      (id in b.subscribers && step != Unsubscribe(id)) || (step.Subscribe? && id == b.nextId)
  {}

  lemma SubscriptionsMore(steps: seq<Step>, step: Step)
    ensures Subscriptions(steps + [step]) == Subscriptions(steps) + if step.Subscribe? then 1 else 0
  {
    assert (steps + [step])[..|steps|] == steps;
  }

  /** After any run of a new bus the subscribers are those that some step subscribed and no later one
      unsubscribed, and the ids count up from one. */
  lemma {:induction false} RegisteredExactly(steps: seq<Step>, id: SubscriptionId)
    requires IsRun(NEW_BUS, steps)
    ensures After(NEW_BUS, steps).nextId == 1 + Subscriptions(steps)
    ensures id in After(NEW_BUS, steps).subscribers <==> IsSubscribed(steps, id)
    decreases |steps|
  {
    if steps != [] {
      var before := LastOfRun(NEW_BUS, steps);
      RegisteredExactly(steps[..|steps| - 1], id);
      OneMoreRegistered(before, After(NEW_BUS, steps), steps, id);
    } else {
      NobodySubscribed(id);
    }
  }

  lemma NobodySubscribed(id: SubscriptionId)
    ensures !IsSubscribed([], id)
  {}

  lemma OneMoreRegistered(before: Bus, after: Bus, steps: seq<Step>, id: SubscriptionId)
    requires steps != [] && Enabled(before, steps[|steps| - 1]) && after == Next(before, steps[|steps| - 1])
    requires before.nextId == 1 + Subscriptions(steps[..|steps| - 1])
    requires id in before.subscribers <==> IsSubscribed(steps[..|steps| - 1], id)
    ensures after.nextId == 1 + Subscriptions(steps)
    ensures id in after.subscribers <==> IsSubscribed(steps, id)
  {
    var n := |steps| - 1;
    assert steps == steps[..n] + [steps[n]];
    StepSubscribes(before, steps[n], id);
    OneMoreSubscribed(steps[..n], steps[n], id);
    SubscriptionsMore(steps[..n], steps[n]);
  }

  lemma {:induction false} SubscriptionsGrow(steps: seq<Step>, i: nat)
    requires i < |steps| && steps[i].Subscribe?
    ensures IdHandedOut(steps, i) <= Subscriptions(steps)
  {
    var n := |steps| - 1;
    if i < n {
      SubscriptionsGrow(steps[..n], i);
      assert steps[..n][..i] == steps[..i];
    }
  }

  /** No id is handed out twice. */
  lemma IdsAreNew(steps: seq<Step>, i: nat, j: nat)
    requires i < j < |steps| && steps[i].Subscribe? && steps[j].Subscribe?
    ensures IdHandedOut(steps, i) < IdHandedOut(steps, j)
  {
    SubscriptionsGrow(steps[..j], i);
    assert steps[..j][..i] == steps[..i];
  }

  lemma StepPublishes(b: Bus, step: Step)
    requires Enabled(b, step)
    ensures Next(b, step).published == b.published + if step.Publish? then [step.event] else []
    ensures Next(b, step).stopping <==> b.stopping || step == Step.Stop
  {}

  lemma PublishesMore(published: seq<Event>, steps: seq<Step>, step: Step)
    ensures published + EventsPublished(steps + [step]) ==
      (published + EventsPublished(steps)) + if step.Publish? then [step.event] else []
  {
    assert (steps + [step])[..|steps|] == steps;
  }

  /** A run adds what it publishes to the record, in order, and a bus stops when it is told to. */
  lemma {:induction false} PublishedExactly(b: Bus, steps: seq<Step>)
    requires IsRun(b, steps)
    ensures After(b, steps).published == b.published + EventsPublished(steps)
    ensures After(b, steps).stopping <==> b.stopping || Step.Stop in steps
    decreases |steps|
  {
    if steps == [] {
      assert b.published + [] == b.published;
    } else {
      var n := |steps| - 1;
      var before := LastOfRun(b, steps);
      PublishedExactly(b, steps[..n]);
      StepPublishes(before, steps[n]);
      PublishesMore(b.published, steps[..n], steps[n]);
      assert steps == steps[..n] + [steps[n]];
    }
  }

  lemma IdleListens(b: Bus, id: SubscriptionId)
    requires Invariant(b) && b.published == [] && id in b.subscribers
    ensures Listening(b, id)
  {
    assert !b.worker.Dispatched? || InFlight(b.worker) == [];
  }

  /** Before anything is published, whoever has subscribed and stayed is listening. */
  lemma ListeningFromTheStart(steps: seq<Step>, id: SubscriptionId)
    requires IsRun(NEW_BUS, steps) && IsSubscribed(steps, id) && forall s :: s in steps ==> !s.Publish?
    ensures
      var b := After(NEW_BUS, steps);
      Invariant(b) && b.published == [] && Listening(b, id)
  {
    RunKeepsInvariant(NEW_BUS, steps);
    RegisteredExactly(steps, id);
    PublishedExactly(NEW_BUS, steps);
    NothingPublished(steps);
    IdleListens(After(NEW_BUS, steps), id);
  }

  // ----- subscribing while the bus runs

  /** Only ids handed out so far have been called. */
  ghost predicate CalledAreOld(b: Bus) {
    (forall r, id :: r in b.rounds && id in r.called ==> id < b.nextId) &&
    (b.worker.Dispatching? ==> forall id :: id in b.worker.round.called || id in b.worker.todo ==> id < b.nextId) &&
    (b.worker.Dispatched? ==> forall id :: id in b.worker.finished.called ==> id < b.nextId)
  }

  lemma StepKeepsCalledOld(b: Bus, step: Step)
    requires Enabled(b, step) && CalledAreOld(b) && IdsAreFresh(b)
    ensures CalledAreOld(Next(b, step))
  {}

  lemma {:induction false} RunKeepsCalledOld(b: Bus, steps: seq<Step>)
    requires IsRun(b, steps) && Invariant(b) && CalledAreOld(b)
    ensures CalledAreOld(After(b, steps))
    decreases |steps|
  {
    if steps != [] {
      StepKeepsInvariant(b, steps[0]);
      StepKeepsCalledOld(b, steps[0]);
      RunKeepsCalledOld(Next(b, steps[0]), steps[1..]);
    }
  }

  /** How many dispatches have locked the subscribers and let them go. */
  function Closed(b: Bus): nat { |b.rounds| + if b.worker.Dispatched? then 1 else 0 }

  /** Those dispatches, the last of them perhaps not yet counted as done. */
  function ClosedRounds(b: Bus): seq<Round> {
    if b.worker.Dispatched? then b.rounds + [b.worker.finished] else b.rounds
  }

  /** From where nobody is being called, a subscriber hears every later dispatch exactly once. */
  lemma {:induction false} HearsWhatFollows(b: Bus, steps: seq<Step>, id: SubscriptionId)
    requires IsRun(b, steps) && Invariant(b) && id in b.subscribers && !b.worker.Dispatching?
    requires Unsubscribe(id) !in steps
    ensures
      var end := After(b, steps);
      (Closed(b) <= |end.rounds| || end.worker.Dispatched?) &&
      (Closed(b) <= |end.rounds| ==>
         ClosedRounds(b) <= end.rounds && HeardBy(id, end.rounds[Closed(b)..]))
    decreases |steps|
  {
    if !b.worker.Dispatched? {
      SubscriberHearsEverything(b, steps, id);
    } else if steps != [] {
      var b' := Next(b, steps[0]);
      StepKeepsInvariant(b, steps[0]);
      assert Unsubscribe(id) != steps[0] && Unsubscribe(id) !in steps[1..];
      HearsWhatFollows(b', steps[1..], id);
    }
  }

  lemma {:induction false} HeardJoin(a: seq<Round>, b: seq<Round>, id: SubscriptionId)
    ensures Heard(a + b, id) == Heard(a, id) + Heard(b, id) && EventsOf(a + b) == EventsOf(a) + EventsOf(b)
    decreases |b|
  {
    if b == [] {
      assert a + b == a;
    } else {
      assert (a + b)[..|a + b| - 1] == a + b[..|b| - 1];
      HeardJoin(a, b[..|b| - 1], id);
    }
  }

  lemma {:induction false} NeverHeard(rounds: seq<Round>, id: SubscriptionId)
    requires forall r :: r in rounds ==> id !in r.called
    ensures Heard(rounds, id) == []
  {
    if rounds != [] {
      assert rounds[|rounds| - 1] in rounds;
      NeverHeard(rounds[..|rounds| - 1], id);
    }
  }

  lemma HeardFromThenOn(before: seq<Round>, rounds: seq<Round>, id: SubscriptionId)
    requires before <= rounds && (forall r :: r in before ==> id !in r.called) && HeardBy(id, rounds[|before|..])
    ensures |before| <= |EventsOf(rounds)| && Heard(rounds, id) == EventsOf(rounds)[|before|..]
  {
    var after := rounds[|before|..];
    assert rounds == before + after;
    HeardJoin(before, after, id);
    NeverHeard(before, id);
    HeardAll(after, id);
    OneEventEach(before);
  }

  lemma EarlierUncalled(b: Bus)
    requires CalledAreOld(b)
    ensures forall r :: r in ClosedRounds(b) ==> b.nextId !in r.called
  {}

  lemma HearsAfterJoining(b: Bus, later: seq<Step>)
    requires Invariant(b) && CalledAreOld(b) && Enabled(b, Subscribe)
    requires IsRun(Next(b, Subscribe), later) && Unsubscribe(b.nextId) !in later
    ensures
      var end := After(Next(b, Subscribe), later);
      (Closed(b) <= |end.rounds| || end.worker.Dispatched?) &&
      (Closed(b) <= |end.rounds| ==>
         end.rounds[..Closed(b)] == ClosedRounds(b) && HeardBy(b.nextId, end.rounds[Closed(b)..]))
  {
    var joined := Next(b, Subscribe);
    StepKeepsInvariant(b, Subscribe);
    HearsWhatFollows(joined, later, b.nextId);
    assert Closed(joined) == Closed(b) && ClosedRounds(joined) == ClosedRounds(b);
    ClosedAreClosed(b);
  }

  lemma ClosedAreClosed(b: Bus)
    ensures |ClosedRounds(b)| == Closed(b)
  {}

  lemma HeardAtFlush(b: Bus, later: seq<Step>)
    requires Invariant(b) && CalledAreOld(b) && Enabled(b, Subscribe)
    requires IsRun(Next(b, Subscribe), later) && Unsubscribe(b.nextId) !in later
    requires Enabled(After(Next(b, Subscribe), later), FlushReturns)
    ensures
      var end := After(Next(b, Subscribe), later);
      Closed(b) <= |b.published| &&
      Heard(end.rounds, b.nextId) == b.published[Closed(b)..] + EventsPublished(later)
  {
    var joined := Next(b, Subscribe);
    var end := After(joined, later);
    StepKeepsInvariant(b, Subscribe);
    RunKeepsInvariant(joined, later);
    HearsAfterJoining(b, later);
    EarlierUncalled(b);
    ClosedAreClosed(b);
    HeardFromThenOn(ClosedRounds(b), end.rounds, b.nextId);
    PublishedExactly(joined, later);
    NothingLeftToDispatch(end);
    ClosedWithinPublished(b);
    TailOfJoined(b.published, EventsPublished(later), Closed(b));
  }

  lemma NothingLeftToDispatch(b: Bus)
    requires Accounted(b) && Enabled(b, FlushReturns)
    ensures EventsOf(b.rounds) == b.published && !b.worker.Dispatched?
  {}

  lemma ClosedWithinPublished(b: Bus)
    requires Accounted(b)
    ensures Closed(b) <= |b.published|
  {
    OneEventEach(b.rounds);
  }

  lemma TailOfJoined(a: seq<Event>, b: seq<Event>, k: nat)
    requires k <= |a|
    ensures (a + b)[k..] == a[k..] + b
  {}

  /** Whoever subscribes while the bus runs gets an id that nobody had, keeps the others registered, and
      hears every event whose dispatch locks the subscribers afterwards, exactly once and no other. So when
      a later flush returns it has heard, in order, what was still to be dispatched and everything
      published since. */
  lemma SubscriberIsHeard(before: seq<Step>, later: seq<Step>)
    requires IsRun(NEW_BUS, before) && Enabled(After(NEW_BUS, before), Subscribe)
    requires IsRun(Next(After(NEW_BUS, before), Subscribe), later)
    requires Unsubscribe(1 + Subscriptions(before)) !in later
    ensures
      var b, id := After(NEW_BUS, before), 1 + Subscriptions(before);
      var joined := Next(b, Subscribe);
      var end := After(joined, later);
      id !in b.subscribers && joined.subscribers == b.subscribers + {id} &&
      (Closed(b) <= |end.rounds| ==>
         HeardBy(id, end.rounds[Closed(b)..]) && forall r :: r in end.rounds[..Closed(b)] ==> id !in r.called) &&
      (Enabled(end, FlushReturns) ==>
         Closed(b) <= |b.published| &&
         Heard(end.rounds, id) == b.published[Closed(b)..] + EventsPublished(later))
  {
    var b, id := After(NEW_BUS, before), 1 + Subscriptions(before);
    RegisteredExactly(before, id);
    RunKeepsInvariant(NEW_BUS, before);
    RunKeepsCalledOld(NEW_BUS, before);
    HearsAfterJoining(b, later);
    EarlierUncalled(b);
    if Enabled(After(Next(b, Subscribe), later), FlushReturns) { HeardAtFlush(b, later); }
  }

  // ----- the destructor

  /** Once the destructor has told a running bus to stop, with nothing more published or subscribed, the
      worker can do no more only when it has left, with everything ever published dispatched in order to
      everyone. */
  lemma DestructorDrains(before: seq<Step>, during: seq<Step>)
    requires IsRun(NEW_BUS, before) && Step.Stop !in before
    requires IsRun(Next(After(NEW_BUS, before), Step.Stop), during)
    requires forall s :: s in during ==> !s.Publish? && !s.Subscribe?
    requires forall next :: WorkerStep(next) ==> !Enabled(After(Next(After(NEW_BUS, before), Step.Stop), during), next)
    ensures
      var end := After(Next(After(NEW_BUS, before), Step.Stop), during);
      end.worker.Exited? && EventsOf(end.rounds) == EventsPublished(before) && AllComplete(end.rounds)
  {
    var b := After(NEW_BUS, before);
    RunKeepsInvariant(NEW_BUS, before);
    PublishedExactly(NEW_BUS, before);
    NotExitedBeforeStop(before);
    StepKeepsInvariant(b, Step.Stop);
    ShutdownDrains(Next(b, Step.Stop), during);
    PublishedExactly(Next(b, Step.Stop), during);
    NothingPublished(during);
    assert [] + EventsPublished(before) == EventsPublished(before);
  }

  lemma {:induction false} NothingPublished(steps: seq<Step>)
    requires forall s :: s in steps ==> !s.Publish?
    ensures EventsPublished(steps) == []
  {
    if steps != [] {
      assert steps[|steps| - 1] in steps;
      NothingPublished(steps[..|steps| - 1]);
    }
  }

  lemma {:induction false} NotExitedBeforeStop(steps: seq<Step>)
    requires IsRun(NEW_BUS, steps) && Step.Stop !in steps
    ensures !After(NEW_BUS, steps).worker.Exited?
    decreases |steps|
  {
    if steps != [] {
      var n := |steps| - 1;
      var before := LastOfRun(NEW_BUS, steps);
      assert steps == steps[..n] + [steps[n]];
      NotExitedBeforeStop(steps[..n]);
      PublishedExactly(NEW_BUS, steps[..n]);
    }
  }
}
