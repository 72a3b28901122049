/** `ExecutionEventQueue` (src/server/events/execution_event_queue.ts): the buffer between a
    publisher that never waits and one consumer that runs only between awaits. */
module EventQueue {
  import opened Protocol
  import opened EventBus

  /** Where the `events()` generator stands: not started, suspended at a `yield`, awaiting the
      wake-up promise, or returned. */
  datatype Pc = Ready | Yielded(event: Protocol.Event) | Parked | Done

  /** `waiting` says that `resolvePromise` is set. `accepted` and `delivered` record what the
      queue has taken in and handed out so far. */
  datatype Queue = Queue(
    buffer: seq<Protocol.Event>, stopped: bool, waiting: bool, pc: Pc,
    accepted: seq<Protocol.Event>, delivered: seq<Protocol.Event>, abandoned: bool)

  const NEW_QUEUE := Queue([], false, false, Ready, [], [], false)

  function HandleEvent(q: Queue, e: Protocol.Event): Queue {
    if q.stopped then q else q.(buffer := q.buffer + [e], waiting := false, accepted := q.accepted + [e])
  }

  function Stop(q: Queue): Queue { q.(stopped := true, waiting := false) }

  /** The consumer can run: it is not done, and not waiting on an unresolved promise. */
  predicate CanResume(q: Queue) { !q.pc.Done? && !q.waiting }

  /** The generator from its loop head to the next suspension. */
  function Loop(q: Queue): Queue {
    if q.buffer != []
    then q.(buffer := q.buffer[1..], pc := Yielded(q.buffer[0]), delivered := q.delivered + [q.buffer[0]])
    else if q.stopped then q.(pc := Done)
    else q.(pc := Parked, waiting := true)
  }

  function Resume(q: Queue): Queue {
    if q.pc.Yielded? && Stops(q.pc.event) then Stop(q).(pc := Done) else Loop(q)
  }

  datatype Action = Publish(event: Protocol.Event) | Finish | Next | Leave

  /** `Leave` is the consumer breaking out at a `yield`; its caller then stops the queue. */
  predicate Enabled(q: Queue, a: Action) {
    match a
    case Next => CanResume(q)
    case Leave => q.pc.Yielded?
    case _ => true
  }

  function Step(q: Queue, a: Action): Queue {
    match a
    case Publish(e) => HandleEvent(q, e)
    case Finish => Stop(q)
    case Next => Resume(q)
    case Leave => Stop(q).(pc := Done, abandoned := true)
  }

  /** Any interleaving of the publisher, `finished` and the consumer, from construction on. */
  predicate Runs(actions: seq<Action>) {
    actions == [] ||
    (Runs(actions[..|actions| - 1]) && Enabled(After(actions[..|actions| - 1]), actions[|actions| - 1]))
  }

  function After(actions: seq<Action>): Queue {
    if actions == [] then NEW_QUEUE else Step(After(actions[..|actions| - 1]), actions[|actions| - 1])
  }

  // ---------- the invariant ----------

  predicate NoStopIn(events: seq<Protocol.Event>) { forall i | 0 <= i < |events| :: !Stops(events[i]) }

  predicate StopsOnlyLast(events: seq<Protocol.Event>) { forall i | 0 <= i < |events| - 1 :: !Stops(events[i]) }

  predicate EndsWithStop(events: seq<Protocol.Event>) { events != [] && Stops(events[|events| - 1]) }

  predicate Valid(q: Queue) {
    && q.accepted == q.delivered + q.buffer
    && StopsOnlyLast(q.delivered)
    && (q.waiting ==> q.pc.Parked?)
    && (q.pc.Parked? ==> (q.waiting <==> q.buffer == [] && !q.stopped))
    && (match q.pc
        case Yielded(e) => q.delivered != [] && q.delivered[|q.delivered| - 1] == e
        case Done => q.stopped && (q.abandoned || q.buffer == [] || EndsWithStop(q.delivered))
        case _ => NoStopIn(q.delivered))
  }

  lemma StepKeepsValid(q: Queue, a: Action)
    requires Valid(q) && Enabled(q, a)
    ensures Valid(Step(q, a))
  {
    var d := q.delivered;
    assert q.pc.Yielded? && !Stops(q.pc.event) ==> NoStopIn(d);
    if q.buffer != [] { assert q.buffer == [q.buffer[0]] + q.buffer[1..]; }
  }

  lemma {:induction false} RunsAreValid(actions: seq<Action>)
    requires Runs(actions)
    ensures Valid(After(actions))
  {
    if actions != [] {
      RunsAreValid(actions[..|actions| - 1]);
      StepKeepsValid(After(actions[..|actions| - 1]), actions[|actions| - 1]);
    }
  }

  // ---------- what it guarantees ----------

  /** No lost wake-up: a consumer that cannot run has nothing to do. */
  lemma {:induction false} NeverLosesAWakeUp(actions: seq<Action>)
    requires Runs(actions)
    ensures var q := After(actions);
      !q.pc.Done? && (q.buffer != [] || q.stopped) ==> CanResume(q)
    ensures var q := After(actions);
      q.pc.Parked? && !CanResume(q) <==> q.pc.Parked? && q.buffer == [] && !q.stopped
  {
    RunsAreValid(actions);
  }

  lemma {:induction false} CutIs(events: seq<Protocol.Event>, n: nat)
    requires n <= |events| && StopsOnlyLast(events[..n])
    ensures events[..n] <= Cut(events)
    ensures n == |events| || EndsWithStop(events[..n]) ==> events[..n] == Cut(events)
  {
    if n > 0 {
      var head, tail := events[..n], events[1..];
      var rest := tail[..n - 1];
      assert head == [events[0]] + rest;
      if n > 1 {
        assert !Stops(head[0]);
        assert StopsOnlyLast(rest) by {
          forall i | 0 <= i < |rest| - 1 ensures !Stops(rest[i]) { assert rest[i] == head[i + 1]; }
        }
        CutIs(tail, n - 1);
        assert head[n - 1] == rest[n - 2];
      }
    }
  }

  /** What the consumer sees is always a prefix of what was published, cut after the first
      stopping event; once the generator has returned by itself it is exactly that. */
  lemma DeliversExactlyTheCut(actions: seq<Action>)
    requires Runs(actions)
    ensures var q := After(actions); q.delivered <= Cut(q.accepted)
    ensures var q := After(actions); q.pc.Done? && !q.abandoned ==> q.delivered == Cut(q.accepted)
  {
    RunsAreValid(actions);
    ValidDelivers(After(actions));
  }

  lemma ValidDelivers(q: Queue)
    requires Valid(q)
    ensures q.delivered <= Cut(q.accepted)
    ensures q.pc.Done? && !q.abandoned ==> q.delivered == Cut(q.accepted)
  {
    assert q.accepted[..|q.delivered|] == q.delivered;
    CutIs(q.accepted, |q.delivered|);
    if q.pc.Done? && !q.abandoned && q.buffer == [] { assert q.delivered == q.accepted; }
  }

  function Published(actions: seq<Action>): seq<Protocol.Event> {
    if actions == [] then []
    else
      var last := actions[|actions| - 1];
      Published(actions[..|actions| - 1]) + if last.Publish? then [last.event] else []
  }

  /** It takes in everything published from construction until it stops, and nothing later. */
  lemma {:induction false} AcceptsUntilStopped(actions: seq<Action>, k: nat)
    requires Runs(actions) && k <= |actions|
    ensures !After(actions).stopped ==> After(actions).accepted == Published(actions)
    ensures After(actions[..k]).stopped ==>
      After(actions).stopped && After(actions).accepted == After(actions[..k]).accepted
    ensures After(actions).accepted <= Published(actions)
  {
    if actions != [] {
      var n := |actions| - 1;
      if k <= n {
        AcceptsUntilStopped(actions[..n], k);
        assert actions[..n][..k] == actions[..k];
      } else {
        AcceptsUntilStopped(actions[..n], n);
        assert actions[..k] == actions;
      }
    } else {
      assert actions[..k] == actions;
    }
  }

  function Drain(q: Queue, n: nat): Queue
    decreases n
  {
    if n == 0 || !CanResume(q) then q else Drain(Resume(q), n - 1)
  }

  /** Nothing more is needed for the consumer to return: the queue has stopped, or a stopping
      event is in it. */
  predicate WillEnd(q: Queue) {
    q.stopped || (exists i :: 0 <= i < |q.buffer| && Stops(q.buffer[i])) || (q.pc.Yielded? && Stops(q.pc.event))
  }

  /** Such a queue drains: the consumer returns after at most its buffer and two more turns. */
  lemma {:induction false} EndingQueueDrains(q: Queue, n: nat)
    requires Valid(q) && WillEnd(q) && n >= |q.buffer| + 2
    ensures var end := Drain(q, n);
      end.pc.Done? && Valid(end) && end.accepted == q.accepted && end.abandoned == q.abandoned
    ensures !q.abandoned ==> Drain(q, n).delivered == Cut(q.accepted)
    decreases n
  {
    if q.pc.Done? {
      ValidDelivers(q);
    } else {
      StepKeepsValid(q, Next);
      var r := Resume(q);
      if r.pc.Done? {
        assert Drain(r, n - 1) == r;
        ValidDelivers(r);
      } else {
        assert forall i | 0 < i < |q.buffer| :: q.buffer[i] == r.buffer[i - 1];
        EndingQueueDrains(r, n - 1);
      }
    }
  }

  /** A queue that has not stopped can end by itself exactly when a stopping event is in it. */
  lemma LiveQueueEndsIff(q: Queue)
    requires Valid(q) && !q.abandoned && !q.stopped
    ensures WillEnd(q) <==> !NoStopIn(q.accepted)
  {
    var d, n := q.delivered, |q.delivered|;
    assert forall i | 0 <= i < |q.buffer| :: q.accepted[n + i] == q.buffer[i];
    assert forall i | 0 <= i < n :: q.accepted[i] == d[i];
    assert q.pc.Yielded? ==> d[n - 1] == q.pc.event;
    if !NoStopIn(q.accepted) {
      var i :| 0 <= i < |q.accepted| && Stops(q.accepted[i]);
      if i >= n { assert q.buffer[i - n] == q.accepted[i]; }
    }
  }

  /** Otherwise its consumer, however often resumed, ends up waiting with everything delivered. */
  lemma {:induction false} LiveQueueWaits(q: Queue, n: nat)
    requires Valid(q) && !q.abandoned && !q.stopped && NoStopIn(q.accepted) && n >= |q.buffer| + 2
    ensures var end := Drain(q, n); end.pc.Parked? && !CanResume(end) && end.delivered == q.accepted
    decreases n
  {
    LiveQueueEndsIff(q);
    if CanResume(q) {
      StepKeepsValid(q, Next);
      var r := Resume(q);
      if q.buffer != [] {
        LiveQueueWaits(r, n - 1);
      } else {
        assert r.pc.Parked? && Drain(r, n - 1) == r;
      }
    }
  }

  // ---------- cutting ----------

  lemma {:induction false} CutConcat(a: seq<Protocol.Event>, b: seq<Protocol.Event>)
    ensures Cut(a + b) == if NoStopIn(a) then a + Cut(b) else Cut(a)
    ensures NoStopIn(a) ==> Cut(a) == a
    ensures !NoStopIn(a) ==> EndsWithStop(Cut(a))
    ensures Cut(a) <= a && StopsOnlyLast(Cut(a))
  {
    if a == [] {
      assert a + b == b;
    } else {
      assert (a + b)[1..] == a[1..] + b;
      assert a == [a[0]] + a[1..];
      CutConcat(a[1..], b);
      assert NoStopIn(a) <==> !Stops(a[0]) && NoStopIn(a[1..]);
    }
  }

  /** The cut is the one prefix that stops at most at its end, and stops there unless it is
      everything. */
  lemma CutIsTheStoppingPrefix(events: seq<Protocol.Event>, c: seq<Protocol.Event>)
    ensures c == Cut(events) <==> c <= events && StopsOnlyLast(c) && (c == events || EndsWithStop(c))
  {
    CutConcat(events, []);
    if c <= events && StopsOnlyLast(c) {
      assert events[..|c|] == c;
      CutIs(events, |c|);
    }
  }

  /** An AUTH_REQUIRED status, wherever it comes, only adds itself: what is cut off and what is
      not stays the same. */
  lemma OnlyStopEventsCut(a: seq<Protocol.Event>, e: Protocol.Event, b: seq<Protocol.Event>)
    requires IsAuthRequired(e)
    ensures Cut(a + b) == Cut(a + [e] + b) ||
      (NoStopIn(a) && Cut(a + b) == a + Cut(b) && Cut(a + [e] + b) == a + [e] + Cut(b))
    ensures NoStopIn(a + [e] + b) <==> NoStopIn(a + b)
  {
    CutConcat(a, b);
    CutConcat(a + [e], b);
    CutConcat(a, [e]);
    NoStopConcat(a, b);
    NoStopConcat(a + [e], b);
    NoStopConcat(a, [e]);
    assert !Stops(e) && NoStopIn([e]);
  }

  lemma NoStopConcat(a: seq<Protocol.Event>, b: seq<Protocol.Event>)
    ensures NoStopIn(a + b) <==> NoStopIn(a) && NoStopIn(b)
  {
    var all := a + b;
    assert forall i | 0 <= i < |a| :: all[i] == a[i];
    assert forall i | 0 <= i < |b| :: all[|a| + i] == b[i];
  }

  // ---------- what was published before the queue stopped ----------

  /** The step at which the queue stopped. */
  predicate StopsAt(actions: seq<Action>, k: nat) {
    0 < k <= |actions| && After(actions[..k]).stopped && !After(actions[..k - 1]).stopped
  }

  lemma {:induction false} StopsSomewhere(actions: seq<Action>) returns (k: nat)
    requires Runs(actions) && After(actions).stopped
    ensures StopsAt(actions, k)
    decreases |actions|
  {
    var n := |actions| - 1;
    assert actions[..n + 1] == actions;
    if After(actions[..n]).stopped {
      k := StopsSomewhere(actions[..n]);
      assert actions[..n][..k] == actions[..k] && actions[..n][..k - 1] == actions[..k - 1];
    } else {
      k := n + 1;
    }
  }

  lemma {:induction false} PrefixRuns(actions: seq<Action>, k: nat)
    requires Runs(actions) && k <= |actions|
    ensures Runs(actions[..k])
    decreases |actions|
  {
    if k < |actions| {
      PrefixRuns(actions[..|actions| - 1], k);
      assert actions[..|actions| - 1][..k] == actions[..k];
    } else {
      assert actions[..k] == actions;
    }
  }

  /** What a stopped queue has taken in is exactly what was published before it stopped. */
  lemma AcceptedIsPublished(actions: seq<Action>, k: nat)
    requires Runs(actions) && StopsAt(actions, k)
    ensures After(actions).accepted == Published(actions[..k])
  {
    AcceptsUntilStopped(actions, k);
    PrefixRuns(actions, k);
    PrefixRuns(actions, k - 1);
    AcceptsUntilStopped(actions[..k - 1], 0);
    assert actions[..k][..k - 1] == actions[..k - 1];
    assert !actions[k - 1].Publish?;
  }

  // ---------- the class ----------

  class ExecutionEventQueue {
    const eventBus: DefaultExecutionEventBus
    const id: nat
    var eventQueue: seq<Protocol.Event>
    var stopped: bool
    var resolvePromise: bool
    var pc: Pc
    ghost var accepted: seq<Protocol.Event>
    ghost var delivered: seq<Protocol.Event>

    ghost function State(): Queue reads this {
      Queue(eventQueue, stopped, resolvePromise, pc, accepted, delivered, false)
    }

    constructor (eventBus: DefaultExecutionEventBus, id: nat)
      requires eventBus.Valid()
      modifies eventBus
      ensures State() == NEW_QUEUE && this.eventBus == eventBus && this.id == id && eventBus.Valid()
      ensures eventBus.SideOf(Event) == Add(old(eventBus.SideOf(Event)), OnEvent(id), false, old(eventBus.nextId))
      ensures eventBus.SideOf(Finished) ==
          Add(old(eventBus.SideOf(Finished)), OnFinished(id), false, old(eventBus.nextId) + 1)
    {
      this.eventBus, this.id := eventBus, id;
      eventQueue, stopped, resolvePromise, pc, accepted, delivered := [], false, false, Ready, [], [];
      new;
      eventBus.On(Event, OnEvent(id));
      eventBus.On(Finished, OnFinished(id));
    }

    /** The `event` listener. */
    method HandleEventListener(e: Protocol.Event)
      modifies this
      ensures State() == HandleEvent(old(State()), e)
    {
      if stopped { return; }
      eventQueue := eventQueue + [e];
      accepted := accepted + [e];
      if resolvePromise { resolvePromise := false; }
    }

    /** `stop`, also the `finished` listener: both listeners leave the bus. */
    method StopQueue()
      requires eventBus.Valid()
      modifies this, eventBus
      ensures State() == Stop(old(State())) && eventBus.Valid()
      ensures eventBus.SideOf(Event) == Remove(old(eventBus.SideOf(Event)), OnEvent(id))
      ensures eventBus.SideOf(Finished) == Remove(old(eventBus.SideOf(Finished)), OnFinished(id))
    {
      stopped := true;
      if resolvePromise { resolvePromise := false; }
      eventBus.Off(Event, OnEvent(id));
      eventBus.Off(Finished, OnFinished(id));
    }

    /** One turn of the generator. The `while` of the source goes round at most once between
        two suspensions, so the turn is a single pass from where it was suspended. */
    method Advance()
      requires CanResume(State()) && eventBus.Valid()
      modifies this, eventBus
      ensures State() == Resume(old(State())) && eventBus.Valid()
      ensures old(pc.Yielded? && Stops(pc.event)) ==>
        eventBus.SideOf(Event) == Remove(old(eventBus.SideOf(Event)), OnEvent(id))
      ensures old(pc.Yielded? && Stops(pc.event)) ==>
        eventBus.SideOf(Finished) == Remove(old(eventBus.SideOf(Finished)), OnFinished(id))
      ensures !old(pc.Yielded? && Stops(pc.event)) ==> unchanged(eventBus)
    {
      if pc.Yielded? && Stops(pc.event) {
        StopQueue();
        pc := Done;
        return;
      }
      if eventQueue != [] {
        delivered := delivered + [eventQueue[0]];
        pc := Yielded(eventQueue[0]);
        eventQueue := eventQueue[1..];
      } else if stopped {
        pc := Done;
      } else {
        pc := Parked;
        resolvePromise := true;
      }
    }
  }
}
