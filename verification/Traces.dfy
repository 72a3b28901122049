/** Every run of `Lifecycle` seen from one queue and from one tracker: which steps reach them, in
    which order, and so what they hold (src/server/request_handler/default_request_handler.ts,
    src/server/events/execution_event_bus_manager.ts). */
module Traces {
  import opened Base
  import opened Protocol
  import opened EventBus
  import opened EventQueue
  import opened Streams
  import opened Lifecycle

  // ---------- a run with its states ----------

  predicate Steps(s: System, keep: set<TaskState>, a: Lifecycle.Action, r: System) {
    Placed(s) && Can(s, a) && r == Do(s, keep, a)
  }

  predicate StepAt(keep: set<TaskState>, actions: seq<Lifecycle.Action>, states: seq<System>, i: nat)
    requires i < |actions| < |states|
  {
    Steps(states[i], keep, actions[i], states[i + 1])
  }

  /** `states[n]` is the state after `n` steps of the run. */
  predicate Trace(keep: set<TaskState>, actions: seq<Lifecycle.Action>, states: seq<System>) {
    |states| == |actions| + 1 && states[0] == START && forall i | 0 <= i < |actions| :: StepAt(keep, actions, states, i)
  }

  lemma RunSnoc(keep: set<TaskState>, actions: seq<Lifecycle.Action>, states: seq<System>, n: nat)
    requires Trace(keep, actions, states) && n < |actions| && Run(keep, actions[..n], states[n])
    ensures Run(keep, actions[..n + 1], states[n + 1])
  {
    assert StepAt(keep, actions, states, n);
    assert actions[..n] + [actions[n]] == actions[..n + 1];
    RunsOneStep(keep, actions[..n], states[n], actions[n]);
  }

  /** Traces are the runs of `Lifecycle`. */
  lemma {:induction false} TraceIsRun(keep: set<TaskState>, actions: seq<Lifecycle.Action>, states: seq<System>, n: nat)
    requires Trace(keep, actions, states) && n <= |actions|
    ensures Run(keep, actions[..n], states[n])
  {
    if n > 0 {
      TraceIsRun(keep, actions, states, n - 1);
      RunSnoc(keep, actions, states, n - 1);
    }
  }

  lemma TraceSnoc(keep: set<TaskState>, actions: seq<Lifecycle.Action>, states: seq<System>, s: System)
    requires actions != [] && Trace(keep, actions[..|actions| - 1], states)
    requires Steps(states[|actions| - 1], keep, actions[|actions| - 1], s)
    ensures Trace(keep, actions, states + [s])
  {
    var n, all := |actions| - 1, states + [s];
    forall i | 0 <= i < |actions| ensures StepAt(keep, actions, all, i) {
      if i < n { assert StepAt(keep, actions[..n], states, i); }
    }
  }

  lemma {:induction false} RunHasTrace(keep: set<TaskState>, actions: seq<Lifecycle.Action>, s: System)
      returns (states: seq<System>)
    requires Run(keep, actions, s)
    ensures Trace(keep, actions, states) && states[|actions|] == s
    decreases |actions|
  {
    if actions == [] {
      states := [s];
    } else {
      states := RunHasTrace(keep, actions[..|actions| - 1], Before(keep, actions, s));
      TraceSnoc(keep, actions, states, s);
      states := states + [s];
    }
  }

  lemma FullSnoc(keep: set<TaskState>, actions: seq<Lifecycle.Action>, states: seq<System>, n: nat)
    requires Trace(keep, actions, states) && n < |actions| && Full(states[n])
    ensures Full(states[n + 1])
  {
    assert StepAt(keep, actions, states, n);
    StepKeepsFull(states[n], keep, actions[n]);
  }

  lemma {:induction false} TraceIsFull(keep: set<TaskState>, actions: seq<Lifecycle.Action>, states: seq<System>,
      n: nat)
    requires Trace(keep, actions, states) && n <= |actions|
    ensures Full(states[n])
  {
    if n > 0 {
      TraceIsFull(keep, actions, states, n - 1);
      FullSnoc(keep, actions, states, n - 1);
    }
  }

  // ---------- what a step adds and what it leaves alone ----------

  /** A fresh queue has been added at the end, live on bus `b`; the others are as they were. */
  predicate OneMoreQueue(s: System, r: System, b: nat) {
    var n := |s.queues|;
    && |r.queues| == n + 1 && r.queues[n].bus == b && r.queues[n].queue == Queue([], false, false, Ready, [], [], false)
    && forall q | 0 <= q < n :: r.queues[q] == s.queues[q]
  }

  /** Bus `b` has these listeners more than before, and no other bus has changed. */
  predicate OnlyJoined(s: System, r: System, b: nat, event: set<Listener>, finished: set<Listener>)
    requires b < |s.buses|
  {
    && |r.buses| == |s.buses| && (forall c | 0 <= c < |s.buses| && c != b :: r.buses[c] == s.buses[c])
    && r.buses[b].event == s.buses[b].event + event && r.buses[b].finished == s.buses[b].finished + finished
  }

  /** A resubscription is always possible. If the task has a bus it adds one fresh queue, heard
      under both names on that bus, and changes nothing else; without one it changes nothing. */
  lemma SubscribeAttaches(s: System, keep: set<TaskState>, t: Text)
    requires Placed(s)
    ensures Can(s, Subscribe(t))
    ensures var r, n := Do(s, keep, Subscribe(t)), |s.queues|;
      if t !in s.registry then r == s
      else
        && OneMoreQueue(s, r, s.registry[t]) && Live(r, s.registry[t], n)
        && OnlyJoined(s, r, s.registry[t], {OnEvent(n)}, {OnFinished(n)})
        && r.registry == s.registry && r.executors == s.executors
  {}

  /** A turn uses the task's bus, or a new one without listeners if it has none. It adds one fresh
      queue and one running executor, which both listen there, and changes nothing else. */
  lemma TurnAttaches(s: System, keep: set<TaskState>, t: Text, stream: bool)
    requires Placed(s)
    ensures Can(s, Turn(t, stream)) <==> BusIdle(s, t)
    ensures BusIdle(s, t) ==>
      var r, n, x := Do(s, keep, Turn(t, stream)), |s.queues|, |s.executors|;
      var known := t in s.registry;
      var b := if known then s.registry[t] else |s.buses|;
      && OneMoreQueue(s, r, b) && Live(r, b, n)
      && OnlyJoined(if known then s else s.(buses := s.buses + [Bus({}, {})]), r, b,
                    {OnEvent(n), Tracker(x)}, {OnFinished(n)})
      && r.registry == s.registry[t := b]
      && r.executors == s.executors + [Executor(t, b, n, stream, true, false, true, None, None)]
  {}

  /** A task keeps its bus from its first turn until an executor of it settles in a state that is
      not kept alive; no other step of anyone changes which bus it has. */
  lemma TaskKeepsItsBus(s: System, keep: set<TaskState>, a: Lifecycle.Action, t: Text)
    requires Placed(s) && Can(s, a) && t in s.registry
    ensures var r := Do(s, keep, a);
      var ends := a.Settle? && s.executors[a.executor].taskId == t && !KeepsBus(s.executors[a.executor], keep);
      && (t in r.registry <==> !ends)
      && (t in r.registry ==> r.registry[t] == s.registry[t])
  {}

  /** A consumer that breaks out leaves the bus for good. */
  lemma StoppedConsumerLeaves(s: System, keep: set<TaskState>, q: nat)
    requires Placed(s) && q < |s.queues|
    ensures Can(s, StopConsumer(q))
    ensures var r, b := Do(s, keep, StopConsumer(q)), s.queues[q].bus;
      && |r.queues| == |s.queues| && !Live(r, b, q)
      && OnEvent(q) !in r.buses[b].event && OnFinished(q) !in r.buses[b].finished
  {}

  /** Nothing else is forbidden: any bus may be published on, a consumer that has not returned and
      is not waiting may run or leave, and an executor may return or reject at any time while it
      runs, in either kind of turn, to be settled at any time after that. */
  lemma AnythingMayHappen(s: System, b: nat, e: Protocol.Event, q: nat, x: nat, f: Failure)
    ensures b < |s.buses| ==> Can(s, PublishTo(b, e))
    ensures q < |s.queues| && !s.queues[q].queue.pc.Done? && !s.queues[q].queue.waiting ==> Can(s, Consume(q))
    ensures q < |s.queues| ==> Can(s, StopConsumer(q))
    ensures x < |s.executors| && s.executors[x].running ==>
      Can(s, Settle(x)) && (!s.executors[x].caught && IsFailure(f) ==> Can(s, Catch(x, f)))
  {}

  // ---------- a queue of the system is a queue on its own ----------

  function Publishes(events: seq<Protocol.Event>): seq<EventQueue.Action> {
    seq(|events|, i requires 0 <= i < |events| => Publish(events[i]))
  }

  /** The events step `a` puts on bus `b`. */
  function Announced(s: System, a: Lifecycle.Action, b: nat): seq<Protocol.Event>
    requires Can(s, a)
  {
    match a
    case PublishTo(c, e) => if c == b then [e] else []
    case Catch(x, f) => if s.executors[x].bus == b then Synthesized(NeedsTask(s.executors[x]), f) else []
    case _ => []
  }

  /** What step `a` is to queue `q`: a publish on its bus, `finished`, or its consumer's step. */
  function Sees(s: System, keep: set<TaskState>, a: Lifecycle.Action, q: nat): seq<EventQueue.Action>
    requires Can(s, a)
  {
    if q >= |s.queues| then []
    else match a
      case Consume(p) => if p == q then [Next] else []
      case StopConsumer(p) => if p == q then [Finish] else []
      case Settle(x) =>
        if s.executors[x].bus == s.queues[q].bus && !KeepsBus(s.executors[x], keep) then [Finish] else []
      case _ => Publishes(Announced(s, a, s.queues[q].bus))
  }

  /** All a queue has seen in the first `n` steps. */
  function History(keep: set<TaskState>, actions: seq<Lifecycle.Action>, states: seq<System>, q: nat, n: nat):
      seq<EventQueue.Action>
    requires Trace(keep, actions, states) && n <= |actions|
  {
    if n == 0 then []
    else
      assert StepAt(keep, actions, states, n - 1);
      History(keep, actions, states, q, n - 1) + Sees(states[n - 1], keep, actions[n - 1], q)
  }

  function Performs(q: Queue, steps: seq<EventQueue.Action>): Queue
    decreases |steps|
  {
    if steps == [] then q else Performs(EventQueue.Step(q, steps[0]), steps[1..])
  }

  predicate AllEnabled(q: Queue, steps: seq<EventQueue.Action>)
    decreases |steps|
  {
    steps == [] || (EventQueue.Enabled(q, steps[0]) && AllEnabled(EventQueue.Step(q, steps[0]), steps[1..]))
  }

  lemma {:induction false} RunsOn(done: seq<EventQueue.Action>, steps: seq<EventQueue.Action>)
    requires Runs(done) && AllEnabled(After(done), steps)
    ensures Runs(done + steps) && After(done + steps) == Performs(After(done), steps)
    decreases |steps|
  {
    if steps == [] {
      assert done + steps == done;
    } else {
      assert (done + [steps[0]])[..|done|] == done;
      assert done + [steps[0]] + steps[1..] == done + steps;
      RunsOn(done + [steps[0]], steps[1..]);
    }
  }

  /** A step does to a queue exactly what it sees of it, and queues never go or move. */
  predicate StepIsSeen(s: System, keep: set<TaskState>, a: Lifecycle.Action, q: nat)
    requires Placed(s) && Can(s, a) && q < |s.queues|
  {
    var r, steps := Do(s, keep, a), Sees(s, keep, a, q);
    && q < |r.queues| && r.queues[q].bus == s.queues[q].bus
    && AllEnabled(s.queues[q].queue, steps) && r.queues[q].queue == Performs(s.queues[q].queue, steps)
  }

  /** A queue that has stopped takes nothing in and cannot stop again. */
  lemma StoppedStays(q: Queue, e: Protocol.Event)
    requires Valid(q) && q.stopped
    ensures HandleEvent(q, e) == q == EventQueue.Stop(q)
  {}

  lemma PublishIsSeen(s: System, b: nat, e: Protocol.Event, q: nat)
    requires Core(s) && QueuesValid(s) && b < |s.buses| && q < |s.queues|
    ensures PublishOn(s, b, e).queues[q].queue ==
      if s.queues[q].bus == b then HandleEvent(s.queues[q].queue, e) else s.queues[q].queue
    ensures PublishOn(s, b, e).queues[q].bus == s.queues[q].bus
  {
    assert Heard(s, b);
    assert OnEvent(q) in s.buses[b].event <==> Live(s, b, q);
    if s.queues[q].queue.stopped { StoppedStays(s.queues[q].queue, e); }
  }

  lemma FailureIsSeen(s: System, b: nat, withTask: bool, f: Failure, q: nat)
    requires Core(s) && Knows(s) && b < |s.buses| && q < |s.queues|
    ensures PublishFailure(s, b, withTask, f).queues[q].queue ==
      if s.queues[q].bus == b then Performs(s.queues[q].queue, Publishes(Synthesized(withTask, f)))
      else s.queues[q].queue
    ensures PublishFailure(s, b, withTask, f).queues[q].bus == s.queues[q].bus
  {
    PublishIsSeen(s, b, TaskEvent(f.task), q);
    PublishKeepsCore(s, b, TaskEvent(f.task));
    PublishKeepsKnowledge(s, b, TaskEvent(f.task));
    PublishIsSeen(if withTask then PublishOn(s, b, TaskEvent(f.task)) else s, b, StatusEvent(f.status), q);
    TwoPublishes(s.queues[q].queue, withTask, f);
  }

  lemma OneStep(q: Queue, step: EventQueue.Action)
    ensures Performs(q, [step]) == EventQueue.Step(q, step) && Performs(q, []) == q
    ensures AllEnabled(q, [step]) <==> EventQueue.Enabled(q, step)
  {
    assert [step][1..] == [];
  }

  lemma TwoPublishes(q: Queue, withTask: bool, f: Failure)
    ensures Performs(q, Publishes(Synthesized(withTask, f))) ==
      HandleEvent(if withTask then HandleEvent(q, TaskEvent(f.task)) else q, StatusEvent(f.status))
  {
    var steps, last := Publishes(Synthesized(withTask, f)), Publish(StatusEvent(f.status));
    if withTask {
      assert steps == [Publish(TaskEvent(f.task)), last] && steps[1..] == [last];
      OneStep(HandleEvent(q, TaskEvent(f.task)), last);
    } else {
      assert steps == [last];
      OneStep(q, last);
    }
  }

  lemma {:induction false} PublishesAreEnabled(q: Queue, events: seq<Protocol.Event>)
    ensures AllEnabled(q, Publishes(events))
    decreases |events|
  {
    if events != [] {
      assert Publishes(events)[1..] == Publishes(events[1..]);
      PublishesAreEnabled(HandleEvent(q, events[0]), events[1..]);
    }
  }

  lemma CatchIsSeen(s: System, keep: set<TaskState>, i: nat, f: Failure, q: nat)
    requires Full(s) && Can(s, Catch(i, f)) && q < |s.queues|
    ensures StepIsSeen(s, keep, Catch(i, f), q)
  {
    var u, b := TakeSnapshot(s, i), s.executors[i].bus;
    SnapshotKeepsCore(s, i);
    WindsKeepsKnowledge(s, u);
    FailureIsSeen(u, b, NeedsTask(s.executors[i]), f, q);
    PublishFailureKeepsCore(u, b, NeedsTask(s.executors[i]), f);
    PublishesAreEnabled(s.queues[q].queue, Announced(s, Catch(i, f), s.queues[q].bus));
    assert Performs(s.queues[q].queue, Publishes([])) == s.queues[q].queue;
  }

  lemma SettleIsSeen(s: System, keep: set<TaskState>, i: nat, q: nat)
    requires Full(s) && Can(s, Settle(i)) && q < |s.queues|
    ensures StepIsSeen(s, keep, Settle(i), q)
  {
    var x, v, before := s.executors[i], Settled(Untrack(s, i), i), s.queues[q].queue;
    assert Heard(s, x.bus);
    assert OnFinished(q) in v.buses[x.bus].finished <==> Live(s, x.bus, q);
    if before.stopped { StoppedStays(before, StatusEvent(StatusUpdate([], [], None, None))); }
    assert Performs(before, [Finish]) == Performs(EventQueue.Stop(before), [Finish][1..]) == EventQueue.Stop(before);
  }

  lemma EveryStepIsSeen(s: System, keep: set<TaskState>, a: Lifecycle.Action, q: nat)
    requires Full(s) && Can(s, a) && q < |s.queues|
    ensures StepIsSeen(s, keep, a, q)
  {
    match a
    case PublishTo(b, e) =>
      PublishIsSeen(s, b, e, q);
      OneStep(s.queues[q].queue, Publish(e));
      assert Publishes([e]) == [Publish(e)];
    case Catch(i, f) => CatchIsSeen(s, keep, i, f, q);
    case Settle(i) => SettleIsSeen(s, keep, i, q);
    case Consume(_) => OneStep(s.queues[q].queue, Next);
    case StopConsumer(_) => OneStep(s.queues[q].queue, Finish);
    case _ =>
  }

  /** A queue that was not there has seen nothing, and is new when it comes. */
  lemma NewQueueIsFresh(s: System, keep: set<TaskState>, a: Lifecycle.Action, q: nat)
    requires Full(s) && Can(s, a) && |s.queues| <= q < |Do(s, keep, a).queues|
    ensures Do(s, keep, a).queues[q].queue == NEW_QUEUE && (a.Turn? || a.Subscribe?) && q == |s.queues|
  {
    if a.Catch? { CatchKeepsInv(s, a.executor, a.failure); }
  }

  lemma {:induction false} NothingSeen(keep: set<TaskState>, actions: seq<Lifecycle.Action>, states: seq<System>,
      q: nat, n: nat)
    requires Trace(keep, actions, states) && n <= |actions| && q >= |states[n].queues|
    ensures History(keep, actions, states, q, n) == []
  {
    if n > 0 {
      assert StepAt(keep, actions, states, n - 1);
      StepExtends(states[n - 1], keep, actions[n - 1]);
      NothingSeen(keep, actions, states, q, n - 1);
    }
  }

  lemma QueueStep(s: System, keep: set<TaskState>, a: Lifecycle.Action, r: System, q: nat, seen: seq<EventQueue.Action>)
    requires Full(s) && Steps(s, keep, a, r) && q < |s.queues| && Runs(seen) && After(seen) == s.queues[q].queue
    ensures q < |r.queues| && r.queues[q].bus == s.queues[q].bus
    ensures Runs(seen + Sees(s, keep, a, q)) && After(seen + Sees(s, keep, a, q)) == r.queues[q].queue
  {
    EveryStepIsSeen(s, keep, a, q);
    RunsOn(seen, Sees(s, keep, a, q));
  }

  lemma QueueStart(s: System, keep: set<TaskState>, a: Lifecycle.Action, r: System, q: nat)
    requires Full(s) && Steps(s, keep, a, r) && |s.queues| <= q < |r.queues|
    ensures r.queues[q].queue == NEW_QUEUE && Sees(s, keep, a, q) == []
  {
    NewQueueIsFresh(s, keep, a, q);
  }

  /** In every run of the system each queue is what `EventQueue` makes of the steps it has seen;
      so everything proved there of one queue between a publisher and a consumer holds of it. */
  lemma {:induction false} QueueFollowsItsBus(keep: set<TaskState>, actions: seq<Lifecycle.Action>, states: seq<System>,
      q: nat, n: nat)
    requires Trace(keep, actions, states) && n <= |actions| && q < |states[n].queues|
    ensures var seen := History(keep, actions, states, q, n); Runs(seen) && After(seen) == states[n].queues[q].queue
  {
    if n > 0 {
      var s, a := states[n - 1], actions[n - 1];
      assert StepAt(keep, actions, states, n - 1);
      TraceIsFull(keep, actions, states, n - 1);
      if q < |s.queues| {
        QueueFollowsItsBus(keep, actions, states, q, n - 1);
        QueueStep(s, keep, a, states[n], q, History(keep, actions, states, q, n - 1));
      } else {
        NothingSeen(keep, actions, states, q, n - 1);
        QueueStart(s, keep, a, states[n], q);
      }
    }
  }

  lemma {:induction false} DrainSnoc(q: Queue, n: nat)
    requires n > 0
    ensures Drain(q, n) == if CanResume(Drain(q, n - 1)) then Resume(Drain(q, n - 1)) else Drain(q, n - 1)
    decreases n
  {
    if n > 1 && CanResume(q) { DrainSnoc(Resume(q), n - 1); }
  }

  function ConsumeSteps(q: nat, m: nat): seq<Lifecycle.Action> { seq(m, _ => Consume(q)) }

  lemma ConsumeOnce(keep: set<TaskState>, actions: seq<Lifecycle.Action>, states: seq<System>, q: nat)
      returns (r: System)
    requires Trace(keep, actions, states) && q < |states[|actions|].queues|
    requires CanResume(states[|actions|].queues[q].queue)
    ensures Trace(keep, actions + [Consume(q)], states + [r])
    ensures q < |r.queues| && r.queues[q].queue == Resume(states[|actions|].queues[q].queue)
  {
    TraceIsFull(keep, actions, states, |actions|);
    r := Do(states[|actions|], keep, Consume(q));
    assert (actions + [Consume(q)])[..|actions|] == actions;
    TraceSnoc(keep, actions + [Consume(q)], states, r);
  }

  lemma ConsumeStepsSnoc(actions: seq<Lifecycle.Action>, q: nat, m: nat)
    ensures actions + ConsumeSteps(q, m) + [Consume(q)] == actions + ConsumeSteps(q, m + 1)
    ensures actions + ConsumeSteps(q, 0) == actions
  {}

  /** What the consumer of a queue is said to reach by draining it, it reaches by its own steps
      alone, from every state of every run of the system. */
  lemma {:induction false} ConsumerReachesDrain(keep: set<TaskState>, actions: seq<Lifecycle.Action>,
      states: seq<System>, q: nat, n: nat)
    returns (m: nat, further: seq<System>)
    requires Trace(keep, actions, states) && q < |states[|actions|].queues|
    ensures m <= n && |further| == |states| + m && Trace(keep, actions + ConsumeSteps(q, m), further)
    ensures states <= further && q < |further[|actions| + m].queues|
    ensures further[|actions| + m].queues[q].queue == Drain(states[|actions|].queues[q].queue, n)
    decreases n
  {
    if n == 0 {
      m, further := 0, states;
      ConsumeStepsSnoc(actions, q, 0);
    } else {
      m, further := ConsumerReachesDrain(keep, actions, states, q, n - 1);
      DrainSnoc(states[|actions|].queues[q].queue, n);
      if CanResume(further[|actions| + m].queues[q].queue) {
        var r := ConsumeOnce(keep, actions + ConsumeSteps(q, m), further, q);
        ConsumeStepsSnoc(actions, q, m);
        m, further := m + 1, further + [r];
      }
    }
  }

  // ---------- everything since it was attached, and nothing else ----------

  /** The events that the steps from number `from` up to `n` have put on bus `b`, failures included. */
  function Announcements(keep: set<TaskState>, actions: seq<Lifecycle.Action>, states: seq<System>, b: nat, from: nat,
      n: nat): seq<Protocol.Event>
    requires Trace(keep, actions, states) && n <= |actions|
    decreases n
  {
    if n <= from then []
    else
      assert StepAt(keep, actions, states, n - 1);
      Announcements(keep, actions, states, b, from, n - 1) + Announced(states[n - 1], actions[n - 1], b)
  }

  lemma {:induction false} PublishedConcat(a: seq<EventQueue.Action>, b: seq<EventQueue.Action>)
    ensures Published(a + b) == Published(a) + Published(b)
    decreases |b|
  {
    if b == [] {
      assert a + b == a;
    } else {
      var n := |b| - 1;
      assert (a + b)[..|a + b| - 1] == a + b[..n];
      PublishedConcat(a, b[..n]);
    }
  }

  lemma {:induction false} PublishedPublishes(events: seq<Protocol.Event>)
    ensures Published(Publishes(events)) == events
  {
    if events != [] {
      var n := |events| - 1;
      assert Publishes(events)[..n] == Publishes(events[..n]);
      PublishedPublishes(events[..n]);
    }
  }

  lemma PublishedSeen(s: System, keep: set<TaskState>, a: Lifecycle.Action, q: nat)
    requires Can(s, a) && q < |s.queues|
    ensures Published(Sees(s, keep, a, q)) == Announced(s, a, s.queues[q].bus)
  {
    PublishedPublishes(Announced(s, a, s.queues[q].bus));
    assert [Finish][..0] == [] && [Next][..0] == [];
  }

  predicate Attaches(v: System, a: Lifecycle.Action) { a.Turn? || (a.Subscribe? && a.taskId in v.registry) }

  function BusFor(v: System, t: Text): nat { if t in v.registry then v.registry[t] else |v.buses| }

  /** Step `k` of the run attached a queue, and `n` steps have been taken since the start. */
  predicate AttachedAt(keep: set<TaskState>, actions: seq<Lifecycle.Action>, states: seq<System>, k: nat, n: nat) {
    Trace(keep, actions, states) && k < n <= |actions| && Attaches(states[k], actions[k])
  }

  lemma AttachedFirst(s: System, keep: set<TaskState>, a: Lifecycle.Action, r: System)
    requires Steps(s, keep, a, r) && Attaches(s, a)
    ensures |r.queues| == |s.queues| + 1 && r.queues[|s.queues|].bus == BusFor(s, a.taskId)
    ensures Sees(s, keep, a, |s.queues|) == []
  {}

  predicate SeenSince(keep: set<TaskState>, actions: seq<Lifecycle.Action>, states: seq<System>, q: nat, b: nat,
      from: nat, n: nat)
    requires Trace(keep, actions, states) && n <= |actions|
  {
    && q < |states[n].queues| && states[n].queues[q].bus == b
    && Published(History(keep, actions, states, q, n)) == Announcements(keep, actions, states, b, from, n)
  }

  lemma SeenSnoc(keep: set<TaskState>, actions: seq<Lifecycle.Action>, states: seq<System>, q: nat, b: nat, from: nat,
      n: nat)
    requires Trace(keep, actions, states) && from < n <= |actions|
    requires SeenSince(keep, actions, states, q, b, from, n - 1)
    ensures SeenSince(keep, actions, states, q, b, from, n)
  {
    var s, a := states[n - 1], actions[n - 1];
    assert StepAt(keep, actions, states, n - 1);
    TraceIsFull(keep, actions, states, n - 1);
    EveryStepIsSeen(s, keep, a, q);
    PublishedConcat(History(keep, actions, states, q, n - 1), Sees(s, keep, a, q));
    PublishedSeen(s, keep, a, q);
  }

  lemma SeenFirst(keep: set<TaskState>, actions: seq<Lifecycle.Action>, states: seq<System>, k: nat)
    requires AttachedAt(keep, actions, states, k, k + 1)
    ensures SeenSince(keep, actions, states, |states[k].queues|, BusFor(states[k], actions[k].taskId), k + 1, k + 1)
  {
    assert StepAt(keep, actions, states, k);
    NothingSeen(keep, actions, states, |states[k].queues|, k);
    AttachedFirst(states[k], keep, actions[k], states[k + 1]);
  }

  lemma {:induction false} SeenFrom(keep: set<TaskState>, actions: seq<Lifecycle.Action>, states: seq<System>, q: nat,
      b: nat, from: nat, n: nat)
    requires Trace(keep, actions, states) && from <= n <= |actions|
    requires SeenSince(keep, actions, states, q, b, from, from)
    ensures SeenSince(keep, actions, states, q, b, from, n)
    decreases n
  {
    if from < n {
      SeenFrom(keep, actions, states, q, b, from, n - 1);
      SeenSnoc(keep, actions, states, q, b, from, n);
    }
  }

  lemma SeenSinceAttached(keep: set<TaskState>, actions: seq<Lifecycle.Action>, states: seq<System>, k: nat, n: nat)
    requires AttachedAt(keep, actions, states, k, n)
    ensures SeenSince(keep, actions, states, |states[k].queues|, BusFor(states[k], actions[k].taskId), k + 1, n)
  {
    SeenFirst(keep, actions, states, k);
    SeenFrom(keep, actions, states, |states[k].queues|, BusFor(states[k], actions[k].taskId), k + 1, n);
  }

  /** In every run, the queue a turn or a resubscription attached at step `k` has, while it is
      live, taken in exactly what was published on its bus since then, by executors and for
      their failures; once stopped, a beginning of that. */
  lemma AttachedQueueHearsAll(keep: set<TaskState>, actions: seq<Lifecycle.Action>, states: seq<System>, k: nat, n: nat)
    requires AttachedAt(keep, actions, states, k, n)
    ensures var q, b := |states[k].queues|, BusFor(states[k], actions[k].taskId);
      var since := Announcements(keep, actions, states, b, k + 1, n);
      && q < |states[n].queues| && states[n].queues[q].bus == b
      && (!states[n].queues[q].queue.stopped ==> states[n].queues[q].queue.accepted == since)
      && states[n].queues[q].queue.accepted <= since && states[n].queues[q].queue.delivered <= Cut(since)
  {
    var q := |states[k].queues|;
    SeenSinceAttached(keep, actions, states, k, n);
    QueueFollowsItsBus(keep, actions, states, q, n);
    var seen := History(keep, actions, states, q, n);
    AcceptsUntilStopped(seen, 0);
    DeliversExactlyTheCut(seen);
    PrefixCuts(states[n].queues[q].queue.accepted, Published(seen));
  }

  /** In every run, what a resubscription to `t` has shown is the snapshot and a gapless beginning
      of the events of `t` published since it attached, up to the first stop; while its queue is
      live and its consumer waits, it is all of them. */
  lemma ResubscriberSeesItsTask(keep: set<TaskState>, actions: seq<Lifecycle.Action>, states: seq<System>, k: nat,
      n: nat, task: Task)
    requires AttachedAt(keep, actions, states, k, n) && actions[k].Subscribe?
    ensures var q, t := |states[k].queues|, actions[k].taskId;
      var since := Announcements(keep, actions, states, states[k].registry[t], k + 1, n);
      && q < |states[n].queues|
      && var queue := states[n].queues[q].queue;
         && Resubscribed(task, queue.delivered, t) <= Resubscribed(task, Cut(since), t)
         && (queue.pc.Parked? && !CanResume(queue) ==>
               Resubscribed(task, queue.delivered, t) == Resubscribed(task, since, t))
  {
    var q, t := |states[k].queues|, actions[k].taskId;
    AttachedQueueHearsAll(keep, actions, states, k, n);
    TraceIsFull(keep, actions, states, n);
    var queue := states[n].queues[q].queue;
    assert QueueOk(queue);
    assert queue.buffer == [] ==> queue.accepted == queue.delivered;
    ForwardedPrefix(queue.delivered, Cut(Announcements(keep, actions, states, states[k].registry[t], k + 1, n)), t);
  }

  // ---------- what a tracker has seen of its turn ----------

  /** The state last announced, if any. */
  function LastState(events: seq<Protocol.Event>): Option<TaskState> {
    if events == [] then None
    else if StateOf(events[|events| - 1]).Some? then StateOf(events[|events| - 1])
    else LastState(events[..|events| - 1])
  }

  function LastTask(events: seq<Protocol.Event>): Option<Task> {
    if events == [] then None
    else if events[|events| - 1].TaskEvent? then Some(events[|events| - 1].task)
    else LastTask(events[..|events| - 1])
  }

  lemma LastSnoc(events: seq<Protocol.Event>, e: Protocol.Event)
    ensures LastState(events + [e]) == if StateOf(e).Some? then StateOf(e) else LastState(events)
    ensures LastTask(events + [e]) == if e.TaskEvent? then Some(e.task) else LastTask(events)
  {
    assert (events + [e])[..|events|] == events;
  }

  /** `y` is `x` after it has heard `events`, having heard `before`. */
  predicate Hears(x: Executor, y: Executor, before: seq<Protocol.Event>, events: seq<Protocol.Event>) {
    x.lastState == LastState(before) && x.lastTask == LastTask(before) ==>
      y.lastState == LastState(before + events) && y.lastTask == LastTask(before + events)
  }

  lemma PublishIsHeard(s: System, b: nat, e: Protocol.Event, i: nat, before: seq<Protocol.Event>)
    requires b < |s.buses| && Heard(s, b) && i < |s.executors| && s.executors[i].tracking
    ensures Hears(s.executors[i], PublishOn(s, b, e).executors[i], before,
                  if s.executors[i].bus == b then [e] else [])
  {
    PublishTracks(s, b, e, i);
    LastSnoc(before, e);
    assert before + [] == before;
  }

  lemma FailureIsHeard(s: System, b: nat, withTask: bool, f: Failure, i: nat, before: seq<Protocol.Event>)
    requires Core(s) && b < |s.buses| && i < |s.executors| && s.executors[i].tracking
    ensures Hears(s.executors[i], PublishFailure(s, b, withTask, f).executors[i], before,
                  if s.executors[i].bus == b then Synthesized(withTask, f) else [])
  {
    var mid := if s.executors[i].bus == b && withTask then before + [TaskEvent(f.task)] else before;
    PublishIsHeard(s, b, TaskEvent(f.task), i, before);
    PublishKeepsCore(s, b, TaskEvent(f.task));
    PublishIsHeard(if withTask then PublishOn(s, b, TaskEvent(f.task)) else s, b, StatusEvent(f.status), i, mid);
    assert before + [] == before;
    assert s.executors[i].bus == b ==> mid + [StatusEvent(f.status)] == before + Synthesized(withTask, f);
  }

  predicate SameTurn(x: Executor, y: Executor) {
    y.taskId == x.taskId && y.bus == x.bus && y.stream == x.stream && (y.tracking ==> x.tracking) &&
    (x.caught ==> y.caught)
  }

  lemma QuietStepKeepsTurn(s: System, keep: set<TaskState>, a: Lifecycle.Action, i: nat)
    requires Placed(s) && Can(s, a) && i < |s.executors| && !a.PublishTo? && !a.Catch?
    ensures i < |Do(s, keep, a).executors| && SameTurn(s.executors[i], Do(s, keep, a).executors[i])
    ensures var x, y := s.executors[i], Do(s, keep, a).executors[i];
      y.lastState == x.lastState && y.lastTask == x.lastTask
  {}

  lemma StepKeepsTurn(s: System, keep: set<TaskState>, a: Lifecycle.Action, i: nat)
    requires Full(s) && Can(s, a) && i < |s.executors|
    ensures i < |Do(s, keep, a).executors| && SameTurn(s.executors[i], Do(s, keep, a).executors[i])
  {
    if a.Catch? {
      CatchKeepsInv(s, a.executor, a.failure);
    } else if !a.PublishTo? {
      QuietStepKeepsTurn(s, keep, a, i);
    }
  }

  lemma CatchIsHeard(s: System, j: nat, f: Failure, i: nat, before: seq<Protocol.Event>)
    requires Full(s) && j < |s.executors| && i < |s.executors|
    ensures i < |CatchFailure(s, j, f).executors|
    ensures CatchFailure(s, j, f).executors[i].tracking ==>
      Hears(s.executors[i], CatchFailure(s, j, f).executors[i], before,
        if s.executors[j].bus == s.executors[i].bus then Synthesized(NeedsTask(s.executors[j]), f) else [])
  {
    CatchKeepsInv(s, j, f);
    SnapshotKeepsCore(s, j);
    var u := TakeSnapshot(s, j);
    if u.executors[i].tracking { FailureIsHeard(u, s.executors[j].bus, NeedsTask(s.executors[j]), f, i, before); }
  }

  lemma StepIsHeard(s: System, keep: set<TaskState>, a: Lifecycle.Action, i: nat, before: seq<Protocol.Event>)
    requires Full(s) && Can(s, a) && i < |s.executors|
    ensures i < |Do(s, keep, a).executors|
    ensures Do(s, keep, a).executors[i].tracking ==>
      Hears(s.executors[i], Do(s, keep, a).executors[i], before, Announced(s, a, s.executors[i].bus))
  {
    match a
    case PublishTo(b, e) => if s.executors[i].tracking { PublishIsHeard(s, b, e, i, before); }
    case Catch(j, f) => CatchIsHeard(s, j, f, i, before);
    case _ =>
      QuietStepKeepsTurn(s, keep, a, i);
      assert before + [] == before;
  }

  /** Executor `i` of `s` is on bus `b` for task `t`, and if its tracker still listens it has
      heard `events`. */
  predicate HasHeard(s: System, i: nat, t: Text, b: nat, stream: bool, events: seq<Protocol.Event>) {
    i < |s.executors| &&
    var x := s.executors[i];
    && x.taskId == t && x.bus == b && x.stream == stream
    && (x.tracking ==> x.lastState == LastState(events) && x.lastTask == LastTask(events))
  }

  lemma TrackerStep(s: System, keep: set<TaskState>, a: Lifecycle.Action, r: System, i: nat, t: Text, b: nat,
      stream: bool, events: seq<Protocol.Event>)
    requires Full(s) && Steps(s, keep, a, r) && HasHeard(s, i, t, b, stream, events)
    ensures HasHeard(r, i, t, b, stream, events + Announced(s, a, b))
  {
    StepKeepsTurn(s, keep, a, i);
    StepIsHeard(s, keep, a, i, events);
  }

  lemma TrackerSnoc(keep: set<TaskState>, actions: seq<Lifecycle.Action>, states: seq<System>, i: nat, t: Text, b: nat,
      stream: bool, from: nat, n: nat)
    requires Trace(keep, actions, states) && from < n <= |actions|
    requires HasHeard(states[n - 1], i, t, b, stream, Announcements(keep, actions, states, b, from, n - 1))
    ensures HasHeard(states[n], i, t, b, stream, Announcements(keep, actions, states, b, from, n))
  {
    assert StepAt(keep, actions, states, n - 1);
    TraceIsFull(keep, actions, states, n - 1);
    TrackerStep(states[n - 1], keep, actions[n - 1], states[n], i, t, b, stream,
                Announcements(keep, actions, states, b, from, n - 1));
  }

  lemma {:induction false} TrackerFrom(keep: set<TaskState>, actions: seq<Lifecycle.Action>, states: seq<System>,
      i: nat, t: Text, b: nat, stream: bool, from: nat, n: nat)
    requires Trace(keep, actions, states) && from <= n <= |actions| && HasHeard(states[from], i, t, b, stream, [])
    ensures HasHeard(states[n], i, t, b, stream, Announcements(keep, actions, states, b, from, n))
    decreases n
  {
    if from < n {
      TrackerFrom(keep, actions, states, i, t, b, stream, from, n - 1);
      TrackerSnoc(keep, actions, states, i, t, b, stream, from, n);
    }
  }

  lemma TrackerStart(keep: set<TaskState>, actions: seq<Lifecycle.Action>, states: seq<System>, k: nat)
    requires AttachedAt(keep, actions, states, k, k + 1) && actions[k].Turn?
    ensures HasHeard(states[k + 1], |states[k].executors|, actions[k].taskId, BusFor(states[k], actions[k].taskId),
                     actions[k].stream, [])
  {
    assert StepAt(keep, actions, states, k);
  }

  /** While its tracker listens, an executor knows exactly the last state and the last task
      published on its bus since its turn began. */
  lemma TrackerHearsItsTurn(keep: set<TaskState>, actions: seq<Lifecycle.Action>, states: seq<System>, k: nat, n: nat)
    requires AttachedAt(keep, actions, states, k, n) && actions[k].Turn?
    ensures var b := BusFor(states[k], actions[k].taskId);
      HasHeard(states[n], |states[k].executors|, actions[k].taskId, b, actions[k].stream,
               Announcements(keep, actions, states, b, k + 1, n))
  {
    TrackerStart(keep, actions, states, k);
    TrackerFrom(keep, actions, states, |states[k].executors|, actions[k].taskId,
                BusFor(states[k], actions[k].taskId), actions[k].stream, k + 1, n);
  }

  /** A turn's bus is torn down when its executor settles exactly when the last state published on
      it during the turn, a failure's FAILED included, is not kept alive. This is so for every
      turn but a streaming one that was rejected. */
  lemma TurnKeepsItsBusIff(keep: set<TaskState>, actions: seq<Lifecycle.Action>, states: seq<System>, k: nat, n: nat)
    requires AttachedAt(keep, actions, states, k, n) && actions[k].Turn?
    requires Can(states[n], Settle(|states[k].executors|))
    requires !(actions[k].stream && states[n].executors[|states[k].executors|].caught)
    ensures Placed(states[n])
    ensures var b := BusFor(states[k], actions[k].taskId);
      var last := LastState(Announcements(keep, actions, states, b, k + 1, n));
      TornDown(Do(states[n], keep, Settle(|states[k].executors|)), actions[k].taskId, b) <==>
        last.None? || last.value !in keep
  {
    TraceIsFull(keep, actions, states, n);
    TrackerHearsItsTurn(keep, actions, states, k, n);
    TornDownIff(states[n], keep, |states[k].executors|);
  }

  /** With the default keep-alive states: unless that state is INPUT_REQUIRED or AUTH_REQUIRED. */
  lemma DefaultTurnKeepsItsBusIff(actions: seq<Lifecycle.Action>, states: seq<System>, k: nat, n: nat)
    requires AttachedAt(KEEP_ALIVE, actions, states, k, n) && actions[k].Turn?
    requires Can(states[n], Settle(|states[k].executors|))
    requires !(actions[k].stream && states[n].executors[|states[k].executors|].caught)
    ensures Placed(states[n])
    ensures var b := BusFor(states[k], actions[k].taskId);
      var last := LastState(Announcements(KEEP_ALIVE, actions, states, b, k + 1, n));
      TornDown(Do(states[n], KEEP_ALIVE, Settle(|states[k].executors|)), actions[k].taskId, b) <==>
        last != Some(InputRequired) && last != Some(AuthRequired)
  {
    TurnKeepsItsBusIff(KEEP_ALIVE, actions, states, k, n);
  }

  lemma TornDownIff(s: System, keep: set<TaskState>, i: nat)
    requires Full(s) && Can(s, Settle(i))
    ensures TornDown(Do(s, keep, Settle(i)), s.executors[i].taskId, s.executors[i].bus) <==>
      !KeepsBus(s.executors[i], keep)
  {
    EndSettles(s, keep, i);
  }

  /** Executor `i` of `s` is a rejected streaming one, its last state fixed. */
  predicate Frozen(s: System, i: nat, t: Text, b: nat, last: Option<TaskState>) {
    i < |s.executors| &&
    var x := s.executors[i];
    x.caught && x.stream && x.taskId == t && x.bus == b && x.lastState == last
  }

  lemma FrozenStep(s: System, keep: set<TaskState>, a: Lifecycle.Action, r: System, i: nat, t: Text, b: nat,
      last: Option<TaskState>)
    requires Full(s) && Steps(s, keep, a, r) && Frozen(s, i, t, b, last)
    ensures Frozen(r, i, t, b, last)
  {
    StepKeepsTurn(s, keep, a, i);
    match a
    case PublishTo(c, e) => PublishTracks(s, c, e, i);
    case Catch(j, f) => CatchTracks(s, j, f, i);
    case _ => QuietStepKeepsTurn(s, keep, a, i);
  }

  lemma CatchFreezes(s: System, keep: set<TaskState>, a: Lifecycle.Action, r: System, i: nat, t: Text, b: nat,
      events: seq<Protocol.Event>)
    requires Full(s) && Steps(s, keep, a, r) && a.Catch? && a.executor == i && HasHeard(s, i, t, b, true, events)
    ensures Frozen(r, i, t, b, LastState(events))
  {
    CatchKeepsInv(s, i, a.failure);
    CatchTracks(s, i, a.failure, i);
  }

  /** Step `c` rejected the streaming turn that began at step `k`. */
  predicate RejectedAt(keep: set<TaskState>, actions: seq<Lifecycle.Action>, states: seq<System>, k: nat, c: nat,
      n: nat)
  {
    && AttachedAt(keep, actions, states, k, n) && k < c < n && actions[k].Turn? && actions[k].stream
    && actions[c].Catch? && actions[c].executor == |states[k].executors|
  }

  lemma FrozenSnoc(keep: set<TaskState>, actions: seq<Lifecycle.Action>, states: seq<System>, i: nat, t: Text, b: nat,
      last: Option<TaskState>, n: nat)
    requires Trace(keep, actions, states) && 0 < n <= |actions| && Frozen(states[n - 1], i, t, b, last)
    ensures Frozen(states[n], i, t, b, last)
  {
    assert StepAt(keep, actions, states, n - 1);
    TraceIsFull(keep, actions, states, n - 1);
    FrozenStep(states[n - 1], keep, actions[n - 1], states[n], i, t, b, last);
  }

  lemma {:induction false} FrozenFrom(keep: set<TaskState>, actions: seq<Lifecycle.Action>, states: seq<System>, i: nat,
      t: Text, b: nat, last: Option<TaskState>, from: nat, n: nat)
    requires Trace(keep, actions, states) && from <= n <= |actions| && Frozen(states[from], i, t, b, last)
    ensures Frozen(states[n], i, t, b, last)
    decreases n
  {
    if from < n {
      FrozenFrom(keep, actions, states, i, t, b, last, from, n - 1);
      FrozenSnoc(keep, actions, states, i, t, b, last, n);
    }
  }

  lemma FrozenAtCatch(keep: set<TaskState>, actions: seq<Lifecycle.Action>, states: seq<System>, k: nat, c: nat)
    requires RejectedAt(keep, actions, states, k, c, c + 1)
    ensures var b := BusFor(states[k], actions[k].taskId);
      Frozen(states[c + 1], |states[k].executors|, actions[k].taskId, b,
             LastState(Announcements(keep, actions, states, b, k + 1, c)))
  {
    var i, b := |states[k].executors|, BusFor(states[k], actions[k].taskId);
    assert StepAt(keep, actions, states, c);
    TraceIsFull(keep, actions, states, c);
    TrackerHearsItsTurn(keep, actions, states, k, c);
    CatchFreezes(states[c], keep, actions[c], states[c + 1], i, actions[k].taskId, b,
                 Announcements(keep, actions, states, b, k + 1, c));
  }

  lemma FrozenSinceCatch(keep: set<TaskState>, actions: seq<Lifecycle.Action>, states: seq<System>, k: nat, c: nat,
      n: nat)
    requires RejectedAt(keep, actions, states, k, c, n)
    ensures var b := BusFor(states[k], actions[k].taskId);
      Frozen(states[n], |states[k].executors|, actions[k].taskId, b,
             LastState(Announcements(keep, actions, states, b, k + 1, c)))
  {
    var b := BusFor(states[k], actions[k].taskId);
    FrozenAtCatch(keep, actions, states, k, c);
    FrozenFrom(keep, actions, states, |states[k].executors|, actions[k].taskId, b,
               LastState(Announcements(keep, actions, states, b, k + 1, c)), c + 1, n);
  }

  /** A streaming turn rejected at step `c`: the last state before that decides, and nothing
      published from then on, FAILED included. */
  lemma RejectedStreamKeepsItsBusIff(keep: set<TaskState>, actions: seq<Lifecycle.Action>, states: seq<System>, k: nat,
      c: nat, n: nat)
    requires RejectedAt(keep, actions, states, k, c, n) && Can(states[n], Settle(|states[k].executors|))
    ensures Placed(states[n])
    ensures var b := BusFor(states[k], actions[k].taskId);
      var last := LastState(Announcements(keep, actions, states, b, k + 1, c));
      TornDown(Do(states[n], keep, Settle(|states[k].executors|)), actions[k].taskId, b) <==>
        last.None? || last.value !in keep
  {
    TraceIsFull(keep, actions, states, n);
    FrozenSinceCatch(keep, actions, states, k, c, n);
    TornDownIff(states[n], keep, |states[k].executors|);
  }
}
