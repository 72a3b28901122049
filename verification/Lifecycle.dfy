/** Who listens on which bus, for how long: `DefaultExecutionEventBusManager`,
    `_runExecutor`, `_runStreamExecutor`, `_settleBus` and the two state trackers
    (src/server/events/execution_event_bus_manager.ts,
    src/server/request_handler/default_request_handler.ts), over any run of turns,
    subscriptions, publishes and consumer steps. */
module Lifecycle {
  import opened Base
  import opened Protocol
  import opened EventBus
  import opened EventQueue
  import opened Streams

  /** The listeners registered on a bus; `EventBus.RegisteredAfter` says how `on` and `off`
      change these sets, `FinishBusIsDispatch` how `finished` does. */
  datatype Bus = Bus(event: set<Listener>, finished: set<Listener>)

  datatype QueueAt = QueueAt(bus: nat, queue: Queue)

  /** One `execute` call up to its `finally`: its turn's queue, whether its `catch` has run, and
      what its tracker has seen while it listened. */
  datatype Executor = Executor(
    taskId: Text, bus: nat, queue: nat, stream: bool, running: bool, caught: bool, tracking: bool,
    lastState: Option<TaskState>, lastTask: Option<Task>)

  datatype System = System(registry: map<Text, nat>, buses: seq<Bus>, queues: seq<QueueAt>, executors: seq<Executor>)

  const START := System(map[], [], [], [])

  // ---------- single steps ----------

  /** `createOrGetByTaskId` */
  function CreateOrGet(s: System, t: Text): System {
    if t in s.registry then s
    else s.(registry := s.registry[t := |s.buses|], buses := s.buses + [Bus({}, {})])
  }

  /** `new ExecutionEventQueue(bus)` */
  function AttachQueue(s: System, b: nat): System
    requires b < |s.buses|
  {
    var q := |s.queues|;
    s.(queues := s.queues + [QueueAt(b, NEW_QUEUE)],
       buses := s.buses[b := Bus(s.buses[b].event + {OnEvent(q)}, s.buses[b].finished + {OnFinished(q)})])
  }

  function AttachTracker(s: System, t: Text, b: nat, stream: bool): System
    requires b < |s.buses| && |s.queues| > 0
  {
    var x := |s.executors|;
    s.(executors := s.executors + [Executor(t, b, |s.queues| - 1, stream, true, false, true, None, None)],
       buses := s.buses[b := s.buses[b].(event := s.buses[b].event + {Tracker(x)})])
  }

  function Track(x: Executor, e: Protocol.Event): Executor {
    x.(lastState := if StateOf(e).Some? then StateOf(e) else x.lastState,
       lastTask := if e.TaskEvent? then Some(e.task) else x.lastTask)
  }

  /** `publish`: every listener of the bus hears the event. */
  function PublishOn(s: System, b: nat, e: Protocol.Event): System
    requires b < |s.buses|
  {
    s.(queues := seq(|s.queues|, q requires 0 <= q < |s.queues| =>
         if OnEvent(q) in s.buses[b].event
         then s.queues[q].(queue := HandleEvent(s.queues[q].queue, e))
         else s.queues[q]),
       executors := seq(|s.executors|, x requires 0 <= x < |s.executors| =>
         if Tracker(x) in s.buses[b].event then Track(s.executors[x], e) else s.executors[x]))
  }

  function WithQueue(s: System, q: nat, queue: Queue): System
    requires q < |s.queues|
  {
    s.(queues := s.queues[q := s.queues[q].(queue := queue)])
  }

  function Detach(s: System, q: nat): System
    requires q < |s.queues| && s.queues[q].bus < |s.buses|
  {
    var b := s.queues[q].bus;
    s.(buses := s.buses[b := Bus(s.buses[b].event - {OnEvent(q)}, s.buses[b].finished - {OnFinished(q)})])
  }

  /** `finished()` reaches every queue, and each one stops and leaves. */
  function FinishBus(s: System, b: nat): System
    requires b < |s.buses|
  {
    s.(queues := seq(|s.queues|, q requires 0 <= q < |s.queues| =>
         if OnFinished(q) in s.buses[b].finished then s.queues[q].(queue := Stop(s.queues[q].queue)) else s.queues[q]),
       buses := s.buses[b := Bus(
         set l | l in s.buses[b].event && !(l.OnEvent? && OnFinished(l.queue) in s.buses[b].finished), {})])
  }

  /** `cleanupByTaskId` */
  function Cleanup(s: System, t: Text): System {
    if t in s.registry && s.registry[t] < |s.buses|
    then s.(buses := s.buses[s.registry[t] := Bus({}, {})], registry := s.registry - {t})
    else s.(registry := s.registry - {t})
  }

  function Untrack(s: System, x: nat): System
    requires x < |s.executors| && s.executors[x].bus < |s.buses|
  {
    var b := s.executors[x].bus;
    s.(buses := s.buses[b := s.buses[b].(event := s.buses[b].event - {Tracker(x)})],
       executors := s.executors[x := s.executors[x].(tracking := false)])
  }

  /** `_settleBus` */
  function SettleBus(s: System, keep: set<TaskState>, t: Text, b: nat, state: Option<TaskState>): System
    requires b < |s.buses|
  {
    if state.Some? && state.value in keep then s else Cleanup(FinishBus(s, b), t)
  }

  function Caught(s: System, x: nat): System
    requires x < |s.executors|
  {
    s.(executors := s.executors[x := s.executors[x].(caught := true)])
  }

  function Settled(s: System, x: nat): System
    requires x < |s.executors|
  {
    s.(executors := s.executors[x := s.executors[x].(running := false)])
  }

  predicate Placed(s: System) {
    && (forall t | t in s.registry :: s.registry[t] < |s.buses|)
    && (forall q | 0 <= q < |s.queues| :: s.queues[q].bus < |s.buses|)
    && (forall x | 0 <= x < |s.executors| :: s.executors[x].bus < |s.buses|)
  }

  // ---------- actions ----------

  /** `Catch` and `Settle` are the `catch` and `finally` of one `execute` call, two microtasks
      with other steps between them; a `Settle` without a `Catch` is a fulfilment. */
  datatype Action =
    | Turn(taskId: Text, stream: bool)
    | Subscribe(taskId: Text)
    | PublishTo(bus: nat, event: Protocol.Event)
    | Consume(queueId: nat)
    | StopConsumer(queueId: nat)
    | Catch(executor: nat, failure: Failure)
    | Settle(executor: nat)

  /** No executor of an earlier turn is still running on the task's bus. */
  predicate BusIdle(s: System, t: Text) {
    t in s.registry ==>
      forall x | 0 <= x < |s.executors| && s.executors[x].running :: s.executors[x].bus != s.registry[t]
  }

  predicate Can(s: System, a: Action) {
    match a
    case Turn(t, _) => BusIdle(s, t)
    case Subscribe(_) => true
    case PublishTo(b, _) => b < |s.buses|
    case Consume(q) => q < |s.queues| && CanResume(s.queues[q].queue)
    case StopConsumer(q) => q < |s.queues|
    case Catch(x, f) => x < |s.executors| && s.executors[x].running && !s.executors[x].caught && IsFailure(f)
    case Settle(x) => x < |s.executors| && s.executors[x].running
  }

  function StartTurn(s: System, t: Text, stream: bool): System
    requires Placed(s)
  {
    var c := CreateOrGet(s, t);
    AttachTracker(AttachQueue(c, c.registry[t]), t, c.registry[t], stream)
  }

  /** A blocking turn always synthesizes a task, a streaming one only if it has seen none. */
  predicate NeedsTask(x: Executor) { !x.stream || x.lastTask.None? }

  /** The `catch`. `_runStreamExecutor` reads its tracker there, which also detaches it, so what
      is published next is not tracked; `_runExecutor` leaves it to the `finally`. */
  function CatchFailure(s: System, x: nat, f: Failure): System
    requires Placed(s) && x < |s.executors|
  {
    Caught(PublishFailure(TakeSnapshot(s, x), s.executors[x].bus, NeedsTask(s.executors[x]), f), x)
  }

  function TakeSnapshot(s: System, x: nat): System
    requires x < |s.executors| && s.executors[x].bus < |s.buses|
  {
    if s.executors[x].stream then Untrack(s, x) else s
  }

  function PublishFailure(s: System, b: nat, withTask: bool, f: Failure): System
    requires b < |s.buses|
  {
    PublishOn(if withTask then PublishOn(s, b, TaskEvent(f.task)) else s, b, StatusEvent(f.status))
  }

  /** The `finally`: the tracker leaves, and the bus is settled with the state it last saw. */
  function SettleExecutor(s: System, keep: set<TaskState>, x: nat): System
    requires Placed(s) && x < |s.executors|
  {
    var e := s.executors[x];
    SettleBus(Settled(Untrack(s, x), x), keep, e.taskId, e.bus, e.lastState)
  }

  function Do(s: System, keep: set<TaskState>, a: Action): System
    requires Placed(s) && Can(s, a)
  {
    match a
    case Turn(t, stream) => StartTurn(s, t, stream)
    case Subscribe(t) => if t in s.registry then AttachQueue(s, s.registry[t]) else s
    case PublishTo(b, e) => PublishOn(s, b, e)
    case Consume(q) =>
      var r := WithQueue(s, q, Resume(s.queues[q].queue));
      if r.queues[q].queue.stopped then Detach(r, q) else r
    case StopConsumer(q) => Detach(WithQueue(s, q, Stop(s.queues[q].queue)), q)
    case Catch(x, f) => CatchFailure(s, x, f)
    case Settle(x) => SettleExecutor(s, keep, x)
  }

  ghost predicate Run(keep: set<TaskState>, actions: seq<Action>, s: System)
    decreases |actions|
  {
    if actions == [] then s == START
    else
      var n := |actions| - 1;
      exists v :: Run(keep, actions[..n], v) && Placed(v) && Can(v, actions[n]) && s == Do(v, keep, actions[n])
  }

  // ---------- the invariant ----------

  predicate Live(s: System, b: nat, q: nat) { q < |s.queues| && s.queues[q].bus == b && !s.queues[q].queue.stopped }

  predicate Tracks(s: System, b: nat, x: nat) {
    x < |s.executors| && s.executors[x].bus == b && s.executors[x].tracking
  }

  /** A bus is heard by exactly its live queues, each under both names, and by the trackers of
      its executors. */
  predicate Heard(s: System, b: nat)
    requires b < |s.buses|
  {
    && (forall l | l in s.buses[b].event ::
          (l.OnEvent? && Live(s, b, l.queue)) || (l.Tracker? && Tracks(s, b, l.executor)))
    && (forall l | l in s.buses[b].finished :: l.OnFinished? && Live(s, b, l.queue))
    && (forall q | 0 <= q < |s.queues| && Live(s, b, q) ::
          OnEvent(q) in s.buses[b].event && OnFinished(q) in s.buses[b].finished)
    && (forall x | 0 <= x < |s.executors| && Tracks(s, b, x) :: Tracker(x) in s.buses[b].event)
  }

  predicate AllHeard(s: System) { forall b | 0 <= b < |s.buses| :: Heard(s, b) }

  /** Distinct tasks have distinct buses; running executors sit on their task's bus, one each. */
  predicate Registered(s: System) {
    && (forall t, u | t in s.registry && u in s.registry && s.registry[t] == s.registry[u] :: t == u)
    && (forall x | 0 <= x < |s.executors| && s.executors[x].running ::
          s.executors[x].taskId in s.registry && s.registry[s.executors[x].taskId] == s.executors[x].bus)
    && (forall x, y | 0 <= x < |s.executors| && 0 <= y < |s.executors| && s.executors[x].running &&
        s.executors[y].running
          && s.executors[x].bus == s.executors[y].bus :: x == y)
  }

  predicate Core(s: System) { Placed(s) && AllHeard(s) && Registered(s) }

  /** The tracker listens until the `finally`, in a streaming turn until the `catch`. */
  predicate Tracking(s: System) {
    forall x | 0 <= x < |s.executors| ::
      s.executors[x].tracking == (s.executors[x].running && !(s.executors[x].stream && s.executors[x].caught))
  }

  predicate Inv(s: System) { Core(s) && Tracking(s) }

  // ---------- every step keeps it ----------

  lemma AttachQueueKeepsInv(s: System, b: nat)
    requires Inv(s) && b < |s.buses|
    ensures Inv(AttachQueue(s, b))
  {
    var r := AttachQueue(s, b);
    forall c | 0 <= c < |r.buses| ensures Heard(r, c) { assert Heard(s, c); }
  }

  lemma CreateOrGetKeepsInv(s: System, t: Text)
    requires Inv(s) && BusIdle(s, t)
    ensures var c := CreateOrGet(s, t); Inv(c) && t in c.registry && BusIdle(c, t)
  {
    var c := CreateOrGet(s, t);
    forall b | 0 <= b < |c.buses| ensures Heard(c, b) { if b < |s.buses| { assert Heard(s, b); } }
  }

  lemma AttachTrackerKeepsInv(s: System, t: Text, stream: bool)
    requires Inv(s) && t in s.registry && BusIdle(s, t) && |s.queues| > 0
    ensures Inv(AttachTracker(s, t, s.registry[t], stream))
  {
    var r := AttachTracker(s, t, s.registry[t], stream);
    forall b | 0 <= b < |r.buses| ensures Heard(r, b) { assert Heard(s, b); }
    assert forall x | 0 <= x < |s.executors| :: r.executors[x] == s.executors[x];
  }

  lemma StartTurnKeepsInv(s: System, t: Text, stream: bool)
    requires Inv(s) && BusIdle(s, t)
    ensures Inv(StartTurn(s, t, stream))
  {
    CreateOrGetKeepsInv(s, t);
    var c := CreateOrGet(s, t);
    AttachQueueKeepsInv(c, c.registry[t]);
    AttachTrackerKeepsInv(AttachQueue(c, c.registry[t]), t, stream);
  }

  /** `x` and `y` are the same call at the same stage. */
  predicate SameStage(x: Executor, y: Executor) {
    x.bus == y.bus && x.taskId == y.taskId && x.queue == y.queue && x.stream == y.stream && x.running == y.running &&
    x.caught == y.caught && x.tracking == y.tracking
  }

  /** `s` and `r` have the same buses and the same live queues and trackers. */
  predicate SameListeners(s: System, r: System) {
    && r.registry == s.registry && r.buses == s.buses && |r.queues| == |s.queues| && |r.executors| == |s.executors|
    && (forall q | 0 <= q < |s.queues| ::
          r.queues[q].bus == s.queues[q].bus && r.queues[q].queue.stopped == s.queues[q].queue.stopped)
    && (forall x | 0 <= x < |s.executors| :: SameStage(r.executors[x], s.executors[x]))
  }

  lemma SameListenersKeepCore(s: System, r: System)
    requires Core(s) && SameListeners(s, r)
    ensures Core(r) && (Tracking(s) ==> Tracking(r))
  {
    forall b | 0 <= b < |r.buses| ensures Heard(r, b) { assert Heard(s, b); }
  }

  lemma PublishKeepsListeners(s: System, b: nat, e: Protocol.Event)
    requires b < |s.buses|
    ensures SameListeners(s, PublishOn(s, b, e))
  {}

  lemma PublishKeepsCore(s: System, b: nat, e: Protocol.Event)
    requires Core(s) && b < |s.buses|
    ensures Core(PublishOn(s, b, e)) && SameListeners(s, PublishOn(s, b, e))
  {
    PublishKeepsListeners(s, b, e);
    SameListenersKeepCore(s, PublishOn(s, b, e));
  }

  lemma DetachKeepsInv(s: System, q: nat, queue: Queue)
    requires Inv(s) && q < |s.queues| && queue.stopped
    ensures Inv(Detach(WithQueue(s, q, queue), q))
  {
    var r := Detach(WithQueue(s, q, queue), q);
    forall b | 0 <= b < |r.buses| ensures Heard(r, b) { assert Heard(s, b); }
  }

  lemma UntrackKeepsCore(s: System, x: nat)
    requires Core(s) && x < |s.executors|
    ensures Core(Untrack(s, x))
  {
    var r := Untrack(s, x);
    forall b | 0 <= b < |r.buses| ensures Heard(r, b) { assert Heard(s, b); }
  }

  /** Marking a stage of one call changes no listener. */
  lemma MarkingKeepsCore(s: System, x: nat)
    requires Core(s) && x < |s.executors|
    ensures Core(Caught(s, x)) && Core(Settled(s, x))
  {
    var c, d := Caught(s, x), Settled(s, x);
    forall b | 0 <= b < |s.buses| ensures Heard(c, b) && Heard(d, b) { assert Heard(s, b); }
  }

  /** The calls and the registry after a `catch`, call `i` aside, are as before. */
  predicate OnlyCaught(s: System, r: System, i: nat)
    requires i < |s.executors|
  {
    && r.registry == s.registry && |r.executors| == |s.executors| && |r.queues| == |s.queues| && |r.buses| == |s.buses|
    && (forall x | 0 <= x < |s.executors| && x != i :: SameStage(r.executors[x], s.executors[x]))
    && r.executors[i].caught && r.executors[i].running == s.executors[i].running
    && r.executors[i].stream == s.executors[i].stream
    && r.executors[i].tracking == (!s.executors[i].stream && s.executors[i].tracking)
    && r.executors[i].bus == s.executors[i].bus && r.executors[i].taskId == s.executors[i].taskId
  }

  lemma PublishFailureKeepsCore(s: System, b: nat, withTask: bool, f: Failure)
    requires Core(s) && b < |s.buses|
    ensures Core(PublishFailure(s, b, withTask, f)) && SameListeners(s, PublishFailure(s, b, withTask, f))
  {
    PublishKeepsCore(s, b, TaskEvent(f.task));
    var v := if withTask then PublishOn(s, b, TaskEvent(f.task)) else s;
    PublishKeepsCore(v, b, StatusEvent(f.status));
    SameListenersCompose(s, v, PublishOn(v, b, StatusEvent(f.status)));
  }

  lemma SameListenersCompose(s: System, v: System, w: System)
    requires SameListeners(s, v) && SameListeners(v, w)
    ensures SameListeners(s, w)
  {}

  lemma SnapshotKeepsCore(s: System, i: nat)
    requires Core(s) && i < |s.executors|
    ensures Core(TakeSnapshot(s, i)) && TakeSnapshot(s, i).queues == s.queues
  {
    UntrackKeepsCore(s, i);
  }

  lemma CatchKeepsInv(s: System, i: nat, f: Failure)
    requires Inv(s) && i < |s.executors|
    ensures Inv(CatchFailure(s, i, f)) && OnlyCaught(s, CatchFailure(s, i, f), i)
  {
    SnapshotKeepsCore(s, i);
    var u := TakeSnapshot(s, i);
    PublishFailureKeepsCore(u, s.executors[i].bus, NeedsTask(s.executors[i]), f);
    var w := PublishFailure(u, s.executors[i].bus, NeedsTask(s.executors[i]), f);
    MarkingKeepsCore(w, i);
    CatchOnlyCatches(s, u, w, i);
  }

  lemma CatchOnlyCatches(s: System, u: System, w: System, i: nat)
    requires Placed(s) && Tracking(s) && i < |s.executors| && u == TakeSnapshot(s, i) && SameListeners(u, w)
    ensures Tracking(Caught(w, i)) && OnlyCaught(s, Caught(w, i), i)
  {
    assert forall x | 0 <= x < |s.executors| && x != i :: u.executors[x] == s.executors[x];
  }

  lemma FinishBusKeepsHeard(s: System, b: nat)
    requires Placed(s) && AllHeard(s) && b < |s.buses|
    ensures Placed(FinishBus(s, b)) && AllHeard(FinishBus(s, b))
    ensures forall q | 0 <= q < |s.queues| && s.queues[q].bus == b :: FinishBus(s, b).queues[q].queue.stopped
    ensures forall q | 0 <= q < |s.queues| && s.queues[q].bus != b :: FinishBus(s, b).queues[q] == s.queues[q]
  {
    var r := FinishBus(s, b);
    assert Heard(s, b);
    forall q | 0 <= q < |s.queues| && s.queues[q].bus == b ensures r.queues[q].queue.stopped {
      assert !s.queues[q].queue.stopped ==> Live(s, b, q);
    }
    forall c | 0 <= c < |r.buses| ensures Heard(r, c) {
      assert Heard(s, c);
      assert forall q | 0 <= q < |s.queues| && s.queues[q].bus != b :: r.queues[q] == s.queues[q];
    }
  }

  lemma FinishBusKeepsCore(s: System, b: nat)
    requires Core(s) && b < |s.buses|
    ensures Core(FinishBus(s, b))
    ensures forall q | 0 <= q < |s.queues| && s.queues[q].bus == b :: FinishBus(s, b).queues[q].queue.stopped
  {
    FinishBusKeepsHeard(s, b);
  }

  /** `FinishBus` is the dispatch of `finished` to handlers that call `stop`. */
  lemma FinishBusIsDispatch(s: System, b: nat, sides: Sides)
    requires b < |s.buses| && Heard(s, b) && AllConsistent(sides)
    requires EventBus.Registered(sides.event, s.buses[b].event) &&
        EventBus.Registered(sides.finished, s.buses[b].finished)
    ensures var after := Dispatch(sides, Finished, sides.finished.target, StopOps);
      && AllConsistent(after)
      && EventBus.Registered(after.event, FinishBus(s, b).buses[b].event)
      && EventBus.Registered(after.finished, FinishBus(s, b).buses[b].finished)
  {
    FinishedStopsEveryQueue(sides, s.buses[b].event, s.buses[b].finished);
  }

  /** Cleaning up a finished bus on which nobody is tracked any more. */
  lemma CleanupKeepsCore(s: System, t: Text, b: nat)
    requires Core(s) && t in s.registry && s.registry[t] == b
    requires forall q | 0 <= q < |s.queues| && s.queues[q].bus == b :: s.queues[q].queue.stopped
    requires forall x | 0 <= x < |s.executors| && s.executors[x].bus == b ::
      !s.executors[x].tracking && !s.executors[x].running
    ensures Core(Cleanup(s, t))
  {
    var r := Cleanup(s, t);
    forall c | 0 <= c < |r.buses| ensures Heard(r, c) { assert Heard(s, c); }
  }

  /** The state just before settling: the executor is done and untracked. */
  predicate ReadyToSettle(s: System, x: nat) {
    && Inv(s) && x < |s.executors| && !s.executors[x].running
    && s.executors[x].taskId in s.registry && s.registry[s.executors[x].taskId] == s.executors[x].bus
    && forall y | 0 <= y < |s.executors| && s.executors[y].bus == s.executors[x].bus :: !s.executors[y].running
  }

  lemma SettlingIsReady(s: System, i: nat)
    requires Inv(s) && i < |s.executors| && s.executors[i].running
    ensures ReadyToSettle(Settled(Untrack(s, i), i), i)
  {
    UntrackKeepsCore(s, i);
    MarkingKeepsCore(Untrack(s, i), i);
  }

  /** A bus that is torn down is unregistered, hears nothing, and all its queues are stopped;
      a bus that is kept is left exactly as it was. */
  lemma SettleDecides(s: System, keep: set<TaskState>, x: nat, state: Option<TaskState>)
    requires ReadyToSettle(s, x)
    ensures var e := s.executors[x]; var r := SettleBus(s, keep, e.taskId, e.bus, state);
      && Inv(r)
      && (if state.Some? && state.value in keep then r == s
          else e.taskId !in r.registry && r.buses[e.bus] == Bus({}, {}) &&
               forall q | 0 <= q < |r.queues| && r.queues[q].bus == e.bus :: r.queues[q].queue.stopped)
  {
    var e := s.executors[x];
    if !(state.Some? && state.value in keep) {
      FinishBusKeepsCore(s, e.bus);
      CleanupKeepsCore(FinishBus(s, e.bus), e.taskId, e.bus);
    }
  }

  lemma StepKeepsInv(s: System, keep: set<TaskState>, a: Action)
    requires Inv(s) && Can(s, a)
    ensures Inv(Do(s, keep, a))
  {
    match a
    case Turn(t, stream) => StartTurnKeepsInv(s, t, stream);
    case Subscribe(t) => if t in s.registry { AttachQueueKeepsInv(s, s.registry[t]); }
    case PublishTo(b, e) => PublishKeepsListeners(s, b, e); SameListenersKeepCore(s, PublishOn(s, b, e));
    case Consume(q) =>
      var r := WithQueue(s, q, Resume(s.queues[q].queue));
      if r.queues[q].queue.stopped { DetachKeepsInv(s, q, r.queues[q].queue); } else { SameListenersKeepCore(s, r); }
    case StopConsumer(q) => DetachKeepsInv(s, q, Stop(s.queues[q].queue));
    case Catch(x, f) => CatchKeepsInv(s, x, f);
    case Settle(x) => EndSettles(s, keep, x);
  }

  predicate TornDown(s: System, t: Text, b: nat) {
    && t !in s.registry && b < |s.buses| && s.buses[b] == Bus({}, {})
    && forall q | 0 <= q < |s.queues| && s.queues[q].bus == b :: s.queues[q].queue.stopped
  }

  /** Kept: still the task's bus, with the same queues, and the same listeners but the tracker. */
  predicate Kept(s: System, x: nat, r: System)
    requires x < |s.executors|
  {
    var e := s.executors[x];
    && e.taskId in r.registry && r.registry[e.taskId] == e.bus && e.bus < |s.buses| && e.bus < |r.buses|
    && r.buses[e.bus] == s.buses[e.bus].(event := s.buses[e.bus].event - {Tracker(x)}) && r.queues == s.queues
  }

  predicate KeepsBus(x: Executor, keep: set<TaskState>) { x.lastState.Some? && x.lastState.value in keep }

  predicate EndOutcome(s: System, keep: set<TaskState>, i: nat, r: System)
    requires i < |s.executors|
  {
    var x := s.executors[i];
    if KeepsBus(x, keep) then Kept(s, i, r) else TornDown(r, x.taskId, x.bus)
  }

  lemma EndSettles(s: System, keep: set<TaskState>, i: nat)
    requires Inv(s) && Can(s, Settle(i))
    ensures Inv(Do(s, keep, Settle(i))) && EndOutcome(s, keep, i, Do(s, keep, Settle(i)))
  {
    SettlingIsReady(s, i);
    SettleDecides(Settled(Untrack(s, i), i), keep, i, s.executors[i].lastState);
  }

  ghost function Before(keep: set<TaskState>, actions: seq<Action>, s: System): (v: System)
    requires actions != [] && Run(keep, actions, s)
    ensures Run(keep, actions[..|actions| - 1], v) && Placed(v)
    ensures Can(v, actions[|actions| - 1]) && s == Do(v, keep, actions[|actions| - 1])
  {
    var n := |actions| - 1;
    var v :| Run(keep, actions[..n], v) && Placed(v) && Can(v, actions[n]) && s == Do(v, keep, actions[n]);
    v
  }

  lemma {:induction false} RunsKeepInv(keep: set<TaskState>, actions: seq<Action>, s: System)
    requires Run(keep, actions, s)
    ensures Inv(s)
    decreases |actions|
  {
    if actions != [] {
      var v := Before(keep, actions, s);
      RunsKeepInv(keep, actions[..|actions| - 1], v);
      StepKeepsInv(v, keep, actions[|actions| - 1]);
    }
  }

  // ---------- the queues and what the trackers know about them ----------

  predicate QueuesValid(s: System) { forall q | 0 <= q < |s.queues| :: QueueOk(s.queues[q].queue) }

  predicate QueueOk(q: Queue) { Valid(q) && !q.abandoned }

  /** While a turn's queue is live, it has taken in a task exactly when the tracker has seen one. */
  predicate TrackersKnow(s: System) {
    forall x | 0 <= x < |s.executors| :: TrackerKnows(s, s.executors[x])
  }

  predicate TrackerKnows(s: System, x: Executor) {
    && x.queue < |s.queues| && s.queues[x.queue].bus == x.bus
    && (x.tracking && !s.queues[x.queue].queue.stopped ==>
          (x.lastTask.Some? <==> HasTask(s.queues[x.queue].queue.accepted)))
  }

  predicate Knows(s: System) { QueuesValid(s) && TrackersKnow(s) }

  predicate Full(s: System) { Inv(s) && Knows(s) }

  lemma HasTaskSnoc(events: seq<Protocol.Event>, e: Protocol.Event)
    ensures HasTask(events + [e]) <==> HasTask(events) || e.TaskEvent?
  {
    var all := events + [e];
    assert all[|events|] == e && forall i | 0 <= i < |events| :: all[i] == events[i];
  }

  lemma PublishKeepsKnowledge(s: System, b: nat, e: Protocol.Event)
    requires Core(s) && Knows(s) && b < |s.buses|
    ensures Knows(PublishOn(s, b, e))
  {
    var r := PublishOn(s, b, e);
    forall q | 0 <= q < |s.queues| ensures QueueOk(r.queues[q].queue) { StepKeepsValid(s.queues[q].queue, Publish(e)); }
    forall k | 0 <= k < |s.executors| ensures TrackerKnows(r, r.executors[k]) {
      var x := s.executors[k];
      assert TrackerKnows(s, x) && Heard(s, b);
      if x.tracking && !s.queues[x.queue].queue.stopped {
        assert x.bus == b <==> Tracks(s, b, k);
        assert x.bus == b <==> Live(s, b, x.queue);
        HasTaskSnoc(s.queues[x.queue].queue.accepted, e);
      }
    }
  }

  /** A step that only stops queues, or leaves them, and stops or starts trackers. */
  predicate Winds(s: System, r: System) {
    && |r.queues| == |s.queues| && |r.executors| == |s.executors|
    && (forall q | 0 <= q < |s.queues| :: r.queues[q].bus == s.queues[q].bus && QueueOk(r.queues[q].queue)
          && (r.queues[q].queue.stopped || r.queues[q].queue.accepted == s.queues[q].queue.accepted)
          && (s.queues[q].queue.stopped ==> r.queues[q].queue.stopped))
    && (forall x | 0 <= x < |s.executors| ::
          && r.executors[x].queue == s.executors[x].queue && r.executors[x].bus == s.executors[x].bus
          && r.executors[x].lastTask == s.executors[x].lastTask
          && (r.executors[x].tracking ==> s.executors[x].tracking))
  }

  lemma WindsKeepsKnowledge(s: System, r: System)
    requires Knows(s) && Winds(s, r)
    ensures Knows(r)
  {
    forall i | 0 <= i < |s.executors| ensures TrackerKnows(r, r.executors[i]) {
      assert TrackerKnows(s, s.executors[i]);
    }
  }

  lemma AttachQueueKeepsKnowledge(s: System, b: nat)
    requires Knows(s) && b < |s.buses|
    ensures Knows(AttachQueue(s, b))
  {
    var r := AttachQueue(s, b);
    forall i | 0 <= i < |r.executors| ensures TrackerKnows(r, r.executors[i]) {
      assert TrackerKnows(s, s.executors[i]);
    }
  }

  lemma StartTurnKeepsKnowledge(s: System, t: Text, stream: bool)
    requires Full(s) && BusIdle(s, t)
    ensures Knows(StartTurn(s, t, stream))
  {
    var c := CreateOrGet(s, t);
    WindsKeepsKnowledge(s, c);
    CreateOrGetKeepsInv(s, t);
    AttachQueueKeepsKnowledge(c, c.registry[t]);
    var a, r := AttachQueue(c, c.registry[t]), StartTurn(s, t, stream);
    forall i | 0 <= i < |r.executors| ensures TrackerKnows(r, r.executors[i]) {
      if i < |a.executors| { assert TrackerKnows(a, a.executors[i]); }
    }
  }

  lemma PublishFailureKeepsKnowledge(s: System, b: nat, withTask: bool, f: Failure)
    requires Core(s) && Knows(s) && b < |s.buses|
    ensures Knows(PublishFailure(s, b, withTask, f))
  {
    PublishKeepsKnowledge(s, b, TaskEvent(f.task));
    PublishKeepsCore(s, b, TaskEvent(f.task));
    PublishKeepsKnowledge(if withTask then PublishOn(s, b, TaskEvent(f.task)) else s, b, StatusEvent(f.status));
  }

  lemma CatchKeepsKnowledge(s: System, i: nat, f: Failure)
    requires Full(s) && i < |s.executors|
    ensures Knows(CatchFailure(s, i, f))
  {
    var u := TakeSnapshot(s, i);
    SnapshotKeepsCore(s, i);
    WindsKeepsKnowledge(s, u);
    PublishFailureKeepsKnowledge(u, s.executors[i].bus, NeedsTask(s.executors[i]), f);
    PublishFailureKeepsCore(u, s.executors[i].bus, NeedsTask(s.executors[i]), f);
    var w := PublishFailure(u, s.executors[i].bus, NeedsTask(s.executors[i]), f);
    WindsKeepsKnowledge(w, Caught(w, i));
  }

  lemma SettleKeepsKnowledge(s: System, keep: set<TaskState>, i: nat)
    requires Full(s) && i < |s.executors|
    ensures Knows(SettleExecutor(s, keep, i))
  {
    forall q | 0 <= q < |s.queues| ensures QueueOk(Stop(s.queues[q].queue)) {
      StepKeepsValid(s.queues[q].queue, Finish);
    }
    WindsKeepsKnowledge(s, SettleExecutor(s, keep, i));
  }

  lemma StepKeepsFull(s: System, keep: set<TaskState>, a: Action)
    requires Full(s) && Can(s, a)
    ensures Full(Do(s, keep, a))
  {
    StepKeepsInv(s, keep, a);
    match a
    case Turn(t, stream) => StartTurnKeepsKnowledge(s, t, stream);
    case Subscribe(t) => if t in s.registry { AttachQueueKeepsKnowledge(s, s.registry[t]); }
    case PublishTo(b, e) => PublishKeepsKnowledge(s, b, e);
    case Consume(q) => StepKeepsValid(s.queues[q].queue, Next); WindsKeepsKnowledge(s, Do(s, keep, a));
    case StopConsumer(q) => StepKeepsValid(s.queues[q].queue, Finish); WindsKeepsKnowledge(s, Do(s, keep, a));
    case Catch(x, f) => CatchKeepsKnowledge(s, x, f);
    case Settle(x) => SettleKeepsKnowledge(s, keep, x);
  }

  lemma {:induction false} RunsAreFull(keep: set<TaskState>, actions: seq<Action>, s: System)
    requires Run(keep, actions, s)
    ensures Full(s)
    decreases |actions|
  {
    if actions != [] {
      var v := Before(keep, actions, s);
      RunsAreFull(keep, actions[..|actions| - 1], v);
      StepKeepsFull(v, keep, actions[|actions| - 1]);
    }
  }

  // ---------- who listens ----------

  /** After any number of turns a bus is heard by exactly two listeners per live queue, plus the
      tracker of the executor running on it, of which there is at most one; a streaming executor
      that has been caught has none any more. */
  lemma TwoListenersPerLiveQueue(keep: set<TaskState>, actions: seq<Action>, s: System, b: nat)
    requires Run(keep, actions, s) && b < |s.buses|
    ensures s.buses[b].finished == set q | 0 <= q < |s.queues| && Live(s, b, q) :: OnFinished(q)
    ensures s.buses[b].event == (set q | 0 <= q < |s.queues| && Live(s, b, q) :: OnEvent(q))
                              + (set x | 0 <= x < |s.executors| && Tracks(s, b, x) :: Tracker(x))
    ensures forall x | 0 <= x < |s.executors| :: Tracks(s, b, x) <==>
      s.executors[x].bus == b && s.executors[x].running && !(s.executors[x].stream && s.executors[x].caught)
    ensures forall x, y | 0 <= x < |s.executors| && 0 <= y < |s.executors| && s.executors[x].running &&
        s.executors[y].running
              && s.executors[x].bus == b == s.executors[y].bus :: x == y
  {
    RunsAreFull(keep, actions, s);
    HeardListsAll(s, b);
  }

  lemma HeardListsAll(s: System, b: nat)
    requires b < |s.buses| && Heard(s, b)
    ensures s.buses[b].finished == set q | 0 <= q < |s.queues| && Live(s, b, q) :: OnFinished(q)
    ensures s.buses[b].event == (set q | 0 <= q < |s.queues| && Live(s, b, q) :: OnEvent(q))
                              + (set x | 0 <= x < |s.executors| && Tracks(s, b, x) :: Tracker(x))
  {
    var queues := set q | 0 <= q < |s.queues| && Live(s, b, q) :: OnEvent(q);
    var trackers := set x | 0 <= x < |s.executors| && Tracks(s, b, x) :: Tracker(x);
    assert forall l | l in s.buses[b].event :: l in queues + trackers;
  }

  // ---------- how a turn settles ----------

  /** When an executor settles, its bus is torn down (unregistered, without listeners, all its
      queues stopped) exactly when the last state its tracker saw is not kept alive; otherwise
      the task keeps the same bus and queues for its next turn. */
  lemma BusOutlivesExecutorIffKept(keep: set<TaskState>, actions: seq<Action>, s: System, i: nat)
    requires Run(keep, actions, s) && Can(s, Settle(i))
    ensures Placed(s) && EndOutcome(s, keep, i, Do(s, keep, Settle(i)))
    ensures TornDown(Do(s, keep, Settle(i)), s.executors[i].taskId, s.executors[i].bus) <==>
        !KeepsBus(s.executors[i], keep)
  {
    RunsKeepInv(keep, actions, s);
    EndSettles(s, keep, i);
  }

  /** That state is the one last announced on the bus while the tracker listened. A `catch`
      makes it FAILED in a blocking turn, but leaves it as it was in a streaming one, where
      nothing published later, FAILED included, can change it. */
  lemma TrackerFollowsItsBus(keep: set<TaskState>, actions: seq<Action>, s: System, a: Action, i: nat)
    requires Run(keep, actions, s) && i < |s.executors| && Placed(s) && Can(s, a)
    ensures i < |Do(s, keep, a).executors|
    ensures var x, y := s.executors[i], Do(s, keep, a).executors[i];
      y.lastState ==
        if a.PublishTo? && a.bus == x.bus && x.tracking && StateOf(a.event).Some? then StateOf(a.event)
        else if a.Catch? && a.executor == i && !x.stream then Some(Failed)
        else x.lastState
  {
    RunsKeepInv(keep, actions, s);
    if a.Catch? { CatchTracks(s, a.executor, a.failure, i); }
    if a.PublishTo? { PublishTracks(s, a.bus, a.event, i); }
  }

  lemma PublishTracks(s: System, b: nat, e: Protocol.Event, i: nat)
    requires b < |s.buses| && Heard(s, b) && i < |s.executors|
    ensures PublishOn(s, b, e).executors[i] == if Tracks(s, b, i) then Track(s.executors[i], e) else s.executors[i]
  {}

  lemma CatchTracks(s: System, j: nat, f: Failure, i: nat)
    requires Inv(s) && i < |s.executors| && Can(s, Catch(j, f))
    ensures CatchFailure(s, j, f).executors[i].lastState ==
      if i == j && !s.executors[j].stream then Some(Failed) else s.executors[i].lastState
  {
    var x, b, u := s.executors[j], s.executors[j].bus, TakeSnapshot(s, j);
    SnapshotKeepsCore(s, j);
    assert Tracks(u, b, i) <==> i == j && !x.stream;
    PublishFailureTracks(u, b, NeedsTask(x), f, i);
  }

  lemma PublishFailureTracks(s: System, b: nat, withTask: bool, f: Failure, i: nat)
    requires Core(s) && b < |s.buses| && i < |s.executors| && IsFailure(f)
    ensures PublishFailure(s, b, withTask, f).executors[i].lastState ==
        if Tracks(s, b, i) then Some(Failed) else s.executors[i].lastState
  {
    PublishTracks(s, b, TaskEvent(f.task), i);
    PublishKeepsCore(s, b, TaskEvent(f.task));
    PublishTracks(if withTask then PublishOn(s, b, TaskEvent(f.task)) else s, b, StatusEvent(f.status), i);
  }

  // ---------- what a rejection leaves on the wire ----------

  /** Every live queue on the bus takes in the synthesized events: the turn's own, those of
      resubscribers, and those of earlier turns. */
  lemma RejectionReachesQueue(s: System, i: nat, f: Failure, q: nat)
    requires Inv(s) && i < |s.executors| && Live(s, s.executors[i].bus, q)
    ensures var r := CatchFailure(s, i, f);
      q < |r.queues| && r.queues[q].queue.accepted ==
          s.queues[q].queue.accepted + Synthesized(NeedsTask(s.executors[i]), f)
  {
    assert Heard(s, s.executors[i].bus);
    PublishFailureReaches(TakeSnapshot(s, i), s.executors[i].bus, NeedsTask(s.executors[i]), f, q);
  }

  lemma PublishFailureReaches(s: System, b: nat, withTask: bool, f: Failure, q: nat)
    requires b < |s.buses| && q < |s.queues| && OnEvent(q) in s.buses[b].event && !s.queues[q].queue.stopped
    ensures PublishFailure(s, b, withTask, f).queues[q].queue.accepted ==
        s.queues[q].queue.accepted + Synthesized(withTask, f)
  {
    var accepted := s.queues[q].queue.accepted;
    assert accepted + [TaskEvent(f.task)] + [StatusEvent(f.status)] ==
        accepted + ([TaskEvent(f.task)] + [StatusEvent(f.status)]);
    assert accepted + [StatusEvent(f.status)] == accepted + ([] + [StatusEvent(f.status)]);
  }

  /** A queue that had taken in `accepted` before the failure returns by itself after at most
      |buffer| + 2 more steps, having shown what it had up to the first stop, or all of it and
      the synthesized events. What it shows is well formed exactly when it held a well-formed
      stop already, or had begun well and was not sent a task, or had nothing and was. */
  predicate EndsInFailure(after: Queue, accepted: seq<Protocol.Event>, withTask: bool, f: Failure) {
    var extra := Synthesized(withTask, f);
    var end := Drain(after, |after.buffer| + 2);
    && WillEnd(after) && end.pc.Done? && EndsWithStop(end.delivered)
    && end.delivered == Cut(accepted + extra) == (if NoStopIn(accepted) then accepted + extra else Cut(accepted))
    && (StreamShape(end.delivered) <==>
        if !NoStopIn(accepted) then StreamShape(Cut(accepted))
        else if withTask then accepted == [] else accepted != [] && StreamShape(accepted))
  }

  /** A rejected executor, streaming or blocking, leaves no consumer hanging: every queue that was
      live on its bus ends in the failure, the turn's own, a resubscriber's or an earlier turn's. */
  lemma RejectionEndsEveryQueue(keep: set<TaskState>, actions: seq<Action>, s: System, i: nat, f: Failure, q: nat)
    requires Run(keep, actions, s) && Can(s, Catch(i, f)) && Live(s, s.executors[i].bus, q)
    ensures Placed(s) && q < |Do(s, keep, Catch(i, f)).queues|
    ensures EndsInFailure(Do(s, keep, Catch(i, f)).queues[q].queue, s.queues[q].queue.accepted,
        NeedsTask(s.executors[i]), f)
  {
    RunsAreFull(keep, actions, s);
    RejectionReachesQueue(s, i, f, q);
    CatchKeepsKnowledge(s, i, f);
    FailureEndsQueue(Do(s, keep, Catch(i, f)).queues[q].queue, s.queues[q].queue.accepted,
                     NeedsTask(s.executors[i]), f);
  }

  lemma FailureEndsQueue(after: Queue, accepted: seq<Protocol.Event>, withTask: bool, f: Failure)
    requires QueueOk(after) && IsFailure(f) && after.accepted == accepted + Synthesized(withTask, f)
    ensures EndsInFailure(after, accepted, withTask, f)
  {
    FailureEnds(accepted, withTask, f);
    CutConcat(after.accepted, []);
    assert !NoStopIn(after.accepted) by {
      assert EndsWithStop(Cut(after.accepted)) && Cut(after.accepted) <= after.accepted;
    }
    AcceptedStopEnds(after);
    EndingQueueDrains(after, |after.buffer| + 2);
  }

  /** What a resubscriber to `t`, with such a queue and the snapshot `task`, has shown when it
      ends. Its stream is well formed exactly when neither what the queue held, nor the failure
      if the queue held no stop, brings another task event of `t`. */
  lemma RejectionEndsResubscription(keep: set<TaskState>, actions: seq<Action>, s: System, i: nat, f: Failure, q: nat,
      task: Task, t: Text)
    requires Run(keep, actions, s) && Can(s, Catch(i, f)) && Live(s, s.executors[i].bus, q)
    ensures Placed(s) && q < |Do(s, keep, Catch(i, f)).queues|
    ensures var accepted, after := s.queues[q].queue.accepted, Do(s, keep, Catch(i, f)).queues[q].queue;
      var shown := Resubscribed(task, Drain(after, |after.buffer| + 2).delivered, t);
      StreamShape(shown) <==>
        if NoStopIn(accepted) then NoTaskOf(accepted, t) && !(NeedsTask(s.executors[i]) && f.task.id == t)
        else NoTaskOf(Cut(accepted), t)
  {
    RejectionEndsEveryQueue(keep, actions, s, i, f, q);
    var accepted, after := s.queues[q].queue.accepted, Do(s, keep, Catch(i, f)).queues[q].queue;
    FailureShown(after, accepted, NeedsTask(s.executors[i]), f, task, t);
  }

  lemma FailureShown(after: Queue, accepted: seq<Protocol.Event>, withTask: bool, f: Failure, task: Task, t: Text)
    requires EndsInFailure(after, accepted, withTask, f)
    ensures StreamShape(Resubscribed(task, Drain(after, |after.buffer| + 2).delivered, t)) <==>
      if NoStopIn(accepted) then NoTaskOf(accepted, t) && !(withTask && f.task.id == t) else NoTaskOf(Cut(accepted), t)
  {
    FailureShape(accepted, Synthesized(withTask, f), task, t);
    assert NoTaskOf(Synthesized(withTask, f), t) <==> !(withTask && f.task.id == t) by {
      assert withTask ==> Synthesized(withTask, f)[0] == TaskEvent(f.task);
    }
  }

  lemma FailureShape(accepted: seq<Protocol.Event>, extra: seq<Protocol.Event>, task: Task, t: Text)
    requires NoStopIn(accepted) ==> Cut(accepted + extra) == accepted + extra
    requires !NoStopIn(accepted) ==> Cut(accepted + extra) == Cut(accepted)
    ensures StreamShape(Resubscribed(task, Cut(accepted + extra), t)) <==>
      if NoStopIn(accepted) then NoTaskOf(accepted, t) && NoTaskOf(extra, t) else NoTaskOf(Cut(accepted), t)
  {
    CutConcat(accepted + extra, []);
    ResubscribedShape(task, Cut(accepted + extra), t);
    NoTaskOfConcat(accepted, extra, t);
  }

  /** A queue that has taken in a stopping event will end. */
  lemma AcceptedStopEnds(q: Queue)
    requires Valid(q) && !q.abandoned && !NoStopIn(q.accepted)
    ensures WillEnd(q)
  {
    if !q.stopped { LiveQueueEndsIff(q); }
  }

  /** In the rejected turn's own queue the stream is well formed exactly when what the executor
      itself put on the wire is, a task being synthesized exactly when none was published. */
  lemma RejectedStreamAlwaysEnds(keep: set<TaskState>, actions: seq<Action>, s: System, i: nat, f: Failure)
    requires Run(keep, actions, s) && Can(s, Catch(i, f)) && s.executors[i].stream
    requires s.executors[i].queue < |s.queues| && Live(s, s.executors[i].bus, s.executors[i].queue)
    ensures Placed(s) && s.executors[i].queue < |Do(s, keep, Catch(i, f)).queues|
    ensures var published := s.queues[s.executors[i].queue].queue.accepted;
      var after := Do(s, keep, Catch(i, f)).queues[s.executors[i].queue].queue;
      var end := Drain(after, |after.buffer| + 2);
      && end.pc.Done? && EndsWithStop(end.delivered)
      && end.delivered == (if NoStopIn(published) then published + Synthesized(!HasTask(published), f)
                           else Cut(published))
      && (StreamShape(end.delivered) <==> StreamShape(Cut(published)))
  {
    RunsAreFull(keep, actions, s);
    assert TrackerKnows(s, s.executors[i]);
    RejectionEndsEveryQueue(keep, actions, s, i, f, s.executors[i].queue);
    RejectedStreamEnds(s.queues[s.executors[i].queue].queue.accepted, f);
  }

  predicate Extends(s: System, r: System) {
    |s.queues| <= |r.queues| && forall q | 0 <= q < |s.queues| ::
        s.queues[q].queue.accepted <= r.queues[q].queue.accepted
  }

  lemma PublishExtends(s: System, b: nat, e: Protocol.Event)
    requires b < |s.buses|
    ensures Extends(s, PublishOn(s, b, e))
  {}

  lemma CatchExtends(s: System, i: nat, f: Failure)
    requires Placed(s) && i < |s.executors|
    ensures Extends(s, CatchFailure(s, i, f))
  {
    var u, b := TakeSnapshot(s, i), s.executors[i].bus;
    PublishExtends(u, b, TaskEvent(f.task));
    var v := if NeedsTask(s.executors[i]) then PublishOn(u, b, TaskEvent(f.task)) else u;
    PublishExtends(v, b, StatusEvent(f.status));
  }

  lemma StepExtends(s: System, keep: set<TaskState>, a: Action)
    requires Placed(s) && Can(s, a)
    ensures Extends(s, Do(s, keep, a))
  {
    match a
    case PublishTo(b, e) => PublishExtends(s, b, e);
    case Catch(i, f) => CatchExtends(s, i, f);
    case Settle(i) => forall q | 0 <= q < |s.queues| { SettleKeepsAccepted(s, keep, i, q); }
    case _ =>
  }

  /** Once a queue is bound to end it stays so, and what it will have shown is fixed, whatever
      steps come in between: nothing published later, no settling and no resubscriber matters. */
  lemma EndingIsStable(s: System, keep: set<TaskState>, a: Action, q: nat)
    requires Full(s) && Can(s, a) && q < |s.queues| && !NoStopIn(s.queues[q].queue.accepted)
    ensures q < |Do(s, keep, a).queues|
    ensures var after := Do(s, keep, a).queues[q].queue;
      !NoStopIn(after.accepted) && WillEnd(after) && Cut(after.accepted) == Cut(s.queues[q].queue.accepted)
  {
    StepExtends(s, keep, a);
    StepKeepsFull(s, keep, a);
    StaysEnding(s.queues[q].queue.accepted, Do(s, keep, a).queues[q].queue);
  }

  lemma StaysEnding(before: seq<Protocol.Event>, after: Queue)
    requires QueueOk(after) && before <= after.accepted && !NoStopIn(before)
    ensures !NoStopIn(after.accepted) && WillEnd(after) && Cut(after.accepted) == Cut(before)
  {
    assert after.accepted == before + after.accepted[|before|..];
    CutConcat(before, after.accepted[|before|..]);
    NoStopConcat(before, after.accepted[|before|..]);
    AcceptedStopEnds(after);
  }

  // ---------- when a turn's consumers end at all ----------

  /** After an executor has settled, a queue that was live on its bus is bound to end exactly when
      the bus was torn down or the queue holds a message, terminal or INPUT_REQUIRED status.
      Otherwise its consumer is left waiting with everything delivered. */
  lemma SettledQueueEndsIff(keep: set<TaskState>, actions: seq<Action>, s: System, i: nat, q: nat)
    requires Run(keep, actions, s) && Can(s, Settle(i)) && Live(s, s.executors[i].bus, q)
    ensures Placed(s) && q < |Do(s, keep, Settle(i)).queues|
    ensures var accepted, after := s.queues[q].queue.accepted, Do(s, keep, Settle(i)).queues[q].queue;
      var end := Drain(after, |after.buffer| + 2);
      && (WillEnd(after) <==> !KeepsBus(s.executors[i], keep) || !NoStopIn(accepted))
      && (if WillEnd(after) then end.pc.Done? && end.delivered == Cut(accepted)
          else end.pc.Parked? && !CanResume(end) && end.delivered == accepted)
  {
    RunsAreFull(keep, actions, s);
    EndSettles(s, keep, i);
    SettleKeepsKnowledge(s, keep, i);
    var before, after := s.queues[q].queue, Do(s, keep, Settle(i)).queues[q].queue;
    assert QueueOk(before) && QueueOk(after);
    SettleKeepsAccepted(s, keep, i, q);
    LiveQueueEndsIff(before);
    if WillEnd(after) { EndingQueueDrains(after, |after.buffer| + 2); }
    else { LiveQueueWaits(after, |after.buffer| + 2); }
  }

  lemma SettleKeepsAccepted(s: System, keep: set<TaskState>, i: nat, q: nat)
    requires Placed(s) && i < |s.executors| && q < |s.queues|
    ensures q < |SettleExecutor(s, keep, i).queues|
    ensures SettleExecutor(s, keep, i).queues[q].queue.accepted == s.queues[q].queue.accepted
    ensures SettleExecutor(s, keep, i).queues[q].bus == s.queues[q].bus
  {}

  const KEEP_ALIVE := {InputRequired, AuthRequired}

  /** With the default keep-alive states, an executor that announces INPUT_REQUIRED in a task
      event and returns leaves its own consumer waiting: the bus is kept, a task event does not
      stop the queue, and nobody is running any more. */
  lemma InputRequiredTaskHangs(t: Text, stream: bool, task: Task) returns (actions: seq<Action>, s: System)
    requires task.status.Some? && task.status.value.state == InputRequired
    ensures Run(KEEP_ALIVE, actions, s) && t in s.registry && |s.queues| == 1 && |s.executors| == 1 &&
        !s.executors[0].running
    ensures var end := Drain(s.queues[0].queue, |s.queues[0].queue.buffer| + 2);
      end.pc.Parked? && !CanResume(end) && end.delivered == [TaskEvent(task)]
  {
    var b: System;
    actions, b := TaskTurn(t, stream, task);
    SettledQueueEndsIff(KEEP_ALIVE, actions, b, 0, 0);
    BusOutlivesExecutorIffKept(KEEP_ALIVE, actions, b, 0);
    s := Do(b, KEEP_ALIVE, Settle(0));
    RunsOneStep(KEEP_ALIVE, actions, b, Settle(0));
    actions := actions + [Settle(0)];
  }

  // ---------- a failed stream that keeps its bus ----------

  /** The default keep-alive states do not tear the bus down after every failure. A streaming
      executor that publishes a task, announces AUTH_REQUIRED and then rejects has shown its
      client a well-formed stream that ends in FAILED, yet its task keeps the bus. */
  lemma FailedStreamMayKeepItsBus(t: Text, task: Task, auth: StatusUpdate, f: Failure)
    returns (actions: seq<Action>, s: System)
    requires auth.status.Some? && auth.status.value.state == AuthRequired && IsFailure(f)
    ensures Run(KEEP_ALIVE, actions, s) && t in s.registry && |s.queues| == 1 && |s.executors| == 1 &&
        !s.executors[0].running
    ensures var end := Drain(s.queues[0].queue, |s.queues[0].queue.buffer| + 2);
      && end.pc.Done? && StreamShape(end.delivered)
      && end.delivered == [TaskEvent(task), StatusEvent(auth), StatusEvent(f.status)]
  {
    var c: System;
    actions, c := RejectedTurn(t, task, auth, f);
    BusOutlivesExecutorIffKept(KEEP_ALIVE, actions, c, 0);
    s := Do(c, KEEP_ALIVE, Settle(0));
    RunsOneStep(KEEP_ALIVE, actions, c, Settle(0));
    actions := actions + [Settle(0)];
  }

  lemma RejectedTurn(t: Text, task: Task, auth: StatusUpdate, f: Failure) returns (actions: seq<Action>, c: System)
    requires auth.status.Some? && auth.status.value.state == AuthRequired && IsFailure(f)
    ensures Run(KEEP_ALIVE, actions, c) && Placed(c) && |c.queues| == 1 && |c.executors| == 1
    ensures var x := c.executors[0]; x.running && x.taskId == t && x.bus == 0 && x.lastState == Some(AuthRequired)
    ensures var end := Drain(c.queues[0].queue, |c.queues[0].queue.buffer| + 2);
      && end.pc.Done? && StreamShape(end.delivered)
      && end.delivered == [TaskEvent(task), StatusEvent(auth), StatusEvent(f.status)]
  {
    var b: System;
    actions, b := AuthRequiredTurn(t, task, auth);
    c := Do(b, KEEP_ALIVE, Catch(0, f));
    RejectedStreamAlwaysEnds(KEEP_ALIVE, actions, b, 0, f);
    TrackerFollowsItsBus(KEEP_ALIVE, actions, b, Catch(0, f), 0);
    RunsKeepInv(KEEP_ALIVE, actions, b);
    CatchKeepsInv(b, 0, f);
    RunsOneStep(KEEP_ALIVE, actions, b, Catch(0, f));
    actions := actions + [Catch(0, f)];
    WholeRejectedStream(task, auth, f);
  }

  lemma WholeRejectedStream(task: Task, auth: StatusUpdate, f: Failure)
    requires auth.status.Some? && auth.status.value.state == AuthRequired
    ensures var published := [TaskEvent(task), StatusEvent(auth)];
      && HasTask(published) && NoStopIn(published) && StreamShape(Cut(published))
      && published + Synthesized(false, f) == [TaskEvent(task), StatusEvent(auth), StatusEvent(f.status)]
  {
    var published := [TaskEvent(task), StatusEvent(auth)];
    assert published[0].TaskEvent?;
    CutConcat(published, []);
  }

  /** A turn that has published one task event. */
  lemma TaskTurn(t: Text, stream: bool, task: Task) returns (actions: seq<Action>, b: System)
    ensures Run(KEEP_ALIVE, actions, b) && Placed(b) && |b.queues| == 1 && |b.executors| == 1 && |b.buses| == 1
    ensures var x := b.executors[0];
      x.running && !x.caught && x.tracking && x.stream == stream && x.taskId == t && x.bus == 0 && x.queue == 0
      && x.lastState == StateOf(TaskEvent(task))
    ensures Live(b, 0, 0) && b.queues[0].queue.accepted == [TaskEvent(task)]
    ensures OnEvent(0) in b.buses[0].event && Tracker(0) in b.buses[0].event
  {
    var one, two := Turn(t, stream), PublishTo(0, TaskEvent(task));
    var a := Do(START, KEEP_ALIVE, one);
    RunsOneStep(KEEP_ALIVE, [], START, one);
    b := Do(a, KEEP_ALIVE, two);
    RunsOneStep(KEEP_ALIVE, [] + [one], a, two);
    actions := [] + [one] + [two];
  }

  lemma AuthRequiredTurn(t: Text, task: Task, auth: StatusUpdate) returns (actions: seq<Action>, b: System)
    requires auth.status.Some? && auth.status.value.state == AuthRequired
    ensures Run(KEEP_ALIVE, actions, b) && Placed(b) && |b.queues| == 1 && |b.executors| == 1
    ensures var x := b.executors[0];
      && x.running && !x.caught && x.stream && x.taskId == t && x.bus == 0 && x.queue == 0
      && x.lastState == Some(AuthRequired)
    ensures Live(b, 0, 0) && b.queues[0].queue.accepted == [TaskEvent(task), StatusEvent(auth)]
  {
    var a: System;
    actions, a := TaskTurn(t, true, task);
    var three := PublishTo(0, StatusEvent(auth));
    b := Do(a, KEEP_ALIVE, three);
    RunsOneStep(KEEP_ALIVE, actions, a, three);
    actions := actions + [three];
    assert [TaskEvent(task)] + [StatusEvent(auth)] == [TaskEvent(task), StatusEvent(auth)];
  }

  lemma RunsOneStep(keep: set<TaskState>, actions: seq<Action>, s: System, a: Action)
    requires Run(keep, actions, s) && Can(s, a) && Placed(s)
    ensures Run(keep, actions + [a], Do(s, keep, a)) && Placed(Do(s, keep, a))
  {
    assert (actions + [a])[..|actions|] == actions;
    RunsKeepInv(keep, actions + [a], Do(s, keep, a));
  }

  // ---------- overlapping executors ----------

  /** Cleaning up `t` leaves every bus heard by its queues and trackers exactly when `t` has no
      bus, or one that nobody tracks and no live queue sits on. */
  lemma CleanupKeepsHeardIff(s: System, t: Text)
    requires Placed(s) && AllHeard(s)
    ensures AllHeard(Cleanup(s, t)) <==>
      t !in s.registry || forall k: nat :: !Live(s, s.registry[t], k) && !Tracks(s, s.registry[t], k)
  {
    var r := Cleanup(s, t);
    if t in s.registry {
      var c := s.registry[t];
      forall b | 0 <= b < |r.buses| && b != c ensures Heard(r, b) { assert Heard(s, b); }
      assert forall k: nat :: (Live(r, c, k) <==> Live(s, c, k)) && (Tracks(r, c, k) <==> Tracks(s, c, k));
      assert AllHeard(r) <==> Heard(r, c);
    } else {
      forall b | 0 <= b < |r.buses| ensures Heard(r, b) { assert Heard(s, b); }
    }
  }

  /** When settling breaks the bus, for any two executors that overlap or not: in any state, a
      settle that tears down bus `b` for task `t` leaves every live queue and tracker on the bus
      it listens to if and only if `t` is unregistered, or its bus has no tracker left and is
      either `b` itself or without a live queue. */
  lemma SettleKeepsHeardIff(s: System, keep: set<TaskState>, t: Text, b: nat, state: Option<TaskState>)
    requires Placed(s) && AllHeard(s) && b < |s.buses| && !(state.Some? && state.value in keep)
    ensures AllHeard(SettleBus(s, keep, t, b, state)) <==>
      t !in s.registry ||
      var c := s.registry[t]; (forall x: nat :: !Tracks(s, c, x)) && (c == b || forall q: nat :: !Live(s, c, q))
  {
    FinishBusKeepsHeard(s, b);
    var r := FinishBus(s, b);
    CleanupKeepsHeardIff(r, t);
    if t in s.registry {
      var c := s.registry[t];
      assert forall x: nat :: Tracks(r, c, x) <==> Tracks(s, c, x);
      assert forall q: nat :: Live(r, c, q) <==> c != b && Live(s, c, q);
    }
  }

  /** A run of overlapping executors that breaks it, whatever the keep-alive states: a second turn
      starts while the first executor still runs, and ends first; the first executor's end then
      strips the bus of a third turn without `finished`, and that turn's queue, live, empty and
      heard by nobody, is not bound to end. */
  lemma OverlappingExecutorsStrandATurn(keep: set<TaskState>, t: Text) returns (two: System, three: System, end: System)
    ensures Placed(StartTurn(START, t, false)) && two == StartTurn(StartTurn(START, t, false), t, false)
    ensures Placed(two) && Can(two, Settle(1)) && Placed(Do(two, keep, Settle(1)))
    ensures three == StartTurn(Do(two, keep, Settle(1)), t, false)
    ensures Placed(three) && Can(three, Settle(0)) && end == Do(three, keep, Settle(0))
    ensures end.executors[2].running && t !in end.registry && Live(end, 1, 2) && !WillEnd(end.queues[2].queue)
    ensures 1 < |end.buses| && end.buses[1] == Bus({}, {}) && !AllHeard(end)
  {
    two := OverlappingTurns(t);
    SecondEndsFirst(two, keep, t);
    three := ThirdTurn(Do(two, keep, Settle(1)), t);
    end := StrandedEnd(three, keep, t);
  }

  lemma SecondEndsFirst(two: System, keep: set<TaskState>, t: Text)
    requires Placed(two) && Can(two, Settle(1)) && two.registry == map[t := 0] && |two.buses| == 1
    requires |two.queues| == 2 && |two.executors| == 2
    requires two.executors[1].taskId == t && two.executors[1].lastState.None?
    ensures var mid := Do(two, keep, Settle(1));
      && Placed(mid) && mid.registry == map[] && |mid.buses| == 1 && |mid.queues| == 2 && |mid.executors| == 2
      && mid.executors[0] == two.executors[0] && mid.buses[0] == Bus({}, {})
  {}

  lemma ThirdTurn(mid: System, t: Text) returns (three: System)
    requires Placed(mid) && mid.registry == map[] && |mid.buses| == 1 && |mid.queues| == 2 && |mid.executors| == 2
    requires mid.buses[0] == Bus({}, {})
    ensures three == StartTurn(mid, t, false) && Placed(three)
    ensures |three.buses| == 2 && |three.queues| == 3 && |three.executors| == 3
    ensures three.registry == map[t := 1] && three.queues[2] == QueueAt(1, NEW_QUEUE)
    ensures three.executors[0] == mid.executors[0] && three.executors[2].running && three.buses[0] == Bus({}, {})
  {
    three := StartTurn(mid, t, false);
  }

  lemma StrandedEnd(three: System, keep: set<TaskState>, t: Text) returns (end: System)
    requires Placed(three) && Can(three, Settle(0)) && |three.buses| == 2 && |three.queues| == 3 &&
        |three.executors| == 3
    requires t in three.registry && three.registry[t] == 1 && three.queues[2] == QueueAt(1, NEW_QUEUE)
    requires three.executors[0].taskId == t && three.executors[0].bus == 0 && three.executors[0].lastState.None?
    requires three.executors[2].running && OnFinished(2) !in three.buses[0].finished
    ensures end == Do(three, keep, Settle(0))
    ensures |end.executors| == 3 && end.executors[2].running && t !in end.registry && Live(end, 1, 2) &&
        !WillEnd(end.queues[2].queue)
    ensures 1 < |end.buses| && end.buses[1] == Bus({}, {}) && !AllHeard(end)
  {
    end := Do(three, keep, Settle(0));
    assert !Heard(end, 1);
  }

  lemma OverlappingTurns(t: Text) returns (two: System)
    ensures Placed(StartTurn(START, t, false)) && two == StartTurn(StartTurn(START, t, false), t, false)
    ensures Placed(two) && two.registry == map[t := 0] && |two.buses| == 1 && |two.queues| == 2 && |two.executors| == 2
    ensures forall x | 0 <= x < 2 ::
      var e := two.executors[x];
      e.running && e.taskId == t && e.bus == 0 && !e.stream && e.lastState.None?
    ensures two.buses[0].finished == {OnFinished(0), OnFinished(1)}
  {
    var one := StartTurn(START, t, false);
    assert one.registry == map[t := 0] && |one.buses| == 1 && |one.queues| == 1 && |one.executors| == 1;
    assert one.buses[0].finished == {OnFinished(0)};
    two := StartTurn(one, t, false);
  }
}
