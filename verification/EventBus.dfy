/** `DefaultExecutionEventBus` (src/server/events/execution_event_bus.ts): the wrapper a listener
    is registered under on the EventTarget, and the map that remembers it. */
module EventBus {
  import opened Base

  datatype Listener = OnEvent(queue: nat) | OnFinished(queue: nat) | Tracker(executor: nat) | Other(id: nat)

  /** A new closure; `once` is the flag it was registered with. */
  datatype Wrapper = Wrapper(id: nat, listener: Listener, once: bool)

  /** The bus as one event name sees it: `eventListeners` or `finishedListeners`, and the
      wrappers the EventTarget holds for that name, in registration order. */
  datatype Side = Side(tracked: map<Listener, seq<Wrapper>>, target: seq<Wrapper>)

  const EMPTY_SIDE := Side(map[], [])

  function TrackedFor(s: Side, l: Listener): seq<Wrapper> { if l in s.tracked then s.tracked[l] else [] }

  function Without(ws: seq<Wrapper>, w: Wrapper): seq<Wrapper> {
    if ws == [] then [] else if ws[0] == w then Without(ws[1..], w) else [ws[0]] + Without(ws[1..], w)
  }

  function SetTracked(m: map<Listener, seq<Wrapper>>, l: Listener, ws: seq<Wrapper>): map<Listener, seq<Wrapper>> {
    if ws == [] then m - {l} else m[l := ws]
  }

  /** `on` and `once`. */
  function Add(s: Side, l: Listener, once: bool, id: nat): Side {
    var w := Wrapper(id, l, once);
    Side(s.tracked[l := TrackedFor(s, l) + [w]], s.target + [w])
  }

  /** `off`: the newest wrapper of the listener, if any. */
  function Remove(s: Side, l: Listener): Side {
    var ws := TrackedFor(s, l);
    if ws == [] then s
    else Side(SetTracked(s.tracked, l, ws[..|ws| - 1]), Without(s.target, ws[|ws| - 1]))
  }

  /** One wrapper is invoked; a `once` wrapper has left the target and untracks itself first. */
  function Invoke(s: Side, w: Wrapper): Side {
    if w.once
    then Side(SetTracked(s.tracked, w.listener, Without(TrackedFor(s, w.listener), w)), Without(s.target, w))
    else s
  }

  // ---------- tracked is registered ----------

  predicate DistinctWrappers(ws: seq<Wrapper>) { forall i, j | 0 <= i < j < |ws| :: ws[i].id != ws[j].id }

  ghost predicate TargetTracked(s: Side, nextId: nat) {
    forall w | w in s.target :: w.id < nextId && w in TrackedFor(s, w.listener)
  }

  ghost predicate TrackedOnTarget(s: Side) {
    forall l | l in s.tracked ::
      && s.tracked[l] != [] && DistinctWrappers(s.tracked[l])
      && forall w | w in s.tracked[l] :: w.listener == l && w in s.target
  }

  /** The wrappers remembered for the listeners are exactly the ones registered on the target. */
  ghost predicate Consistent(s: Side, nextId: nat) {
    DistinctWrappers(s.target) && TargetTracked(s, nextId) && TrackedOnTarget(s)
  }

  lemma {:induction false} WithoutIs(ws: seq<Wrapper>, w: Wrapper)
    ensures forall v :: v in Without(ws, w) <==> v in ws && v != w
    ensures DistinctWrappers(ws) ==> DistinctWrappers(Without(ws, w))
    ensures w !in ws ==> Without(ws, w) == ws
  {
    if ws != [] {
      assert ws == [ws[0]] + ws[1..];
      WithoutIs(ws[1..], w);
      var rest := Without(ws[1..], w);
      if DistinctWrappers(ws) {
        forall i | 0 <= i < |rest| ensures rest[i].id != ws[0].id { assert rest[i] in ws[1..]; }
      }
    }
  }

  lemma SomeMember(ws: seq<Wrapper>)
    ensures ws != [] ==> exists w :: w in ws
  {
    if ws != [] { assert ws[0] in ws; }
  }

  lemma AddIsConsistent(s: Side, l: Listener, once: bool, id: nat)
    requires Consistent(s, id)
    ensures Consistent(Add(s, l, once, id), id + 1)
  {
    var t, ws := Add(s, l, once, id), TrackedFor(s, l);
    assert forall w | w in ws :: w.listener == l && w in s.target && w.id < id;
    assert DistinctWrappers(t.target);
    forall w | w in t.target ensures w.id < id + 1 && w in TrackedFor(t, w.listener) {
      if w in s.target { assert w in TrackedFor(s, w.listener); }
    }
    forall k | k in t.tracked
      ensures t.tracked[k] != [] && DistinctWrappers(t.tracked[k])
      ensures forall w | w in t.tracked[k] :: w.listener == k && w in t.target
    {
      if k == l { forall i | 0 <= i < |ws| ensures ws[i].id < id { assert ws[i] in ws; } }
    }
  }

  lemma DropLast(ws: seq<Wrapper>)
    requires ws != [] && DistinctWrappers(ws)
    ensures forall v :: v in ws[..|ws| - 1] <==> v in ws && v != ws[|ws| - 1]
    ensures DistinctWrappers(ws[..|ws| - 1])
  {
    assert ws == ws[..|ws| - 1] + [ws[|ws| - 1]];
  }

  lemma RemoveIsConsistent(s: Side, l: Listener, nextId: nat)
    requires Consistent(s, nextId)
    ensures Consistent(Remove(s, l), nextId)
  {
    var ws := TrackedFor(s, l);
    if ws != [] {
      DropLast(ws);
      WithoutIs(s.target, ws[|ws| - 1]);
    }
  }

  lemma InvokeIsConsistent(s: Side, w: Wrapper, nextId: nat)
    requires Consistent(s, nextId) && w in s.target
    ensures Consistent(Invoke(s, w), nextId)
  {
    WithoutIs(s.target, w);
    WithoutIs(TrackedFor(s, w.listener), w);
  }

  // ---------- inverses ----------

  lemma {:induction false} WithoutLast(ws: seq<Wrapper>, w: Wrapper)
    requires w !in ws
    ensures Without(ws + [w], w) == ws
  {
    if ws != [] {
      assert (ws + [w])[1..] == ws[1..] + [w];
      WithoutLast(ws[1..], w);
    }
  }

  /** `off` undoes `on`, and delivering to a `once` listener undoes `once`: nothing is left
      behind in the map or on the target, and the other listeners keep their places. */
  lemma OffUndoesOn(s: Side, l: Listener, id: nat)
    requires Consistent(s, id)
    ensures Remove(Add(s, l, false, id), l) == s
    ensures Invoke(Add(s, l, true, id), Wrapper(id, l, true)) == s
  {
    var ws, plain, single := TrackedFor(s, l), Wrapper(id, l, false), Wrapper(id, l, true);
    assert plain !in s.target && single !in s.target && single !in ws;
    WithoutLast(s.target, plain);
    WithoutLast(s.target, single);
    WithoutLast(ws, single);
    assert (ws + [plain])[..|ws|] == ws && (ws + [plain])[|ws|] == plain;
    RestoreTracked(s, l, ws + [plain]);
    RestoreTracked(s, l, ws + [single]);
  }

  lemma RestoreTracked(s: Side, l: Listener, ws: seq<Wrapper>)
    requires l in s.tracked ==> s.tracked[l] != []
    ensures SetTracked(s.tracked[l := ws], l, TrackedFor(s, l)) == s.tracked
  {}

  /** Which listeners are registered, when each is registered at most once. */
  ghost predicate Registered(s: Side, listeners: set<Listener>) {
    s.tracked.Keys == listeners && forall l | l in s.tracked :: |s.tracked[l]| == 1
  }

  lemma RegisteredAfter(s: Side, listeners: set<Listener>, l: Listener, id: nat)
    requires Consistent(s, id) && Registered(s, listeners)
    ensures l !in listeners ==> Registered(Add(s, l, false, id), listeners + {l})
    ensures Registered(Remove(s, l), listeners - {l})
    ensures forall w | w in s.target :: w.listener in listeners
  {}

  /** `on` and `once` add one registration of the listener, `off` takes one away if there is
      any, and other listeners keep theirs. */
  lemma CountAfter(s: Side, l: Listener, once: bool, id: nat, m: Listener)
    requires Consistent(s, id)
    ensures |TrackedFor(Add(s, l, once, id), m)| == |TrackedFor(s, m)| + if m == l then 1 else 0
    ensures |TrackedFor(Remove(s, l), m)| == |TrackedFor(s, m)| - if m == l && TrackedFor(s, m) != [] then 1 else 0
    ensures |Add(s, l, once, id).target| == |s.target| + 1
    ensures |Remove(s, l).target| == |s.target| - if TrackedFor(s, l) != [] then 1 else 0
  {
    if TrackedFor(s, l) != [] {
      var w := TrackedFor(s, l)[|TrackedFor(s, l)| - 1];
      assert w in s.target;
      WithoutOne(s.target, w);
    }
  }

  lemma {:induction false} WithoutOne(ws: seq<Wrapper>, w: Wrapper)
    requires DistinctWrappers(ws) && w in ws
    ensures |Without(ws, w)| == |ws| - 1
  {
    assert ws == [ws[0]] + ws[1..];
    if ws[0] == w { WithoutIs(ws[1..], w); } else { WithoutOne(ws[1..], w); }
  }

  // ---------- both event names, and dispatch ----------

  datatype Name = Event | Finished

  /** The whole bus: what is registered under either name, and the next wrapper's identity. */
  datatype Sides = Sides(event: Side, finished: Side, nextId: nat) {
    function Of(name: Name): Side { if name == Event then event else finished }
    function With(name: Name, s: Side): Sides { if name == Event then this.(event := s) else this.(finished := s) }
  }

  ghost predicate AllConsistent(b: Sides) { Consistent(b.event, b.nextId) && Consistent(b.finished, b.nextId) }

  /** What a listener may do to the bus while it is being called. */
  datatype Op =
    | CallOn(name: Name, listener: Listener)
    | CallOnce(name: Name, listener: Listener)
    | CallOff(name: Name, listener: Listener)

  function Perform(b: Sides, op: Op): Sides {
    match op
    case CallOn(name, l) => b.With(name, Add(b.Of(name), l, false, b.nextId)).(nextId := b.nextId + 1)
    case CallOnce(name, l) => b.With(name, Add(b.Of(name), l, true, b.nextId)).(nextId := b.nextId + 1)
    case CallOff(name, l) => b.With(name, Remove(b.Of(name), l))
  }

  function PerformAll(b: Sides, ops: seq<Op>): Sides
    decreases |ops|
  {
    if ops == [] then b else PerformAll(Perform(b, ops[0]), ops[1..])
  }

  /** One wrapper is called, and its listener does what `handlers` says. */
  function Deliver(b: Sides, name: Name, w: Wrapper, handlers: Listener -> seq<Op>): Sides {
    PerformAll(b.With(name, Invoke(b.Of(name), w)), handlers(w.listener))
  }

  /** `dispatchEvent` walks the wrappers that were registered when it began, and skips those
      that have been removed since. */
  function Dispatch(b: Sides, name: Name, snapshot: seq<Wrapper>, handlers: Listener -> seq<Op>): Sides
    decreases |snapshot|
  {
    if snapshot == [] then b
    else
      var next := if snapshot[0] in b.Of(name).target then Deliver(b, name, snapshot[0], handlers) else b;
      Dispatch(next, name, snapshot[1..], handlers)
  }

  lemma PerformIsConsistent(b: Sides, op: Op)
    requires AllConsistent(b)
    ensures AllConsistent(Perform(b, op))
  {
    match op
    case CallOn(name, l) => AddIsConsistent(b.Of(name), l, false, b.nextId);
    case CallOnce(name, l) => AddIsConsistent(b.Of(name), l, true, b.nextId);
    case CallOff(name, l) => RemoveIsConsistent(b.Of(name), l, b.nextId);
  }

  lemma {:induction false} PerformAllIsConsistent(b: Sides, ops: seq<Op>)
    requires AllConsistent(b)
    ensures AllConsistent(PerformAll(b, ops))
    decreases |ops|
  {
    if ops != [] {
      PerformIsConsistent(b, ops[0]);
      PerformAllIsConsistent(Perform(b, ops[0]), ops[1..]);
    }
  }

  lemma DeliverIsConsistent(b: Sides, name: Name, w: Wrapper, handlers: Listener -> seq<Op>)
    requires AllConsistent(b) && w in b.Of(name).target
    ensures AllConsistent(Deliver(b, name, w, handlers))
  {
    InvokeIsConsistent(b.Of(name), w, b.nextId);
    PerformAllIsConsistent(b.With(name, Invoke(b.Of(name), w)), handlers(w.listener));
  }

  /** A dispatch keeps tracked wrappers equal to registered ones, whatever the listeners it
      calls do to the bus meanwhile. */
  lemma {:induction false} DispatchIsConsistent(b: Sides, name: Name, snapshot: seq<Wrapper>,
      handlers: Listener -> seq<Op>)
    requires AllConsistent(b)
    ensures AllConsistent(Dispatch(b, name, snapshot, handlers))
    decreases |snapshot|
  {
    if snapshot != [] {
      var w := snapshot[0];
      if w in b.Of(name).target {
        DeliverIsConsistent(b, name, w, handlers);
        DispatchIsConsistent(Deliver(b, name, w, handlers), name, snapshot[1..], handlers);
      } else {
        DispatchIsConsistent(b, name, snapshot[1..], handlers);
      }
    }
  }

  function Permanent(ws: seq<Wrapper>): seq<Wrapper> {
    if ws == [] then [] else (if ws[0].once then [] else [ws[0]]) + Permanent(ws[1..])
  }

  /** Listeners that leave the bus alone: afterwards exactly the `once` ones are gone. */
  lemma DispatchDropsOnce(b: Sides, name: Name, handlers: Listener -> seq<Op>)
    requires AllConsistent(b) && forall l :: handlers(l) == []
    ensures Dispatch(b, name, b.Of(name).target, handlers).Of(name).target == Permanent(b.Of(name).target)
    ensures forall other | other != name :: Dispatch(b, name, b.Of(name).target, handlers).Of(other) == b.Of(other)
  {
    DispatchSuffix(b, name, [], b.Of(name).target, handlers);
    assert [] + b.Of(name).target == b.Of(name).target;
    assert [] + Permanent(b.Of(name).target) == Permanent(b.Of(name).target);
  }

  lemma {:induction false} DispatchSuffix(b: Sides, name: Name, done: seq<Wrapper>, todo: seq<Wrapper>,
      handlers: Listener -> seq<Op>)
    requires AllConsistent(b) && (forall l :: handlers(l) == []) && b.Of(name).target == done + todo
    ensures Dispatch(b, name, todo, handlers).Of(name).target == done + Permanent(todo)
    ensures forall other | other != name :: Dispatch(b, name, todo, handlers).Of(other) == b.Of(other)
    decreases |todo|
  {
    if todo == [] {
      assert done + Permanent(todo) == done + todo;
    } else {
      var kept := if todo[0].once then done else done + [todo[0]];
      InvokeFirst(b.Of(name), done, todo, b.nextId);
      var c := Deliver(b, name, todo[0], handlers);
      assert c == b.With(name, Invoke(b.Of(name), todo[0]));
      DispatchSuffix(c, name, kept, todo[1..], handlers);
      Regroup(done, todo[0], Permanent(todo[1..]));
    }
  }

  lemma Regroup(a: seq<Wrapper>, w: Wrapper, b: seq<Wrapper>)
    ensures a + [w] + b == a + ([w] + b) && a + b == a + ([] + b)
  {
    assert [] + b == b;
  }

  lemma InvokeFirst(s: Side, done: seq<Wrapper>, todo: seq<Wrapper>, nextId: nat)
    requires Consistent(s, nextId) && todo != [] && s.target == done + todo
    ensures todo[0] in s.target && Consistent(Invoke(s, todo[0]), nextId)
    ensures Invoke(s, todo[0]).target == (if todo[0].once then done else done + [todo[0]]) + todo[1..]
  {
    var w := todo[0];
    assert s.target[|done|] == w;
    InvokeIsConsistent(s, w, nextId);
    FirstOfRest(done, todo);
    WithoutMiddle(done, w, todo[1..]);
  }

  lemma FirstOfRest(done: seq<Wrapper>, todo: seq<Wrapper>)
    requires todo != []
    ensures done + todo == done + [todo[0]] + todo[1..]
  {}

  lemma {:induction false} WithoutMiddle(a: seq<Wrapper>, w: Wrapper, b: seq<Wrapper>)
    requires DistinctWrappers(a + [w] + b)
    ensures Without(a + [w] + b, w) == a + b
  {
    if a == [] {
      WithoutHead(w, b);
      assert a + [w] + b == [w] + b && a + b == b;
    } else {
      TailOfMiddle(a, w, b);
      WithoutMiddle(a[1..], w, b);
      assert a + b == [a[0]] + (a[1..] + b);
    }
  }

  lemma WithoutHead(w: Wrapper, b: seq<Wrapper>)
    requires DistinctWrappers([] + [w] + b)
    ensures Without([w] + b, w) == b
  {
    var all := [w] + b;
    assert all == [] + [w] + b && all[1..] == b;
    assert forall i | 0 <= i < |b| :: b[i] == all[i + 1];
    WithoutIs(b, w);
  }

  lemma TailOfMiddle(a: seq<Wrapper>, w: Wrapper, b: seq<Wrapper>)
    requires a != [] && DistinctWrappers(a + [w] + b)
    ensures var all := a + [w] + b; all[0] == a[0] != w && all[1..] == a[1..] + [w] + b
    ensures DistinctWrappers(a[1..] + [w] + b)
  {
    var all, tail := a + [w] + b, a[1..] + [w] + b;
    assert all[|a|] == w && all[1..] == tail;
    assert forall i | 0 <= i < |tail| :: tail[i] == all[i + 1];
  }

  // ---------- `finished`: every listener takes itself off both names ----------

  /** `ExecutionEventQueue.stop`, which the `finished` handler of a queue calls. */
  function StopOps(l: Listener): seq<Op> {
    if l.OnFinished? then [CallOff(Event, OnEvent(l.queue)), CallOff(Finished, l)] else []
  }

  lemma StopOpsRemoveBoth(b: Sides, l: Listener)
    requires l.OnFinished?
    ensures PerformAll(b, StopOps(l)) == Sides(Remove(b.event, OnEvent(l.queue)), Remove(b.finished, l), b.nextId)
  {
    var ops := StopOps(l);
    var c := Perform(b, ops[0]);
    assert ops[1..] == [CallOff(Finished, l)] && [CallOff(Finished, l)][1..] == [];
    assert PerformAll(c, ops[1..]) == PerformAll(Perform(c, ops[1]), []);
  }

  lemma DeliverFinished(b: Sides, w: Wrapper, listeners: set<Listener>, queues: set<Listener>)
    requires AllConsistent(b) && Registered(b.event, listeners) && Registered(b.finished, queues)
    requires w in b.finished.target && w.listener.OnFinished?
    ensures var r := Deliver(b, Finished, w, StopOps);
      && AllConsistent(r)
      && Registered(r.event, listeners - {OnEvent(w.listener.queue)})
      && Registered(r.finished, queues - {w.listener})
      && forall v | v in r.finished.target :: v in b.finished.target && v != w
  {
    var l := w.listener;
    DeliverIsConsistent(b, Finished, w, StopOps);
    var f := Invoke(b.finished, w);
    InvokeIsConsistent(b.finished, w, b.nextId);
    InvokedOnly(b.finished, w, queues, b.nextId);
    var left := if w.once then queues - {l} else queues;
    RegisteredAfter(b.event, listeners, OnEvent(l.queue), b.nextId);
    RegisteredAfter(f, left, l, b.nextId);
    RemoveIsConsistent(f, l, b.nextId);
    assert left - {l} == queues - {l};
    RegisteredAfter(Remove(f, l), queues - {l}, l, b.nextId);
    TargetShrinks(f, l);
    StopOpsRemoveBoth(b.With(Finished, f), l);
  }

  lemma InvokedOnly(s: Side, w: Wrapper, listeners: set<Listener>, nextId: nat)
    requires Consistent(s, nextId) && Registered(s, listeners) && w in s.target
    ensures Registered(Invoke(s, w), if w.once then listeners - {w.listener} else listeners)
    ensures forall v | v in Invoke(s, w).target :: v in s.target
  {
    var ws := TrackedFor(s, w.listener);
    assert w in ws && |ws| == 1;
    assert ws == [w] && ws[1..] == [];
    WithoutIs(s.target, w);
    assert Without([w], w) == [];
  }

  lemma TargetShrinks(s: Side, l: Listener)
    ensures forall v | v in Remove(s, l).target :: v in s.target
  {
    var ws := TrackedFor(s, l);
    if ws != [] { WithoutIs(s.target, ws[|ws| - 1]); }
  }

  /** What `finished()` leaves behind when its listeners are queues: nothing under `finished`,
      and under `event` everything but those queues' handlers. */
  lemma FinishedStopsEveryQueue(b: Sides, listeners: set<Listener>, queues: set<Listener>)
    requires AllConsistent(b) && Registered(b.event, listeners) && Registered(b.finished, queues)
    requires forall l | l in queues :: l.OnFinished?
    ensures var r := Dispatch(b, Finished, b.finished.target, StopOps);
      && AllConsistent(r)
      && r.finished == EMPTY_SIDE
      && Registered(r.event, set l | l in listeners && !(l.OnEvent? && OnFinished(l.queue) in queues))
  {
    FinishedPass(b, b.finished.target, listeners, queues);
  }

  lemma NoneLeft(s: Side, listeners: set<Listener>, nextId: nat)
    requires Consistent(s, nextId) && Registered(s, listeners) && forall w :: w !in s.target
    ensures s == EMPTY_SIDE && listeners == {}
  {
    SomeMember(s.target);
    assert forall l | l in s.tracked :: s.tracked[l][0] in s.target;
    assert s.tracked.Keys == {};
  }

  lemma {:induction false} FinishedPass(b: Sides, todo: seq<Wrapper>, listeners: set<Listener>, queues: set<Listener>)
    requires AllConsistent(b) && Registered(b.event, listeners) && Registered(b.finished, queues)
    requires (forall l | l in queues :: l.OnFinished?) && forall w | w in b.finished.target :: w in todo
    ensures var r := Dispatch(b, Finished, todo, StopOps);
      && AllConsistent(r)
      && r.finished == EMPTY_SIDE
      && Registered(r.event, set l | l in listeners && !(l.OnEvent? && OnFinished(l.queue) in queues))
    decreases |todo|
  {
    if todo == [] {
      NoneLeft(b.finished, queues, b.nextId);
      assert (set l | l in listeners && !(l.OnEvent? && OnFinished(l.queue) in queues)) == listeners;
    } else {
      var w := todo[0];
      RegisteredAfter(b.finished, queues, w.listener, b.nextId);
      if w in b.finished.target {
        DeliverFinished(b, w, listeners, queues);
        var e, f := listeners - {OnEvent(w.listener.queue)}, queues - {w.listener};
        FinishedPass(Deliver(b, Finished, w, StopOps), todo[1..], e, f);
        assert (set l | l in e && !(l.OnEvent? && OnFinished(l.queue) in f)) ==
          (set l | l in listeners && !(l.OnEvent? && OnFinished(l.queue) in queues));
      } else {
        FinishedPass(b, todo[1..], listeners, queues);
      }
    }
  }

  // ---------- the class ----------

  class DefaultExecutionEventBus {
    var eventListeners: map<Listener, seq<Wrapper>>
    var finishedListeners: map<Listener, seq<Wrapper>>
    var eventTarget: seq<Wrapper>
    var finishedTarget: seq<Wrapper>
    var nextId: nat

    function SideOf(name: Name): Side reads this {
      if name == Event then Side(eventListeners, eventTarget) else Side(finishedListeners, finishedTarget)
    }

    function State(): Sides reads this { Sides(SideOf(Event), SideOf(Finished), nextId) }

    ghost predicate Valid() reads this { AllConsistent(State()) }

    constructor ()
      ensures Valid() && SideOf(Event) == SideOf(Finished) == EMPTY_SIDE
    {
      eventListeners, finishedListeners, eventTarget, finishedTarget, nextId := map[], map[], [], [], 0;
    }

    method SetSide(name: Name, s: Side)
      modifies this
      ensures SideOf(name) == s && nextId == old(nextId)
      ensures forall other: Name | other != name :: SideOf(other) == old(SideOf(other))
    {
      if name == Event { eventListeners, eventTarget := s.tracked, s.target; }
      else { finishedListeners, finishedTarget := s.tracked, s.target; }
    }

    method On(name: Name, l: Listener)
      requires Valid()
      modifies this
      ensures Valid() && SideOf(name) == Add(old(SideOf(name)), l, false, old(nextId)) && nextId == old(nextId) + 1
      ensures forall other: Name | other != name :: SideOf(other) == old(SideOf(other))
    {
      AddIsConsistent(SideOf(name), l, false, nextId);
      SetSide(name, Add(SideOf(name), l, false, nextId));
      nextId := nextId + 1;
    }

    method Once(name: Name, l: Listener)
      requires Valid()
      modifies this
      ensures Valid() && SideOf(name) == Add(old(SideOf(name)), l, true, old(nextId)) && nextId == old(nextId) + 1
      ensures forall other: Name | other != name :: SideOf(other) == old(SideOf(other))
    {
      AddIsConsistent(SideOf(name), l, true, nextId);
      SetSide(name, Add(SideOf(name), l, true, nextId));
      nextId := nextId + 1;
    }

    method Off(name: Name, l: Listener)
      requires Valid()
      modifies this
      ensures Valid() && SideOf(name) == Remove(old(SideOf(name)), l)
      ensures forall other: Name | other != name :: SideOf(other) == old(SideOf(other))
    {
      RemoveIsConsistent(SideOf(name), l, nextId);
      SetSide(name, Remove(SideOf(name), l));
    }

    /** Removes the tracked wrappers of one name one by one; because tracked is registered, the
        target ends up empty too. */
    method ClearSide(name: Name)
      requires Valid()
      modifies this
      ensures Valid() && SideOf(name) == EMPTY_SIDE && nextId == old(nextId)
      ensures forall other: Name | other != name :: SideOf(other) == old(SideOf(other))
    {
      var s := SideOf(name);
      var target := s.target;
      var todo := s.tracked.Keys;
      while todo != {}
        invariant todo <= s.tracked.Keys && unchanged(this)
        invariant forall w | w in target :: w in s.target && w.listener in todo
        decreases todo
      {
        var l :| l in todo;
        var ws := s.tracked[l];
        for i := 0 to |ws|
          invariant unchanged(this)
          invariant forall w | w in target :: w in s.target && w.listener in todo && w !in ws[..i]
        {
          WithoutIs(target, ws[i]);
          target := Without(target, ws[i]);
        }
        assert ws[..|ws|] == ws;
        todo := todo - {l};
      }
      SomeMember(target);
      SetSide(name, Side(map[], target));
    }

    /** Without a name, as the bus manager calls it, both are cleared. */
    method RemoveAllListeners(only: Option<Name>)
      requires Valid()
      modifies this
      ensures Valid() && nextId == old(nextId)
      ensures forall name: Name ::
        SideOf(name) == if only.None? || only.value == name then EMPTY_SIDE else old(SideOf(name))
    {
      if only.None? || only.value == Event { ClearSide(Event); }
      if only.None? || only.value == Finished { ClearSide(Finished); }
    }
  }
}
