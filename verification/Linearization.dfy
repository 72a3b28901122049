/** Any number of ResultManagers on one store, every await an interleaving point: each event is
    chained under its lock key, then started, loads, saves and settles (src/server/result_manager.ts). */
module Linearization {
  import opened Base
  import opened Protocol
  import opened Artifacts
  import opened Store
  import opened ResultManagers
  import opened PromiseChain

  /** `context.user?.userName ?? ''`, the owner as the lock sees it. */
  function LockOwner(c: Context): Text { if c.userName.Some? then c.userName.value else [] }

  function LockKey(c: Context, taskId: Text): Text { TenantOf(c) + [0] + LockOwner(c) + [0] + taskId }

  datatype Slot = Slot(scope: Scope, taskId: Text)

  function ScopeIn(r: Request): Scope { Scope(TenantOf(r.context), r.owner) }

  function SlotOf(r: Request): Slot { Slot(ScopeIn(r), TaskIdOf(r.write.event)) }

  /** One `processEvent` call: whose context, the owner the store's resolver names for it, which
      message it belongs to, which event. */
  datatype Request = Request(context: Context, owner: Text, write: Write)

  datatype Phase = Idle | HasSnapshot(snapshot: Option<Task>) | Committed

  datatype World = World(chains: Chains, requests: seq<Request>, phases: seq<Phase>, store: map<Slot, Task>)

  datatype Action =
    | Enqueue(request: Request)
    | Begin(job: nat)
    | Load(job: nat)
    | Save(job: nat)
    | Finish(job: nat, ok: bool)
    | Release(job: nat)

  predicate IsRunning(w: World, j: nat) { j < |w.chains.jobs| && w.chains.jobs[j].status.Running? }

  /** A load or save that fails rejects the job at whatever point it had reached. */
  predicate Can(w: World, a: Action)
    requires Shape(w)
  {
    match a
    case Enqueue(r) => TaskIdOf(r.write.event) != []
    case Begin(j) => CanStart(w.chains, j)
    case Load(j) => IsRunning(w, j) && w.phases[j].Idle?
    case Save(j) => IsRunning(w, j) && w.phases[j].HasSnapshot?
    case Finish(j, ok) => IsRunning(w, j) && (ok ==> w.phases[j].Committed?)
    case Release(j) => Enabled(w.chains, Evict(j))
  }

  predicate Shape(w: World) { |w.requests| == |w.phases| == |w.chains.jobs| }

  function Stored(w: World, slot: Slot): Option<Task> { if slot in w.store then Some(w.store[slot]) else None }

  function Do(w: World, a: Action): (after: World)
    requires Shape(w) && Can(w, a)
    ensures Shape(after)
  {
    match a
    case Enqueue(r) =>
      w.(chains := Next(w.chains, Chain(LockKey(r.context, TaskIdOf(r.write.event)))),
         requests := w.requests + [r], phases := w.phases + [Idle])
    case Begin(j) => w.(chains := Next(w.chains, Start(j)))
    case Load(j) => w.(phases := w.phases[j := HasSnapshot(Stored(w, SlotOf(w.requests[j])))])
    case Save(j) =>
      var r := w.requests[j];
      var save := Process(Manager(None, r.write.latest, None), r.write.event, w.phases[j].snapshot).save;
      w.(phases := w.phases[j := Committed],
         store := if save.Some? then w.store[Slot(ScopeIn(r), save.value.id) := save.value] else w.store)
    case Finish(j, ok) => w.(chains := Next(w.chains, Settle(j, ok)))
    case Release(j) => w.(chains := Next(w.chains, Evict(j)))
  }

  ghost predicate Run(initial: map<Slot, Task>, actions: seq<Action>, w: World)
    decreases |actions|
  {
    if actions == [] then w == World(EMPTY, [], [], initial)
    else
      var n := |actions| - 1;
      exists v :: Run(initial, actions[..n], v) && Shape(v) && Can(v, actions[n]) && w == Do(v, actions[n])
  }

  /** The writes to a slot that took effect, in the order `processEvent` enqueued them. */
  function Effective(w: World, slot: Slot, n: nat): seq<Write>
    requires Shape(w) && n <= |w.requests|
  {
    if n == 0 then []
    else if SlotOf(w.requests[n - 1]) == slot && w.phases[n - 1].Committed?
      then Effective(w, slot, n - 1) + [w.requests[n - 1].write]
    else Effective(w, slot, n - 1)
  }

  /** Writers of one slot share its lock. */
  ghost predicate LocksCoverSlots(requests: seq<Request>) {
    forall i, j | 0 <= i < |requests| && 0 <= j < |requests| && SlotOf(requests[i]) == SlotOf(requests[j]) ::
      LockKey(requests[i].context, TaskIdOf(requests[i].write.event)) ==
          LockKey(requests[j].context, TaskIdOf(requests[j].write.event))
  }

  /** A running job may be rejected at any point, before its load, between load and save, or after
      the save; and any event that names a task may be enqueued at any time. */
  lemma AnyPointMayFail(w: World, r: Request, j: nat)
    requires Shape(w)
    ensures TaskIdOf(r.write.event) != [] ==> Can(w, Enqueue(r))
    ensures IsRunning(w, j) ==> Can(w, Finish(j, false))
    ensures IsRunning(w, j) ==>
      match w.phases[j]
      case Idle => Can(w, Action.Load(j))
      case HasSnapshot(_) => Can(w, Action.Save(j))
      case Committed => Can(w, Finish(j, true))
  {}

  // ---------- the invariant ----------

  ghost predicate Sound(w: World) {
    && Shape(w) && Inv(w.chains)
    && (forall j | 0 <= j < |w.requests| ::
          w.chains.jobs[j].key == LockKey(w.requests[j].context, TaskIdOf(w.requests[j].write.event)))
    && (forall j | 0 <= j < |w.phases| && w.chains.jobs[j].status.Waiting? :: w.phases[j].Idle?)
  }

  ghost predicate SnapshotsAreCurrent(w: World)
    requires Shape(w)
  {
    forall j | 0 <= j < |w.phases| && w.phases[j].HasSnapshot? && w.chains.jobs[j].status.Running? ::
      w.phases[j].snapshot == Stored(w, SlotOf(w.requests[j]))
  }

  ghost predicate Linear(initial: map<Slot, Task>, w: World)
    requires Shape(w)
  {
    forall slot :: Stored(w, slot) == SlotFold(Initial(initial, slot), Effective(w, slot, |w.requests|))
  }

  lemma EnqueueIsSound(w: World, r: Request)
    requires Sound(w) && Can(w, Enqueue(r))
    ensures Sound(Do(w, Enqueue(r)))
  {
    ChainKeepsInv(w.chains, LockKey(r.context, TaskIdOf(r.write.event)));
  }

  lemma ChainStepIsSound(w: World, step: Step)
    requires Sound(w) && !step.Chain? && Enabled(w.chains, step)
    ensures Sound(w.(chains := Next(w.chains, step)))
  {
    StepKeepsInv(w.chains, step);
    var c := Next(w.chains, step);
    assert |c.jobs| == |w.chains.jobs|;
    assert forall j | 0 <= j < |c.jobs| :: c.jobs[j].key == w.chains.jobs[j].key;
    assert forall j | 0 <= j < |c.jobs| && c.jobs[j].status.Waiting? :: w.chains.jobs[j].status.Waiting?;
  }

  lemma StoreStepIsSound(w: World, a: Action)
    requires Sound(w) && Can(w, a) && (a.Load? || a.Save?)
    ensures Sound(Do(w, a))
  {}

  lemma StepIsSound(w: World, a: Action)
    requires Sound(w) && Can(w, a)
    ensures Sound(Do(w, a))
  {
    match a
    case Enqueue(r) => EnqueueIsSound(w, r);
    case Begin(j) => ChainStepIsSound(w, Start(j));
    case Finish(j, ok) => ChainStepIsSound(w, Settle(j, ok));
    case Release(j) => ChainStepIsSound(w, Evict(j));
    case _ => StoreStepIsSound(w, a);
  }

  ghost function Before(initial: map<Slot, Task>, actions: seq<Action>, w: World): (v: World)
    requires actions != [] && Run(initial, actions, w)
    ensures Run(initial, actions[..|actions| - 1], v) && Shape(v)
    ensures Can(v, actions[|actions| - 1]) && w == Do(v, actions[|actions| - 1])
  {
    var n := |actions| - 1;
    var v :| Run(initial, actions[..n], v) && Shape(v) && Can(v, actions[n]) && w == Do(v, actions[n]);
    v
  }

  lemma {:induction false} RunIsSound(initial: map<Slot, Task>, actions: seq<Action>, w: World)
    requires Run(initial, actions, w)
    ensures Sound(w)
    decreases |actions|
  {
    if actions != [] {
      var v := Before(initial, actions, w);
      RunIsSound(initial, actions[..|actions| - 1], v);
      StepIsSound(v, actions[|actions| - 1]);
    }
  }

  lemma {:induction false} EffectiveUnchanged(v: World, w: World, slot: Slot, n: nat)
    requires Shape(v) && Shape(w) && n <= |v.requests| && n <= |w.requests|
    requires forall i | 0 <= i < n && SlotOf(v.requests[i]) == slot :: v.phases[i].Committed? == w.phases[i].Committed?
    requires forall i | 0 <= i < n :: v.requests[i] == w.requests[i]
    ensures Effective(v, slot, n) == Effective(w, slot, n)
  {
    if n > 0 { EffectiveUnchanged(v, w, slot, n - 1); }
  }

  /** Committing the job appends its write: nothing later on the slot has started. */
  lemma {:induction false} EffectiveAfterCommit(v: World, w: World, j: nat, n: nat)
    requires Shape(v) && Shape(w) && j < n <= |v.requests| == |w.requests| && v.requests == w.requests
    requires !v.phases[j].Committed? && w.phases == v.phases[j := Committed]
    requires forall k | j < k < n && SlotOf(v.requests[k]) == SlotOf(v.requests[j]) :: !v.phases[k].Committed?
    ensures Effective(w, SlotOf(v.requests[j]), n) == Effective(v, SlotOf(v.requests[j]), n) + [v.requests[j].write]
  {
    if n - 1 == j { EffectiveUnchanged(v, w, SlotOf(v.requests[j]), j); }
    else { EffectiveAfterCommit(v, w, j, n - 1); }
  }

  /** A job on the same slot as a running one has settled, if earlier, or not begun, if later. */
  lemma OthersAreOut(w: World, j: nat, k: nat)
    requires Sound(w) && LocksCoverSlots(w.requests) && IsRunning(w, j)
    requires k < |w.requests| && k != j && SlotOf(w.requests[k]) == SlotOf(w.requests[j])
    ensures if k < j then w.chains.jobs[k].status.Settled? else w.chains.jobs[k].status.Waiting? && w.phases[k].Idle?
  {
    assert w.chains.jobs[k].key == w.chains.jobs[j].key;
    assert EarlierSettled(w.chains, j);
    assert w.chains.jobs[k].status.Waiting? || EarlierSettled(w.chains, k);
  }

  function Initial(initial: map<Slot, Task>, slot: Slot): Option<Task> {
    if slot in initial then Some(initial[slot]) else None
  }

  /** What a save does to the store, given that its snapshot is current. */
  lemma SaveWritesItsSlot(v: World, j: nat)
    requires Shape(v) && Can(v, Action.Save(j)) && SnapshotsAreCurrent(v)
    ensures var w, r := Do(v, Action.Save(j)), v.requests[j];
      && Stored(w, SlotOf(r)) == SlotStep(Stored(v, SlotOf(r)), r.write.latest, r.write.event)
      && forall slot | slot != SlotOf(r) :: Stored(w, slot) == Stored(v, slot)
  {
    var r := v.requests[j];
    SlotStepIsProcess(Manager(None, r.write.latest, None), r.write.event, Stored(v, SlotOf(r)));
  }

  lemma SaveIsLinear(initial: map<Slot, Task>, v: World, j: nat)
    requires Sound(v) && LocksCoverSlots(v.requests) && SnapshotsAreCurrent(v) && Linear(initial, v)
    requires Can(v, Action.Save(j))
    ensures Linear(initial, Do(v, Action.Save(j)))
  {
    var w, r := Do(v, Action.Save(j)), v.requests[j];
    var mine := SlotOf(r);
    SaveWritesItsSlot(v, j);
    forall slot ensures Stored(w, slot) == SlotFold(Initial(initial, slot), Effective(w, slot, |w.requests|)) {
      if slot == mine {
        forall k | j < k < |v.requests| && SlotOf(v.requests[k]) == mine ensures !v.phases[k].Committed? {
          OthersAreOut(v, j, k);
        }
        EffectiveAfterCommit(v, w, j, |v.requests|);
        FoldSnoc(Initial(initial, mine), Effective(v, mine, |v.requests|), r.write);
      } else {
        EffectiveUnchanged(v, w, slot, |v.requests|);
      }
    }
  }

  lemma FoldSnoc(slot: Option<Task>, writes: seq<Write>, last: Write)
    ensures SlotFold(slot, writes + [last]) == SlotStep(SlotFold(slot, writes), last.latest, last.event)
  {
    assert (writes + [last])[..|writes|] == writes;
  }

  lemma SaveKeepsSnapshots(v: World, j: nat)
    requires Sound(v) && LocksCoverSlots(v.requests) && SnapshotsAreCurrent(v) && Can(v, Action.Save(j))
    ensures SnapshotsAreCurrent(Do(v, Action.Save(j)))
  {
    var w := Do(v, Action.Save(j));
    SaveWritesItsSlot(v, j);
    forall k | 0 <= k < |w.phases| && w.phases[k].HasSnapshot? && w.chains.jobs[k].status.Running?
      ensures w.phases[k].snapshot == Stored(w, SlotOf(w.requests[k]))
    {
      if SlotOf(v.requests[k]) == SlotOf(v.requests[j]) { OthersAreOut(v, j, k); }
    }
  }

  lemma SameStoreIsLinear(initial: map<Slot, Task>, v: World, w: World)
    requires Shape(v) && Shape(w) && Linear(initial, v) && w.store == v.store && w.requests == v.requests
    requires forall k | 0 <= k < |v.phases| :: v.phases[k].Committed? == w.phases[k].Committed?
    ensures Linear(initial, w)
  {
    forall slot ensures Stored(w, slot) == SlotFold(Initial(initial, slot), Effective(w, slot, |w.requests|)) {
      EffectiveUnchanged(v, w, slot, |v.requests|);
      assert Stored(v, slot) == Stored(w, slot);
    }
  }

  lemma EnqueueKeepsEffective(v: World, r: Request, slot: Slot)
    requires Shape(v) && Can(v, Enqueue(r))
    ensures var w := Do(v, Enqueue(r)); Effective(w, slot, |w.requests|) == Effective(v, slot, |v.requests|)
  {
    var w := Do(v, Enqueue(r));
    EffectiveUnchanged(v, w, slot, |v.requests|);
    assert Effective(w, slot, |w.requests|) == Effective(w, slot, |v.requests|);
  }

  lemma EnqueueIsLinear(initial: map<Slot, Task>, v: World, r: Request)
    requires Sound(v) && Linear(initial, v) && Can(v, Enqueue(r))
    ensures Linear(initial, Do(v, Enqueue(r)))
  {
    var w := Do(v, Enqueue(r));
    forall slot ensures Stored(w, slot) == SlotFold(Initial(initial, slot), Effective(w, slot, |w.requests|)) {
      EnqueueKeepsEffective(v, r, slot);
      assert Stored(v, slot) == Stored(w, slot);
    }
  }

  lemma EnqueueKeepsSnapshots(v: World, r: Request)
    requires Sound(v) && SnapshotsAreCurrent(v) && Can(v, Enqueue(r))
    ensures SnapshotsAreCurrent(Do(v, Enqueue(r)))
  {
    var w := Do(v, Enqueue(r));
    forall k | 0 <= k < |w.phases| && w.phases[k].HasSnapshot? && w.chains.jobs[k].status.Running?
      ensures w.phases[k].snapshot == Stored(w, SlotOf(w.requests[k]))
    {
      assert k < |v.phases| && w.chains.jobs[k] == v.chains.jobs[k];
      assert Stored(v, SlotOf(v.requests[k])) == Stored(w, SlotOf(v.requests[k]));
    }
  }

  lemma OtherStepsAreLinear(initial: map<Slot, Task>, v: World, a: Action)
    requires Shape(v) && Linear(initial, v) && Can(v, a) && !a.Save? && !a.Enqueue?
    ensures Linear(initial, Do(v, a))
  {
    var w := Do(v, a);
    assert Shape(w) && w.store == v.store && w.requests == v.requests;
    assert forall k | 0 <= k < |v.phases| :: v.phases[k].Committed? == w.phases[k].Committed?;
    SameStoreIsLinear(initial, v, w);
  }

  lemma ChainStepKeepsSnapshots(v: World, step: Step)
    requires Sound(v) && SnapshotsAreCurrent(v) && !step.Chain? && Enabled(v.chains, step)
    ensures SnapshotsAreCurrent(v.(chains := Next(v.chains, step)))
  {
    var c := Next(v.chains, step);
    assert forall k | 0 <= k < |c.jobs| && c.jobs[k].status.Running? ::
      v.chains.jobs[k].status.Running? || v.chains.jobs[k].status.Waiting?;
    assert forall slot :: Stored(v.(chains := c), slot) == Stored(v, slot);
  }

  lemma LoadKeepsSnapshots(v: World, j: nat)
    requires Sound(v) && SnapshotsAreCurrent(v) && Can(v, Action.Load(j))
    ensures SnapshotsAreCurrent(Do(v, Action.Load(j)))
  {
    var w := Do(v, Action.Load(j));
    assert forall slot :: Stored(w, slot) == Stored(v, slot);
  }

  lemma OtherStepsKeepSnapshots(v: World, a: Action)
    requires Sound(v) && SnapshotsAreCurrent(v) && Can(v, a) && !a.Save? && !a.Enqueue?
    ensures SnapshotsAreCurrent(Do(v, a))
  {
    match a
    case Begin(j) => ChainStepKeepsSnapshots(v, Start(j));
    case Load(j) => LoadKeepsSnapshots(v, j);
    case Finish(j, ok) => ChainStepKeepsSnapshots(v, Settle(j, ok));
    case Release(j) => ChainStepKeepsSnapshots(v, Evict(j));
  }

  ghost predicate IsFold(initial: map<Slot, Task>, w: World) {
    Shape(w) && SnapshotsAreCurrent(w) && Linear(initial, w)
  }

  lemma FoldIs(initial: map<Slot, Task>, w: World)
    requires Shape(w)
    ensures IsFold(initial, w) <==> SnapshotsAreCurrent(w) && Linear(initial, w)
  {}

  lemma SaveKeepsFold(initial: map<Slot, Task>, v: World, j: nat)
    requires Sound(v) && LocksCoverSlots(v.requests) && IsFold(initial, v) && Can(v, Action.Save(j))
    ensures IsFold(initial, Do(v, Action.Save(j)))
  {
    SaveIsLinear(initial, v, j);
    SaveKeepsSnapshots(v, j);
    FoldIs(initial, Do(v, Action.Save(j)));
  }

  lemma EnqueueKeepsFold(initial: map<Slot, Task>, v: World, r: Request)
    requires Sound(v) && IsFold(initial, v) && Can(v, Enqueue(r))
    ensures IsFold(initial, Do(v, Enqueue(r)))
  {
    EnqueueIsLinear(initial, v, r);
    EnqueueKeepsSnapshots(v, r);
    FoldIs(initial, Do(v, Enqueue(r)));
  }

  lemma OtherStepsKeepFold(initial: map<Slot, Task>, v: World, a: Action)
    requires Sound(v) && IsFold(initial, v) && Can(v, a) && !a.Save? && !a.Enqueue?
    ensures IsFold(initial, Do(v, a))
  {
    OtherStepsAreLinear(initial, v, a);
    OtherStepsKeepSnapshots(v, a);
    FoldIs(initial, Do(v, a));
  }

  lemma StepKeepsFold(initial: map<Slot, Task>, v: World, a: Action)
    requires Sound(v) && LocksCoverSlots(v.requests) && IsFold(initial, v) && Can(v, a)
    ensures IsFold(initial, Do(v, a))
  {
    match a
    case Save(j) => SaveKeepsFold(initial, v, j);
    case Enqueue(r) => EnqueueKeepsFold(initial, v, r);
    case _ => OtherStepsKeepFold(initial, v, a);
  }

  lemma RequestsGrow(v: World, a: Action)
    requires Shape(v) && Can(v, a) && LocksCoverSlots(Do(v, a).requests)
    ensures LocksCoverSlots(v.requests)
  {
    var w := Do(v, a);
    assert |v.requests| <= |w.requests| && forall i | 0 <= i < |v.requests| :: w.requests[i] == v.requests[i];
  }

  lemma StartIsFold(initial: map<Slot, Task>)
    ensures IsFold(initial, World(EMPTY, [], [], initial))
  {}

  lemma {:induction false} RunIsLinear(initial: map<Slot, Task>, actions: seq<Action>, w: World)
    requires Run(initial, actions, w) && LocksCoverSlots(w.requests)
    ensures IsFold(initial, w)
    decreases |actions|
  {
    if actions == [] {
      StartIsFold(initial);
    } else {
      var n := |actions| - 1;
      var v := Before(initial, actions, w);
      RequestsGrow(v, actions[n]);
      RunIsSound(initial, actions[..n], v);
      RunIsLinear(initial, actions[..n], v);
      StepKeepsFold(initial, v, actions[n]);
    }
  }

  /** Whatever the interleaving and whatever fails, the stored task is the sequential fold of
      the merge step over the events that took effect, in the order they were enqueued. */
  lemma StoreIsSequentialFold(initial: map<Slot, Task>, actions: seq<Action>, w: World, slot: Slot)
    requires Run(initial, actions, w) && LocksCoverSlots(w.requests)
    ensures Shape(w)
    ensures Stored(w, slot) ==
      SlotFold(Initial(initial, slot), Effective(w, slot, |w.requests|))
  {
    RunIsLinear(initial, actions, w);
  }

  function WritesTo(requests: seq<Request>, slot: Slot): seq<Write> {
    if requests == [] then []
    else
      var last := requests[|requests| - 1];
      WritesTo(requests[..|requests| - 1], slot) + if SlotOf(last) == slot then [last.write] else []
  }

  /** When every job was fulfilled, no sibling's contribution is lost. */
  lemma NoContributionIsLost(initial: map<Slot, Task>, actions: seq<Action>, w: World, slot: Slot)
    requires Run(initial, actions, w) && LocksCoverSlots(w.requests)
    requires forall j | 0 <= j < |w.chains.jobs| :: w.chains.jobs[j].status == Settled(true)
    ensures Stored(w, slot) == SlotFold(Initial(initial, slot), WritesTo(w.requests, slot))
  {
    StoreIsSequentialFold(initial, actions, w, slot);
    FulfilledMeansCommitted(initial, actions, w);
    AllEffective(w, slot, |w.requests|);
    assert w.requests[..|w.requests|] == w.requests;
  }

  ghost predicate FulfilledCommitted(w: World)
    requires Shape(w)
  {
    forall j | 0 <= j < |w.phases| && w.chains.jobs[j].status == Settled(true) :: w.phases[j].Committed?
  }

  lemma StepKeepsFulfilledCommitted(v: World, a: Action)
    requires Shape(v) && Can(v, a) && FulfilledCommitted(v)
    ensures Shape(Do(v, a)) && FulfilledCommitted(Do(v, a))
  {
    if a.Enqueue? {
      var w := Do(v, a);
      assert forall j | 0 <= j < |v.phases| :: w.chains.jobs[j] == v.chains.jobs[j] && w.phases[j] == v.phases[j];
    }
  }

  lemma {:induction false} FulfilledMeansCommitted(initial: map<Slot, Task>, actions: seq<Action>, w: World)
    requires Run(initial, actions, w)
    ensures Shape(w) && FulfilledCommitted(w)
    decreases |actions|
  {
    if actions != [] {
      var v := Before(initial, actions, w);
      FulfilledMeansCommitted(initial, actions[..|actions| - 1], v);
      StepKeepsFulfilledCommitted(v, actions[|actions| - 1]);
    }
  }

  lemma {:induction false} AllEffective(w: World, slot: Slot, n: nat)
    requires Shape(w) && n <= |w.requests| && forall j | 0 <= j < n :: w.phases[j].Committed?
    ensures Effective(w, slot, n) == WritesTo(w.requests[..n], slot)
  {
    if n > 0 {
      AllEffective(w, slot, n - 1);
      assert w.requests[..n][..n - 1] == w.requests[..n - 1];
    }
  }

  // ---------- when the lock does cover the slot ----------

  /** Two callers in one tenant share the lock of a task exactly when they have one user name; a
      missing name is an empty one. */
  lemma SameNameSameLock(a: Context, b: Context, id: Text)
    requires TenantOf(a) == TenantOf(b)
    ensures LockKey(a, id) == LockKey(b, id) <==> LockOwner(a) == LockOwner(b)
  {
    var t := TenantOf(a);
    assert LockKey(a, id)[|t| + 1..] == LockOwner(a) + [0] + id;
    assert LockKey(b, id)[|t| + 1..] == LockOwner(b) + [0] + id;
    if LockKey(a, id) == LockKey(b, id) {
      assert |LockOwner(a)| == |LockOwner(b)|;
      assert (LockOwner(a) + [0] + id)[..|LockOwner(a)|] == LockOwner(a);
      assert (LockOwner(b) + [0] + id)[..|LockOwner(b)|] == LockOwner(b);
    }
  }

  predicate NulFree(t: Text) { 0 !in t }

  lemma SplitAtNul(a: Text, b: Text, x: Text, y: Text)
    requires NulFree(a) && NulFree(b) && a + [0] + x == b + [0] + y
    ensures a == b && x == y
  {
    var t := a + [0] + x;
    assert t[|a|] == 0 && t[|b|] == 0;
    assert forall i | 0 <= i < |a| :: t[i] == a[i] && a[i] in a;
    assert forall i | 0 <= i < |b| :: t[i] == b[i] && b[i] in b;
    assert a == t[..|a|] && b == t[..|b|];
    assert x == t[|a| + 1..] && y == t[|b| + 1..];
  }

  /** Between tenants and users whose names hold no NUL, one lock is one tenant (a missing one being
      the empty one), one user name (likewise) and one task id: two tenants never wait for each
      other, nor do two users of one tenant or two tasks of one user. */
  lemma LocksAreSeparate(a: Context, b: Context, id: Text, other: Text)
    requires a.tenant.Some? ==> NulFree(a.tenant.value)
    requires b.tenant.Some? ==> NulFree(b.tenant.value)
    requires a.userName.Some? ==> NulFree(a.userName.value)
    requires b.userName.Some? ==> NulFree(b.userName.value)
    ensures LockKey(a, id) == LockKey(b, other) <==>
      SameOrBothEmpty(a.tenant, b.tenant) && SameOrBothEmpty(a.userName, b.userName) && id == other
  {
    if LockKey(a, id) == LockKey(b, other) {
      assert LockKey(a, id) == TenantOf(a) + [0] + (LockOwner(a) + [0] + id);
      assert LockKey(b, other) == TenantOf(b) + [0] + (LockOwner(b) + [0] + other);
      SplitAtNul(TenantOf(a), TenantOf(b), LockOwner(a) + [0] + id, LockOwner(b) + [0] + other);
      SplitAtNul(LockOwner(a), LockOwner(b), id, other);
    }
  }

  predicate SameName(x: Request, y: Request) { LockOwner(x.context) == LockOwner(y.context) }

  /** So the locks cover the slots, whatever the store's owner resolver, exactly when any two
      requests on one slot come under one user name. */
  lemma LocksCoverSlotsIff(requests: seq<Request>)
    ensures LocksCoverSlots(requests) <==>
      forall i, j | 0 <= i < |requests| && 0 <= j < |requests| && SlotOf(requests[i]) == SlotOf(requests[j]) ::
        SameName(requests[i], requests[j])
  {
    forall i, j | 0 <= i < |requests| && 0 <= j < |requests| && SlotOf(requests[i]) == SlotOf(requests[j])
      ensures SameName(requests[i], requests[j]) <==>
        LockKey(requests[i].context, TaskIdOf(requests[i].write.event)) ==
            LockKey(requests[j].context, TaskIdOf(requests[j].write.event))
    {
      SameNameSameLock(requests[i].context, requests[j].context, TaskIdOf(requests[i].write.event));
    }
  }

  /** Any two callers whose tasks are one slot to the store but have different locks can lose an
      update: each loads before the other saves, and the stored task is no sequential fold of the
      two events. */
  lemma DifferentLocksLoseAnUpdate(x: Context, y: Context, owner: Text, task: Task, a: Artifact, b: Artifact)
    returns (actions: seq<Action>, w: World)
    requires TenantOf(x) == TenantOf(y) && LockKey(x, task.id) != LockKey(y, task.id)
    requires task.id != [] && task.artifacts == [] && a.artifactId != b.artifactId
    ensures var slot := Slot(Scope(TenantOf(x), owner), task.id);
      && Run(map[slot := task], actions, w)
      && w.requests == [Request(x, owner, Adds(task, a)), Request(y, owner, Adds(task, b))]
      && Shape(w) && (forall j | 0 <= j < 2 :: w.chains.jobs[j].status == Settled(true))
      && Stored(w, slot) != SlotFold(Some(task), [Adds(task, a), Adds(task, b)])
      && Stored(w, slot) != SlotFold(Some(task), [Adds(task, b), Adds(task, a)])
  {
    var slot := Slot(Scope(TenantOf(x), owner), task.id);
    actions, w := SecondSaveWins(x, y, owner, task, a, b);
    assert Stored(w, slot).value.artifacts == [b];
    AddsBoth(task, a, b);
    AddsBoth(task, b, a);
  }

  lemma SecondSaveWins(x: Context, y: Context, owner: Text, task: Task, a: Artifact, b: Artifact)
    returns (actions: seq<Action>, w: World)
    requires TenantOf(x) == TenantOf(y) && LockKey(x, task.id) != LockKey(y, task.id)
    requires task.id != [] && task.artifacts == []
    ensures var slot := Slot(Scope(TenantOf(x), owner), task.id);
      && Run(map[slot := task], actions, w)
      && w.requests == [Request(x, owner, Adds(task, a)), Request(y, owner, Adds(task, b))]
      && Shape(w) && (forall j | 0 <= j < 2 :: w.chains.jobs[j].status == Settled(true))
      && Stored(w, slot) == Some(task.(artifacts := [b]))
  {
    var first, second := Request(x, owner, Adds(task, a)), Request(y, owner, Adds(task, b));
    actions := Race(first, second) + [Action.Save(0)] + [Action.Save(1)] + [Finish(0, true)] + [Finish(1, true)];
    var v := BothSee(x, y, owner, task, a, b);
    AddsOne(task, b, task);
    SavesOverwrite(v, first, second, task, b);
    w := BothSave(map[Slot(Scope(TenantOf(x), owner), task.id) := task], first, second, v);
  }

  lemma BothSee(x: Context, y: Context, owner: Text, task: Task, a: Artifact, b: Artifact) returns (v: World)
    requires TenantOf(x) == TenantOf(y) && LockKey(x, task.id) != LockKey(y, task.id) && task.id != []
    ensures var first, second := Request(x, owner, Adds(task, a)), Request(y, owner, Adds(task, b));
      && Shape(v) && Run(map[Slot(Scope(TenantOf(x), owner), task.id) := task], Race(first, second), v)
      && v.requests == [first, second] && IsRunning(v, 0) && IsRunning(v, 1)
      && v.phases == [HasSnapshot(Some(task)), HasSnapshot(Some(task))]
  {
    v := BothLoad(map[Slot(Scope(TenantOf(x), owner), task.id) := task],
                  Request(x, owner, Adds(task, a)), Request(y, owner, Adds(task, b)));
  }

  lemma SavesOverwrite(v: World, first: Request, second: Request, task: Task, b: Artifact)
    requires Shape(v) && v.requests == [first, second] && IsRunning(v, 0) && IsRunning(v, 1) && task.artifacts == []
    requires SlotOf(first) == SlotOf(second) == Slot(ScopeIn(second), task.id)
    requires v.phases[0].HasSnapshot? && v.phases[1] == HasSnapshot(Some(task))
    requires Process(Manager(None, second.write.latest, None), second.write.event, Some(task)).save ==
        Some(task.(artifacts := [] + [b]))
    ensures Stored(Do(Do(v, Action.Save(0)), Action.Save(1)), SlotOf(second)) == Some(task.(artifacts := [b]))
  {
    assert [] + [b] == [b];
  }

  /** Requests of these callers, their owners named by this resolver. */
  ghost predicate From(requests: seq<Request>, resolver: Context -> Text, contexts: set<Context>) {
    forall i | 0 <= i < |requests| ::
      requests[i].context in contexts && requests[i].owner == resolver(requests[i].context)
  }

  /** In every run of managers with these contexts over a store with this resolver, every stored
      task is the sequential fold of the writes that took effect. */
  ghost predicate AlwaysSequential(resolver: Context -> Text, contexts: set<Context>) {
    forall initial, actions, w, slot | Run(initial, actions, w) && Shape(w) && From(w.requests, resolver, contexts) ::
      Stored(w, slot) == SlotFold(Initial(initial, slot), Effective(w, slot, |w.requests|))
  }

  /** In one tenant, to one owner, there is one user name. */
  ghost predicate OneNamePerOwner(resolver: Context -> Text, contexts: set<Context>) {
    forall a, b | a in contexts && b in contexts && TenantOf(a) == TenantOf(b) && resolver(a) == resolver(b) ::
      LockOwner(a) == LockOwner(b)
  }

  /** The exact condition, for any owner resolver: callers never lose an update, in any run on
      any slot, if and only if the resolver gives no owner to two user names of one tenant. */
  lemma NoUpdateIsLostIff(resolver: Context -> Text, contexts: set<Context>)
    ensures AlwaysSequential(resolver, contexts) <==> OneNamePerOwner(resolver, contexts)
  {
    if OneNamePerOwner(resolver, contexts) {
      forall initial, actions, w, slot | Run(initial, actions, w) && Shape(w) && From(w.requests, resolver, contexts)
        ensures Stored(w, slot) == SlotFold(Initial(initial, slot), Effective(w, slot, |w.requests|))
      {
        LocksCoverSlotsIff(w.requests);
        StoreIsSequentialFold(initial, actions, w, slot);
      }
    } else {
      var a, b :| a in contexts && b in contexts && TenantOf(a) == TenantOf(b) && resolver(a) == resolver(b) &&
          LockOwner(a) != LockOwner(b);
      TwoNamesLose(resolver, contexts, a, b);
    }
  }

  lemma TwoNamesLose(resolver: Context -> Text, contexts: set<Context>, x: Context, y: Context)
    requires x in contexts && y in contexts && TenantOf(x) == TenantOf(y) && resolver(x) == resolver(y)
    requires LockOwner(x) != LockOwner(y)
    ensures !AlwaysSequential(resolver, contexts)
  {
    var a, b := Artifact([], [], [], [], None, []), Artifact([65], [], [], [], None, []);
    var task, owner := Task([65], [], None, [], [], None), resolver(x);
    SameNameSameLock(x, y, task.id);
    var actions, w := DifferentLocksLoseAnUpdate(x, y, owner, task, a, b);
    var slot := Slot(Scope(TenantOf(x), owner), task.id);
    BothTookEffect(map[slot := task], actions, w, slot, Request(x, owner, Adds(task, a)), Request(y, owner, Adds(task,
        b)));
    assert From(w.requests, resolver, contexts);
  }

  lemma BothTookEffect(initial: map<Slot, Task>, actions: seq<Action>, w: World, slot: Slot, x: Request, y: Request)
    requires Run(initial, actions, w) && Shape(w) && w.requests == [x, y] && SlotOf(x) == slot == SlotOf(y)
    requires forall j | 0 <= j < 2 :: w.chains.jobs[j].status == Settled(true)
    ensures Effective(w, slot, |w.requests|) == [x.write, y.write]
  {
    FulfilledMeansCommitted(initial, actions, w);
    assert Effective(w, slot, 1) == [] + [x.write];
    assert [x.write] + [y.write] == [x.write, y.write];
  }

  predicate Clash(a: Context, b: Context) { LockOwner(a) == [] && LockOwner(b) == Lit("unknown") }

  /** Under the default resolver two callers on one slot share its lock unless they are such a pair. */
  lemma SameSlotSameLock(a: Context, b: Context, id: Text)
    requires ScopeOf(a) == ScopeOf(b)
    ensures LockKey(a, id) == LockKey(b, id) <==> !Clash(a, b) && !Clash(b, a)
  {
    SameNameSameLock(a, b, id);
  }

  /** For the default resolver: if and only if no two callers in one tenant are an anonymous one
      (no user name, or an empty one) and one called "unknown". */
  lemma DefaultResolverLosesIff(contexts: set<Context>)
    ensures AlwaysSequential(OwnerOf, contexts) <==>
      forall a, b | a in contexts && b in contexts && TenantOf(a) == TenantOf(b) :: !Clash(a, b)
  {
    NoUpdateIsLostIff(OwnerOf, contexts);
    forall a, b | a in contexts && b in contexts && TenantOf(a) == TenantOf(b)
      ensures (OwnerOf(a) == OwnerOf(b) ==> LockOwner(a) == LockOwner(b)) <==> !Clash(a, b) && !Clash(b, a)
    {}
  }

  function Adds(task: Task, a: Artifact): Write {
    Write(None, ArtifactEvent(ArtifactUpdate(task.id, task.contextId, Some(a), false, true, None)))
  }

  lemma AddsOne(task: Task, a: Artifact, stored: Task)
    requires task.id != [] && stored.id == task.id && FindIndex(stored.artifacts, a.artifactId) < 0
    ensures SlotStep(Some(stored), Adds(task, a).latest, Adds(task, a).event) ==
      Some(stored.(artifacts := stored.artifacts + [a]))
    ensures Process(Manager(None, None, None), Adds(task, a).event, Some(stored)).save ==
      Some(stored.(artifacts := stored.artifacts + [a]))
  {}

  lemma AddsBoth(task: Task, a: Artifact, b: Artifact)
    requires task.id != [] && task.artifacts == [] && a.artifactId != b.artifactId
    ensures SlotFold(Some(task), [Adds(task, a), Adds(task, b)]) == Some(task.(artifacts := [a, b]))
  {
    var one := task.(artifacts := [a]);
    AddsOne(task, a, task);
    AddsOne(task, b, one);
    assert [] + [a] == [a] && [a] + [b] == [a, b];
    FoldSnoc(Some(task), [], Adds(task, a));
    assert [] + [Adds(task, a)] == [Adds(task, a)];
    FoldSnoc(Some(task), [Adds(task, a)], Adds(task, b));
    assert [Adds(task, a)] + [Adds(task, b)] == [Adds(task, a), Adds(task, b)];
  }

  lemma RunSnoc(initial: map<Slot, Task>, actions: seq<Action>, v: World, a: Action) returns (w: World)
    requires Run(initial, actions, v) && Shape(v) && Can(v, a)
    ensures w == Do(v, a) && Run(initial, actions + [a], w) && Shape(w)
  {
    w := Do(v, a);
    assert (actions + [a])[..|actions|] == actions;
  }

  function Race(x: Request, y: Request): seq<Action> {
    Begun(x, y) + [Action.Load(0)] + [Action.Load(1)]
  }

  function Begun(x: Request, y: Request): seq<Action> { [Enqueue(x)] + [Enqueue(y)] + [Begin(0)] + [Begin(1)] }

  lemma BothBegin(initial: map<Slot, Task>, x: Request, y: Request) returns (w: World)
    requires TaskIdOf(x.write.event) != [] && TaskIdOf(y.write.event) != []
    requires LockKey(x.context, TaskIdOf(x.write.event)) != LockKey(y.context, TaskIdOf(y.write.event))
    ensures Shape(w) && Run(initial, Begun(x, y), w) && w.requests == [x, y] && w.store == initial
    ensures IsRunning(w, 0) && IsRunning(w, 1) && w.phases == [Idle, Idle]
  {
    w := BothChained(initial, x, y);
    w := RunSnoc(initial, [Enqueue(x)] + [Enqueue(y)], w, Begin(0));
    w := RunSnoc(initial, [Enqueue(x)] + [Enqueue(y)] + [Begin(0)], w, Begin(1));
  }

  lemma BothLoad(initial: map<Slot, Task>, x: Request, y: Request) returns (w: World)
    requires TaskIdOf(x.write.event) != [] && TaskIdOf(y.write.event) != []
    requires LockKey(x.context, TaskIdOf(x.write.event)) != LockKey(y.context, TaskIdOf(y.write.event))
    ensures Shape(w) && Run(initial, Race(x, y), w) && w.requests == [x, y] && w.store == initial
    ensures IsRunning(w, 0) && IsRunning(w, 1)
    ensures w.phases == [HasSnapshot(Stored(w, SlotOf(x))), HasSnapshot(Stored(w, SlotOf(y)))]
  {
    w := BothBegin(initial, x, y);
    w := RunSnoc(initial, Begun(x, y), w, Action.Load(0));
    w := RunSnoc(initial, Begun(x, y) + [Action.Load(0)], w, Action.Load(1));
  }

  lemma ChainedFree(v: World, r: Request)
    requires Shape(v) && Can(v, Enqueue(r)) && LockKey(r.context, TaskIdOf(r.write.event)) !in v.chains.tails
    ensures var w := Do(v, Enqueue(r));
      w.requests == v.requests + [r] && w.phases == v.phases + [Idle] && w.store == v.store &&
      w.chains.jobs == v.chains.jobs + [Job(LockKey(r.context, TaskIdOf(r.write.event)), None, Waiting, false)]
  {}

  lemma BothChained(initial: map<Slot, Task>, x: Request, y: Request) returns (w: World)
    requires TaskIdOf(x.write.event) != [] && TaskIdOf(y.write.event) != []
    requires LockKey(x.context, TaskIdOf(x.write.event)) != LockKey(y.context, TaskIdOf(y.write.event))
    ensures Shape(w) && Run(initial, [Enqueue(x)] + [Enqueue(y)], w)
    ensures w.requests == [x, y] && w.store == initial && w.phases == [Idle, Idle]
    ensures forall j | 0 <= j < 2 :: w.chains.jobs[j].status.Waiting? && w.chains.jobs[j].prev.None?
  {
    var start := World(EMPTY, [], [], initial);
    ChainedFree(start, x);
    var v := RunSnoc(initial, [], start, Enqueue(x));
    assert [] + [Enqueue(x)] == [Enqueue(x)];
    ChainedFree(v, y);
    w := RunSnoc(initial, [Enqueue(x)], v, Enqueue(y));
  }

  lemma BothSave(initial: map<Slot, Task>, x: Request, y: Request, v: World) returns (w: World)
    requires Shape(v) && Run(initial, Race(x, y), v) && v.requests == [x, y] && IsRunning(v, 0) && IsRunning(v, 1)
    requires v.phases[0].HasSnapshot? && v.phases[1].HasSnapshot?
    ensures Shape(w) && w.requests == v.requests
    ensures Run(initial, Race(x, y) + [Action.Save(0)] + [Action.Save(1)] + [Finish(0, true)] + [Finish(1, true)], w)
    ensures w.store == Do(Do(v, Action.Save(0)), Action.Save(1)).store
    ensures w.chains.jobs[0].status == Settled(true) && w.chains.jobs[1].status == Settled(true)
  {
    w := RunSnoc(initial, Race(x, y), v, Action.Save(0));
    w := RunSnoc(initial, Race(x, y) + [Action.Save(0)], w, Action.Save(1));
    w := BothFinish(initial, Race(x, y) + [Action.Save(0)] + [Action.Save(1)], w);
  }

  lemma BothFinish(initial: map<Slot, Task>, actions: seq<Action>, v: World) returns (w: World)
    requires Shape(v) && Run(initial, actions, v) && IsRunning(v, 0) && IsRunning(v, 1)
    requires v.phases[0].Committed? && v.phases[1].Committed?
    ensures Shape(w) && w.requests == v.requests && w.store == v.store &&
        Run(initial, actions + [Finish(0, true)] + [Finish(1, true)], w)
    ensures w.chains.jobs[0].status == Settled(true) && w.chains.jobs[1].status == Settled(true)
  {
    w := RunSnoc(initial, actions, v, Finish(0, true));
    w := RunSnoc(initial, actions + [Finish(0, true)], w, Finish(1, true));
  }
}
