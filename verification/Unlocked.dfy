/** The writers that take no lock: `_createRequestContext`, which appends a follow-up message, and
    a direct `cancelTask` (src/server/request_handler/default_request_handler.ts). One slot of the
    store, its locked jobs one at a time, and any number of such load-and-save pairs beside them. */
module Unlocked {
  import opened Base
  import opened Protocol
  import opened ResultManagers

  datatype Edit = FollowsUp(incoming: Message) | Cancels(message: Message, timestamp: Text)

  /** What the edit saves, given what it loaded; `None` when it refuses and saves nothing. */
  function Edited(loaded: Option<Task>, e: Edit): Option<Task> {
    match e
    case FollowsUp(m) => if FollowUp(loaded, m).Ok? then Some(FollowUp(loaded, m).value) else None
    case Cancels(m, timestamp) =>
      if loaded.None? || IsEnded(loaded.value) then None
      else Some(loaded.value.(status := Some(TaskStatus(Canceled, Some(m), Some(timestamp))),
          history := loaded.value.history + [m]))
  }

  predicate IsEnded(t: Task) { t.status.Some? && IsTerminal(t.status.value.state) }

  /** A direct cancel is refused exactly for a task that is missing or has ended. Otherwise it sets
      the status to CANCELED with its own message and time, puts that message behind the history,
      and changes nothing else. */
  lemma CancelIs(loaded: Option<Task>, m: Message, timestamp: Text)
    ensures Edited(loaded, Cancels(m, timestamp)).None? <==>
      loaded.None? ||
      (loaded.value.status.Some? &&
       (loaded.value.status.value.state == Completed || loaded.value.status.value.state == Failed ||
        loaded.value.status.value.state == Canceled || loaded.value.status.value.state == Rejected))
    ensures Edited(loaded, Cancels(m, timestamp)).Some? ==>
      var t := Edited(loaded, Cancels(m, timestamp)).value;
      && t.status.Some? && t.status.value.state == Canceled
      && t.status.value.message == Some(m) && t.status.value.timestamp == Some(timestamp)
      && t.history == loaded.value.history + [m]
      && t.(status := loaded.value.status, history := loaded.value.history) == loaded.value
  {}

  datatype Effect = Written(write: Write) | Made(edit: Edit)

  /** The effect as if it happened at once. */
  function EffectStep(slot: Option<Task>, e: Effect): Option<Task> {
    match e
    case Written(w) => SlotStep(slot, w.latest, w.event)
    case Made(edit) => if Edited(slot, edit).Some? then Edited(slot, edit) else slot
  }

  function EffectFold(slot: Option<Task>, effects: seq<Effect>): Option<Task> {
    if effects == [] then slot else EffectStep(EffectFold(slot, effects[..|effects| - 1]), effects[|effects| - 1])
  }

  // ---------- the steps ----------

  datatype Job = Job(write: Write, snapshot: Option<Task>)

  datatype Pair = Pair(edit: Edit, snapshot: Option<Task>, open: bool)

  /** `log` records what has been saved, in order; `overlapped` that a save came between the load
      and the save of another writer. */
  datatype Slotted = Slotted(stored: Option<Task>, job: Option<Job>, pairs: seq<Pair>, log: seq<Effect>,
      overlapped: bool)

  datatype Action = LoadJob(write: Write) | SaveJob | LoadEdit(edit: Edit) | SaveEdit(pair: nat)

  function Begin(initial: Option<Task>): Slotted { Slotted(initial, None, [], [], false) }

  predicate Can(s: Slotted, a: Action) {
    match a
    case LoadJob(_) => s.job.None?
    case SaveJob => s.job.Some?
    case LoadEdit(e) => Edited(s.stored, e).Some?
    case SaveEdit(k) => k < |s.pairs| && s.pairs[k].open && Edited(s.pairs[k].snapshot, s.pairs[k].edit).Some?
  }

  predicate NoneOpen(pairs: seq<Pair>) { forall i | 0 <= i < |pairs| :: !pairs[i].open }

  /** What the store gets from the step: a result computed from the snapshot, not from the store. */
  function Saved(s: Slotted, a: Action): Option<Task>
    requires Can(s, a)
  {
    match a
    case SaveJob =>
      var w := s.job.value.write;
      var save := Process(Manager(None, w.latest, None), w.event, s.job.value.snapshot).save;
      if save.Some? then save else s.stored
    case SaveEdit(k) => Edited(s.pairs[k].snapshot, s.pairs[k].edit)
    case _ => s.stored
  }

  function EffectOf(s: Slotted, a: Action): seq<Effect>
    requires Can(s, a)
  {
    match a
    case SaveJob => [Written(s.job.value.write)]
    case SaveEdit(k) => [Made(s.pairs[k].edit)]
    case _ => []
  }

  function Do(s: Slotted, a: Action): Slotted
    requires Can(s, a)
  {
    var stored, log := Saved(s, a), s.log + EffectOf(s, a);
    match a
    case LoadJob(w) => s.(job := Some(Job(w, s.stored)))
    case SaveJob => Slotted(stored, None, s.pairs, log, s.overlapped || !NoneOpen(s.pairs))
    case LoadEdit(e) => s.(pairs := s.pairs + [Pair(e, s.stored, true)])
    case SaveEdit(k) =>
      var pairs := s.pairs[k := s.pairs[k].(open := false)];
      Slotted(stored, s.job, pairs, log, s.overlapped || s.job.Some? || !NoneOpen(pairs))
  }

  ghost predicate Run(initial: Option<Task>, actions: seq<Action>, s: Slotted)
    decreases |actions|
  {
    if actions == [] then s == Begin(initial)
    else
      var n := |actions| - 1;
      exists v :: Run(initial, actions[..n], v) && Can(v, actions[n]) && s == Do(v, actions[n])
  }

  ghost function Before(initial: Option<Task>, actions: seq<Action>, s: Slotted): (v: Slotted)
    requires actions != [] && Run(initial, actions, s)
    ensures Run(initial, actions[..|actions| - 1], v) && Can(v, actions[|actions| - 1]) && s ==
        Do(v, actions[|actions| - 1])
  {
    var n := |actions| - 1;
    var v :| Run(initial, actions[..n], v) && Can(v, actions[n]) && s == Do(v, actions[n]);
    v
  }

  // ---------- exactly when nothing is lost ----------

  /** The step saves what it would have saved had it loaded just now. */
  predicate UpToDate(s: Slotted, a: Action)
    requires Can(s, a)
  {
    match a
    case SaveJob => Saved(s, a) == EffectStep(s.stored, Written(s.job.value.write))
    case SaveEdit(k) => Saved(s, a) == EffectStep(s.stored, Made(s.pairs[k].edit))
    case _ => true
  }

  predicate Sequential(initial: Option<Task>, s: Slotted) { s.stored == EffectFold(initial, s.log) }

  lemma FoldSnoc(initial: Option<Task>, log: seq<Effect>, e: Effect)
    ensures EffectFold(initial, log + [e]) == EffectStep(EffectFold(initial, log), e)
  {
    assert (log + [e])[..|log|] == log;
  }

  /** A store that is sequential stays so through a step exactly when that step is up to date. */
  lemma StepIsSequentialIff(initial: Option<Task>, s: Slotted, a: Action)
    requires Can(s, a) && Sequential(initial, s)
    ensures Sequential(initial, Do(s, a)) <==> UpToDate(s, a)
  {
    match a
    case SaveJob => FoldSnoc(initial, s.log, Written(s.job.value.write));
    case SaveEdit(k) => FoldSnoc(initial, s.log, Made(s.pairs[k].edit));
    case _ => assert s.log + [] == s.log;
  }

  /** A follow-up is up to date exactly when the stored task has not changed since it was loaded;
      anything saved in between is overwritten. */
  lemma FollowUpIsUpToDateIff(s: Slotted, k: nat)
    requires Can(s, SaveEdit(k)) && s.pairs[k].edit.FollowsUp?
    ensures UpToDate(s, SaveEdit(k)) <==> s.stored == s.pairs[k].snapshot
  {
    var m, before, now := s.pairs[k].edit.incoming, s.pairs[k].snapshot, s.stored;
    if UpToDate(s, SaveEdit(k)) && FollowUp(now, m).Ok? { SameAppended(before.value, now.value, m); }
  }

  lemma SameAppended(t: Task, u: Task, m: Message)
    requires t.(history := t.history + [m]) == u.(history := u.history + [m])
    ensures t == u
  {
    var h := t.(history := t.history + [m]).history;
    assert t.history == h[..|h| - 1] && u.history == h[..|h| - 1];
  }

  /** A direct cancel also overwrites, but what it sets anyway may have changed: it is up to date
      exactly when the stored task differs at most in its status or, having ended, is already what
      the cancel makes of it. */
  lemma CancelIsUpToDateIff(s: Slotted, k: nat)
    requires Can(s, SaveEdit(k)) && s.pairs[k].edit.Cancels?
    ensures var snapshot := s.pairs[k].snapshot.value;
      UpToDate(s, SaveEdit(k)) <==>
        if s.stored.Some? && !IsEnded(s.stored.value) then s.stored.value.(status := snapshot.status) == snapshot
        else s.stored == Saved(s, SaveEdit(k))
  {
    var e, before, now := s.pairs[k].edit, s.pairs[k].snapshot.value, s.stored;
    if now.Some? && !IsEnded(now.value) {
      var a, b := Edited(Some(before), e).value, Edited(now, e).value;
      assert a == b <==> now.value.(status := before.status) == before by {
        if a == b { SameAppended(before.(status := None), now.value.(status := None), e.message); }
      }
    }
  }

  /** A status or artifact update that was loaded before a follow-up was saved, and is saved after
      it, drops the message, unless it was there before or the update brings one with its id. */
  lemma UpdateInFlightDropsFollowUp(snapshot: Task, incoming: Message, w: Write)
    requires IsUpdate(w.event) && TaskIdOf(w.event) == snapshot.id && (w.event.ArtifactEvent? ==>
        w.event.artifact.artifact.Some?)
    ensures var saved := Process(Manager(None, w.latest, None), w.event, Some(snapshot)).save;
      && saved.Some?
      && (HasMessage(saved.value.history, incoming.messageId) <==>
          HasMessage(snapshot.history, incoming.messageId) || BringsMessage(w.event, incoming.messageId))
  {
    if w.event.StatusEvent? && w.event.status.status.Some? && w.event.status.status.value.message.Some? {
      var u := w.event.status.status.value.message.value;
      HasMessageSnoc(snapshot.history, u, incoming.messageId);
    }
  }

  predicate BringsMessage(e: Event, id: Text) {
    e.StatusEvent? && e.status.status.Some? && e.status.status.value.message.Some? &&
        e.status.status.value.message.value.messageId == id
  }

  lemma HasMessageSnoc(history: seq<Message>, m: Message, id: Text)
    ensures HasMessage(history + [m], id) <==> HasMessage(history, id) || m.messageId == id
  {
    var all := history + [m];
    assert all[|history|] == m && forall i | 0 <= i < |history| :: all[i] == history[i];
  }

  // ---------- a condition on the schedule alone ----------

  /** As long as no save has come between another writer's load and save, what every writer has
      loaded is what is stored. */
  predicate Fresh(s: Slotted) {
    && (s.job.Some? ==> s.job.value.snapshot == s.stored)
    && forall i | 0 <= i < |s.pairs| && s.pairs[i].open :: s.pairs[i].snapshot == s.stored &&
        Edited(s.stored, s.pairs[i].edit).Some?
  }

  lemma StepKeepsFresh(s: Slotted, a: Action)
    requires Can(s, a) && (!s.overlapped ==> Fresh(s)) && !Do(s, a).overlapped
    ensures Fresh(Do(s, a)) && UpToDate(s, a) && !s.overlapped
  {}

  /** In a run without such an overlap every writer's contribution is kept: the stored task is the
      sequential fold of all saves, locked and unlocked, in the order they happened. */
  lemma {:induction false} NoOverlapNothingLost(initial: Option<Task>, actions: seq<Action>, s: Slotted)
    requires Run(initial, actions, s) && !s.overlapped
    ensures Sequential(initial, s) && Fresh(s)
    decreases |actions|
  {
    if actions != [] {
      var v, a := Before(initial, actions, s), actions[|actions| - 1];
      assert !v.overlapped;
      NoOverlapNothingLost(initial, actions[..|actions| - 1], v);
      StepKeepsFresh(v, a);
      StepIsSequentialIff(initial, v, a);
    }
  }

  /** And the first overlapping save of a follow-up loses something unless nothing had changed:
      exactly then the stored task is no longer the sequential fold. */
  lemma FirstOverlapLosesIff(initial: Option<Task>, actions: seq<Action>, v: Slotted, k: nat)
    requires Run(initial, actions, v) && Sequential(initial, v) && Can(v, SaveEdit(k)) && v.pairs[k].edit.FollowsUp?
    ensures Run(initial, actions + [SaveEdit(k)], Do(v, SaveEdit(k)))
    ensures Sequential(initial, Do(v, SaveEdit(k))) <==> v.stored == v.pairs[k].snapshot
  {
    assert (actions + [SaveEdit(k)])[..|actions|] == actions;
    StepIsSequentialIff(initial, v, SaveEdit(k));
    FollowUpIsUpToDateIff(v, k);
  }
}
