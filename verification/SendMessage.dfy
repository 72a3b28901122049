/** How `sendMessage` settles its promise: `_processEvents`, `_handleProcessingError` and the
    blocking and non-blocking wirings around them
    (src/server/request_handler/default_request_handler.ts). */
module SendMessage {
  import opened Base
  import opened Protocol
  import opened Artifacts
  import opened ResultManagers

  // ---------- one event of the drain loop ----------

  /** What the store does while an event is processed. Other managers may write in between, so
      the loaded task is arbitrary. */
  datatype StoreAnswer = StoreAnswer(loadFails: bool, task: Option<Task>, saveFails: bool)

  datatype Input = Input(event: Event, store: StoreAnswer)

  /** The manager afterwards, whether processing succeeded, and the task that was saved. */
  datatype Handled = Handled(manager: Manager, ok: bool, saved: Option<Task>)

  predicate TouchesStore(e: Event) { !e.MessageEvent? && (e.ArtifactEvent? ==> e.artifact.artifact.Some?) }

  /** `processEvent`; a failed save leaves the merged task as the current one. */
  function Handle(m: Manager, input: Input): Handled {
    var e := input.event;
    if !TouchesStore(e) then Handled(Process(m, e, None).manager, true, None)
    else if TaskIdOf(e) != [] && input.store.loadFails then Handled(m, false, None)
    else
      var effect := Process(m, e, if TaskIdOf(e) == [] then None else input.store.task);
      if effect.save.Some? && input.store.saveFails then Handled(effect.manager, false, None)
      else Handled(effect.manager, true, effect.save)
  }

  /** An event fails to process exactly when it needs the store and the store fails: at the load
      of its task, if it names one, or else at the save, which a task event always makes and an
      update only for the task it names. */
  lemma ProcessingFailsIff(m: Manager, input: Input)
    ensures var e, store := input.event, input.store;
      var known := TaskIdOf(e) != [] && store.task.Some? && store.task.value.id == TaskIdOf(e);
      !Handle(m, input).ok <==>
        match e
        case MessageEvent(_) => false
        case TaskEvent(t) => (t.id != [] && store.loadFails) || store.saveFails
        case StatusEvent(u) => (u.taskId != [] && store.loadFails) || (known && store.saveFails)
        case ArtifactEvent(u) => u.artifact.Some? && ((u.taskId != [] && store.loadFails) || (known && store.saveFails))
    ensures Handle(m, input).saved.Some? ==>
      Handle(m, input).ok && !input.store.saveFails && Handle(m, input).saved == Handle(m, input).manager.currentTask
  {}

  datatype Mode = Blocking | NonBlocking

  datatype Settlement =
    | ResolvedMessage(message: Message)
    | ResolvedTask(task: Task)
    | RejectedByDrain
    | RejectedWithoutResult
    | RejectedProtocol

  function ResolveWith(r: FinalResult, historyLength: Option<int>): Option<Settlement> {
    match r
    case FinalMessage(m) => Some(ResolvedMessage(m))
    case FinalTask(t) => Some(ResolvedTask(Limited(t, historyLength)))
    case NoResult => None
  }

  /** The result an event gives the caller, if it is the first to give one: when blocking, a
      snapshot at AUTH_REQUIRED once the task is known; otherwise any task or message. */
  function Answer(mode: Mode, e: Event, m: Manager, historyLength: Option<int>): Option<Settlement> {
    if mode.Blocking? then
      if IsAuthRequired(e) && m.currentTask.Some?
      then Some(ResolvedTask(Limited(m.currentTask.value, historyLength)))
      else None
    else if e.MessageEvent? then Some(ResolvedMessage(e.message))
    else if e.TaskEvent? then Some(ResolvedTask(Limited(e.task, historyLength)))
    else ResolveWith(FinalResultOf(m), historyLength)
  }

  /** The settlement when the events run out. */
  function AtEnd(mode: Mode, m: Manager, historyLength: Option<int>): Settlement {
    if mode.NonBlocking? then RejectedProtocol
    else match ResolveWith(FinalResultOf(m), historyLength)
      case Some(s) => s
      case None => RejectedWithoutResult
  }

  // ---------- what the caller must get ----------

  /** The manager after the first `n` events. */
  function ManagerAt(m: Manager, inputs: seq<Input>, n: nat): Manager
    requires n <= |inputs|
  {
    if n == 0 then m else Handle(ManagerAt(m, inputs, n - 1), inputs[n - 1]).manager
  }

  predicate OkAt(m: Manager, inputs: seq<Input>, i: nat)
    requires i < |inputs|
  {
    Handle(ManagerAt(m, inputs, i), inputs[i]).ok
  }

  function AnswerAt(mode: Mode, m: Manager, inputs: seq<Input>, i: nat, historyLength: Option<int>): Option<Settlement>
    requires i < |inputs|
  {
    Answer(mode, inputs[i].event, ManagerAt(m, inputs, i + 1), historyLength)
  }

  /** The first event that gives an answer, or fails to process, settles the promise; with
      neither, the end of the events does. */
  ghost predicate SettlesAs(mode: Mode, m: Manager, inputs: seq<Input>, historyLength: Option<int>, s: Settlement) {
    exists k: nat | k <= |inputs| :: SettlesAt(mode, m, inputs, historyLength, k, s)
  }

  predicate SettlesAt(mode: Mode, m: Manager, inputs: seq<Input>, historyLength: Option<int>, k: nat, s: Settlement)
    requires k <= |inputs|
  {
    && (forall i | 0 <= i < k :: OkAt(m, inputs, i) && AnswerAt(mode, m, inputs, i, historyLength).None?)
    && if k == |inputs| then s == AtEnd(mode, ManagerAt(m, inputs, k), historyLength)
       else if !OkAt(m, inputs, k) then s == RejectedByDrain
       else AnswerAt(mode, m, inputs, k, historyLength) == Some(s)
  }

  /** Only one settlement fits a run. */
  lemma SettlementIsUnique(mode: Mode, m: Manager, inputs: seq<Input>, historyLength: Option<int>, s: Settlement,
      t: Settlement)
    requires SettlesAs(mode, m, inputs, historyLength, s) && SettlesAs(mode, m, inputs, historyLength, t)
    ensures s == t
  {}

  /** Promise settlement is one-shot: later `resolve` and `reject` calls are ignored. */
  function SettleOnce(p: Option<Settlement>, s: Settlement): Option<Settlement> { if p.Some? then p else Some(s) }

  predicate IsFailed(u: StatusUpdate) { u.status.Some? && u.status.value.state == Failed }

  /** Only the event that fails first can fail after an answer. */
  lemma FailuresAreHere(mode: Mode, m: Manager, inputs: seq<Input>, historyLength: Option<int>, i: nat, answered: bool)
    requires i < |inputs| && (forall j | 0 <= j < i :: OkAt(m, inputs, j)) && !OkAt(m, inputs, i)
    requires !answered ==> forall j | 0 <= j < i :: AnswerAt(mode, m, inputs, j, historyLength).None?
    ensures forall f: nat, a: nat | a < f < |inputs| && FailsAfterAnswer(mode, m, inputs, historyLength, a, f) ::
        f == i && answered
  {}

  /** The drain loop with its error handler and the promise it is wired to. `persisted` is the
      task the error handler saves, if it saves one. */
  method Drain(mode: Mode, start: Manager, inputs: seq<Input>, historyLength: Option<int>, failed: StatusUpdate,
      onFailure: StoreAnswer)
    returns (promise: Option<Settlement>, persisted: Option<Task>)
    requires IsFailed(failed)
    ensures promise.Some? && SettlesAs(mode, start, inputs, historyLength, promise.value)
    ensures persisted.Some? ==>
      exists f: nat, a: nat | a < f < |inputs| :: FailsAfterAnswer(mode, start, inputs, historyLength, a, f)
    ensures forall f: nat, a: nat | a < f < |inputs| && FailsAfterAnswer(mode, start, inputs, historyLength, a, f) ::
      persisted == FailedTask(Handle(ManagerAt(start, inputs, f), inputs[f]).manager, failed, onFailure)
  {
    promise, persisted := None, None;
    var manager, firstResultSent := start, false;
    ghost var answeredAt: nat := 0;
    var i := 0;
    while i < |inputs|
      invariant 0 <= i <= |inputs| && manager == ManagerAt(start, inputs, i) && persisted.None?
      invariant forall j | 0 <= j < i :: OkAt(start, inputs, j)
      invariant firstResultSent == promise.Some?
      invariant promise.Some? ==> SettlesAs(mode, start, inputs, historyLength, promise.value)
      invariant promise.None? ==> forall j | 0 <= j < i :: AnswerAt(mode, start, inputs, j, historyLength).None?
      invariant promise.Some? ==> answeredAt < i && FirstAnswer(mode, start, inputs, historyLength, answeredAt)
      invariant promise.Some? ==> promise == AnswerAt(mode, start, inputs, answeredAt, historyLength)
    {
      var e := inputs[i].event;
      var handled := Handle(manager, inputs[i]);
      manager := handled.manager;
      if !handled.ok {
        // `_handleProcessingError`
        if !firstResultSent {
          promise := SettleOnce(promise, RejectedByDrain);
          assert SettlesAt(mode, start, inputs, historyLength, i, RejectedByDrain);
        } else if manager.currentTask.Some? {
          var statusUpdateFailed := failed.(taskId := manager.currentTask.value.id);
          var repair := Handle(manager, Input(StatusEvent(statusUpdateFailed), onFailure));
          persisted := repair.saved;
          assert FailsAfterAnswer(mode, start, inputs, historyLength, answeredAt, i);
          manager := repair.manager;
        }
        assert !OkAt(start, inputs, i);
        FailuresAreHere(mode, start, inputs, historyLength, i, firstResultSent);
        assert firstResultSent ==> persisted == FailedTask(handled.manager, failed, onFailure);
        // A blocking caller's continuation runs next, and can only settle again.
        if mode.Blocking? { promise := SettleOnce(promise, AtEnd(mode, manager, historyLength)); }
        return;
      }
      if !firstResultSent {
        var answer := Answer(mode, e, manager, historyLength);
        if answer.Some? {
          promise := SettleOnce(promise, answer.value);
          assert SettlesAt(mode, start, inputs, historyLength, i, answer.value);
          firstResultSent := true;
          answeredAt := i;
        }
      }
      i := i + 1;
    }
    assert promise.None? ==>
        SettlesAt(mode, start, inputs, historyLength, |inputs|, AtEnd(mode, manager, historyLength));
    promise := SettleOnce(promise, AtEnd(mode, manager, historyLength));
  }

  predicate FirstAnswer(mode: Mode, m: Manager, inputs: seq<Input>, historyLength: Option<int>, a: nat)
    requires a < |inputs|
  {
    && AnswerAt(mode, m, inputs, a, historyLength).Some?
    && (forall j | 0 <= j < a :: AnswerAt(mode, m, inputs, j, historyLength).None?)
    && (forall j | 0 <= j <= a :: OkAt(m, inputs, j))
  }

  /** The `f`-th event is the first to fail, and the caller was answered before, at `a`. */
  predicate FailsAfterAnswer(mode: Mode, m: Manager, inputs: seq<Input>, historyLength: Option<int>, a: nat, f: nat)
    requires a < f < |inputs|
  {
    FirstAnswer(mode, m, inputs, historyLength, a) && !OkAt(m, inputs, f) && forall j | 0 <= j < f :: OkAt(m, inputs, j)
  }

  /** The repaired task: the one the store still holds for the current task, its status FAILED
      and the error message in its history. */
  function FailedTask(m: Manager, failed: StatusUpdate, onFailure: StoreAnswer): Option<Task> {
    if m.currentTask.Some? && m.currentTask.value.id != [] && !onFailure.loadFails && !onFailure.saveFails &&
       Matching(onFailure.task, m.currentTask.value.id)
    then Some(MergeStatus(onFailure.task.value, failed.status))
    else None
  }

  /** A drain error after the answer becomes a stored FAILED status exactly when there is a
      current task, it has an id, the store still holds it, and neither load nor save fails. */
  lemma ErrorIsPersistedIff(m: Manager, failed: StatusUpdate, onFailure: StoreAnswer)
    requires IsFailed(failed) && m.currentTask.Some?
    ensures var repair := Handle(m, Input(StatusEvent(failed.(taskId := m.currentTask.value.id)), onFailure));
      && repair.saved == FailedTask(m, failed, onFailure)
      && (repair.saved.Some? <==>
          m.currentTask.value.id != [] && !onFailure.loadFails && !onFailure.saveFails &&
          Matching(onFailure.task, m.currentTask.value.id))
      && (repair.saved.Some? ==>
          repair.saved.value.id == m.currentTask.value.id && StateOf(TaskEvent(repair.saved.value)) == Some(Failed))
  {}

  // ---------- what the manager knows after some events ----------

  /** Number `j` is the last message published among the first `n` events. */
  predicate LastMessage(inputs: seq<Input>, n: nat, j: nat) {
    j < n <= |inputs| && inputs[j].event.MessageEvent? && forall i | j < i < n :: !inputs[i].event.MessageEvent?
  }

  predicate NoMessage(inputs: seq<Input>, n: nat) {
    n <= |inputs| && forall i | 0 <= i < n :: !inputs[i].event.MessageEvent?
  }

  /** The message the manager holds is the last one published, else the one it started with. */
  lemma {:induction false} FinalMessageIsLast(m: Manager, inputs: seq<Input>, n: nat, j: nat)
    requires n <= |inputs|
    ensures LastMessage(inputs, n, j) ==> ManagerAt(m, inputs, n).finalMessage == Some(inputs[j].event.message)
    ensures NoMessage(inputs, n) ==> ManagerAt(m, inputs, n).finalMessage == m.finalMessage
  {
    if n > 0 {
      FinalMessageIsLast(m, inputs, n - 1, j);
      HandledMessage(ManagerAt(m, inputs, n - 1), inputs[n - 1]);
    }
  }

  lemma {:induction false} LatestStays(m: Manager, inputs: seq<Input>, n: nat)
    requires n <= |inputs|
    ensures ManagerAt(m, inputs, n).latest == m.latest
  {
    if n > 0 {
      LatestStays(m, inputs, n - 1);
      HandledMessage(ManagerAt(m, inputs, n - 1), inputs[n - 1]);
    }
  }

  lemma HandledMessage(m: Manager, input: Input)
    ensures var after := Handle(m, input).manager;
      && after.latest == m.latest
      && after.finalMessage == (if input.event.MessageEvent? then Some(input.event.message) else m.finalMessage)
      && (input.event.MessageEvent? ==> after.currentTask == m.currentTask)
  {}

  /** The event makes the manager look at its task: not a message, nor an artifact update without
      an artifact, nor one whose load fails. */
  predicate Looks(input: Input) {
    match input.event
    case MessageEvent(_) => false
    case TaskEvent(t) => t.id == [] || !input.store.loadFails
    case StatusEvent(u) => u.taskId == [] || !input.store.loadFails
    case ArtifactEvent(u) => u.artifact.Some? && (u.taskId == [] || !input.store.loadFails)
  }

  /** What it then takes for current: the merged task, saved or not; for an update of a task the
      store does not hold under its id, what the store returned. */
  function Current(input: Input, latest: Option<Message>): Option<Task> {
    var loaded := if TaskIdOf(input.event) == [] then None else input.store.task;
    match input.event
    case MessageEvent(_) => None
    case TaskEvent(t) => Some(MergeTask(loaded, t, latest))
    case StatusEvent(u) =>
      if loaded.Some? && loaded.value.id == u.taskId then Some(MergeStatus(loaded.value, u.status)) else loaded
    case ArtifactEvent(u) =>
      if loaded.Some? && loaded.value.id == u.taskId
      then Some(loaded.value.(artifacts := Apply(loaded.value.artifacts, u))) else loaded
  }

  predicate LastLook(inputs: seq<Input>, n: nat, j: nat) {
    j < n <= |inputs| && Looks(inputs[j]) && forall i | j < i < n :: !Looks(inputs[i])
  }

  predicate NoLook(inputs: seq<Input>, n: nat) { n <= |inputs| && forall i | 0 <= i < n :: !Looks(inputs[i]) }

  lemma HandledTask(m: Manager, input: Input)
    ensures Handle(m, input).manager.currentTask == if Looks(input) then Current(input, m.latest) else m.currentTask
  {}

  /** The manager's task is what the last event that looked at the store made of it. */
  lemma {:induction false} CurrentTaskIsLast(m: Manager, inputs: seq<Input>, n: nat, j: nat)
    requires n <= |inputs|
    ensures LastLook(inputs, n, j) ==> ManagerAt(m, inputs, n).currentTask == Current(inputs[j], m.latest)
    ensures NoLook(inputs, n) ==> ManagerAt(m, inputs, n).currentTask == m.currentTask
  {
    if n > 0 {
      CurrentTaskIsLast(m, inputs, n - 1, j);
      LatestStays(m, inputs, n - 1);
      HandledTask(ManagerAt(m, inputs, n - 1), inputs[n - 1]);
    }
  }

  // ---------- the outcomes spelled out ----------

  /** The first event that fails to process is number `f`, or none does and `f` is the end. */
  predicate FirstFailure(m: Manager, inputs: seq<Input>, f: nat) {
    f <= |inputs| && (forall i | 0 <= i < f :: OkAt(m, inputs, i)) && (f < |inputs| ==> !OkAt(m, inputs, f))
  }

  /** A status update to AUTH_REQUIRED, after which a task is known. */
  predicate SnapshotAt(m: Manager, inputs: seq<Input>, i: nat)
    requires i < |inputs|
  {
    && inputs[i].event.StatusEvent? && inputs[i].event.status.status.Some?
    && inputs[i].event.status.status.value.state == AuthRequired
    && ManagerAt(m, inputs, i + 1).currentTask.Some?
  }

  /** The caller gets this task, its history cut to the most recent messages it asked for. */
  predicate GivesTask(s: Settlement, t: Task, historyLength: Option<int>) {
    s.ResolvedTask? && KeepsLatest(t, historyLength, s.task)
  }

  /** Blocking: the task at the first AUTH_REQUIRED with a known task; without one, the error of
      the first event that fails; without either, the last message published, else the current
      task, else an error. */
  lemma BlockingOutcome(m: Manager, inputs: seq<Input>, historyLength: Option<int>, s: Settlement, f: nat, a: nat)
    requires SettlesAs(Blocking, m, inputs, historyLength, s) && FirstFailure(m, inputs, f)
    ensures a < f && SnapshotAt(m, inputs, a) && (forall i | 0 <= i < a :: !SnapshotAt(m, inputs, i)) ==>
      GivesTask(s, ManagerAt(m, inputs, a + 1).currentTask.value, historyLength)
    ensures (forall i | 0 <= i < f :: !SnapshotAt(m, inputs, i)) ==>
      if f < |inputs| then s == RejectedByDrain
      else
        && (forall j: nat | LastMessage(inputs, f, j) :: s == ResolvedMessage(inputs[j].event.message))
        && (NoMessage(inputs, f) && m.finalMessage.None? ==>
              var end := ManagerAt(m, inputs, f).currentTask;
              if end.Some? then GivesTask(s, end.value, historyLength) else s == RejectedWithoutResult)
  {
    BlockingAnswers(m, inputs, historyLength);
    var k: nat :| k <= |inputs| && SettlesAt(Blocking, m, inputs, historyLength, k, s);
    if a < f && SnapshotAt(m, inputs, a) && forall i | 0 <= i < a :: !SnapshotAt(m, inputs, i) {
      SettledWhere(Blocking, m, inputs, historyLength, s, f, k, a);
      SnapshotIsGiven(m, inputs, historyLength, a);
    }
    if forall i | 0 <= i < f :: !SnapshotAt(m, inputs, i) {
      SettledWhere(Blocking, m, inputs, historyLength, s, f, k, f);
      if f == |inputs| { EndIsGiven(m, inputs, historyLength); }
    }
  }

  /** A blocking caller is answered before the end at snapshots only. */
  lemma BlockingAnswers(m: Manager, inputs: seq<Input>, historyLength: Option<int>)
    ensures forall i | 0 <= i < |inputs| ::
      AnswerAt(Blocking, m, inputs, i, historyLength).Some? <==> SnapshotAt(m, inputs, i)
  {}

  lemma SnapshotIsGiven(m: Manager, inputs: seq<Input>, historyLength: Option<int>, a: nat)
    requires a < |inputs| && SnapshotAt(m, inputs, a)
    ensures var s := AnswerAt(Blocking, m, inputs, a, historyLength);
      s.Some? && GivesTask(s.value, ManagerAt(m, inputs, a + 1).currentTask.value, historyLength)
  {
    var t := ManagerAt(m, inputs, a + 1).currentTask.value;
    LimitedKeepsLatest(t, historyLength, Limited(t, historyLength));
  }

  lemma EndIsGiven(m: Manager, inputs: seq<Input>, historyLength: Option<int>)
    ensures var s, n := AtEnd(Blocking, ManagerAt(m, inputs, |inputs|), historyLength), |inputs|;
      && (forall j: nat | LastMessage(inputs, n, j) :: s == ResolvedMessage(inputs[j].event.message))
      && (NoMessage(inputs, n) && m.finalMessage.None? ==>
            var end := ManagerAt(m, inputs, n).currentTask;
            if end.Some? then GivesTask(s, end.value, historyLength) else s == RejectedWithoutResult)
  {
    var n := |inputs|;
    FinalMessageIsLast(m, inputs, n, 0);
    forall j: nat | LastMessage(inputs, n, j)
      ensures ManagerAt(m, inputs, n).finalMessage == Some(inputs[j].event.message)
    {
      FinalMessageIsLast(m, inputs, n, j);
    }
    var end := ManagerAt(m, inputs, n).currentTask;
    if end.Some? { LimitedKeepsLatest(end.value, historyLength, Limited(end.value, historyLength)); }
  }

  /** The settling event is the first to answer before the first failure, else that failure. */
  lemma SettledWhere(mode: Mode, m: Manager, inputs: seq<Input>, historyLength: Option<int>, s: Settlement, f: nat,
      k: nat, a: nat)
    requires k <= |inputs| && SettlesAt(mode, m, inputs, historyLength, k, s) && FirstFailure(m, inputs, f) && a <= f
    requires a < f ==> AnswerAt(mode, m, inputs, a, historyLength).Some?
    requires forall i | 0 <= i < a :: AnswerAt(mode, m, inputs, i, historyLength).None?
    ensures k == a
  {}

  /** A task or message is known once the event has been processed. */
  predicate KnownAt(m: Manager, inputs: seq<Input>, i: nat)
    requires i < |inputs|
  {
    || inputs[i].event.MessageEvent? || inputs[i].event.TaskEvent?
    || m.finalMessage.Some? || ManagerAt(m, inputs, i + 1).currentTask.Some?
  }

  /** Non-blocking: the first task or message to be known, as published or, at an update, as the
      manager has it; without one, the error of the first event that fails, else the protocol
      error. */
  lemma NonBlockingOutcome(m: Manager, inputs: seq<Input>, historyLength: Option<int>, s: Settlement, f: nat, a: nat)
    requires SettlesAs(NonBlocking, m, inputs, historyLength, s) && FirstFailure(m, inputs, f)
    ensures a < f && KnownAt(m, inputs, a) && (forall i | 0 <= i < a :: !KnownAt(m, inputs, i)) ==>
      match inputs[a].event
      case MessageEvent(message) => s == ResolvedMessage(message)
      case TaskEvent(t) => GivesTask(s, t, historyLength)
      case _ =>
        if m.finalMessage.Some? then s == ResolvedMessage(m.finalMessage.value)
        else GivesTask(s, ManagerAt(m, inputs, a + 1).currentTask.value, historyLength)
    ensures (forall i | 0 <= i < f :: !KnownAt(m, inputs, i))
      ==> s == if f < |inputs| then RejectedByDrain else RejectedProtocol
  {
    var k: nat :| k <= |inputs| && SettlesAt(NonBlocking, m, inputs, historyLength, k, s);
    if a < f && KnownAt(m, inputs, a) && forall i | 0 <= i < a :: !KnownAt(m, inputs, i) {
      UnknownGivesNothing(m, inputs, historyLength, a);
      KnownGives(m, inputs, historyLength, a);
      SettledWhere(NonBlocking, m, inputs, historyLength, s, f, k, a);
    }
    if forall i | 0 <= i < f :: !KnownAt(m, inputs, i) {
      UnknownGivesNothing(m, inputs, historyLength, f);
      SettledWhere(NonBlocking, m, inputs, historyLength, s, f, k, f);
    }
  }

  lemma UnknownGivesNothing(m: Manager, inputs: seq<Input>, historyLength: Option<int>, n: nat)
    requires n <= |inputs| && forall i | 0 <= i < n :: !KnownAt(m, inputs, i)
    ensures forall i | 0 <= i < n :: AnswerAt(NonBlocking, m, inputs, i, historyLength).None?
    ensures NoMessage(inputs, n)
  {
    forall i | 0 <= i < n ensures !inputs[i].event.MessageEvent? { assert !KnownAt(m, inputs, i); }
    forall i | 0 <= i < n ensures AnswerAt(NonBlocking, m, inputs, i, historyLength).None? {
      assert !KnownAt(m, inputs, i);
      FinalMessageIsLast(m, inputs, i + 1, 0);
    }
  }

  lemma KnownGives(m: Manager, inputs: seq<Input>, historyLength: Option<int>, a: nat)
    requires a < |inputs| && KnownAt(m, inputs, a) && NoMessage(inputs, a)
    ensures AnswerAt(NonBlocking, m, inputs, a, historyLength).Some?
    ensures var s := AnswerAt(NonBlocking, m, inputs, a, historyLength).value;
      match inputs[a].event
      case MessageEvent(message) => s == ResolvedMessage(message)
      case TaskEvent(t) => GivesTask(s, t, historyLength)
      case _ =>
        if m.finalMessage.Some? then s == ResolvedMessage(m.finalMessage.value)
        else GivesTask(s, ManagerAt(m, inputs, a + 1).currentTask.value, historyLength)
  {
    var e, after := inputs[a].event, ManagerAt(m, inputs, a + 1).currentTask;
    if !e.MessageEvent? {
      assert NoMessage(inputs, a + 1);
      FinalMessageIsLast(m, inputs, a + 1, 0);
    }
    if e.TaskEvent? { LimitedKeepsLatest(e.task, historyLength, Limited(e.task, historyLength)); }
    if after.Some? { LimitedKeepsLatest(after.value, historyLength, Limited(after.value, historyLength)); }
  }
}
