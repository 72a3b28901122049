/** `ResultManager` (src/server/result_manager.ts): the pure merge step each event performs
    on the stored task, the class that runs it, and what a stored history keeps. */
module ResultManagers {
  import opened Base
  import opened Protocol
  import opened Artifacts
  import opened Store

  // ---------- the merge step ----------

  predicate HasMessage(history: seq<Message>, id: Text) { exists i | 0 <= i < |history| :: history[i].messageId == id }

  /** An omitted history keeps the persisted one; a supplied one is authoritative. */
  function HistoryOf(persisted: Option<Task>, incoming: Task): seq<Message> {
    if incoming.history == [] && Matching(persisted, incoming.id) then persisted.value.history else incoming.history
  }

  predicate Matching(persisted: Option<Task>, id: Text) { persisted.Some? && persisted.value.id == id }

  function WithLatest(history: seq<Message>, latest: Option<Message>): seq<Message> {
    if latest.Some? && !HasMessage(history, latest.value.messageId) then [latest.value] + history else history
  }

  function MergeTask(persisted: Option<Task>, incoming: Task, latest: Option<Message>): Task {
    var merged := if !Matching(persisted, incoming.id) then incoming
      else incoming.(
        history := HistoryOf(persisted, incoming),
        artifacts := Merge(persisted.value.artifacts, incoming.artifacts),
        metadata := if persisted.value.metadata.Some? || incoming.metadata.Some?
                    then Some(Spread(persisted.value.metadata, incoming.metadata)) else None);
    merged.(history := WithLatest(merged.history, latest))
  }

  function MergeStatus(task: Task, status: Option<TaskStatus>): Task {
    var update := if status.Some? then status.value.message else None;
    task.(status := status,
          history := if update.Some? && !HasMessage(task.history, update.value.messageId)
                     then task.history + [update.value] else task.history)
  }

  datatype Manager = Manager(currentTask: Option<Task>, latest: Option<Message>, finalMessage: Option<Message>)

  datatype Effect = Effect(manager: Manager, save: Option<Task>)

  /** One event, given what the store returned for its task. */
  function Process(m: Manager, e: Event, loaded: Option<Task>): Effect {
    match e
    case MessageEvent(message) => Effect(m.(finalMessage := Some(message)), None)
    case TaskEvent(t) =>
      var merged := MergeTask(loaded, t, m.latest);
      Effect(m.(currentTask := Some(merged)), Some(merged))
    case StatusEvent(u) =>
      if !Matching(loaded, u.taskId) then Effect(m.(currentTask := loaded), None)
      else var merged := MergeStatus(loaded.value, u.status); Effect(m.(currentTask := Some(merged)), Some(merged))
    case ArtifactEvent(u) =>
      if u.artifact.None? then Effect(m, None)
      else if !Matching(loaded, u.taskId) then Effect(m.(currentTask := loaded), None)
      else
        var merged := loaded.value.(artifacts := Apply(loaded.value.artifacts, u));
        Effect(m.(currentTask := Some(merged)), Some(merged))
  }

  // ---------- the merge step field by field ----------

  /** `history` with `m` put in front (or behind), unless a message with its id is there. */
  predicate AddsOnce(history: seq<Message>, m: Option<Message>, front: bool, r: seq<Message>) {
    if m.None? || (exists i | 0 <= i < |history| :: history[i].messageId == m.value.messageId) then r == history
    else r == if front then [m.value] + history else history + [m.value]
  }

  /** A message is the manager's final message and touches nothing else. */
  lemma MessageEventIsKept(m: Manager, message: Message, loaded: Option<Task>)
    ensures var r := Process(m, MessageEvent(message), loaded);
      && r.save.None? && r.manager.finalMessage == Some(message)
      && r.manager.currentTask == m.currentTask && r.manager.latest == m.latest
  {}

  /** What a task event stores. Status and context are its own. If the store holds the task, its
      artifacts and metadata are united with the stored ones, the event's winning, and an empty
      history gives way to the stored one; the request's message is put in front of the history
      unless its id is there. */
  lemma TaskEventStores(m: Manager, t: Task, loaded: Option<Task>, id: Text, k: Text)
    ensures var r := Process(m, TaskEvent(t), loaded);
      var known := loaded.Some? && loaded.value.id == t.id;
      && r.save.Some? && r.manager.currentTask == r.save
      && r.manager.latest == m.latest && r.manager.finalMessage == m.finalMessage
      && var u := r.save.value;
         && u.id == t.id && u.contextId == t.contextId && u.status == t.status
         && AddsOnce(if known && t.history == [] then loaded.value.history else t.history, m.latest, true, u.history)
         && (if known && Last(t.artifacts, id).None? then Last(u.artifacts, id) == Last(loaded.value.artifacts, id)
             else Last(u.artifacts, id) == Last(t.artifacts, id))
         && (!known ==> u.artifacts == t.artifacts && u.metadata == t.metadata)
         && (known ==> (u.metadata.None? <==> t.metadata.None? && loaded.value.metadata.None?))
         && (if known && ValueAt(t.metadata, k).None? then ValueAt(u.metadata, k) == ValueAt(loaded.value.metadata, k)
             else ValueAt(u.metadata, k) == ValueAt(t.metadata, k))
  {
    if Matching(loaded, t.id) {
      MergeIsRightBiasedUnion(loaded.value.artifacts, t.artifacts, id);
      SpreadLookup(loaded.value.metadata, t.metadata, k);
    }
  }

  /** What a status update stores: the stored task under its id with the new status, the status's
      message behind the history unless its id is there, and nothing else changed. Without such
      a task it stores nothing, and the manager forgets the one it had. */
  lemma StatusUpdateStores(m: Manager, u: StatusUpdate, loaded: Option<Task>)
    ensures var r := Process(m, StatusEvent(u), loaded);
      && r.manager.latest == m.latest && r.manager.finalMessage == m.finalMessage
      && (r.save.Some? <==> loaded.Some? && loaded.value.id == u.taskId)
      && r.manager.currentTask == (if r.save.Some? then r.save else loaded)
      && (r.save.Some? ==>
            && r.save.value.status == u.status
            && AddsOnce(loaded.value.history, if u.status.Some? then u.status.value.message else None, false,
                        r.save.value.history)
            && r.save.value.(status := loaded.value.status, history := loaded.value.history) == loaded.value)
  {}

  /** What an artifact update stores: the stored task under its id with nothing but its artifacts
      changed, and of these only the one the update names. That one is replaced by the update's,
      or, on append, if it was there, gets the update's parts behind its own; a name, description
      or metadata key only where the update brings one. Without an artifact the update is ignored
      altogether. */
  lemma ArtifactUpdateStores(m: Manager, u: ArtifactUpdate, loaded: Option<Task>, id: Text, k: Text)
    ensures var r := Process(m, ArtifactEvent(u), loaded);
      && r.manager.latest == m.latest && r.manager.finalMessage == m.finalMessage
      && (u.artifact.None? ==> r.save.None? && r.manager == m)
      && (r.save.Some? <==> u.artifact.Some? && loaded.Some? && loaded.value.id == u.taskId)
      && (u.artifact.Some? ==> r.manager.currentTask == if r.save.Some? then r.save else loaded)
      && (r.save.Some? ==>
            && r.save.value.(artifacts := loaded.value.artifacts) == loaded.value
            && var before, after := Lookup(loaded.value.artifacts, id), Lookup(r.save.value.artifacts, id);
               if id != u.artifact.value.artifactId then after == before
               else if !u.append || before.None? then after == u.artifact
               else after.Some? && Appends(before.value, u.artifact.value, after.value, k))
  {
    if u.artifact.Some? && Matching(loaded, u.taskId) {
      ApplyIsLocal(loaded.value.artifacts, u, id);
      var before := Lookup(loaded.value.artifacts, id);
      if before.Some? { SpreadLookup(before.value.metadata, u.artifact.value.metadata, k); }
    }
  }

  predicate Appends(a: Artifact, chunk: Artifact, r: Artifact, k: Text) {
    && r.artifactId == a.artifactId && r.extensions == a.extensions && r.parts == a.parts + chunk.parts
    && r.name == (if chunk.name == [] then a.name else chunk.name)
    && r.description == (if chunk.description == [] then a.description else chunk.description)
    && (r.metadata.None? <==> a.metadata.None? && chunk.metadata.None?)
    && ValueAt(r.metadata, k) ==
         (if ValueAt(chunk.metadata, k).Some? then ValueAt(chunk.metadata, k) else ValueAt(a.metadata, k))
  }

  /** What the event does to its task's slot in the store; it depends on the manager only
      through the request's own message. */
  function SlotStep(slot: Option<Task>, latest: Option<Message>, e: Event): Option<Task> {
    var save := Process(Manager(None, latest, None), e, slot).save;
    if save.Some? then save else slot
  }

  lemma SlotStepIsProcess(m: Manager, e: Event, slot: Option<Task>)
    ensures Process(m, e, slot).save == Process(Manager(None, m.latest, None), e, slot).save
    ensures Process(m, e, slot).save.Some? ==> Process(m, e, slot).manager.currentTask == SlotStep(slot, m.latest, e)
    ensures Process(m, e, slot).save.Some? ==> Process(m, e, slot).save.value.id == TaskIdOf(e)
    ensures Process(m, e, slot).manager.latest == m.latest
  {}

  /** `getFinalResult`. */
  datatype FinalResult = FinalMessage(message: Message) | FinalTask(task: Task) | NoResult

  function FinalResultOf(m: Manager): FinalResult {
    if m.finalMessage.Some? then FinalMessage(m.finalMessage.value)
    else if m.currentTask.Some? then FinalTask(m.currentTask.value)
    else NoResult
  }

  // ---------- the class ----------

  /** One request's manager. Each store-touching branch runs as one uninterrupted
      load-merge-save here; `Linearization` shows that the lock makes that sound. */
  class ResultManager {
    const store: InMemoryTaskStore
    const context: Context
    var currentTask: Option<Task>
    var latestUserMessage: Option<Message>
    var finalMessageResult: Option<Message>

    function State(): Manager reads this { Manager(currentTask, latestUserMessage, finalMessageResult) }

    /** What the store holds for a task of this request's scope. */
    function Stored(id: Text): Option<Task> reads this, store {
      var bucket := store.BucketAt(store.Scoped(context));
      if id != [] && id in bucket then Some(bucket[id]) else None
    }

    constructor (store: InMemoryTaskStore, context: Context)
      ensures this.store == store && this.context == context && State() == Manager(None, None, None)
    {
      this.store, this.context := store, context;
      currentTask, latestUserMessage, finalMessageResult := None, None, None;
    }

    method SetContext(latestUserMessage: Message)
      modifies this
      ensures State() == old(State()).(latest := Some(latestUserMessage))
    {
      this.latestUserMessage := Some(latestUserMessage);
    }

    method ProcessEvent(e: Event)
      requires store.Valid()
      modifies this, store
      ensures store.Valid()
      ensures var effect := Process(old(State()), e, old(Stored(TaskIdOf(e))));
        && State() == effect.manager
        && store.BucketAt(store.Scoped(context)) ==
             if effect.save.Some?
             then old(store.BucketAt(store.Scoped(context)))[effect.save.value.id := effect.save.value]
             else old(store.BucketAt(store.Scoped(context)))
      ensures forall s: Scope | s != store.Scoped(context) :: store.BucketAt(s) == old(store.BucketAt(s))
    {
      match e
      case MessageEvent(message) => finalMessageResult := Some(message);
      case TaskEvent(t) => ProcessTaskEvent(t);
      case StatusEvent(u) => ApplyStatusUpdate(u);
      case ArtifactEvent(u) => ApplyArtifactUpdate(u);
    }

    method ProcessTaskEvent(taskEvent: Task)
      requires store.Valid()
      modifies this, store
      ensures store.Valid()
      ensures var merged := MergeTask(old(Stored(taskEvent.id)), taskEvent, old(latestUserMessage));
        && State() == old(State()).(currentTask := Some(merged))
        && store.BucketAt(store.Scoped(context)) == old(store.BucketAt(store.Scoped(context)))[taskEvent.id := merged]
      ensures forall s: Scope | s != store.Scoped(context) :: store.BucketAt(s) == old(store.BucketAt(s))
    {
      var persistedTask: Option<Task> := None;
      if taskEvent.id != [] { persistedTask := store.Load(taskEvent.id, context); }
      var mergedTask := taskEvent;
      if persistedTask.Some? && persistedTask.value.id == taskEvent.id {
        if mergedTask.history == [] { mergedTask := mergedTask.(history := persistedTask.value.history); }
        var artifacts := MergeArtifacts(persistedTask.value.artifacts, taskEvent.artifacts);
        mergedTask := mergedTask.(artifacts := artifacts);
        if persistedTask.value.metadata.Some? || taskEvent.metadata.Some? {
          mergedTask := mergedTask.(metadata := Some(Spread(persistedTask.value.metadata, taskEvent.metadata)));
        }
      }
      if latestUserMessage.Some? && !HasMessage(mergedTask.history, latestUserMessage.value.messageId) {
        mergedTask := mergedTask.(history := [latestUserMessage.value] + mergedTask.history);
      }
      currentTask := Some(mergedTask);
      store.Save(mergedTask, context);
    }

    method ApplyStatusUpdate(u: StatusUpdate)
      requires store.Valid()
      modifies this, store
      ensures store.Valid()
      ensures var effect := Process(old(State()), StatusEvent(u), old(Stored(u.taskId)));
        && State() == effect.manager
        && store.BucketAt(store.Scoped(context)) ==
             if effect.save.Some?
             then old(store.BucketAt(store.Scoped(context)))[effect.save.value.id := effect.save.value]
             else old(store.BucketAt(store.Scoped(context)))
      ensures forall s: Scope | s != store.Scoped(context) :: store.BucketAt(s) == old(store.BucketAt(s))
    {
      var loaded: Option<Task> := None;
      if u.taskId != [] { loaded := store.Load(u.taskId, context); }
      if loaded.None? || loaded.value.id != u.taskId {
        currentTask := loaded;
        return;
      }
      var task := loaded.value.(status := u.status);
      if u.status.Some? && u.status.value.message.Some? {
        var update := u.status.value.message.value;
        if !HasMessage(task.history, update.messageId) { task := task.(history := task.history + [update]); }
      }
      currentTask := Some(task);
      store.Save(task, context);
    }

    method ApplyArtifactUpdate(u: ArtifactUpdate)
      requires store.Valid()
      modifies this, store
      ensures store.Valid()
      ensures var effect := Process(old(State()), ArtifactEvent(u), old(Stored(u.taskId)));
        && State() == effect.manager
        && store.BucketAt(store.Scoped(context)) ==
             if effect.save.Some?
             then old(store.BucketAt(store.Scoped(context)))[effect.save.value.id := effect.save.value]
             else old(store.BucketAt(store.Scoped(context)))
      ensures forall s: Scope | s != store.Scoped(context) :: store.BucketAt(s) == old(store.BucketAt(s))
    {
      if u.artifact.None? { return; }
      var artifact := u.artifact.value;
      var loaded: Option<Task> := None;
      if u.taskId != [] { loaded := store.Load(u.taskId, context); }
      if loaded.None? || loaded.value.id != u.taskId {
        currentTask := loaded;
        return;
      }
      var artifacts := loaded.value.artifacts;
      var i := FindIndex(artifacts, artifact.artifactId);
      if i != -1 {
        if u.append {
          var existing := artifacts[i].(parts := artifacts[i].parts + artifact.parts);
          if artifact.description != [] { existing := existing.(description := artifact.description); }
          if artifact.name != [] { existing := existing.(name := artifact.name); }
          if artifact.metadata.Some? {
            existing := existing.(metadata := Some(Spread(existing.metadata, artifact.metadata)));
          }
          artifacts := artifacts[i := existing];
        } else {
          artifacts := artifacts[i := artifact];
        }
      } else {
        artifacts := artifacts + [artifact];
      }
      currentTask := Some(loaded.value.(artifacts := artifacts));
      store.Save(currentTask.value, context);
    }
  }

  // ---------- history ----------

  predicate DistinctMessages(history: seq<Message>) {
    forall i, j | 0 <= i < j < |history| :: history[i].messageId != history[j].messageId
  }

  lemma WithLatestIsDistinct(history: seq<Message>, latest: Option<Message>)
    ensures DistinctMessages(WithLatest(history, latest)) <==> DistinctMessages(history)
  {
    var all := WithLatest(history, latest);
    if all != history {
      if DistinctMessages(all) {
        forall i, j | 0 <= i < j < |history| ensures history[i].messageId != history[j].messageId {
          assert all[i + 1] == history[i] && all[j + 1] == history[j];
        }
      }
    }
  }

  lemma SnocIsDistinct(history: seq<Message>, m: Message)
    ensures DistinctMessages(history + [m]) <==> DistinctMessages(history) && !HasMessage(history, m.messageId)
  {
    var all := history + [m];
    assert all[|history|] == m && forall i | 0 <= i < |history| :: all[i] == history[i];
  }

  /** An event leaves a slot's history free of repeated ids exactly when it was, or, for a
      task event, when the history it brings is. */
  lemma StepKeepsHistoryDistinct(slot: Option<Task>, latest: Option<Message>, e: Event)
    requires slot.Some? ==> slot.value.id == TaskIdOf(e)
    ensures var after := SlotStep(slot, latest, e);
      after.Some? ==>
        (DistinctMessages(after.value.history) <==>
          if e.TaskEvent? then DistinctMessages(HistoryOf(slot, e.task))
          else slot.Some? && DistinctMessages(slot.value.history))
  {
    match e
    case TaskEvent(t) => WithLatestIsDistinct(HistoryOf(slot, t), latest);
    case StatusEvent(u) =>
      if slot.Some? && u.status.Some? && u.status.value.message.Some? {
        SnocIsDistinct(slot.value.history, u.status.value.message.value);
      }
    case _ =>
  }

  // ---------- runs of events ----------

  /** One write to a slot: the merge step of some manager. */
  datatype Write = Write(latest: Option<Message>, event: Event)

  function SlotFold(slot: Option<Task>, writes: seq<Write>): Option<Task> {
    if writes == [] then slot
    else
      var last := writes[|writes| - 1];
      SlotStep(SlotFold(slot, writes[..|writes| - 1]), last.latest, last.event)
  }

  // ---------- follow-up messages ----------

  datatype FollowUpError = TaskNotFound | TaskIsTerminal | ContextMismatch

  /** What `_createRequestContext` does with a message that names a task: unless it refuses, it
      appends it to the history, without looking whether the id is there, and saves. */
  function FollowUp(slot: Option<Task>, incoming: Message): Result<Task, FollowUpError> {
    if slot.None? then Err(TaskNotFound)
    else if slot.value.status.Some? && IsTerminal(slot.value.status.value.state) then Err(TaskIsTerminal)
    else if incoming.contextId != [] && slot.value.contextId != [] && incoming.contextId != slot.value.contextId
    then Err(ContextMismatch)
    else Ok(slot.value.(history := slot.value.history + [incoming]))
  }

  /** When a follow-up is refused, and as what; otherwise it goes behind the history, and the rest
      of the task stays as it was. */
  lemma FollowUpIs(slot: Option<Task>, incoming: Message)
    ensures FollowUp(slot, incoming) == Err(TaskNotFound) <==> slot.None?
    ensures FollowUp(slot, incoming) == Err(TaskIsTerminal) <==>
      slot.Some? && slot.value.status.Some? &&
      (slot.value.status.value.state == Completed || slot.value.status.value.state == Failed ||
       slot.value.status.value.state == Canceled || slot.value.status.value.state == Rejected)
    ensures FollowUp(slot, incoming).Ok? || FollowUp(slot, incoming).error == ContextMismatch ==>
      (FollowUp(slot, incoming).Ok? <==>
        incoming.contextId == [] || slot.value.contextId == [] || incoming.contextId == slot.value.contextId)
    ensures FollowUp(slot, incoming).Ok? ==>
      var t := FollowUp(slot, incoming).value;
      t.history == slot.value.history + [incoming] && t.(history := slot.value.history) == slot.value
  {}

  /** An accepted follow-up leaves the history free of repeated ids exactly when it was and the
      client has not used this id before. */
  lemma FollowUpKeepsHistoryDistinct(slot: Option<Task>, incoming: Message)
    requires FollowUp(slot, incoming).Ok?
    ensures DistinctMessages(FollowUp(slot, incoming).value.history) <==>
      DistinctMessages(slot.value.history) && !HasMessage(slot.value.history, incoming.messageId)
  {
    SnocIsDistinct(slot.value.history, incoming);
  }

  /** Everything that writes a slot: events of any manager, and follow-up messages. */
  datatype Change = Wrote(write: Write) | Followed(incoming: Message)

  function ChangeStep(slot: Option<Task>, c: Change): Option<Task> {
    match c
    case Wrote(w) => SlotStep(slot, w.latest, w.event)
    case Followed(m) => if FollowUp(slot, m).Ok? then Some(FollowUp(slot, m).value) else slot
  }

  function ChangeFold(slot: Option<Task>, changes: seq<Change>): Option<Task> {
    if changes == [] then slot else ChangeStep(ChangeFold(slot, changes[..|changes| - 1]), changes[|changes| - 1])
  }

  predicate DistinctSlot(slot: Option<Task>) { slot.Some? ==> DistinctMessages(slot.value.history) }

  /** The change does not bring repeated ids itself: a task event's history, if it supplies one,
      has none, and a follow-up that is accepted does not reuse an id. */
  predicate BringsNoRepeat(slot: Option<Task>, c: Change) {
    match c
    case Wrote(w) => w.event.TaskEvent? ==> DistinctMessages(w.event.task.history)
    case Followed(m) => FollowUp(slot, m).Ok? ==> !HasMessage(slot.value.history, m.messageId)
  }

  /** A change that belongs to the slot of task `id`. */
  predicate BelongsTo(id: Text,
      c: Change) { c.Wrote? ==> TaskIdOf(c.write.event) == id && !c.write.event.MessageEvent? }

  lemma ChangeKeepsHistoryDistinct(id: Text, slot: Option<Task>, c: Change)
    requires (slot.Some? ==> slot.value.id == id) && BelongsTo(id, c)
    ensures ChangeStep(slot, c).Some? ==> ChangeStep(slot, c).value.id == id
    ensures DistinctSlot(slot) && BringsNoRepeat(slot, c) ==> DistinctSlot(ChangeStep(slot, c))
    ensures (c.Wrote? ==> !c.write.event.TaskEvent?) ==>
      (DistinctSlot(ChangeStep(slot, c)) <==> DistinctSlot(slot) && BringsNoRepeat(slot, c))
  {
    match c
    case Wrote(w) => StepKeepsHistoryDistinct(slot, w.latest, w.event);
    case Followed(m) => if FollowUp(slot, m).Ok? { FollowUpKeepsHistoryDistinct(slot, m); }
  }

  predicate BringNoRepeats(slot: Option<Task>, changes: seq<Change>) {
    changes == [] ||
    var before := changes[..|changes| - 1];
    BringNoRepeats(slot, before) && BringsNoRepeat(ChangeFold(slot, before), changes[|changes| - 1])
  }

  predicate AllBelongTo(id: Text, changes: seq<Change>) { forall i | 0 <= i < |changes| :: BelongsTo(id, changes[i]) }

  predicate NoTaskEvents(changes: seq<Change>) {
    forall i | 0 <= i < |changes| && changes[i].Wrote? :: !changes[i].write.event.TaskEvent?
  }

  /** Over any run of events and follow-ups on any slot: if no executor supplies a history with
      repeated ids and no accepted follow-up reuses one, the stored history has none. When no
      executor supplies a history at all, that is exact: one reused id is never repaired. */
  lemma {:induction false} StoredHistoryStaysDistinct(id: Text, slot: Option<Task>, changes: seq<Change>)
    requires (slot.Some? ==> slot.value.id == id) && DistinctSlot(slot) && AllBelongTo(id, changes)
    ensures ChangeFold(slot, changes).Some? ==> ChangeFold(slot, changes).value.id == id
    ensures BringNoRepeats(slot, changes) ==> DistinctSlot(ChangeFold(slot, changes))
    ensures NoTaskEvents(changes) ==> (DistinctSlot(ChangeFold(slot, changes)) <==> BringNoRepeats(slot, changes))
  {
    if changes != [] {
      var n := |changes| - 1;
      StoredHistoryStaysDistinct(id, slot, changes[..n]);
      ChangeKeepsHistoryDistinct(id, ChangeFold(slot, changes[..n]), changes[n]);
    }
  }

  /** A task event puts the request's message in the history, and status and artifact updates
      by any manager keep it there. */
  lemma {:induction false} UserMessageStays(slot: Option<Task>, latest: Message, task: Task, updates: seq<Write>)
    requires forall i | 0 <= i < |updates| :: IsUpdate(updates[i].event)
    ensures var after := SlotFold(SlotStep(slot, Some(latest), TaskEvent(task)), updates);
      after.Some? && HasMessage(after.value.history, latest.messageId)
  {
    if updates == [] {
      var before := WithLatest(HistoryOf(slot, task), Some(latest));
      assert HasMessage(before, latest.messageId) by {
        if !HasMessage(HistoryOf(slot, task), latest.messageId) { assert before[0] == latest; }
      }
    } else {
      var n := |updates| - 1;
      UserMessageStays(slot, latest, task, updates[..n]);
      var before := SlotFold(SlotStep(slot, Some(latest), TaskEvent(task)), updates[..n]).value.history;
      var after := SlotFold(SlotStep(slot, Some(latest), TaskEvent(task)), updates).value.history;
      assert before <= after;
      var i :| 0 <= i < |before| && before[i].messageId == latest.messageId;
      assert after[i] == before[i];
    }
  }

  // ---------- replay ----------

  /** A status update, or a task event whose artifacts do not contradict each other, changes
      nothing when it is applied again straight away. For a new task that is exact. */
  lemma ReplayChangesNothing(slot: Option<Task>, latest: Option<Message>, e: Event)
    requires slot.Some? ==> slot.value.id == TaskIdOf(e)
    requires e.StatusEvent? || e.TaskEvent?
    ensures var once := SlotStep(slot, latest, e);
      && (e.StatusEvent? || Consistent(e.task.artifacts) ==> SlotStep(once, latest, e) == once)
      && (e.TaskEvent? && slot.None? && SlotStep(once, latest, e) == once ==> Consistent(e.task.artifacts))
  {
    match e
    case StatusEvent(u) =>
      if slot.Some? && u.status.Some? && u.status.value.message.Some? {
        var m := u.status.value.message.value;
        if !HasMessage(slot.value.history, m.messageId) {
          assert (slot.value.history + [m])[|slot.value.history|] == m;
        }
      }
    case TaskEvent(t) =>
      MergeIsIdempotent(t.artifacts);
      SpreadTwice(None, t.metadata);
      if slot.Some? {
        MergeIsAssociative(slot.value.artifacts, t.artifacts, t.artifacts);
        SpreadTwice(slot.value.metadata, t.metadata);
      }
      ReplayHistory(slot, latest, t);
  }

  lemma SpreadTwice(a: Option<Metadata>, b: Option<Metadata>)
    ensures Spread(Some(Spread(a, b)), b) == Spread(a, b)
    ensures b.Some? ==> Spread(b, b) == b.value
  {}

  lemma ReplayHistory(slot: Option<Task>, latest: Option<Message>, t: Task)
    requires slot.Some? ==> slot.value.id == t.id
    ensures var once := MergeTask(slot, t, latest); MergeTask(Some(once), t, latest).history == once.history
  {
    var h := HistoryOf(slot, t);
    if latest.Some? && !HasMessage(h, latest.value.messageId) {
      assert ([latest.value] + h)[0] == latest.value;
    }
  }

  /** A chunk may be applied twice exactly when it replaces, or carries no parts. */
  lemma ChunkReplay(task: Task, u: ArtifactUpdate)
    requires u.artifact.Some? && u.taskId == task.id
    ensures var once := SlotStep(Some(task), None, ArtifactEvent(u));
      SlotStep(once, None, ArtifactEvent(u)) == once <==> !u.append || u.artifact.value.parts == []
  {
    var a := u.artifact.value;
    var list := task.artifacts;
    var once := Apply(list, u);
    var i := FindIndex(list, a.artifactId);
    var k := if i >= 0 then i else |list|;
    assert i >= 0 ==> forall j | 0 <= j < |list| :: once[j].artifactId == list[j].artifactId;
    IndexIs(once, a.artifactId, k);
    assert Apply(once, u) == once[k := if u.append then Extend(once[k], a) else a];
    if u.append { assert |Extend(once[k], a).parts| == |once[k].parts| + |a.parts|; }
    SpreadTwice(if i >= 0 then list[i].metadata else None, a.metadata);
    assert Apply(once, u) == once <==> Apply(once, u)[k] == once[k];
  }
}
