/** The v1.0 protocol records the server moves around, and the state lists of
    src/server/utils.ts. */
module Protocol {
  import opened Base

  type Metadata = map<Text, Json>

  /** What a data part may hold at run time; `NotJson` stands for a symbol, bigint,
      function, buffer or undefined. */
  datatype DataValue = JsonValue(json: Json) | NotJson

  datatype Content =
    | TextContent(text: Text)
    | RawContent(bytes: seq<bv8>)
    | UrlContent(url: Text)
    | DataContent(value: DataValue)

  datatype Part = Part(content: Option<Content>, metadata: Option<Metadata>, filename: Text, mediaType: Text)

  datatype Role = RoleUnspecified | RoleUser | RoleAgent | RoleUnrecognized

  datatype TaskState =
    | Unspecified | Submitted | Working | Completed | Failed | Canceled
    | InputRequired | Rejected | AuthRequired | Unrecognized

  datatype Message = Message(
    messageId: Text, contextId: Text, taskId: Text, role: Role, parts: seq<Part>,
    metadata: Option<Metadata>, extensions: seq<Text>, referenceTaskIds: seq<Text>)

  datatype Artifact = Artifact(
    artifactId: Text, name: Text, description: Text, parts: seq<Part>,
    metadata: Option<Metadata>, extensions: seq<Text>)

  datatype TaskStatus = TaskStatus(state: TaskState, message: Option<Message>, timestamp: Option<Text>)

  datatype Task = Task(
    id: Text, contextId: Text, status: Option<TaskStatus>, artifacts: seq<Artifact>,
    history: seq<Message>, metadata: Option<Metadata>)

  datatype StatusUpdate = StatusUpdate(
    taskId: Text, contextId: Text, status: Option<TaskStatus>, metadata: Option<Metadata>)

  datatype ArtifactUpdate = ArtifactUpdate(
    taskId: Text, contextId: Text, artifact: Option<Artifact>, append: bool, lastChunk: bool,
    metadata: Option<Metadata>)

  datatype Event =
    | MessageEvent(message: Message)
    | TaskEvent(task: Task)
    | StatusEvent(status: StatusUpdate)
    | ArtifactEvent(artifact: ArtifactUpdate)

  predicate IsTerminal(s: TaskState) { s in {Completed, Failed, Canceled, Rejected} }

  /** The events after which `ExecutionEventQueue.events` returns. AUTH_REQUIRED is not one. */
  predicate Stops(e: Event) {
    e.MessageEvent? ||
    (e.StatusEvent? && e.status.status.Some? &&
     (IsTerminal(e.status.status.value.state) || e.status.status.value.state == InputRequired))
  }

  predicate IsUpdate(e: Event) { e.StatusEvent? || e.ArtifactEvent? }

  predicate IsAuthRequired(e: Event) {
    e.StatusEvent? && e.status.status.Some? && e.status.status.value.state == AuthRequired
  }

  /** The task state an event announces, if any. */
  function StateOf(e: Event): Option<TaskState> {
    if e.TaskEvent? && e.task.status.Some? then Some(e.task.status.value.state)
    else if e.StatusEvent? && e.status.status.Some? then Some(e.status.status.value.state)
    else None
  }

  /** The task an event belongs to; a message names none. */
  function TaskIdOf(e: Event): Text {
    match e
    case MessageEvent(_) => []
    case TaskEvent(t) => t.id
    case StatusEvent(u) => u.taskId
    case ArtifactEvent(u) => u.taskId
  }

  /** `_applyHistoryLengthSemantics` */
  function Limited(t: Task, historyLength: Option<int>): Task {
    match historyLength
    case None => t
    case Some(n) =>
      if n <= 0 then t.(history := [])
      else if n >= |t.history| then t
      else t.(history := t.history[|t.history| - n..])
  }

  /** `r` is `t`, its history cut to the most recent messages: all of them without a limit, none
      for a limit of zero or less, else at most so many. */
  predicate KeepsLatest(t: Task, historyLength: Option<int>, r: Task) {
    var kept := |r.history|;
    && r.(history := t.history) == t
    && kept <= |t.history| && r.history == t.history[|t.history| - kept..]
    && (historyLength.None? || historyLength.value >= |t.history| ==> kept == |t.history|)
    && (historyLength.Some? && historyLength.value < |t.history| ==>
          kept == if historyLength.value < 0 then 0 else historyLength.value)
  }

  /** The limit does that and nothing else. */
  lemma LimitedKeepsLatest(t: Task, historyLength: Option<int>, r: Task)
    ensures KeepsLatest(t, historyLength, r) <==> r == Limited(t, historyLength)
  {
    if KeepsLatest(t, historyLength, r) {
      assert r == r.(history := t.history).(history := r.history);
      assert t.(history := t.history) == t;
    }
  }

  /** Spreading: a key of both bags has the value of the second. */
  lemma SpreadLookup(a: Option<Metadata>, b: Option<Metadata>, k: Text)
    ensures k in Spread(a, b) <==> (a.Some? && k in a.value) || (b.Some? && k in b.value)
    ensures b.Some? && k in b.value ==> Spread(a, b)[k] == b.value[k]
    ensures a.Some? && k in a.value && !(b.Some? && k in b.value) ==> Spread(a, b)[k] == a.value[k]
  {}

  /** The events up to and including the first that stops the queue. */
  function Cut(events: seq<Event>): seq<Event> {
    if events == [] then [] else if Stops(events[0]) then [events[0]] else [events[0]] + Cut(events[1..])
  }

  /** `{...a, ...b}` over optional metadata bags. */
  function Spread(a: Option<Metadata>, b: Option<Metadata>): Metadata {
    (if a.Some? then a.value else map[]) + (if b.Some? then b.value else map[])
  }
}
