/** The v1.0 <-> v0.3 translators (src/compat/v0_3/translate). A v0.3 record omits what v1.0
    spells as empty; a value v0.3 cannot hold is wrapped and flagged. */
module Translate {
  import opened Base
  import opened Protocol

  datatype TranslateError = InvalidParams | InternalError

  // ---------- the v0.3 records ----------

  datatype LegacyFile =
    | FileBytes(bytes: seq<bv8>, mimeType: Option<Text>, name: Option<Text>)
    | FileUri(uri: Text, mimeType: Option<Text>, name: Option<Text>)
    | FileNeither(mimeType: Option<Text>, name: Option<Text>)

  datatype LegacyPart =
    | LegacyText(text: Text, metadata: Option<Metadata>)
    | LegacyFilePart(file: LegacyFile, metadata: Option<Metadata>)
    | LegacyData(data: DataValue, metadata: Option<Metadata>)
    | LegacyUnknownPart

  datatype LegacyRole = LegacyUser | LegacyAgent | LegacyOtherRole

  datatype LegacyMessage = LegacyMessage(
    messageId: Text, role: LegacyRole, parts: seq<LegacyPart>, contextId: Option<Text>, taskId: Option<Text>,
    metadata: Option<Metadata>, extensions: Option<seq<Text>>, referenceTaskIds: Option<seq<Text>>)

  datatype LegacyArtifact = LegacyArtifact(
    artifactId: Text, parts: seq<LegacyPart>, name: Option<Text>, description: Option<Text>,
    metadata: Option<Metadata>, extensions: Option<seq<Text>>)

  datatype LegacyState =
    | UnknownState | SubmittedState | WorkingState | CompletedState | FailedState | CanceledState
    | InputRequiredState | RejectedState | AuthRequiredState

  datatype LegacyStatus = LegacyStatus(state: LegacyState, message: Option<LegacyMessage>, timestamp: Option<Text>)

  datatype LegacyTask = LegacyTask(
    id: Text, contextId: Text, status: LegacyStatus, history: Option<seq<LegacyMessage>>,
    artifacts: Option<seq<LegacyArtifact>>, metadata: Option<Metadata>)

  datatype LegacyStatusUpdate = LegacyStatusUpdate(
    taskId: Text, contextId: Text, status: LegacyStatus, isFinal: bool, metadata: Option<Metadata>)

  datatype LegacyArtifactUpdate = LegacyArtifactUpdate(
    taskId: Text, contextId: Text, artifact: LegacyArtifact, append: Option<bool>, lastChunk: Option<bool>,
    metadata: Option<Metadata>)

  datatype LegacyEvent =
    | LegacyMessageEvent(message: LegacyMessage)
    | LegacyTaskEvent(task: LegacyTask)
    | LegacyStatusEvent(status: LegacyStatusUpdate)
    | LegacyArtifactEvent(artifact: LegacyArtifactUpdate)
    | LegacyErrorResponse
    | LegacyUnknownEvent

  // ---------- helpers ----------

  /** `xs.map(f)`, throwing at the first element that throws. */
  function Map<A, B>(f: A -> Result<B, TranslateError>, xs: seq<A>): Result<seq<B>, TranslateError> {
    if xs == [] then Ok([])
    else
      var first :- f(xs[0]);
      var rest :- Map(f, xs[1..]);
      Ok([first] + rest)
  }

  function OrEmpty<A>(xs: Option<seq<A>>): seq<A> { if xs.Some? then xs.value else [] }

  function NonEmpty<A>(xs: seq<A>): Option<seq<A>> { if xs == [] then None else Some(xs) }

  // ---------- parts ----------

  const FLAG := Lit("data_part_compat")
  const VALUE := Lit("value")

  function ToCompatPart(p: Part): Result<LegacyPart, TranslateError> {
    match p.content
    case None => Err(InvalidParams)
    case Some(TextContent(text)) => Ok(LegacyText(text, p.metadata))
    case Some(RawContent(bytes)) =>
      Ok(LegacyFilePart(FileBytes(bytes, NonEmpty(p.mediaType), NonEmpty(p.filename)), p.metadata))
    case Some(UrlContent(url)) =>
      Ok(LegacyFilePart(FileUri(url, NonEmpty(p.mediaType), NonEmpty(p.filename)), p.metadata))
    case Some(DataContent(NotJson)) => Err(InvalidParams)
    case Some(DataContent(JsonValue(v))) =>
      if v.JObject? then Ok(LegacyData(JsonValue(v), p.metadata))
      else Ok(LegacyData(JsonValue(JObject(map[VALUE := v])),
                         Some((if p.metadata.Some? then p.metadata.value else map[])[FLAG := JBool(true)])))
  }

  predicate Flagged(metadata: Option<Metadata>) {
    metadata.Some? && FLAG in metadata.value && metadata.value[FLAG] == JBool(true)
  }

  function Unwrap(data: DataValue): DataValue {
    if data.JsonValue? && data.json.JObject? && VALUE in data.json.members
    then JsonValue(data.json.members[VALUE])
    else data
  }

  function ToCorePart(p: LegacyPart): Result<Part, TranslateError> {
    match p
    case LegacyText(text, metadata) => Ok(Part(Some(TextContent(text)), metadata, [], []))
    case LegacyFilePart(FileBytes(bytes, mime, name), metadata) =>
      Ok(Part(Some(RawContent(bytes)), metadata, OrEmpty(name), OrEmpty(mime)))
    case LegacyFilePart(FileUri(uri, mime, name), metadata) =>
      Ok(Part(Some(UrlContent(uri)), metadata, OrEmpty(name), OrEmpty(mime)))
    case LegacyFilePart(FileNeither(_, _), _) => Err(InvalidParams)
    case LegacyData(data, metadata) =>
      if Flagged(metadata) then
        var rest := metadata.value - {FLAG};
        Ok(Part(Some(DataContent(Unwrap(data))), if rest == map[] then None else Some(rest), [], []))
      else Ok(Part(Some(DataContent(data)), metadata, [], []))
    case LegacyUnknownPart => Err(InvalidParams)
  }

  /** What v0.3 can carry: no name or media type on text and data; the reserved key unused on
      wrapped values, which also lose empty metadata, and not set to true on objects. */
  predicate RepresentablePart(p: Part) {
    match p.content
    case None => false
    case Some(RawContent(_)) => true
    case Some(UrlContent(_)) => true
    case Some(TextContent(_)) => p.filename == [] && p.mediaType == []
    case Some(DataContent(NotJson)) => false
    case Some(DataContent(JsonValue(v))) =>
      p.filename == [] && p.mediaType == [] &&
      if v.JObject? then !Flagged(p.metadata)
      else p.metadata.Some? ==> p.metadata.value != map[] && FLAG !in p.metadata.value
  }

  /** There and back is the identity. */
  predicate Returns<A(==), B>(toCompat: A -> Result<B, TranslateError>, toCore: B -> Result<A, TranslateError>, x: A) {
    toCompat(x).Ok? && toCore(toCompat(x).value) == Ok(x)
  }

  lemma PartRoundTrip(p: Part)
    ensures Returns(ToCompatPart, ToCorePart, p) <==> RepresentablePart(p)
  {
    if p.content.Some? && p.content.value.DataContent? && p.content.value.value.JsonValue? &&
        !p.content.value.value.json.JObject? {
      var v := p.content.value.value.json;
      var before := if p.metadata.Some? then p.metadata.value else map[];
      var wrapped := ToCompatPart(p).value;
      assert Unwrap(wrapped.data) == JsonValue(v);
      assert wrapped.metadata.value - {FLAG} == before - {FLAG};
      assert FLAG !in before ==> before - {FLAG} == before;
    }
  }

  lemma {:induction false} MapRoundTrip<A, B>(f: A -> Result<B, TranslateError>, g: B -> Result<A, TranslateError>,
      xs: seq<A>)
    ensures (Map(f, xs).Ok? && Map(g, Map(f, xs).value) == Ok(xs)) <==> forall i | 0 <= i < |xs| :: Returns(f, g, xs[i])
  {
    if xs != [] {
      MapRoundTrip(f, g, xs[1..]);
      assert xs == [xs[0]] + xs[1..];
      assert (forall i | 0 <= i < |xs| :: Returns(f, g, xs[i])) <==>
        Returns(f, g, xs[0]) && forall i | 0 <= i < |xs| - 1 :: Returns(f, g, xs[1..][i]);
    }
  }

  /** Whatever one crossing yields, a second crossing returns unchanged. */
  ghost predicate Normalises<A(!new), B>(
      toCompat: A -> Result<B, TranslateError>, toCore: B -> Result<A, TranslateError>)
  {
    forall x: A :: toCompat(x).Ok? && toCore(toCompat(x).value).Ok? ==>
      Returns(toCompat, toCore, toCore(toCompat(x).value).value)
  }

  lemma PartNormalises()
    ensures Normalises(ToCompatPart, ToCorePart)
  {
    forall p: Part | ToCompatPart(p).Ok? && ToCorePart(ToCompatPart(p).value).Ok?
      ensures Returns(ToCompatPart, ToCorePart, ToCorePart(ToCompatPart(p).value).value)
    {
      PartRoundTrip(ToCorePart(ToCompatPart(p).value).value);
    }
  }

  lemma {:induction false} MapNormalises<A(!new), B>(
      f: A -> Result<B, TranslateError>, g: B -> Result<A, TranslateError>, xs: seq<A>)
    requires Normalises(f, g) && Map(f, xs).Ok? && Map(g, Map(f, xs).value).Ok?
    ensures forall i | 0 <= i < |Map(g, Map(f, xs).value).value| :: Returns(f, g, Map(g, Map(f, xs).value).value[i])
  {
    if xs != [] {
      var ys := Map(f, xs).value;
      assert ys[0] == f(xs[0]).value && ys[1..] == Map(f, xs[1..]).value;
      MapNormalises(f, g, xs[1..]);
      var zs := Map(g, ys).value;
      assert zs[0] == g(ys[0]).value && zs[1..] == Map(g, ys[1..]).value;
      forall i | 0 <= i < |zs| ensures Returns(f, g, zs[i]) {
        if i > 0 { assert zs[i] == zs[1..][i - 1]; }
      }
    }
  }

  // ---------- messages and artifacts ----------

  function ToCompatRole(r: Role): LegacyRole { if r == RoleUser then LegacyUser else LegacyAgent }

  function ToCoreRole(r: LegacyRole): Role {
    match r
    case LegacyUser => RoleUser
    case LegacyAgent => RoleAgent
    case LegacyOtherRole => RoleUnspecified
  }

  function ToCompatMessage(m: Message): Result<LegacyMessage, TranslateError> {
    var parts :- Map(ToCompatPart, m.parts);
    Ok(LegacyMessage(m.messageId, ToCompatRole(m.role), parts, NonEmpty(m.contextId), NonEmpty(m.taskId), m.metadata,
                     NonEmpty(m.extensions), NonEmpty(m.referenceTaskIds)))
  }

  function ToCoreMessage(m: LegacyMessage): Result<Message, TranslateError> {
    if m.messageId == [] || m.role == LegacyOtherRole then Err(InvalidParams)
    else
      var parts :- Map(ToCorePart, m.parts);
      Ok(Message(m.messageId, OrEmpty(m.contextId), OrEmpty(m.taskId), ToCoreRole(m.role), parts, m.metadata,
                 OrEmpty(m.extensions), OrEmpty(m.referenceTaskIds)))
  }

  predicate RepresentableParts(parts: seq<Part>) { forall i | 0 <= i < |parts| :: RepresentablePart(parts[i]) }

  predicate RepresentableMessage(m: Message) {
    m.messageId != [] && m.role in {RoleUser, RoleAgent} && RepresentableParts(m.parts)
  }

  lemma PartsRoundTrip(parts: seq<Part>)
    ensures (Map(ToCompatPart, parts).Ok? && Map(ToCorePart, Map(ToCompatPart, parts).value) == Ok(parts)) <==>
            RepresentableParts(parts)
  {
    MapRoundTrip(ToCompatPart, ToCorePart, parts);
    forall i | 0 <= i < |parts| { PartRoundTrip(parts[i]); }
  }

  lemma MessageRoundTrip(m: Message)
    ensures Returns(ToCompatMessage, ToCoreMessage, m) <==> RepresentableMessage(m)
  {
    PartsRoundTrip(m.parts);
  }

  lemma MessageNormalises()
    ensures Normalises(ToCompatMessage, ToCoreMessage)
  {
    PartNormalises();
    forall m: Message | ToCompatMessage(m).Ok? && ToCoreMessage(ToCompatMessage(m).value).Ok?
      ensures Returns(ToCompatMessage, ToCoreMessage, ToCoreMessage(ToCompatMessage(m).value).value)
    {
      MapNormalises(ToCompatPart, ToCorePart, m.parts);
      MapRoundTrip(ToCompatPart, ToCorePart, ToCoreMessage(ToCompatMessage(m).value).value.parts);
    }
  }

  function ToCompatArtifact(a: Artifact): Result<LegacyArtifact, TranslateError> {
    var parts :- Map(ToCompatPart, a.parts);
    Ok(LegacyArtifact(a.artifactId, parts, NonEmpty(a.name), NonEmpty(a.description), a.metadata,
        NonEmpty(a.extensions)))
  }

  function ToCoreArtifact(a: LegacyArtifact): Result<Artifact, TranslateError> {
    var parts :- Map(ToCorePart, a.parts);
    Ok(Artifact(a.artifactId, OrEmpty(a.name), OrEmpty(a.description), parts, a.metadata, OrEmpty(a.extensions)))
  }

  lemma ArtifactRoundTrip(a: Artifact)
    ensures Returns(ToCompatArtifact, ToCoreArtifact, a) <==> RepresentableParts(a.parts)
  {
    PartsRoundTrip(a.parts);
  }

  lemma ArtifactNormalises()
    ensures Normalises(ToCompatArtifact, ToCoreArtifact)
  {
    PartNormalises();
    forall a: Artifact | ToCompatArtifact(a).Ok? && ToCoreArtifact(ToCompatArtifact(a).value).Ok?
      ensures Returns(ToCompatArtifact, ToCoreArtifact, ToCoreArtifact(ToCompatArtifact(a).value).value)
    {
      MapNormalises(ToCompatPart, ToCorePart, a.parts);
      MapRoundTrip(ToCompatPart, ToCorePart, ToCoreArtifact(ToCompatArtifact(a).value).value.parts);
    }
  }

  // ---------- status and task ----------

  function ToCoreState(s: LegacyState): TaskState {
    match s
    case UnknownState => Unspecified
    case SubmittedState => Submitted
    case WorkingState => Working
    case CompletedState => Completed
    case FailedState => Failed
    case CanceledState => Canceled
    case InputRequiredState => InputRequired
    case RejectedState => Rejected
    case AuthRequiredState => AuthRequired
  }

  function ToCompatState(s: TaskState): LegacyState {
    match s
    case Unspecified => UnknownState
    case Submitted => SubmittedState
    case Working => WorkingState
    case Completed => CompletedState
    case Failed => FailedState
    case Canceled => CanceledState
    case InputRequired => InputRequiredState
    case Rejected => RejectedState
    case AuthRequired => AuthRequiredState
    case Unrecognized => UnknownState
  }

  function ToCompatStatus(s: TaskStatus): Result<LegacyStatus, TranslateError> {
    var timestamp := if s.timestamp == Some([]) then None else s.timestamp;
    if s.message.None? then Ok(LegacyStatus(ToCompatState(s.state), None, timestamp))
    else
      var message :- ToCompatMessage(s.message.value);
      Ok(LegacyStatus(ToCompatState(s.state), Some(message), timestamp))
  }

  function ToCoreStatus(s: LegacyStatus): Result<TaskStatus, TranslateError> {
    if s.message.None? then Ok(TaskStatus(ToCoreState(s.state), None, s.timestamp))
    else
      var message :- ToCoreMessage(s.message.value);
      Ok(TaskStatus(ToCoreState(s.state), Some(message), s.timestamp))
  }

  predicate RepresentableStatus(s: TaskStatus) {
    s.state != Unrecognized && (s.message.Some? ==> RepresentableMessage(s.message.value)) && s.timestamp != Some([])
  }

  lemma StatusRoundTrip(s: TaskStatus)
    ensures Returns(ToCompatStatus, ToCoreStatus, s) <==> RepresentableStatus(s)
  {
    if s.message.Some? { MessageRoundTrip(s.message.value); }
  }

  lemma StatusNormalises()
    ensures Normalises(ToCompatStatus, ToCoreStatus)
  {
    MessageNormalises();
    forall s: TaskStatus | ToCompatStatus(s).Ok? && ToCoreStatus(ToCompatStatus(s).value).Ok?
      ensures Returns(ToCompatStatus, ToCoreStatus, ToCoreStatus(ToCompatStatus(s).value).value)
    {
      if s.message.Some? {
        var m := s.message.value;
        assert ToCompatMessage(m).Ok? && ToCoreMessage(ToCompatMessage(m).value).Ok?;
      }
    }
  }

  /** A missing v1.0 status becomes a bare `unknown`. */
  function ToCompatStatusOrUnknown(s: Option<TaskStatus>): Result<LegacyStatus, TranslateError> {
    if s.Some? then ToCompatStatus(s.value) else Ok(LegacyStatus(UnknownState, None, None))
  }

  function ToCompatTask(t: Task): Result<LegacyTask, TranslateError> {
    var status :- ToCompatStatusOrUnknown(t.status);
    var history :- Map(ToCompatMessage, t.history);
    var artifacts :- Map(ToCompatArtifact, t.artifacts);
    Ok(LegacyTask(t.id, t.contextId, status, NonEmpty(history), NonEmpty(artifacts), t.metadata))
  }

  function ToCoreTask(t: LegacyTask): Result<Task, TranslateError> {
    var status :- ToCoreStatus(t.status);
    var artifacts :- Map(ToCoreArtifact, OrEmpty(t.artifacts));
    var history :- Map(ToCoreMessage, OrEmpty(t.history));
    Ok(Task(t.id, t.contextId, Some(status), artifacts, history, t.metadata))
  }

  predicate RepresentableTask(t: Task) {
    && t.status.Some? && RepresentableStatus(t.status.value)
    && (forall i | 0 <= i < |t.history| :: RepresentableMessage(t.history[i]))
    && (forall i | 0 <= i < |t.artifacts| :: RepresentableParts(t.artifacts[i].parts))
  }

  lemma HistoryRoundTrip(history: seq<Message>)
    ensures
      (Map(ToCompatMessage, history).Ok? && Map(ToCoreMessage, Map(ToCompatMessage, history).value) == Ok(history)) <==>
            forall i | 0 <= i < |history| :: RepresentableMessage(history[i])
  {
    MapRoundTrip(ToCompatMessage, ToCoreMessage, history);
    forall i | 0 <= i < |history| { MessageRoundTrip(history[i]); }
  }

  lemma ArtifactsRoundTrip(artifacts: seq<Artifact>)
    ensures
      (Map(ToCompatArtifact, artifacts).Ok? &&
       Map(ToCoreArtifact, Map(ToCompatArtifact, artifacts).value) == Ok(artifacts)) <==>
            forall i | 0 <= i < |artifacts| :: RepresentableParts(artifacts[i].parts)
  {
    MapRoundTrip(ToCompatArtifact, ToCoreArtifact, artifacts);
    forall i | 0 <= i < |artifacts| { ArtifactRoundTrip(artifacts[i]); }
  }

  lemma TaskRoundTrip(t: Task)
    ensures Returns(ToCompatTask, ToCoreTask, t) <==> RepresentableTask(t)
  {
    if t.status.Some? { StatusRoundTrip(t.status.value); }
    HistoryRoundTrip(t.history);
    ArtifactsRoundTrip(t.artifacts);
  }

  lemma TaskNormalises()
    ensures Normalises(ToCompatTask, ToCoreTask)
  {
    MessageNormalises();
    ArtifactNormalises();
    StatusNormalises();
    forall t: Task | ToCompatTask(t).Ok? && ToCoreTask(ToCompatTask(t).value).Ok?
      ensures Returns(ToCompatTask, ToCoreTask, ToCoreTask(ToCompatTask(t).value).value)
    {
      var u := ToCoreTask(ToCompatTask(t).value).value;
      MapNormalises(ToCompatMessage, ToCoreMessage, t.history);
      MapNormalises(ToCompatArtifact, ToCoreArtifact, t.artifacts);
      MapRoundTrip(ToCompatMessage, ToCoreMessage, u.history);
      MapRoundTrip(ToCompatArtifact, ToCoreArtifact, u.artifacts);
      StatusReturns(t.status);
    }
  }

  lemma StatusReturns(s: Option<TaskStatus>)
    requires ToCompatStatusOrUnknown(s).Ok? && ToCoreStatus(ToCompatStatusOrUnknown(s).value).Ok?
    ensures Returns(ToCompatStatus, ToCoreStatus, ToCoreStatus(ToCompatStatusOrUnknown(s).value).value)
  {
    StatusNormalises();
    if s.Some? { assert ToCompatStatus(s.value).Ok?; }
  }

  // ---------- stream events ----------

  predicate FinalState(s: LegacyState) { s in {CompletedState, CanceledState, FailedState, RejectedState} }

  /** The computed `final` marks exactly the terminal states: the queue's other stop,
      INPUT_REQUIRED, is not final. */
  function ToCompatStatusUpdate(u: StatusUpdate): (r: Result<LegacyStatusUpdate, TranslateError>)
    ensures r.Ok? ==> (r.value.isFinal <==> u.status.Some? && IsTerminal(u.status.value.state))
    ensures r.Ok? ==> (Stops(StatusEvent(u)) <==> r.value.isFinal || r.value.status.state == InputRequiredState)
  {
    var status :- ToCompatStatusOrUnknown(u.status);
    Ok(LegacyStatusUpdate(u.taskId, u.contextId, status, FinalState(status.state), u.metadata))
  }

  function ToCoreStatusUpdate(u: LegacyStatusUpdate): Result<StatusUpdate, TranslateError> {
    var status :- ToCoreStatus(u.status);
    Ok(StatusUpdate(u.taskId, u.contextId, Some(status), u.metadata))
  }

  function ToCompatArtifactUpdate(u: ArtifactUpdate): Result<LegacyArtifactUpdate, TranslateError> {
    if u.artifact.None? then Err(InvalidParams)
    else
      var artifact :- ToCompatArtifact(u.artifact.value);
      Ok(LegacyArtifactUpdate(u.taskId, u.contextId, artifact, Some(u.append), Some(u.lastChunk), u.metadata))
  }

  function ToCoreArtifactUpdate(u: LegacyArtifactUpdate): Result<ArtifactUpdate, TranslateError> {
    var artifact :- ToCoreArtifact(u.artifact);
    Ok(ArtifactUpdate(u.taskId, u.contextId, Some(artifact), u.append == Some(true), u.lastChunk == Some(true),
                      u.metadata))
  }

  function ToCompatStream(payload: Option<Event>): Result<LegacyEvent, TranslateError> {
    match payload
    case None => Err(InternalError)
    case Some(MessageEvent(m)) => var r :- ToCompatMessage(m); Ok(LegacyMessageEvent(r))
    case Some(TaskEvent(t)) => var r :- ToCompatTask(t); Ok(LegacyTaskEvent(r))
    case Some(StatusEvent(u)) => var r :- ToCompatStatusUpdate(u); Ok(LegacyStatusEvent(r))
    case Some(ArtifactEvent(u)) => var r :- ToCompatArtifactUpdate(u); Ok(LegacyArtifactEvent(r))
  }

  function ToCoreStream(e: LegacyEvent): Result<Option<Event>, TranslateError> {
    match e
    case LegacyErrorResponse => Err(InternalError)
    case LegacyUnknownEvent => Err(InvalidParams)
    case LegacyMessageEvent(m) => var r :- ToCoreMessage(m); Ok(Some(MessageEvent(r)))
    case LegacyTaskEvent(t) => var r :- ToCoreTask(t); Ok(Some(TaskEvent(r)))
    case LegacyStatusEvent(u) => var r :- ToCoreStatusUpdate(u); Ok(Some(StatusEvent(r)))
    case LegacyArtifactEvent(u) => var r :- ToCoreArtifactUpdate(u); Ok(Some(ArtifactEvent(r)))
  }

  predicate RepresentableEvent(e: Event) {
    match e
    case MessageEvent(m) => RepresentableMessage(m)
    case TaskEvent(t) => RepresentableTask(t)
    case StatusEvent(u) => u.status.Some? && RepresentableStatus(u.status.value)
    case ArtifactEvent(u) => u.artifact.Some? && RepresentableParts(u.artifact.value.parts)
  }

  lemma StreamRoundTrip(payload: Option<Event>)
    ensures Returns(ToCompatStream, ToCoreStream, payload) <==> payload.Some? && RepresentableEvent(payload.value)
  {
    match payload
    case None =>
    case Some(MessageEvent(m)) => MessageRoundTrip(m);
    case Some(TaskEvent(t)) => TaskRoundTrip(t);
    case Some(StatusEvent(u)) => if u.status.Some? { StatusRoundTrip(u.status.value); }
    case Some(ArtifactEvent(u)) => if u.artifact.Some? { ArtifactRoundTrip(u.artifact.value); }
  }

  lemma StreamNormalises()
    ensures Normalises(ToCompatStream, ToCoreStream)
  {
    MessageNormalises();
    ArtifactNormalises();
    TaskNormalises();
    forall payload: Option<Event> | ToCompatStream(payload).Ok? && ToCoreStream(ToCompatStream(payload).value).Ok?
      ensures Returns(ToCompatStream, ToCoreStream, ToCoreStream(ToCompatStream(payload).value).value)
    {
      match payload
      case Some(MessageEvent(m)) => assert ToCompatMessage(m).Ok?;
      case Some(TaskEvent(t)) => assert ToCompatTask(t).Ok?;
      case Some(StatusEvent(u)) => StatusReturns(u.status);
      case Some(ArtifactEvent(u)) => assert ToCompatArtifact(u.artifact.value).Ok?;
    }
  }
}
