/** The other way round: v0.3 records through v1.0 and back, and where each field of a record goes
    (src/compat/v0_3/translate). */
module TranslateBack {
  import opened Base
  import opened Protocol
  import opened Translate

  // ---------- where the fields go ----------

  /** The eight states both versions know keep their names both ways; what v1.0 leaves open is
      `unknown`, and so is the role of a user the only one that is not an agent. */
  lemma StatesAndRolesKeepTheirNames(l: LegacyState, s: TaskState, r: Role)
    ensures ToCompatState(s) == l <==>
      || (s == Submitted && l == SubmittedState) || (s == Working && l == WorkingState)
      || (s == Completed && l == CompletedState) || (s == Failed && l == FailedState)
      || (s == Canceled && l == CanceledState) || (s == Rejected && l == RejectedState)
      || (s == InputRequired && l == InputRequiredState) || (s == AuthRequired && l == AuthRequiredState)
      || ((s == Unspecified || s == Unrecognized) && l == UnknownState)
    ensures ToCoreState(ToCompatState(s)) == s || s == Unrecognized
    ensures ToCompatState(ToCoreState(l)) == l
    ensures ToCompatRole(r) == (if r == RoleUser then LegacyUser else LegacyAgent)
  {}

  /** `x` is there exactly when `y` is not empty, and then they are equal. */
  predicate Omits<T(==)>(y: seq<T>, x: Option<seq<T>>) {
    (y == [] && x == None) || (y != [] && x == Some(y))
  }

  /** Where a part goes: texts and objects as they are, bytes and links with type and name, any
      other JSON value wrapped under "value" and flagged beside its metadata. */
  lemma CompatPartIs(p: Part)
    ensures ToCompatPart(p).Ok? <==> p.content.Some? && p.content.value != DataContent(NotJson)
    ensures ToCompatPart(p).Ok? ==>
      match (p.content.value, ToCompatPart(p).value)
      case (TextContent(text), LegacyText(t, metadata)) => t == text && metadata == p.metadata
      case (RawContent(bytes), LegacyFilePart(FileBytes(b, mime, name), metadata)) =>
        b == bytes && Omits(p.mediaType, mime) && Omits(p.filename, name) && metadata == p.metadata
      case (UrlContent(url), LegacyFilePart(FileUri(u, mime, name), metadata)) =>
        u == url && Omits(p.mediaType, mime) && Omits(p.filename, name) && metadata == p.metadata
      case (DataContent(JsonValue(v)), LegacyData(JsonValue(d), metadata)) =>
        if v.JObject? then d == v && metadata == p.metadata
        else
          && d.JObject? && d.members.Keys == {Lit("value")} && d.members[Lit("value")] == v
          && metadata.Some? && Lit("data_part_compat") in metadata.value
          && metadata.value[Lit("data_part_compat")] == JBool(true)
          && forall k | k != Lit("data_part_compat") ::
               if p.metadata.Some? && k in p.metadata.value
               then k in metadata.value && metadata.value[k] == p.metadata.value[k] else k !in metadata.value
      case _ => false
  {}

  lemma {:induction false} MapIs<A, B>(f: A -> Result<B, TranslateError>, xs: seq<A>)
    ensures Map(f, xs).Ok? <==> forall i | 0 <= i < |xs| :: f(xs[i]).Ok?
    ensures Map(f, xs).Ok? ==>
      |Map(f, xs).value| == |xs| && forall i | 0 <= i < |xs| :: f(xs[i]) == Ok(Map(f, xs).value[i])
  {
    if xs != [] {
      MapIs(f, xs[1..]);
      assert forall i | 0 < i < |xs| :: xs[i] == xs[1..][i - 1];
    }
  }

  /** Messages, artifacts, statuses, tasks and updates keep each field under its name; lists keep
      their order, and what is empty is omitted. */
  lemma CompatMessageIs(m: Message)
    ensures ToCompatMessage(m).Ok? <==> forall i | 0 <= i < |m.parts| :: ToCompatPart(m.parts[i]).Ok?
    ensures ToCompatMessage(m).Ok? ==>
      var r := ToCompatMessage(m).value;
      && r.messageId == m.messageId && r.metadata == m.metadata && r.role == ToCompatRole(m.role)
      && Omits(m.contextId, r.contextId) && Omits(m.taskId, r.taskId)
      && Omits(m.extensions, r.extensions) && Omits(m.referenceTaskIds, r.referenceTaskIds)
      && |r.parts| == |m.parts| && forall i | 0 <= i < |m.parts| :: ToCompatPart(m.parts[i]) == Ok(r.parts[i])
  {
    MapIs(ToCompatPart, m.parts);
  }

  lemma CompatArtifactIs(a: Artifact)
    ensures ToCompatArtifact(a).Ok? <==> forall i | 0 <= i < |a.parts| :: ToCompatPart(a.parts[i]).Ok?
    ensures ToCompatArtifact(a).Ok? ==>
      var r := ToCompatArtifact(a).value;
      && r.artifactId == a.artifactId && r.metadata == a.metadata
      && Omits(a.name, r.name) && Omits(a.description, r.description) && Omits(a.extensions, r.extensions)
      && |r.parts| == |a.parts| && forall i | 0 <= i < |a.parts| :: ToCompatPart(a.parts[i]) == Ok(r.parts[i])
  {
    MapIs(ToCompatPart, a.parts);
  }

  /** A missing status becomes a bare `unknown`, an empty timestamp none. */
  predicate StatusIs(s: Option<TaskStatus>, r: LegacyStatus) {
    match s
    case None => r == LegacyStatus(UnknownState, None, None)
    case Some(status) =>
      && r.state == ToCompatState(status.state)
      && r.timestamp == (if status.timestamp == Some([]) then None else status.timestamp)
      && (status.message.None? <==> r.message.None?)
      && (status.message.Some? ==> ToCompatMessage(status.message.value) == Ok(r.message.value))
  }

  lemma CompatTaskIs(t: Task)
    ensures ToCompatTask(t).Ok? ==>
      var r := ToCompatTask(t).value;
      && r.id == t.id && r.contextId == t.contextId && r.metadata == t.metadata && StatusIs(t.status, r.status)
      && (r.history.None? <==> t.history == []) && (r.artifacts.None? <==> t.artifacts == [])
      && |OrEmpty(r.history)| == |t.history| && |OrEmpty(r.artifacts)| == |t.artifacts|
      && (forall i | 0 <= i < |t.history| :: ToCompatMessage(t.history[i]) == Ok(OrEmpty(r.history)[i]))
      && forall i | 0 <= i < |t.artifacts| :: ToCompatArtifact(t.artifacts[i]) == Ok(OrEmpty(r.artifacts)[i])
  {
    MapIs(ToCompatMessage, t.history);
    MapIs(ToCompatArtifact, t.artifacts);
  }

  lemma CompatUpdatesAre(s: StatusUpdate, a: ArtifactUpdate)
    ensures ToCompatStatusUpdate(s).Ok? ==>
      var r := ToCompatStatusUpdate(s).value;
      r.taskId == s.taskId && r.contextId == s.contextId && r.metadata == s.metadata && StatusIs(s.status, r.status)
    ensures ToCompatArtifactUpdate(a).Ok? ==>
      var r := ToCompatArtifactUpdate(a).value;
      && r.taskId == a.taskId && r.contextId == a.contextId && r.metadata == a.metadata
      && r.append == Some(a.append) && r.lastChunk == Some(a.lastChunk)
      && a.artifact.Some? && ToCompatArtifact(a.artifact.value) == Ok(r.artifact)
  {}

  // ---------- v0.3 through v1.0 and back ----------

  predicate NotEmptied<T(==)>(x: Option<seq<T>>) { x != Some([]) }

  /** What v1.0 gives back unchanged: text; files with bytes or a link, their optional names not
      spelled as empty; data objects, flagged only when they are the wrapper of a single value that
      is no object. */
  predicate LegacyPartReturns(p: LegacyPart) {
    match p
    case LegacyText(_, _) => true
    case LegacyFilePart(FileBytes(_, mime, name), _) => NotEmptied(mime) && NotEmptied(name)
    case LegacyFilePart(FileUri(_, mime, name), _) => NotEmptied(mime) && NotEmptied(name)
    case LegacyFilePart(FileNeither(_, _), _) => false
    case LegacyData(JsonValue(d), metadata) =>
      d.JObject? && (Flagged(metadata) ==> d.members.Keys == {VALUE} && !d.members[VALUE].JObject?)
    case LegacyData(NotJson, _) => false
    case LegacyUnknownPart => false
  }

  lemma LegacyPartRoundTrip(p: LegacyPart)
    ensures Returns(ToCorePart, ToCompatPart, p) <==> LegacyPartReturns(p)
  {
    if p.LegacyData? && Flagged(p.metadata) { FlaggedRoundTrip(p.data, p.metadata.value); }
  }

  lemma FlaggedRoundTrip(data: DataValue, metadata: Metadata)
    requires Flagged(Some(metadata))
    ensures Returns(ToCorePart, ToCompatPart, LegacyData(data, Some(metadata))) <==>
      data.JsonValue? && data.json.JObject? && data.json.members.Keys == {VALUE} && !data.json.members[VALUE].JObject?
  {
    var rest := metadata - {FLAG};
    assert rest[FLAG := JBool(true)] == metadata;
    assert rest == map[] ==> map[][FLAG := JBool(true)] == metadata;
    if data.JsonValue? && data.json.JObject? && VALUE in data.json.members {
      var v := data.json.members[VALUE];
      assert data.json.members.Keys == {VALUE} <==> data.json.members == map[VALUE := v];
    }
  }

  predicate LegacyPartsReturn(parts: seq<LegacyPart>) { forall i | 0 <= i < |parts| :: LegacyPartReturns(parts[i]) }

  lemma LegacyPartsRoundTrip(parts: seq<LegacyPart>)
    ensures (Map(ToCorePart, parts).Ok? && Map(ToCompatPart, Map(ToCorePart, parts).value) == Ok(parts)) <==>
      LegacyPartsReturn(parts)
  {
    MapRoundTrip(ToCorePart, ToCompatPart, parts);
    forall i | 0 <= i < |parts| { LegacyPartRoundTrip(parts[i]); }
  }

  predicate LegacyMessageReturns(m: LegacyMessage) {
    && m.messageId != [] && m.role != LegacyOtherRole && LegacyPartsReturn(m.parts)
    && NotEmptied(m.contextId) && NotEmptied(m.taskId) && NotEmptied(m.extensions) && NotEmptied(m.referenceTaskIds)
  }

  lemma LegacyMessageRoundTrip(m: LegacyMessage)
    ensures Returns(ToCoreMessage, ToCompatMessage, m) <==> LegacyMessageReturns(m)
  {
    LegacyPartsRoundTrip(m.parts);
  }

  predicate LegacyArtifactReturns(a: LegacyArtifact) {
    LegacyPartsReturn(a.parts) && NotEmptied(a.name) && NotEmptied(a.description) && NotEmptied(a.extensions)
  }

  lemma LegacyArtifactRoundTrip(a: LegacyArtifact)
    ensures Returns(ToCoreArtifact, ToCompatArtifact, a) <==> LegacyArtifactReturns(a)
  {
    LegacyPartsRoundTrip(a.parts);
  }

  predicate LegacyStatusReturns(s: LegacyStatus) {
    NotEmptied(s.timestamp) && (s.message.Some? ==> LegacyMessageReturns(s.message.value))
  }

  lemma LegacyStatusRoundTrip(s: LegacyStatus)
    ensures Returns(ToCoreStatus, ToCompatStatus, s) <==> LegacyStatusReturns(s)
  {
    if s.message.Some? { LegacyMessageRoundTrip(s.message.value); }
  }

  predicate LegacyTaskReturns(t: LegacyTask) {
    && LegacyStatusReturns(t.status) && NotEmptied(t.history) && NotEmptied(t.artifacts)
    && (forall i | 0 <= i < |OrEmpty(t.history)| :: LegacyMessageReturns(OrEmpty(t.history)[i]))
    && forall i | 0 <= i < |OrEmpty(t.artifacts)| :: LegacyArtifactReturns(OrEmpty(t.artifacts)[i])
  }

  lemma LegacyHistoryRoundTrip(history: seq<LegacyMessage>)
    ensures
      (Map(ToCoreMessage, history).Ok? && Map(ToCompatMessage, Map(ToCoreMessage, history).value) == Ok(history)) <==>
      forall i | 0 <= i < |history| :: LegacyMessageReturns(history[i])
  {
    MapRoundTrip(ToCoreMessage, ToCompatMessage, history);
    forall i | 0 <= i < |history| { LegacyMessageRoundTrip(history[i]); }
  }

  lemma LegacyArtifactsRoundTrip(artifacts: seq<LegacyArtifact>)
    ensures
      (Map(ToCoreArtifact, artifacts).Ok? &&
       Map(ToCompatArtifact, Map(ToCoreArtifact, artifacts).value) == Ok(artifacts)) <==>
      forall i | 0 <= i < |artifacts| :: LegacyArtifactReturns(artifacts[i])
  {
    MapRoundTrip(ToCoreArtifact, ToCompatArtifact, artifacts);
    forall i | 0 <= i < |artifacts| { LegacyArtifactRoundTrip(artifacts[i]); }
  }

  lemma LegacyTaskRoundTrip(t: LegacyTask)
    ensures Returns(ToCoreTask, ToCompatTask, t) <==> LegacyTaskReturns(t)
  {
    LegacyStatusRoundTrip(t.status);
    LegacyHistoryRoundTrip(OrEmpty(t.history));
    LegacyArtifactsRoundTrip(OrEmpty(t.artifacts));
    MapIs(ToCoreMessage, OrEmpty(t.history));
    MapIs(ToCoreArtifact, OrEmpty(t.artifacts));
  }

  /** Events: `final` must be what the state makes it, and `append` and `lastChunk` must be there;
      omitted, they come back as false. */
  predicate LegacyEventReturns(e: LegacyEvent) {
    match e
    case LegacyMessageEvent(m) => LegacyMessageReturns(m)
    case LegacyTaskEvent(t) => LegacyTaskReturns(t)
    case LegacyStatusEvent(u) => LegacyStatusReturns(u.status) && u.isFinal == FinalState(u.status.state)
    case LegacyArtifactEvent(u) => LegacyArtifactReturns(u.artifact) && u.append.Some? && u.lastChunk.Some?
    case LegacyErrorResponse => false
    case LegacyUnknownEvent => false
  }

  lemma LegacyStatusUpdateRoundTrip(u: LegacyStatusUpdate)
    ensures Returns(ToCoreStatusUpdate, ToCompatStatusUpdate, u) <==>
      LegacyStatusReturns(u.status) && u.isFinal == FinalState(u.status.state)
  {
    LegacyStatusRoundTrip(u.status);
    StatesAndRolesKeepTheirNames(u.status.state, Submitted, RoleUser);
    if ToCoreStatus(u.status).Ok? {
      var s := ToCoreStatus(u.status).value;
      assert ToCoreStatusUpdate(u) == Ok(StatusUpdate(u.taskId, u.contextId, Some(s), u.metadata));
      assert ToCompatStatusOrUnknown(Some(s)) == ToCompatStatus(s);
    }
  }

  /** An update that omits `append` or `lastChunk` is one that says false. */
  lemma OmittedFlagsAreFalse(u: LegacyArtifactUpdate)
    ensures ToCoreArtifactUpdate(u).Ok? ==>
      var r := ToCoreArtifactUpdate(u).value;
      && r.append == (match u.append case None => false case Some(b) => b)
      && r.lastChunk == (match u.lastChunk case None => false case Some(b) => b)
    ensures Returns(ToCoreArtifactUpdate, ToCompatArtifactUpdate, u) <==>
      LegacyArtifactReturns(u.artifact) && u.append.Some? && u.lastChunk.Some?
    ensures LegacyArtifactReturns(u.artifact) ==>
      && ToCoreArtifactUpdate(u).Ok?
      && ToCompatArtifactUpdate(ToCoreArtifactUpdate(u).value) ==
           Ok(u.(append := Some(u.append == Some(true)), lastChunk := Some(u.lastChunk == Some(true))))
  {
    LegacyArtifactRoundTrip(u.artifact);
    if ToCoreArtifact(u.artifact).Ok? {
      var a := ToCoreArtifact(u.artifact).value;
      var r := ArtifactUpdate(u.taskId, u.contextId, Some(a), u.append == Some(true), u.lastChunk == Some(true),
                              u.metadata);
      assert ToCoreArtifactUpdate(u) == Ok(r);
      assert ToCompatArtifactUpdate(r).Ok? ==> ToCompatArtifact(a) == Ok(ToCompatArtifactUpdate(r).value.artifact);
    }
  }

  lemma LegacyStreamRoundTrip(e: LegacyEvent)
    ensures Returns(ToCoreStream, ToCompatStream, e) <==> LegacyEventReturns(e)
  {
    match e
    case LegacyMessageEvent(m) => LegacyMessageRoundTrip(m);
    case LegacyTaskEvent(t) => LegacyTaskRoundTrip(t);
    case LegacyStatusEvent(u) => LegacyStatusUpdateRoundTrip(u);
    case LegacyArtifactEvent(u) => OmittedFlagsAreFalse(u);
    case LegacyErrorResponse =>
    case LegacyUnknownEvent =>
  }
}
