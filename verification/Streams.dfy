/** The streaming entry points of `DefaultRequestHandler`: `_advanceStreamPattern`,
    `sendMessageStream`, `resubscribe`, and what a rejected streaming executor leaves on the wire
    (src/server/request_handler/default_request_handler.ts). */
module Streams {
  import opened Base
  import opened Protocol
  import opened EventQueue

  datatype StreamPattern = Undetermined | MessageOnly | TaskLifecycle

  datatype StreamError = BeforeInitialEvent | AfterMessageOnly | OutOfOrder | ProcessingFailed

  function AdvanceStreamPattern(e: Protocol.Event, current: StreamPattern): Result<StreamPattern, StreamError> {
    match current
    case Undetermined =>
      if e.MessageEvent? then Ok(MessageOnly) else if e.TaskEvent? then Ok(TaskLifecycle) else Err(BeforeInitialEvent)
    case MessageOnly => Err(AfterMessageOnly)
    case TaskLifecycle => if IsUpdate(e) then Ok(TaskLifecycle) else Err(OutOfOrder)
  }

  /** A prefix of a well-formed stream: one message, or one task followed only by updates with
      nothing after the first terminal or INPUT_REQUIRED status. */
  predicate StreamShape(events: seq<Protocol.Event>) {
    events == [] ||
    (|events| == 1 && events[0].MessageEvent?) ||
    (events[0].TaskEvent? && (forall i | 1 <= i < |events| :: IsUpdate(events[i])) && StopsOnlyLast(events))
  }

  /** `_mapEventToStreamResponse` and the history limit: a task event is shown as the store has
      it, or as published when it is missing there or cannot be loaded. */
  function Shown(e: Protocol.Event, stored: Option<Task>, historyLength: Option<int>): Protocol.Event {
    if e.TaskEvent? then TaskEvent(Limited(if stored.Some? then stored.value else e.task, historyLength)) else e
  }

  /** What the client is shown for event `e`: a task event carries the stored version of its task,
      or the published one if there is none, with its history cut; anything else is as published. */
  predicate ShownAs(e: Protocol.Event, stored: Option<Task>, historyLength: Option<int>, y: Protocol.Event) {
    if e.TaskEvent?
    then y.TaskEvent? && KeepsLatest(match stored case Some(t) => t case None => e.task, historyLength, y.task)
    else y == e
  }

  lemma ShownIsShownAs(e: Protocol.Event, stored: Option<Task>, historyLength: Option<int>, y: Protocol.Event)
    ensures ShownAs(e, stored, historyLength, y) <==> y == Shown(e, stored, historyLength)
  {
    if e.TaskEvent? && y.TaskEvent? {
      LimitedKeepsLatest(if stored.Some? then stored.value else e.task, historyLength, y.task);
    }
  }

  function ShownAll(events: seq<Protocol.Event>, stored: seq<Option<Task>>,
      historyLength: Option<int>): seq<Protocol.Event>
    requires |stored| == |events|
  {
    seq(|events|, i requires 0 <= i < |events| => Shown(events[i], stored[i], historyLength))
  }

  lemma ShownKeepsShape(events: seq<Protocol.Event>, stored: seq<Option<Task>>, historyLength: Option<int>)
    requires |stored| == |events|
    ensures StreamShape(ShownAll(events, stored, historyLength)) <==> StreamShape(events)
  {
    var shown := ShownAll(events, stored, historyLength);
    assert forall i | 0 <= i < |events| ::
      Stops(shown[i]) == Stops(events[i]) && IsUpdate(shown[i]) == IsUpdate(events[i]);
  }

  /** Why event number `n` ends the stream: it is an update before any task, a task or message
      after the first event, anything after a message, or processing it throws. */
  predicate FailsWith(events: seq<Protocol.Event>, faults: seq<bool>, n: nat, error: StreamError)
    requires n < |events| == |faults|
  {
    match error
    case BeforeInitialEvent => n == 0 && (events[0].StatusEvent? || events[0].ArtifactEvent?)
    case AfterMessageOnly => n == 1 && events[0].MessageEvent?
    case OutOfOrder => n > 0 && events[0].TaskEvent? && (events[n].TaskEvent? || events[n].MessageEvent?)
    case ProcessingFailed =>
      faults[n] && if n == 0 then events[0].MessageEvent? || events[0].TaskEvent?
                   else events[n].StatusEvent? || events[n].ArtifactEvent?
  }

  /** The consumer loop over what the queue delivers; `faults[i]` says that processing the i-th
      event throws, `stored[i]` is what the store then has for its task. */
  method SendMessageStream(events: seq<Protocol.Event>, faults: seq<bool>, stored: seq<Option<Task>>,
      historyLength: Option<int>)
    returns (yielded: seq<Protocol.Event>, error: Option<StreamError>)
    requires |faults| == |events| == |stored|
    ensures |yielded| <= |events|
    ensures forall i | 0 <= i < |yielded| :: ShownAs(events[i], stored[i], historyLength, yielded[i])
    ensures error.None? ==> |yielded| == |events|
    ensures error.Some? ==> |yielded| < |events| && FailsWith(events, faults, |yielded|, error.value)
    ensures StopsOnlyLast(events) ==> StreamShape(yielded) && error != Some(AfterMessageOnly)
    ensures StopsOnlyLast(events) ==>
      (error.None? <==> StreamShape(events) && forall i | 0 <= i < |faults| :: !faults[i])
  {
    var streamPattern := Undetermined;
    yielded := [];
    for i := 0 to |events|
      invariant yielded == ShownAll(events[..i], stored[..i], historyLength)
      invariant StopsOnlyLast(events) ==> StreamShape(events[..i])
      invariant streamPattern.Undetermined? <==> i == 0
      invariant streamPattern.MessageOnly? ==> i == 1 && events[0].MessageEvent?
      invariant streamPattern.TaskLifecycle? ==>
        i > 0 && events[0].TaskEvent? && forall j | 1 <= j < i :: IsUpdate(events[j])
      invariant forall j | 0 <= j < i :: !faults[j] && ShownAs(events[j], stored[j], historyLength, yielded[j])
    {
      assert streamPattern.MessageOnly? ==> Stops(events[0]);
      ShownKeepsShape(events[..i], stored[..i], historyLength);
      match AdvanceStreamPattern(events[i], streamPattern) {
        case Err(e) => return yielded, Some(e);
        case Ok(p) => streamPattern := p;
      }
      if faults[i] { return yielded, Some(ProcessingFailed); }
      ShownIsShownAs(events[i], stored[i], historyLength, Shown(events[i], stored[i], historyLength));
      yielded := yielded + [Shown(events[i], stored[i], historyLength)];
    }
    assert events[..|events|] == events && stored[..|stored|] == stored;
    ShownKeepsShape(events, stored, historyLength);
    error := None;
  }

  /** Behind the queue a stream's events stop at most at their end, so every run of
      `sendMessageStream` yields a prefix of a well-formed stream and never takes the
      message-only error branch. */
  lemma QueueFeedsStreams(actions: seq<EventQueue.Action>)
    requires Runs(actions)
    ensures StopsOnlyLast(After(actions).delivered)
  {
    RunsAreValid(actions);
  }

  // ---------- resubscribe ----------

  predicate Concerns(e: Protocol.Event, taskId: Text) { !e.MessageEvent? && TaskIdOf(e) == taskId }

  function Forwarded(events: seq<Protocol.Event>, taskId: Text): seq<Protocol.Event> {
    if events == [] then []
    else
      var last := events[|events| - 1];
      Forwarded(events[..|events| - 1], taskId) + if Concerns(last, taskId) then [last] else []
  }

  datatype ResubscribeError = NotSupported | LoadFailed | TaskNotFound | TaskIsTerminal

  /** What the store answers when the task is loaded; `Err` is a store that fails. */
  type Loaded = Result<Option<Task>, ()>

  function Refusal(streaming: bool, loaded: Loaded): Option<ResubscribeError> {
    if !streaming then Some(NotSupported)
    else match loaded
      case Err(_) => Some(LoadFailed)
      case Ok(None) => Some(TaskNotFound)
      case Ok(Some(task)) =>
        if task.status.Some? && IsTerminal(task.status.value.state) then Some(TaskIsTerminal) else None
  }

  /** A resubscription is refused exactly without streaming, when the task cannot be loaded, is not
      there, or has ended: completed, failed, canceled or rejected, not when it waits for input or
      credentials. */
  lemma RefusalIff(streaming: bool, loaded: Loaded)
    ensures Refusal(streaming, loaded) == Some(NotSupported) <==> !streaming
    ensures Refusal(streaming, loaded) == Some(LoadFailed) <==> streaming && loaded.Err?
    ensures Refusal(streaming, loaded) == Some(TaskNotFound) <==> streaming && loaded == Ok(None)
    ensures Refusal(streaming, loaded) == Some(TaskIsTerminal) <==>
      && streaming && loaded.Ok? && loaded.value.Some? && loaded.value.value.status.Some?
      && var state := loaded.value.value.status.value.state;
         state == Completed || state == Failed || state == Canceled || state == Rejected
  {}

  /** `events` is what the queue on the task's bus delivers, empty when there is no bus. */
  method Resubscribe(taskId: Text, streaming: bool, loaded: Loaded, events: seq<Protocol.Event>)
    returns (outputs: seq<Protocol.Event>, error: Option<ResubscribeError>)
    ensures error == Refusal(streaming, loaded)
    ensures outputs == if error.Some? then [] else Resubscribed(loaded.value.value, events, taskId)
  {
    outputs, error := [], None;
    if !streaming { return [], Some(NotSupported); }
    if loaded.Err? { return [], Some(LoadFailed); }
    var stored := loaded.value;
    if stored.None? { return [], Some(TaskNotFound); }
    if stored.value.status.Some? && IsTerminal(stored.value.status.value.state) { return [], Some(TaskIsTerminal); }
    outputs := [TaskEvent(stored.value)];
    for i := 0 to |events|
      invariant outputs == Resubscribed(stored.value, events[..i], taskId)
    {
      assert events[..i + 1][..i] == events[..i];
      match events[i]
      case StatusEvent(u) => if u.taskId == taskId { outputs := outputs + [events[i]]; }
      case ArtifactEvent(u) => if u.taskId == taskId { outputs := outputs + [events[i]]; }
      case TaskEvent(t) => if t.id == taskId { outputs := outputs + [events[i]]; }
      case MessageEvent(_) =>
    }
    assert events[..|events|] == events;
  }

  /** The snapshot, then the task's own events. */
  function Resubscribed(task: Task, events: seq<Protocol.Event>, taskId: Text): seq<Protocol.Event> {
    [TaskEvent(task)] + Forwarded(events, taskId)
  }

  /** Forwarding keeps order and multiplicity; of a single event it keeps a task, status or artifact
      event of this very task, and drops messages and what names another task. */
  lemma {:induction false} ForwardedIsExact(a: seq<Protocol.Event>, b: seq<Protocol.Event>, taskId: Text)
    ensures Forwarded(a + b, taskId) == Forwarded(a, taskId) + Forwarded(b, taskId)
    ensures |b| == 1 ==>
      Forwarded(b, taskId) ==
        match b[0]
        case MessageEvent(_) => []
        case TaskEvent(t) => if t.id == taskId then b else []
        case StatusEvent(u) => if u.taskId == taskId then b else []
        case ArtifactEvent(u) => if u.taskId == taskId then b else []
    decreases |b|
  {
    if b == [] {
      assert a + b == a;
    } else {
      var n := |b| - 1;
      assert (a + b)[..|a + b| - 1] == a + b[..n];
      ForwardedIsExact(a, b[..n], taskId);
      if n == 0 { assert b == [b[0]]; }
    }
  }

  lemma ForwardedPrefix(a: seq<Protocol.Event>, b: seq<Protocol.Event>, taskId: Text)
    requires a <= b
    ensures Forwarded(a, taskId) <= Forwarded(b, taskId)
  {
    assert b == a + b[|a|..];
    ForwardedIsExact(a, b[|a|..], taskId);
  }

  /** At any time a resubscription has shown the snapshot and some of the task's events published
      since the queue attached, in order and without a gap, none after the first stopping event
      of the bus; once it has drained a queue that stopped at step `k`, it has shown all that
      were published before that step, up to that stopping event. */
  lemma ResubscriptionSeesTheCut(actions: seq<EventQueue.Action>, task: Task, taskId: Text, k: nat)
    requires Runs(actions)
    ensures Resubscribed(task, After(actions).delivered, taskId) <= Resubscribed(task, Cut(Published(actions)), taskId)
    ensures StopsAt(actions, k) && After(actions).pc.Done? && !After(actions).abandoned ==>
      Resubscribed(task, After(actions).delivered, taskId) == Resubscribed(task, Cut(Published(actions[..k])), taskId)
  {
    var q := After(actions);
    DeliversExactlyTheCut(actions);
    AcceptsUntilStopped(actions, 0);
    PrefixCuts(q.accepted, Published(actions));
    ForwardedPrefix(q.delivered, Cut(Published(actions)), taskId);
    if StopsAt(actions, k) { AcceptedIsPublished(actions, k); }
  }

  lemma PrefixCuts(a: seq<Protocol.Event>, b: seq<Protocol.Event>)
    requires a <= b
    ensures Cut(a) <= Cut(b)
  {
    assert b == a + b[|a|..];
    CutConcat(a, b[|a|..]);
  }

  predicate NoTaskOf(events: seq<Protocol.Event>, taskId: Text) {
    forall i | 0 <= i < |events| :: !(events[i].TaskEvent? && events[i].task.id == taskId)
  }

  predicate AllUpdates(events: seq<Protocol.Event>) { forall i | 0 <= i < |events| :: IsUpdate(events[i]) }

  lemma AllUpdatesSnoc(events: seq<Protocol.Event>, e: Protocol.Event)
    ensures AllUpdates(events + [e]) <==> AllUpdates(events) && IsUpdate(e)
  {
    var all := events + [e];
    assert all[|events|] == e && forall i | 0 <= i < |events| :: all[i] == events[i];
  }

  lemma NoTaskOfConcat(a: seq<Protocol.Event>, b: seq<Protocol.Event>, taskId: Text)
    ensures NoTaskOf(a + b, taskId) <==> NoTaskOf(a, taskId) && NoTaskOf(b, taskId)
  {
    var all := a + b;
    assert forall i | 0 <= i < |a| :: all[i] == a[i];
    assert forall i | 0 <= i < |b| :: all[|a| + i] == b[i];
  }

  lemma {:induction false} ForwardedIsUpdates(events: seq<Protocol.Event>, taskId: Text)
    ensures AllUpdates(Forwarded(events, taskId)) <==> NoTaskOf(events, taskId)
    ensures NoStopIn(events) ==> NoStopIn(Forwarded(events, taskId))
  {
    if events != [] {
      var n := |events| - 1;
      var before, last := events[..n], events[n];
      ForwardedIsUpdates(before, taskId);
      assert events == before + [last];
      NoTaskOfConcat(before, [last], taskId);
      NoStopConcat(before, [last]);
      AllUpdatesSnoc(Forwarded(before, taskId), last);
      NoStopConcat(Forwarded(before, taskId), [last]);
      assert Forwarded(before, taskId) + [] == Forwarded(before, taskId);
      assert NoTaskOf([last], taskId) <==> !(last.TaskEvent? && last.task.id == taskId);
    }
  }

  lemma ForwardedStopsLast(delivered: seq<Protocol.Event>, taskId: Text)
    requires StopsOnlyLast(delivered)
    ensures StopsOnlyLast(Forwarded(delivered, taskId))
  {
    if delivered != [] {
      var before := delivered[..|delivered| - 1];
      ForwardedIsUpdates(before, taskId);
      var earlier, shown := Forwarded(before, taskId), Forwarded(delivered, taskId);
      assert forall i | 0 <= i < |earlier| :: shown[i] == earlier[i];
    }
  }

  lemma ShapeAfterTask(task: Task, shown: seq<Protocol.Event>)
    requires StopsOnlyLast(shown)
    ensures StreamShape([TaskEvent(task)] + shown) <==> AllUpdates(shown)
  {
    var all := [TaskEvent(task)] + shown;
    assert forall i | 0 <= i < |shown| :: all[i + 1] == shown[i];
    assert forall i | 1 <= i < |all| :: all[i] == shown[i - 1];
  }

  /** What a resubscription shows of a queue's deliveries is well formed exactly when they hold no
      task event of its own task; the snapshot it begins with stands for the task. */
  lemma ResubscribedShape(task: Task, delivered: seq<Protocol.Event>, taskId: Text)
    requires StopsOnlyLast(delivered)
    ensures StreamShape(Resubscribed(task, delivered, taskId)) <==> NoTaskOf(delivered, taskId)
  {
    ForwardedStopsLast(delivered, taskId);
    ForwardedIsUpdates(delivered, taskId);
    ShapeAfterTask(task, Forwarded(delivered, taskId));
  }

  // ---------- a rejected streaming executor ----------

  /** What the error handler publishes: a FAILED task, and a FAILED status for it. */
  datatype Failure = Failure(task: Task, status: StatusUpdate)

  predicate IsFailure(f: Failure) {
    && f.task.status.Some? && f.task.status.value.state == Failed
    && f.status.status.Some? && f.status.status.value.state == Failed
  }

  predicate HasTask(events: seq<Protocol.Event>) { exists i | 0 <= i < |events| :: events[i].TaskEvent? }

  /** With or without a task in front of the status. */
  function Synthesized(withTask: bool, f: Failure): seq<Protocol.Event> {
    (if withTask then [TaskEvent(f.task)] else []) + [StatusEvent(f.status)]
  }

  /** Whatever had been published, a queue that takes in the failure ends: at a message, terminal
      or INPUT_REQUIRED status it already held, or else at the synthesized FAILED status. If it
      held none, what it shows is well formed exactly when the task was synthesized for a queue
      that had nothing, or not synthesized for one that had a well-formed beginning. */
  lemma FailureEnds(published: seq<Protocol.Event>, withTask: bool, f: Failure)
    requires IsFailure(f)
    ensures var extra := Synthesized(withTask, f);
      var seen := Cut(published + extra);
      && EndsWithStop(seen)
      && seen == (if NoStopIn(published) then published + extra else Cut(published))
      && (StreamShape(seen) <==>
          if !NoStopIn(published) then StreamShape(Cut(published))
          else if withTask then published == [] else published != [] && StreamShape(published))
  {
    var extra := Synthesized(withTask, f);
    CutConcat(published, extra);
    assert Stops(StatusEvent(f.status));
    assert Cut(extra) == extra by { if withTask { assert extra[1..] == [StatusEvent(f.status)]; } }
    if NoStopIn(published) { ShapeOfFailure(published, withTask, f); }
  }

  lemma ShapeOfFailure(published: seq<Protocol.Event>, withTask: bool, f: Failure)
    requires IsFailure(f) && NoStopIn(published)
    ensures StreamShape(published + Synthesized(withTask, f)) <==>
      if withTask then published == [] else published != [] && StreamShape(published)
  {
    var n, seen := |published|, published + Synthesized(withTask, f);
    assert forall i | 0 <= i < n :: seen[i] == published[i];
    assert seen[n] == Synthesized(withTask, f)[0] && seen[|seen| - 1] == StatusEvent(f.status);
    assert n > 0 && published[0].MessageEvent? ==> Stops(published[0]);
  }

  /** In a turn's own queue a task is synthesized exactly when it holds none; the stream is then
      well formed exactly when what the executor itself put on the wire is. */
  lemma RejectedStreamEnds(published: seq<Protocol.Event>, f: Failure)
    requires IsFailure(f)
    ensures var seen := Cut(published + Synthesized(!HasTask(published), f));
      && EndsWithStop(seen)
      && seen == (if NoStopIn(published) then published + Synthesized(!HasTask(published), f) else Cut(published))
      && (StreamShape(seen) <==> StreamShape(Cut(published)))
  {
    FailureEnds(published, !HasTask(published), f);
    CutConcat(published, []);
    if published != [] {
      assert published[0].TaskEvent? ==> HasTask(published);
      assert published[0].MessageEvent? ==> Stops(published[0]);
    }
  }
}
