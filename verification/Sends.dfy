/** `sendMessage` from end to end (src/server/request_handler/default_request_handler.ts): what
    `Lifecycle` lets a turn's own queue deliver, fed to the drain of `SendMessage`. */
module Sends {
  import opened Base
  import opened Protocol
  import opened EventQueue
  import opened Streams
  import opened Lifecycle
  import opened ResultManagers
  import Send = SendMessage

  /** The queue once its consumer has taken all it can without a further step of anyone else. */
  function AtRest(q: Queue): Queue { EventQueue.Drain(q, |q.buffer| + 2) }

  /** `inputs` are the queue's deliveries, each with what the store did while it was processed. */
  predicate Processed(inputs: seq<Send.Input>, q: Queue) {
    |inputs| == |q.delivered| && forall i | 0 <= i < |inputs| :: inputs[i].event == q.delivered[i]
  }

  /** None of the events fails to process or answers the caller. */
  predicate Pending(mode: Send.Mode, m: Manager, inputs: seq<Send.Input>, historyLength: Option<int>) {
    forall i | 0 <= i < |inputs| :: Send.OkAt(m, inputs, i) && Send.AnswerAt(mode, m, inputs, i, historyLength).None?
  }

  /** The caller's promise has settled as `r`: at one of the events, or because they have ended. */
  ghost predicate Holds(mode: Send.Mode, m: Manager, inputs: seq<Send.Input>, historyLength: Option<int>, ended: bool,
      r: Send.Settlement) {
    exists k: nat | k <= |inputs| && (ended || k < |inputs|) :: Send.SettlesAt(mode, m, inputs, historyLength, k, r)
  }

  /** The first event that settles, or the number of events. */
  function FirstSettling(mode: Send.Mode, m: Manager, inputs: seq<Send.Input>, historyLength: Option<int>,
      n: nat): (k: nat)
    requires n <= |inputs|
    requires forall i | 0 <= i < n :: Send.OkAt(m, inputs, i) && Send.AnswerAt(mode, m, inputs, i, historyLength).None?
    ensures k <= |inputs|
    ensures forall i | 0 <= i < k :: Send.OkAt(m, inputs, i) && Send.AnswerAt(mode, m, inputs, i, historyLength).None?
    ensures k < |inputs| ==> !Send.OkAt(m, inputs, k) || Send.AnswerAt(mode, m, inputs, k, historyLength).Some?
    decreases |inputs| - n
  {
    if n == |inputs| || !Send.OkAt(m, inputs, n) || Send.AnswerAt(mode, m, inputs, n, historyLength).Some? then n
    else FirstSettling(mode, m, inputs, historyLength, n + 1)
  }

  /** A promise settles exactly when the events end, or one of them fails or answers. */
  lemma SettlesIff(mode: Send.Mode, m: Manager, inputs: seq<Send.Input>, historyLength: Option<int>, ended: bool)
    ensures (exists r :: Holds(mode, m, inputs, historyLength, ended, r)) <==>
      ended || !Pending(mode, m, inputs, historyLength)
  {
    var k := FirstSettling(mode, m, inputs, historyLength, 0);
    if ended || !Pending(mode, m, inputs, historyLength) {
      var r := if k == |inputs| then Send.AtEnd(mode, Send.ManagerAt(m, inputs, k), historyLength)
        else if !Send.OkAt(m, inputs, k) then Send.RejectedByDrain
        else Send.AnswerAt(mode, m, inputs, k, historyLength).value;
      assert Send.SettlesAt(mode, m, inputs, historyLength, k, r);
      assert Holds(mode, m, inputs, historyLength, ended, r);
    }
  }

  /** In every run: once a turn's executor has settled and its drain has processed all it was
      delivered, the caller's promise is settled if and only if the bus was torn down, or the
      queue holds a message, terminal or INPUT_REQUIRED status, or some event answered or failed. */
  lemma SendSettlesIff(keep: set<TaskState>, actions: seq<Lifecycle.Action>, s: System, i: nat, mode: Send.Mode,
      m: Manager,
      inputs: seq<Send.Input>, historyLength: Option<int>)
    requires Run(keep, actions, s) && Placed(s) && Can(s, Settle(i)) &&
        Live(s, s.executors[i].bus, s.executors[i].queue)
    requires s.executors[i].queue < |Do(s, keep, Settle(i)).queues|
    requires Processed(inputs, AtRest(Do(s, keep, Settle(i)).queues[s.executors[i].queue].queue))
    ensures var x := s.executors[i];
      var end := AtRest(Do(s, keep, Settle(i)).queues[x.queue].queue);
      (exists r :: Holds(mode, m, inputs, historyLength, end.pc.Done?, r)) <==>
        !KeepsBus(x, keep) || !NoStopIn(s.queues[x.queue].queue.accepted) || !Pending(mode, m, inputs, historyLength)
  {
    var end := AtRest(Do(s, keep, Settle(i)).queues[s.executors[i].queue].queue);
    SettledQueueEndsIff(keep, actions, s, i, s.executors[i].queue);
    SettlesIff(mode, m, inputs, historyLength, end.pc.Done?);
  }

  lemma {:induction false} NoMessageNoFinal(m: Manager, inputs: seq<Send.Input>, n: nat)
    requires n <= |inputs| && m.finalMessage.None? && forall i | 0 <= i < n :: !inputs[i].event.MessageEvent?
    ensures Send.ManagerAt(m, inputs, n).finalMessage.None?
  {
    if n > 0 { NoMessageNoFinal(m, inputs, n - 1); }
  }

  /** The synthesized status, processed last while the store holds the task, makes it FAILED. */
  lemma FailedStatusIsCurrent(m: Manager, input: Send.Input, f: Failure)
    requires IsFailure(f) && input.event == StatusEvent(f.status) && f.status.taskId != []
    requires Send.Handle(m, input).ok && Matching(input.store.task, f.status.taskId)
    ensures var t := Send.Handle(m, input).manager.currentTask;
      t.Some? && t.value.id == f.status.taskId && StateOf(TaskEvent(t.value)) == Some(Failed)
  {}

  /** In every run: a blocking caller whose executor is rejected gets the FAILED task, unless the
      executor had ended the turn itself or an AUTH_REQUIRED snapshot was handed out before. The
      store is supposed to work and to hold the synthesized task when its status is processed. */
  lemma RejectedSendGetsFailedTask(keep: set<TaskState>, actions: seq<Lifecycle.Action>, s: System, i: nat, f: Failure,
      latest: Message, inputs: seq<Send.Input>, historyLength: Option<int>, r: Send.Settlement)
    requires Run(keep, actions, s) && Placed(s) && Can(s, Catch(i, f)) && !s.executors[i].stream
    requires Live(s, s.executors[i].bus, s.executors[i].queue) &&
        NoStopIn(s.queues[s.executors[i].queue].queue.accepted)
    requires s.executors[i].queue < |Do(s, keep, Catch(i, f)).queues|
    requires Processed(inputs, AtRest(Do(s, keep, Catch(i, f)).queues[s.executors[i].queue].queue))
    requires f.status.taskId == f.task.id != [] && inputs != [] && Matching(inputs[|inputs| - 1].store.task, f.task.id)
    requires var m := Manager(None, Some(latest), None);
      && (forall k | 0 <= k < |inputs| :: Send.OkAt(m, inputs, k) && !Send.SnapshotAt(m, inputs, k))
      && Send.SettlesAs(Send.Blocking, m, inputs, historyLength, r)
    ensures r.ResolvedTask? && r.task.id == f.task.id && StateOf(TaskEvent(r.task)) == Some(Failed)
  {
    FailureIsDelivered(keep, actions, s, i, f, inputs);
    FailedTaskAnswers(Manager(None, Some(latest), None), inputs, f, historyLength, r);
  }

  /** What the drain of a rejected blocking turn gets to process. */
  lemma FailureIsDelivered(keep: set<TaskState>, actions: seq<Lifecycle.Action>, s: System, i: nat, f: Failure,
      inputs: seq<Send.Input>)
    requires Run(keep, actions, s) && Placed(s) && Can(s, Catch(i, f)) && !s.executors[i].stream
    requires Live(s, s.executors[i].bus, s.executors[i].queue) &&
        NoStopIn(s.queues[s.executors[i].queue].queue.accepted)
    requires s.executors[i].queue < |Do(s, keep, Catch(i, f)).queues|
    requires Processed(inputs, AtRest(Do(s, keep, Catch(i, f)).queues[s.executors[i].queue].queue))
    ensures var n := |s.queues[s.executors[i].queue].queue.accepted|;
      |inputs| == n + 2 && inputs[n].event == TaskEvent(f.task) && inputs[n + 1].event == StatusEvent(f.status)
    ensures forall k | 0 <= k < |inputs| :: !inputs[k].event.MessageEvent?
  {
    RejectionEndsEveryQueue(keep, actions, s, i, f, s.executors[i].queue);
    DeliveredFailure(inputs, s.queues[s.executors[i].queue].queue.accepted, f);
  }

  lemma FailedTaskAnswers(m: Manager, inputs: seq<Send.Input>, f: Failure, historyLength: Option<int>,
      r: Send.Settlement)
    requires IsFailure(f) && inputs != [] && inputs[|inputs| - 1].event == StatusEvent(f.status) && m.finalMessage.None?
    requires f.status.taskId != [] && Matching(inputs[|inputs| - 1].store.task, f.status.taskId)
    requires forall k | 0 <= k < |inputs| :: !inputs[k].event.MessageEvent?
    requires forall k | 0 <= k < |inputs| :: Send.OkAt(m, inputs, k) && !Send.SnapshotAt(m, inputs, k)
    requires Send.SettlesAs(Send.Blocking, m, inputs, historyLength, r)
    ensures r.ResolvedTask? && r.task.id == f.status.taskId && StateOf(TaskEvent(r.task)) == Some(Failed)
  {
    var n := |inputs|;
    Send.BlockingOutcome(m, inputs, historyLength, r, n, 0);
    NoMessageNoFinal(m, inputs, n);
    assert Send.OkAt(m, inputs, n - 1);
    FailedStatusIsCurrent(Send.ManagerAt(m, inputs, n - 1), inputs[n - 1], f);
  }

  lemma DeliveredFailure(inputs: seq<Send.Input>, accepted: seq<Protocol.Event>, f: Failure)
    requires NoStopIn(accepted) && |inputs| == |accepted| + 2
    requires forall k | 0 <= k < |inputs| :: inputs[k].event == (accepted + Synthesized(true, f))[k]
    ensures forall k | 0 <= k < |inputs| :: !inputs[k].event.MessageEvent?
    ensures inputs[|inputs| - 2].event == TaskEvent(f.task) && inputs[|inputs| - 1].event == StatusEvent(f.status)
  {
    forall k | 0 <= k < |inputs| ensures !inputs[k].event.MessageEvent? {
      if k < |accepted| { assert inputs[k].event == accepted[k] && !Stops(accepted[k]); }
    }
  }

  /** A non-blocking caller whose executor is rejected before it published anything gets the
      synthesized task at once. */
  lemma RejectedSendGetsTaskAtOnce(keep: set<TaskState>, actions: seq<Lifecycle.Action>, s: System, i: nat, f: Failure,
      m: Manager, inputs: seq<Send.Input>, historyLength: Option<int>, r: Send.Settlement)
    requires Run(keep, actions, s) && Placed(s) && Can(s, Catch(i, f)) && !s.executors[i].stream
    requires Live(s, s.executors[i].bus, s.executors[i].queue) && s.queues[s.executors[i].queue].queue.accepted == []
    requires s.executors[i].queue < |Do(s, keep, Catch(i, f)).queues|
    requires Processed(inputs, AtRest(Do(s, keep, Catch(i, f)).queues[s.executors[i].queue].queue))
    requires inputs != [] && Send.OkAt(m, inputs, 0) && Send.SettlesAs(Send.NonBlocking, m, inputs, historyLength, r)
    ensures Send.GivesTask(r, f.task, historyLength)
  {
    FailureIsDelivered(keep, actions, s, i, f, inputs);
    FirstAnswerSettles(Send.NonBlocking, m, inputs, historyLength, r);
    LimitedKeepsLatest(f.task, historyLength, Limited(f.task, historyLength));
  }

  lemma FirstAnswerSettles(mode: Send.Mode, m: Manager, inputs: seq<Send.Input>, historyLength: Option<int>,
      r: Send.Settlement)
    requires inputs != [] && Send.OkAt(m, inputs, 0) && Send.AnswerAt(mode, m, inputs, 0, historyLength).Some?
    requires Send.SettlesAs(mode, m, inputs, historyLength, r)
    ensures Some(r) == Send.AnswerAt(mode, m, inputs, 0, historyLength)
  {}

  /** An executor that announces INPUT_REQUIRED in a task event and returns: the promise of a
      blocking send does not settle, that of a non-blocking one has, with the task. */
  lemma InputRequiredTaskNeverSettles(t: Text, task: Task, m: Manager, store: Send.StoreAnswer,
      historyLength: Option<int>)
    returns (actions: seq<Lifecycle.Action>, s: System)
    requires task.status.Some? && task.status.value.state == InputRequired
    requires Send.OkAt(m, [Send.Input(TaskEvent(task), store)], 0)
    ensures Run(KEEP_ALIVE, actions, s) && t in s.registry && |s.queues| == 1 && |s.executors| == 1 &&
        !s.executors[0].running
    ensures var inputs, end := [Send.Input(TaskEvent(task), store)], AtRest(s.queues[0].queue);
      && Processed(inputs, end)
      && (forall r :: !Holds(Send.Blocking, m, inputs, historyLength, end.pc.Done?, r))
      && exists r :: Holds(Send.NonBlocking, m, inputs, historyLength, end.pc.Done?, r) &&
           Send.GivesTask(r, task, historyLength)
  {
    actions, s := InputRequiredTaskHangs(t, false, task);
    var inputs := [Send.Input(TaskEvent(task), store)];
    SettlesIff(Send.Blocking, m, inputs, historyLength, false);
    var r := Send.ResolvedTask(Limited(task, historyLength));
    assert Send.SettlesAt(Send.NonBlocking, m, inputs, historyLength, 0, r);
    LimitedKeepsLatest(task, historyLength, Limited(task, historyLength));
    assert Holds(Send.NonBlocking, m, inputs, historyLength, AtRest(s.queues[0].queue).pc.Done?, r);
  }
}
