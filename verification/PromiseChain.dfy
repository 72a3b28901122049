/** The per-key promise chain shared by `serializeByScope` (src/server/result_manager.ts) and
    `DefaultPushNotificationSender.send`, as a step machine: chaining a job, starting it once
    its predecessor settles, settling it either way, and running its evict callback. */
module PromiseChain {
  import opened Base

  datatype Status = Waiting | Running | Settled(ok: bool)

  /** `prev` is the tail found when the job was chained; `None` is `Promise.resolve()`. */
  datatype Job = Job(key: Text, prev: Option<nat>, status: Status, evicted: bool)

  datatype Chains = Chains(jobs: seq<Job>, tails: map<Text, nat>)

  datatype Step = Chain(key: Text) | Start(job: nat) | Settle(job: nat, ok: bool) | Evict(job: nat)

  const EMPTY := Chains([], map[])

  predicate CanStart(s: Chains, j: nat) {
    j < |s.jobs| && s.jobs[j].status.Waiting? &&
    (s.jobs[j].prev.Some? ==> s.jobs[j].prev.value < |s.jobs| && s.jobs[s.jobs[j].prev.value].status.Settled?)
  }

  predicate Enabled(s: Chains, step: Step) {
    match step
    case Chain(_) => true
    case Start(j) => CanStart(s, j)
    case Settle(j, _) => j < |s.jobs| && s.jobs[j].status.Running?
    case Evict(j) => j < |s.jobs| && s.jobs[j].status.Settled? && !s.jobs[j].evicted
  }

  function Next(s: Chains, step: Step): Chains
    requires Enabled(s, step)
  {
    match step
    case Chain(key) =>
      var prev := if key in s.tails then Some(s.tails[key]) else None;
      Chains(s.jobs + [Job(key, prev, Waiting, false)], s.tails[key := |s.jobs|])
    case Start(j) => s.(jobs := s.jobs[j := s.jobs[j].(status := Running)])
    case Settle(j, ok) => s.(jobs := s.jobs[j := s.jobs[j].(status := Settled(ok))])
    case Evict(j) =>
      var job := s.jobs[j];
      Chains(s.jobs[j := job.(evicted := true)],
             if job.key in s.tails && s.tails[job.key] == j then s.tails - {job.key} else s.tails)
  }

  ghost predicate Reachable(s: Chains, steps: seq<Step>)
    decreases |steps|
  {
    if steps == [] then s == EMPTY
    else
      var n := |steps| - 1;
      exists before :: Reachable(before, steps[..n]) && Enabled(before, steps[n]) && s == Next(before, steps[n])
  }

  // ---------- the invariant ----------

  predicate IsLast(s: Chains, j: nat)
    requires j < |s.jobs|
  {
    forall k | j < k < |s.jobs| :: s.jobs[k].key != s.jobs[j].key
  }

  predicate EarlierSettled(s: Chains, j: nat)
    requires j < |s.jobs|
  {
    forall i | 0 <= i < j && s.jobs[i].key == s.jobs[j].key :: s.jobs[i].status.Settled?
  }

  predicate LinkOk(s: Chains, j: nat)
    requires j < |s.jobs|
  {
    match s.jobs[j].prev
    case None => EarlierSettled(s, j)
    case Some(p) => p < j && s.jobs[p].key == s.jobs[j].key &&
                    forall i | p < i < j :: s.jobs[i].key != s.jobs[j].key
  }

  ghost predicate Links(s: Chains) { forall j | 0 <= j < |s.jobs| :: LinkOk(s, j) }

  ghost predicate InOrder(s: Chains) {
    forall j | 0 <= j < |s.jobs| && !s.jobs[j].status.Waiting? :: EarlierSettled(s, j)
  }

  ghost predicate TailsMatch(s: Chains) {
    && (forall j | 0 <= j < |s.jobs| && s.jobs[j].evicted :: s.jobs[j].status.Settled?)
    && (forall key | key in s.tails ::
          var t := s.tails[key]; t < |s.jobs| && s.jobs[t].key == key && IsLast(s, t) && !s.jobs[t].evicted)
    && (forall j | 0 <= j < |s.jobs| && IsLast(s, j) && !s.jobs[j].evicted ::
          s.jobs[j].key in s.tails && s.tails[s.jobs[j].key] == j)
  }

  ghost predicate Inv(s: Chains) { Links(s) && InOrder(s) && TailsMatch(s) }

  lemma ChainKeepsInv(s: Chains, key: Text)
    requires Inv(s)
    ensures Inv(Next(s, Chain(key)))
  {
    var s' := Next(s, Chain(key));
    var n := |s.jobs|;
    assert forall j | 0 <= j < n :: s'.jobs[j] == s.jobs[j];
    forall j | 0 <= j < |s'.jobs| ensures LinkOk(s', j) {
      if j < n { assert LinkOk(s, j); }
      else if key !in s.tails { NoTailMeansSettled(s, key); }
      else { assert IsLast(s, s.tails[key]); }
    }
    forall j | 0 <= j < n && !s'.jobs[j].status.Waiting? ensures EarlierSettled(s', j) { assert EarlierSettled(s, j); }
    forall j | 0 <= j < n && IsLast(s', j) ensures IsLast(s, j) && s.jobs[j].key != key {
      assert s'.jobs[n].key == key;
    }
    forall k | k in s.tails && k != key ensures IsLast(s', s.tails[k]) { assert IsLast(s, s.tails[k]); }
  }

  /** With no entry for a key, everything chained under it has settled. */
  lemma NoTailMeansSettled(s: Chains, key: Text)
    requires Inv(s) && key !in s.tails
    ensures forall i | 0 <= i < |s.jobs| && s.jobs[i].key == key :: s.jobs[i].status.Settled?
  {
    forall i | 0 <= i < |s.jobs| && s.jobs[i].key == key ensures s.jobs[i].status.Settled? {
      var last := LastOf(s, key, i);
      assert s.jobs[last].evicted && EarlierSettled(s, last);
    }
  }

  ghost function LastOf(s: Chains, key: Text, i: nat): (last: nat)
    requires i < |s.jobs| && s.jobs[i].key == key
    ensures i <= last < |s.jobs| && s.jobs[last].key == key && IsLast(s, last)
    decreases |s.jobs| - i
  {
    if IsLast(s, i) then i
    else var k :| i < k < |s.jobs| && s.jobs[k].key == key; LastOf(s, key, k)
  }

  /** `t` has the same jobs as `s`, none of them unsettled. */
  ghost predicate Advances(s: Chains, t: Chains) {
    |t.jobs| == |s.jobs| &&
    forall i | 0 <= i < |s.jobs| ::
      && t.jobs[i].key == s.jobs[i].key && t.jobs[i].prev == s.jobs[i].prev
      && (s.jobs[i].status.Settled? ==> t.jobs[i].status.Settled?)
  }

  lemma AdvancesKeepsShape(s: Chains, t: Chains, i: nat)
    requires Advances(s, t) && i < |s.jobs|
    ensures EarlierSettled(s, i) ==> EarlierSettled(t, i)
    ensures LinkOk(s, i) ==> LinkOk(t, i)
    ensures IsLast(s, i) <==> IsLast(t, i)
  {}

  lemma CanStartAfterAllEarlier(s: Chains, j: nat)
    requires Links(s) && InOrder(s) && j < |s.jobs| && s.jobs[j].status.Waiting?
    ensures CanStart(s, j) <==> EarlierSettled(s, j)
  {
    assert LinkOk(s, j);
    if s.jobs[j].prev.Some? && s.jobs[s.jobs[j].prev.value].status.Settled? {
      var p := s.jobs[j].prev.value;
      assert EarlierSettled(s, p);
      forall i | 0 <= i < j && s.jobs[i].key == s.jobs[j].key ensures s.jobs[i].status.Settled? {
        assert i <= p;
      }
    }
  }

  lemma StepAdvances(s: Chains, step: Step)
    requires Enabled(s, step) && !step.Chain?
    ensures Advances(s, Next(s, step))
  {}

  lemma AdvancesKeepsLinks(s: Chains, t: Chains)
    requires Links(s) && Advances(s, t)
    ensures Links(t)
  {
    forall i | 0 <= i < |s.jobs| ensures LinkOk(t, i) {
      AdvancesKeepsShape(s, t, i);
      assert LinkOk(s, i);
    }
  }

  lemma StepKeepsOrder(s: Chains, step: Step)
    requires Links(s) && InOrder(s) && Enabled(s, step) && !step.Chain?
    ensures InOrder(Next(s, step))
  {
    var t := Next(s, step);
    StepAdvances(s, step);
    if step.Start? { CanStartAfterAllEarlier(s, step.job); }
    forall i | 0 <= i < |s.jobs| && !t.jobs[i].status.Waiting? ensures EarlierSettled(t, i) {
      AdvancesKeepsShape(s, t, i);
      assert step.Start? && i == step.job ==> EarlierSettled(s, i);
      assert !s.jobs[i].status.Waiting? ==> EarlierSettled(s, i);
    }
  }

  lemma StepKeepsInv(s: Chains, step: Step)
    requires Inv(s) && Enabled(s, step) && !step.Chain?
    ensures Inv(Next(s, step))
  {
    StepAdvances(s, step);
    AdvancesKeepsLinks(s, Next(s, step));
    StepKeepsOrder(s, step);
    StepKeepsTails(s, Next(s, step), step);
  }

  lemma StepKeepsTails(s: Chains, t: Chains, step: Step)
    requires Inv(s) && Enabled(s, step) && !step.Chain? && t == Next(s, step) && Advances(s, t)
    ensures TailsMatch(t)
  {
    forall i | 0 <= i < |s.jobs| ensures IsLast(s, i) <==> IsLast(t, i) { AdvancesKeepsShape(s, t, i); }
  }

  lemma {:induction false} InvHolds(s: Chains, steps: seq<Step>)
    requires Reachable(s, steps)
    ensures Inv(s)
    decreases |steps|
  {
    if steps != [] {
      var n := |steps| - 1;
      var before :| Reachable(before, steps[..n]) && Enabled(before, steps[n]) && s == Next(before, steps[n]);
      InvHolds(before, steps[..n]);
      if steps[n].Chain? { ChainKeepsInv(before, steps[n].key); } else { StepKeepsInv(before, steps[n]); }
    }
  }

  // ---------- what the chain guarantees ----------

  /** Mutual exclusion and order: a job that has started has only settled ones before it under
      its key, so no two run at once and jobs start in chaining order. */
  lemma OneAtATimeInOrder(s: Chains, steps: seq<Step>, i: nat, j: nat)
    requires Reachable(s, steps) && i < j < |s.jobs| && s.jobs[i].key == s.jobs[j].key
    ensures !s.jobs[j].status.Waiting? ==> s.jobs[i].status.Settled?
    ensures !(s.jobs[i].status.Running? && s.jobs[j].status.Running?)
  {
    InvHolds(s, steps);
    assert !s.jobs[j].status.Waiting? ==> EarlierSettled(s, j);
  }

  /** A waiting job may start exactly when all earlier ones under its key have settled,
      whether they were fulfilled or rejected. */
  lemma NeverBlockedByRejection(s: Chains, steps: seq<Step>, j: nat)
    requires Reachable(s, steps) && j < |s.jobs| && s.jobs[j].status.Waiting?
    ensures CanStart(s, j) <==> EarlierSettled(s, j)
  {
    InvHolds(s, steps);
    CanStartAfterAllEarlier(s, j);
  }

  /** The map entry of a key is its newest job for as long as that job's callback has not run,
      and there is none once the callbacks of all its jobs have run. */
  lemma TailsAreExact(s: Chains, steps: seq<Step>, key: Text)
    requires Reachable(s, steps)
    ensures forall j | 0 <= j < |s.jobs| && s.jobs[j].key == key && IsLast(s, j) ::
      if s.jobs[j].evicted then key !in s.tails else key in s.tails && s.tails[key] == j
    ensures (forall j | 0 <= j < |s.jobs| && s.jobs[j].key == key :: s.jobs[j].evicted) ==> key !in s.tails
    ensures (exists j :: 0 <= j < |s.jobs| && s.jobs[j].key == key && !s.jobs[j].status.Settled?) ==> key in s.tails
  {
    InvHolds(s, steps);
    assert key in s.tails ==> IsLast(s, s.tails[key]);
    if key !in s.tails { NoTailMeansSettled(s, key); }
  }

  // ---------- the map and the promises as the source updates them ----------

  class Serializer {
    var jobs: seq<Job>
    var tails: map<Text, nat>

    function State(): Chains reads this { Chains(jobs, tails) }

    constructor ()
      ensures State() == EMPTY
    {
      jobs, tails := [], map[];
    }

    /** The synchronous part of `serializeByScope` / `send`. */
    method Enqueue(key: Text) returns (job: nat)
      modifies this
      ensures State() == Next(old(State()), Chain(key)) && job == |old(jobs)|
    {
      var prev := if key in tails then Some(tails[key]) else None;
      job := |jobs|;
      jobs := jobs + [Job(key, prev, Waiting, false)];
      tails := tails[key := job];
    }

    /** The evict callback: only the tail itself may remove the entry. */
    method OnSettled(job: nat)
      requires Enabled(State(), Evict(job))
      modifies this
      ensures State() == Next(old(State()), Evict(job))
    {
      var key := jobs[job].key;
      if key in tails && tails[key] == job { tails := tails - {key}; }
      jobs := jobs[job := jobs[job].(evicted := true)];
    }
  }
}
