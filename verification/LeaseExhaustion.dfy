/** When the retries of an always failing task are exhausted (cognix/scheduler/dispatcher.py:283-313). */
module LeaseExhaustion {
  import opened TaskTable
  import opened LeaseProtocol
  import opened LeaseBelief
  import opened LeaseExclusion
  import opened LeaseRetry

  /** Every execution of the task fails, and is recorded before it returns if there are no retries;
      nobody cancels or replays it, and no worker on it crashes. */
  predicate PlainFailure(s: State, step: Step, id: string, r: Row) {
    match step
    case Finish(n, t, failed) => t == id ==> failed && (r.maxRetries >= 1 || InPhase(s, n, id, Recorded))
    case Cancel(t) => t != id
    case Replay(t, _) => t != id
    case Crash(_, t) => t != id
    case _ => true
  }

  /** A run, with timely heartbeats, of a task created as r whose executions all fail. */
  ghost predicate AlwaysFailingRun(states: seq<State>, steps: seq<Step>, id: string, r: Row) {
    && IsTimelyRun(states, steps)
    && CreatedAs(states, steps, id, r)
    && forall i :: 0 <= i < |steps| ==> PlainFailure(states[i], steps[i], id, r)
  }

  predicate Exhausted(r: Row) {
    r.state == Failed && r.nextRun.None? && r.owner.None? && r.expires.None?
  }

  predicate PhaseAccounts(r: Row, phase: Phase) {
    match phase
    case Holding => r.runCount < Allowance(r)
    case Running => r.runCount < Allowance(r)
    case Keyed(_) => false
    case Storing(_) => false
    case Leaving => false
    case Recorded => 1 <= r.runCount <= Allowance(r)
    case Finished(failed) => failed && r.runCount <= Allowance(r) && (r.maxRetries >= 1 || r.runCount >= 1)
    case Settling(failed, runCount, maxRetries) =>
      && failed && r.runCount <= Allowance(r) && (r.maxRetries >= 1 || r.runCount >= 1)
      && runCount == r.runCount && maxRetries == r.maxRetries
  }

  ghost predicate RetryInv(s: State, id: string) {
    id in s.rows ==>
      var r := s.rows[id];
      && EffectiveKey(r).None?
      && r.runCount == Count(s.runs, id)
      && (forall n :: (n, id) in s.workers ==> r.state == Active && PhaseAccounts(r, s.workers[(n, id)].phase))
      && (Idle(s, id) ==> (r.state == Active && r.runCount < Allowance(r)) || (Exhausted(r) && r.runCount == Allowance(r)))
  }

  lemma RetryUntouched(s: State, step: Step, id: string)
    requires Enabled(s, step) && !Touches(step, id) && RetryInv(s, id)
    ensures RetryInv(Apply(s, step), id)
  {
    Untouched(s, step, id);
  }

  /** The worker that takes a step on the task owns its row, and is the only one there. */
  lemma WorkerOwns(s: State, node: string, id: string)
    requires ExclusionInv(s) && Timely(s) && RetryInv(s, id) && (node, id) in s.workers
    ensures id in s.rows && Owned(s.rows[id], node) && s.rows[id].state == Active
    ensures forall n :: (n, id) in s.workers ==> n == node
  {
    assert Believes(s, node, id);
  }

  lemma RetryAcquire(s: State, step: Step, id: string)
    requires ExclusionInv(s) && Timely(s) && Enabled(s, step) && RetryInv(s, id)
    requires step.Acquire? && step.id == id
    ensures RetryInv(Apply(s, step), id)
  {
    if Granted(s, step) {
      forall n | (n, id) in s.workers ensures n == step.node {
        GrantMeansAlone(s, step.node, id, step.now, n);
      }
      assert Idle(s, id);
    }
  }

  lemma RetryWork(s: State, step: Step, id: string, r: Row)
    requires ExclusionInv(s) && Timely(s) && Enabled(s, step) && RetryInv(s, id) && PlainFailure(s, step, id, r) && (id in s.rows ==> s.rows[id].maxRetries == r.maxRetries)
    requires !step.Create? && !step.Acquire? && Touches(step, id)
    ensures RetryInv(Apply(s, step), id)
  {
    if step.Complete? {
      RetryComplete(s, step, id);
    } else {
      RetryProgress(s, step, id, r);
    }
  }

  lemma RetryComplete(s: State, step: Step, id: string)
    requires ExclusionInv(s) && Timely(s) && Enabled(s, step) && RetryInv(s, id)
    requires step.Complete? && step.id == id
    ensures RetryInv(Apply(s, step), id)
  {
    WorkerOwns(s, step.node, id);
  }

  lemma RetryProgress(s: State, step: Step, id: string, r: Row)
    requires ExclusionInv(s) && Timely(s) && Enabled(s, step) && RetryInv(s, id) && PlainFailure(s, step, id, r) && (id in s.rows ==> s.rows[id].maxRetries == r.maxRetries)
    requires !step.Create? && !step.Acquire? && !step.Complete? && Touches(step, id)
    ensures RetryInv(Apply(s, step), id)
  {
    WorkerOwns(s, step.node, id);
    assert (step.node, id) in Apply(s, step).workers;
  }

  lemma RetryStep(s: State, step: Step, id: string, r: Row)
    requires ExclusionInv(s) && Timely(s) && Enabled(s, step)
    requires id !in s.rows ==> Count(s.runs, id) == 0
    requires PlainFailure(s, step, id, r) && RetryInv(s, id) && (id in s.rows ==> s.rows[id].maxRetries == r.maxRetries)
    requires step.Create? && step.id == id ==> EffectiveKey(step.row).None?
    ensures RetryInv(Apply(s, step), id)
    ensures id !in Apply(s, step).rows ==> Count(Apply(s, step).runs, id) == 0
  {
    if !Touches(step, id) {
      RetryUntouched(s, step, id);
      Untouched(s, step, id);
    } else if step.Acquire? {
      RetryAcquire(s, step, id);
    } else if !step.Create? {
      RetryWork(s, step, id, r);
    }
  }

  lemma {:induction false} RetryHolds(states: seq<State>, steps: seq<Step>, id: string, r: Row, i: nat)
    requires AlwaysFailingRun(states, steps, id, r) && EffectiveKey(r).None? && i < |states|
    ensures RetryInv(states[i], id)
    ensures id !in states[i].rows ==> Count(states[i].runs, id) == 0
  {
    if i > 0 {
      RetryHolds(states, steps, id, r, i - 1);
      TimelyRunsExclude(states, steps, i - 1);
      assert Link(states, steps, i - 1);
      if id in states[i - 1].rows {
        MaxRetriesStays(states, steps, id, r, i - 1);
      }
      RetryStep(states[i - 1], steps[i - 1], id, r);
    }
  }

  /** A task without an idempotency key whose runs all fail never records more than max_retries + 1 of
      them; once it has, and its completion is in, it is FAILED with no next run and no lease; until then,
      whenever nobody works on it, it is ACTIVE and still has a run to go. */
  lemma RetriesExhaustExactly(states: seq<State>, steps: seq<Step>, id: string, r: Row, i: nat)
    requires AlwaysFailingRun(states, steps, id, r) && EffectiveKey(r).None? && i < |states| && id in states[i].rows
    ensures Count(states[i].runs, id) <= Allowance(states[i].rows[id])
    ensures states[i].rows[id].state == Failed ==>
      Exhausted(states[i].rows[id]) && Count(states[i].runs, id) == Allowance(states[i].rows[id])
    ensures Idle(states[i], id) ==>
      states[i].rows[id].state == if Count(states[i].runs, id) == Allowance(states[i].rows[id]) then Failed else Active
  {
    RetryHolds(states, steps, id, r, i);
  }
}
