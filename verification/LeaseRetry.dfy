/** The retry rule over whole runs (cognix/scheduler/dispatcher.py:283-313). */
module LeaseRetry {
  import opened Wrappers
  import opened Retry
  import opened TaskTable
  import opened LeaseProtocol
  import opened LeaseBelief
  import opened LeaseExclusion
  import opened LeaseIdempotency

  /** Runs allowed for the row: the first one and its retries. */
  function Allowance(r: Row): int {
    Max(r.maxRetries, 0) + 1
  }

  ghost predicate Idle(s: State, id: string) {
    forall n :: (n, id) !in s.workers
  }

  // ---- every failure, in every timely run ----

  ghost predicate NoReplay(steps: seq<Step>, id: string, j: nat, i: nat)
    requires j <= i <= |steps|
  {
    forall k :: j <= k < i ==> !(steps[k].Replay? && steps[k].id == id)
  }

  /** Runs are counted from here: the start, or right after the task was replayed. */
  ghost predicate CountStart(states: seq<State>, steps: seq<Step>, id: string, j: nat)
    requires |states| == |steps| + 1 && j < |states|
  {
    j > 0 ==>
      && steps[j - 1].Replay? && steps[j - 1].id == id
      && id in states[j - 1].rows && states[j - 1].rows[id].state == Failed
  }

  /** Executions recorded between states j and i. */
  function RunsSince(states: seq<State>, id: string, j: nat, i: nat): int
    requires j < |states| && i < |states|
  {
    Count(states[i].runs, id) - Count(states[j].runs, id)
  }

  /** run_count moves with the recorded executions, except at a replay. */
  lemma CountStep(s: State, step: Step, id: string)
    requires Enabled(s, step) && !(step.Replay? && step.id == id)
    ensures id in s.rows ==>
      && id in Apply(s, step).rows
      && Apply(s, step).rows[id].runCount - Count(Apply(s, step).runs, id) == s.rows[id].runCount - Count(s.runs, id)
    ensures id !in s.rows ==>
      && Count(Apply(s, step).runs, id) == Count(s.runs, id)
      && (id in Apply(s, step).rows ==> Apply(s, step).rows[id].runCount == 0)
  {
    if !Touches(step, id) {
      Untouched(s, step, id);
    }
  }

  lemma {:induction false} RunCountIs(states: seq<State>, steps: seq<Step>, id: string, r: Row, j: nat, i: nat)
    requires IsRun(states, steps) && CreatedAs(states, steps, id, r)
    requires j <= i < |states| && CountStart(states, steps, id, j) && NoReplay(steps, id, j, i)
    ensures if id in states[i].rows then states[i].rows[id].runCount == RunsSince(states, id, j, i) else RunsSince(states, id, j, i) == 0
    decreases i
  {
    if j < i {
      RunCountIs(states, steps, id, r, j, i - 1);
      assert Link(states, steps, i - 1);
      CountStep(states[i - 1], steps[i - 1], id);
    } else if j > 0 {
      assert Link(states, steps, j - 1);
    }
  }

  /** A worker about to settle a run knows the row's present counts. */
  ghost predicate SettlingKnows(s: State, id: string) {
    forall n :: (n, id) in s.workers && s.workers[(n, id)].phase.Settling? ==>
      id in s.rows && Knows(s.workers[(n, id)].phase, s.rows[id])
  }

  predicate Knows(phase: Phase, r: Row) {
    phase.Settling? ==> phase.runCount == r.runCount && phase.maxRetries == r.maxRetries
  }

  lemma SettlingStep(s: State, step: Step, id: string)
    requires ExclusionInv(s) && Timely(s) && Enabled(s, step) && SettlingKnows(s, id)
    ensures SettlingKnows(Apply(s, step), id)
  {
    if !Touches(step, id) {
      Untouched(s, step, id);
    } else if step.Replay? {
      WorkedOnNotFailed(s, id);
    } else {
      SettlingWork(s, step, id);
    }
  }

  lemma SettlingWork(s: State, step: Step, id: string)
    requires ExclusionInv(s) && Enabled(s, step) && SettlingKnows(s, id) && Touches(step, id) && !step.Replay?
    ensures SettlingKnows(Apply(s, step), id)
  {
  }

  lemma {:induction false} SettlingHolds(states: seq<State>, steps: seq<Step>, id: string, i: nat)
    requires IsTimelyRun(states, steps) && i < |states|
    ensures SettlingKnows(states[i], id)
  {
    if i > 0 {
      SettlingHolds(states, steps, id, i - 1);
      TimelyRunsExclude(states, steps, i - 1);
      assert Link(states, steps, i - 1);
      SettlingStep(states[i - 1], steps[i - 1], id);
    }
  }

  lemma {:induction false} MaxRetriesStays(states: seq<State>, steps: seq<Step>, id: string, r: Row, i: nat)
    requires IsRun(states, steps) && CreatedAs(states, steps, id, r) && i < |states| && id in states[i].rows
    ensures states[i].rows[id].maxRetries == r.maxRetries
  {
    if i > 0 {
      assert Link(states, steps, i - 1);
      if id in states[i - 1].rows {
        MaxRetriesStays(states, steps, id, r, i - 1);
        if !Touches(steps[i - 1], id) {
          Untouched(states[i - 1], steps[i - 1], id);
        }
      }
    }
  }

  /** The run that step i settles as failed, on a task that was not canceled. */
  predicate SettlesFailure(s: State, step: Step, id: string) {
    && step.Complete? && step.id == id && id in s.rows && s.rows[id].state != Canceled
    && (step.node, id) in s.workers && s.workers[(step.node, id)].phase.Settling? && s.workers[(step.node, id)].phase.failed
  }

  /** Whatever the earlier runs returned, recorded or not, keyed or not, and whatever crashed: a failure
      is retried if and only if k <= max_retries, after the k-th delay, where k is the number of
      executions recorded since the task was created or last replayed, and at least 1. Otherwise the task
      becomes FAILED with no next run. Successes count into k, timed-out runs do not. */
  lemma EachFailureSettles(states: seq<State>, steps: seq<Step>, id: string, r: Row, j: nat, i: nat)
    requires IsTimelyRun(states, steps) && CreatedAs(states, steps, id, r)
    requires j <= i < |steps| && CountStart(states, steps, id, j) && NoReplay(steps, id, j, i)
    requires SettlesFailure(states[i], steps[i], id)
    ensures id in states[i + 1].rows
    ensures var k := Max(RunsSince(states, id, j, i), 1);
      var after := states[i + 1].rows[id];
      && after.owner.None? && after.expires.None?
      && (if k <= r.maxRetries then after.state == Active && after.nextRun == Some(steps[i].now + Delay(k, steps[i].policy))
          else after.state == Failed && after.nextRun == None)
  {
    RunCountIs(states, steps, id, r, j, i);
    SettlingHolds(states, steps, id, i);
    MaxRetriesStays(states, steps, id, r, i);
    TimelyRunsExclude(states, steps, i);
    assert Link(states, steps, i);
    SettledRow(states[i], steps[i], id);
  }

  lemma SettledRow(s: State, step: Step, id: string)
    requires ExclusionInv(s) && Timely(s) && Enabled(s, step) && SettlesFailure(s, step, id) && SettlingKnows(s, id)
    ensures var row := s.rows[id];
      var settled := SettleFailure(row.runCount, row.maxRetries, step.now, step.policy);
      row.state == Active && Apply(s, step).rows == s.rows[id := Closed(row, settled.nextRun, settled.state)]
  {
    assert s.workers[(step.node, id)].beating ==> Believes(s, step.node, id);
    assert Knows(s.workers[(step.node, id)].phase, s.rows[id]);
  }

  // ---- how often an always failing task runs ----

  /** The executor never succeeds on the task, and nobody replays it. */
  predicate Fails(step: Step, id: string) {
    match step
    case Finish(_, t, failed) => t == id ==> failed
    case Replay(t, _) => t != id
    case _ => true
  }

  function Crashes(steps: seq<Step>, id: string): nat {
    if steps == [] then 0
    else
      var last := steps[|steps| - 1];
      Crashes(steps[..|steps| - 1], id) + if last.Crash? && last.id == id then 1 else 0
  }

  /** What a phase leaves of a bound on the recorded runs. */
  predicate PhaseFits(phase: Phase, runs: int, bound: int) {
    match phase
    case Recorded => runs <= bound
    case Finished(failed) => if failed then runs <= bound else runs < bound
    case Settling(failed, _, _) => if failed then runs <= bound else runs < bound
    case Leaving => runs <= bound
    case _ => runs < bound
  }

  predicate PhaseAllows(s: State, id: string, phase: Phase, bound: int) {
    PhaseFits(phase, Count(s.runs, id), bound) && (phase.Leaving? ==> id in s.rows && s.rows[id].state == Canceled)
  }

  ghost predicate BoundInv(s: State, id: string, r: Row, bound: int) {
    && Count(s.runs, id) <= bound && SettlingKnows(s, id)
    && (id !in s.rows ==> Count(s.runs, id) == 0)
    && (id in s.rows ==> s.rows[id].runCount == Count(s.runs, id) && s.rows[id].maxRetries == r.maxRetries)
    && (forall n :: (n, id) in s.workers ==> PhaseAllows(s, id, s.workers[(n, id)].phase, bound))
    && (id in s.rows && Idle(s, id) && s.rows[id].state == Active ==> Count(s.runs, id) < bound)
  }

  lemma BoundStep(s: State, step: Step, id: string, r: Row, bound: int)
    requires ExclusionInv(s) && Timely(s) && Enabled(s, step) && Fails(step, id)
    requires BoundInv(s, id, r, bound) && bound >= Allowance(r)
    requires FreshRow(r) && (step.Create? && step.id == id ==> step.row == r)
    ensures BoundInv(Apply(s, step), id, r, bound + if step.Crash? && step.id == id then 1 else 0)
  {
    SettlingStep(s, step, id);
    CountStep(s, step, id);
    if !Touches(step, id) {
      Untouched(s, step, id);
    } else if step.Acquire? {
      BoundAcquire(s, step, id, r, bound);
    } else if step.Complete? {
      BoundComplete(s, step, id, r, bound);
    } else {
      BoundWork(s, step, id, r, bound);
    }
  }

  lemma BoundAcquire(s: State, step: Step, id: string, r: Row, bound: int)
    requires ExclusionInv(s) && Timely(s) && Enabled(s, step) && BoundInv(s, id, r, bound)
    requires step.Acquire? && step.id == id && SettlingKnows(Apply(s, step), id)
    ensures BoundInv(Apply(s, step), id, r, bound)
  {
    if Granted(s, step) {
      forall n | (n, id) in s.workers ensures n == step.node {
        GrantMeansAlone(s, step.node, id, step.now, n);
      }
      assert Idle(s, id);
    }
  }

  lemma BoundComplete(s: State, step: Step, id: string, r: Row, bound: int)
    requires ExclusionInv(s) && Timely(s) && Enabled(s, step) && BoundInv(s, id, r, bound) && bound >= Allowance(r)
    requires step.Complete? && step.id == id && SettlingKnows(Apply(s, step), id)
    ensures BoundInv(Apply(s, step), id, r, bound)
  {
    assert PhaseAllows(s, id, s.workers[(step.node, id)].phase, bound);
    if SettlesFailure(s, step, id) {
      SettledRow(s, step, id);
    }
  }

  lemma BoundWork(s: State, step: Step, id: string, r: Row, bound: int)
    requires ExclusionInv(s) && Enabled(s, step) && Fails(step, id) && BoundInv(s, id, r, bound) && bound >= Allowance(r)
    requires FreshRow(r) && (step.Create? ==> step.row == r)
    requires !step.Acquire? && !step.Complete? && Touches(step, id) && SettlingKnows(Apply(s, step), id)
    ensures BoundInv(Apply(s, step), id, r, bound + if step.Crash? then 1 else 0)
  {
    if step.Create? || step.Cancel? {
      BoundOperator(s, step, id, r, bound);
    } else if step.Persist? {
      BoundPersist(s, step, id, r, bound);
    } else if step.Crash? || step.Release? {
      BoundLeave(s, step, id, r, bound);
    } else {
      BoundMove(s, step, id, r, bound);
    }
  }

  lemma BoundOperator(s: State, step: Step, id: string, r: Row, bound: int)
    requires ExclusionInv(s) && Enabled(s, step) && BoundInv(s, id, r, bound) && bound >= Allowance(r)
    requires FreshRow(r) && (step.Create? ==> step.row == r)
    requires (step.Create? || step.Cancel?) && step.id == id && SettlingKnows(Apply(s, step), id)
    ensures BoundInv(Apply(s, step), id, r, bound)
  {
  }

  lemma BoundPersist(s: State, step: Step, id: string, r: Row, bound: int)
    requires ExclusionInv(s) && Enabled(s, step) && BoundInv(s, id, r, bound)
    requires step.Persist? && step.id == id && SettlingKnows(Apply(s, step), id)
    ensures BoundInv(Apply(s, step), id, r, bound)
  {
    assert PhaseAllows(s, id, s.workers[(step.node, id)].phase, bound);
    assert (step.node, id) in Apply(s, step).workers;
  }

  lemma BoundLeave(s: State, step: Step, id: string, r: Row, bound: int)
    requires ExclusionInv(s) && Enabled(s, step) && BoundInv(s, id, r, bound)
    requires (step.Crash? || step.Release?) && step.id == id && SettlingKnows(Apply(s, step), id)
    ensures BoundInv(Apply(s, step), id, r, bound + if step.Crash? then 1 else 0)
  {
    assert PhaseAllows(s, id, s.workers[(step.node, id)].phase, bound);
  }

  lemma BoundMove(s: State, step: Step, id: string, r: Row, bound: int)
    requires Enabled(s, step) && Fails(step, id) && BoundInv(s, id, r, bound)
    requires step.ReadBack? || step.CheckKey? || step.StoreKey? || step.Extend? || step.Finish? || step.Observe? || step.Discard?
    requires step.id == id && SettlingKnows(Apply(s, step), id)
    ensures BoundInv(Apply(s, step), id, r, bound)
  {
    assert PhaseAllows(s, id, s.workers[(step.node, id)].phase, bound);
    if !step.Observe? {
      assert (step.node, id) in Apply(s, step).workers;
    }
  }

  ghost predicate FailingRun(states: seq<State>, steps: seq<Step>, id: string, r: Row) {
    IsTimelyRun(states, steps) && CreatedAs(states, steps, id, r) && forall i :: 0 <= i < |steps| ==> Fails(steps[i], id)
  }

  lemma {:induction false} BoundHolds(states: seq<State>, steps: seq<Step>, id: string, r: Row, i: nat)
    requires FailingRun(states, steps, id, r) && i < |states|
    ensures BoundInv(states[i], id, r, Allowance(r) + Crashes(steps[..i], id))
  {
    if i > 0 {
      BoundHolds(states, steps, id, r, i - 1);
      TimelyRunsExclude(states, steps, i - 1);
      assert Link(states, steps, i - 1);
      assert steps[..i][..i - 1] == steps[..i - 1];
      BoundStep(states[i - 1], steps[i - 1], id, r, Allowance(r) + Crashes(steps[..i - 1], id));
    }
  }

  /** A task that never succeeds and is not replayed records at most max_retries + 1 executions, and one
      more for every worker that crashed on it: with or without key, timeouts and cancels included. */
  lemma CrashesBoundRuns(states: seq<State>, steps: seq<Step>, id: string, r: Row, i: nat)
    requires FailingRun(states, steps, id, r) && i < |states|
    ensures Count(states[i].runs, id) <= Allowance(r) + Crashes(steps[..i], id)
  {
    BoundHolds(states, steps, id, r, i);
  }
}
