/** Where idempotency keys and retries meet: exact conditions over all runs of one task
    (cognix/scheduler/store.py:275-321, dispatcher.py:187-203, 283-313). */
module LeaseKeys {
  import opened Wrappers
  import opened TaskTable
  import opened LeaseProtocol
  import opened LeaseExclusion
  import opened LeaseIdempotency
  import opened LeaseRetry
  import opened LeaseExhaustion
  import opened LeaseScenarios

  // ---- a key and a retry: at most one execution ----

  predicate OneRunPhase(phase: Phase, maxRetries: int) {
    phase.Settling? ==> phase.runCount <= 1 && phase.maxRetries == maxRetries
  }

  /** The task was not replayed, has not failed, and keeps its key. */
  ghost predicate OneRunInv(s: State, id: string, r: Row, k: string) {
    && KeyInv(s, id, k) && Count(s.replays, id) == 0
    && (id in s.rows ==> OneRunRow(s.rows[id], r, k, Count(s.runs, id)))
    && OneRunPhases(s, id, r)
  }

  predicate OneRunRow(row: Row, r: Row, k: string, runs: nat) {
    && row.state != Failed && row.maxRetries == r.maxRetries && EffectiveKey(row) == Some(k)
    && row.runCount == runs && (row.lastRun.Some? <==> runs > 0)
  }

  ghost predicate OneRunPhases(s: State, id: string, r: Row) {
    forall n :: (n, id) in s.workers ==> OneRunPhase(s.workers[(n, id)].phase, r.maxRetries)
  }

  lemma OneRunStep(s: State, step: Step, id: string, r: Row, k: string)
    requires ExclusionInv(s) && Timely(s) && Enabled(s, step) && OneRunInv(s, id, r, k)
    requires FreshRow(r) && EffectiveKey(r) == Some(k) && r.maxRetries >= 1
    requires step.Create? && step.id == id ==> step.row == r
    ensures OneRunInv(Apply(s, step), id, r, k)
  {
    KeyStep(s, step, id, k);
    if !Touches(step, id) {
      Untouched(s, step, id);
    } else {
      OneRunRowStep(s, step, id, r, k);
      OneRunPhaseStep(s, step, id, r, k);
    }
  }

  lemma OneRunRowStep(s: State, step: Step, id: string, r: Row, k: string)
    requires Enabled(s, step) && OneRunInv(s, id, r, k) && Touches(step, id)
    requires FreshRow(r) && EffectiveKey(r) == Some(k) && r.maxRetries >= 1
    requires step.Create? ==> step.row == r
    ensures Count(Apply(s, step).replays, id) == 0
    ensures id in Apply(s, step).rows ==> OneRunRow(Apply(s, step).rows[id], r, k, Count(Apply(s, step).runs, id))
  {
  }

  lemma OneRunPhaseStep(s: State, step: Step, id: string, r: Row, k: string)
    requires Enabled(s, step) && OneRunInv(s, id, r, k) && Touches(step, id)
    ensures OneRunPhases(Apply(s, step), id, r)
  {
  }

  lemma {:induction false} OneRunHolds(states: seq<State>, steps: seq<Step>, id: string, r: Row, k: string, i: nat)
    requires IsTimelyRun(states, steps) && CreatedAs(states, steps, id, r) && i < |states|
    requires EffectiveKey(r) == Some(k) && r.maxRetries >= 1
    ensures OneRunInv(states[i], id, r, k)
  {
    if i > 0 {
      OneRunHolds(states, steps, id, r, k, i - 1);
      TimelyRunsExclude(states, steps, i - 1);
      assert Link(states, steps, i - 1);
      OneRunStep(states[i - 1], steps[i - 1], id, r, k);
    }
  }

  /** A task created with a key and at least one retry records at most one execution, whatever its runs
      return, and never becomes FAILED, so it is never replayed either. */
  lemma KeyedTaskIsNotRetried(states: seq<State>, steps: seq<Step>, id: string, r: Row, i: nat)
    requires IsTimelyRun(states, steps) && CreatedAs(states, steps, id, r) && i < |states|
    requires EffectiveKey(r).Some? && r.maxRetries >= 1
    ensures Count(states[i].runs, id) <= 1 && Count(states[i].replays, id) == 0
    ensures id in states[i].rows ==> states[i].rows[id].state != Failed
  {
    OneRunHolds(states, steps, id, r, EffectiveKey(r).value, i);
  }

  /** The reason: once its first execution is recorded, failed or not, every key check on the row skips the
      run and has it settled as a success. Until then, after timeouts as well, no check does. */
  lemma KeyedRunIsSkipped(states: seq<State>, steps: seq<Step>, id: string, r: Row, i: nat)
    requires IsTimelyRun(states, steps) && CreatedAs(states, steps, id, r) && i < |steps|
    requires EffectiveKey(r).Some? && r.maxRetries >= 1
    requires steps[i].CheckKey? && steps[i].id == id
    ensures InPhase(states[i + 1], steps[i].node, id, Finished(false)) <==> Count(states[i].runs, id) == 1
    ensures InPhase(states[i + 1], steps[i].node, id, Storing(EffectiveKey(r).value)) <==> Count(states[i].runs, id) == 0
  {
    OneRunHolds(states, steps, id, r, EffectiveKey(r).value, i);
    assert Link(states, steps, i);
  }

  // ---- when the executions of a keyed task are bounded ----

  /** In every timely run of a task created as r, executions never outnumber replays by more than one. */
  ghost predicate AlwaysBounded(id: string, r: Row) {
    forall states, steps :: IsTimelyRun(states, steps) && CreatedAs(states, steps, id, r) ==> Bounded(states, id)
  }

  ghost predicate Bounded(states: seq<State>, id: string) {
    forall i :: 0 <= i < |states| ==> Count(states[i].runs, id) <= 1 + Count(states[i].replays, id)
  }

  /** The bound holds in all runs if and only if the payload carries the key or the task may retry. */
  lemma KeyBoundIsExact(id: string, r: Row, k: string)
    requires FreshRow(r) && EffectiveKey(r) == Some(k)
    ensures AlwaysBounded(id, r) <==> r.payloadKey == Some(k) || r.maxRetries >= 1
  {
    if r.payloadKey == Some(k) || r.maxRetries >= 1 {
      forall states, steps | IsTimelyRun(states, steps) && CreatedAs(states, steps, id, r) ensures Bounded(states, id) {
        RunIsBounded(states, steps, id, r, k);
      }
    } else {
      var s := RowKeyIsLostByReplay(id, r, k);
      Unbounded(id, r, s, 3);
    }
  }

  lemma RunIsBounded(states: seq<State>, steps: seq<Step>, id: string, r: Row, k: string)
    requires IsTimelyRun(states, steps) && CreatedAs(states, steps, id, r)
    requires EffectiveKey(r) == Some(k) && (r.payloadKey == Some(k) || r.maxRetries >= 1)
    ensures Bounded(states, id)
  {
    forall i | 0 <= i < |states| ensures Count(states[i].runs, id) <= 1 + Count(states[i].replays, id) {
      if r.maxRetries >= 1 {
        KeyedTaskIsNotRetried(states, steps, id, r, i);
      } else {
        KeyedRunsBounded(states, steps, id, k, i);
      }
    }
  }

  lemma Unbounded(id: string, r: Row, s: State, n: nat)
    requires FreshRow(r) && Reaches(id, r, s, false, n) && Count(s.runs, id) > 1 + Count(s.replays, id)
    ensures !AlwaysBounded(id, r)
  {
    var states, steps :| RunTo(states, steps, id, r, s, false, n);
    assert CreatedAs(states, steps, id, r);
    assert !Bounded(states, id);
  }

  /** With the key only on the row and no retries, the first failure fails the task, the replay clears
      the key, and every later execution goes through: here three after one replay. */
  lemma RowKeyIsLostByReplay(id: string, r: Row, k: string) returns (s: State)
    requires FreshRow(r) && EffectiveKey(r) == Some(k) && r.payloadKey != Some(k) && r.maxRetries <= 0
    ensures Reaches(id, r, s, false, 3) && Count(s.replays, id) == 1 && Count(s.runs, id) == 3
  {
    s := Fresh(id, r);
    ReachStart(id, r);
    NotPlain(id, r, s, 0);
    s := NextExecution(id, r, s, 0, true);
    ReachStep(id, r, s, false, 1, Replay(id, 0));
    s := Apply(s, Replay(id, 0));
    s := NextExecution(id, r, s, 1, false);
    s := NextExecution(id, r, s, 2, false);
  }

  lemma NotPlain(id: string, r: Row, s: State, n: nat)
    requires Reaches(id, r, s, true, n)
    ensures Reaches(id, r, s, false, n)
  {
    var states, steps :| RunTo(states, steps, id, r, s, true, n);
    assert RunTo(states, steps, id, r, s, false, n);
  }

  lemma NextExecution(id: string, r: Row, s: State, n: nat, failed: bool) returns (s': State)
    requires Reaches(id, r, s, false, n) && Ready(s, id) && (failed ==> s.rows[id].maxRetries <= 0 <= s.rows[id].runCount)
    ensures Reaches(id, r, s', false, n + 1) && s'.clock == 0 && s'.workers == map[] && id in s'.rows
    ensures Count(s'.runs, id) == Count(s.runs, id) + 1 && s'.replays == s.replays
    ensures var row := s'.rows[id];
      && row.state == (if failed then Failed else Active) && row.owner.None? && row.payloadKey == s.rows[id].payloadKey
      && row.key == KeyStored(s.rows[id]).key
  {
    OneExecution(id, r, s, false, n, failed);
    ExecutionCounts(s, id, failed);
    s' := AfterExecution(s, id, failed);
  }

  // ---- when a task uses up its retries ----

  /** Some run in which every execution fails and is recorded executes the task max_retries + 1 times
      and leaves it FAILED. */
  ghost predicate CanExhaust(id: string, r: Row) {
    exists states, steps, i :: Exhausts(states, steps, id, r, i)
  }

  ghost predicate Exhausts(states: seq<State>, steps: seq<Step>, id: string, r: Row, i: nat) {
    && AlwaysFailingRun(states, steps, id, r) && Returns(steps, id) == Allowance(r)
    && i < |states| && id in states[i].rows
    && states[i].rows[id].state == Failed && Count(states[i].runs, id) == Allowance(r)
  }

  /** Some timely run at all leaves the task FAILED. */
  ghost predicate CanFail(id: string, r: Row) {
    exists states, steps, i :: FailsAt(states, steps, id, r, i)
  }

  ghost predicate FailsAt(states: seq<State>, steps: seq<Step>, id: string, r: Row, i: nat) {
    && IsTimelyRun(states, steps) && CreatedAs(states, steps, id, r)
    && i < |states| && id in states[i].rows && states[i].rows[id].state == Failed
  }

  /** A task can become FAILED, and can do so after exactly max_retries + 1 failures, if and only if it has
      no key or no retries. */
  lemma RetriesRunOutExactlyWhen(id: string, r: Row)
    requires FreshRow(r)
    ensures CanExhaust(id, r) <==> EffectiveKey(r).None? || r.maxRetries <= 0
    ensures CanFail(id, r) <==> EffectiveKey(r).None? || r.maxRetries <= 0
  {
    if EffectiveKey(r).None? || r.maxRetries <= 0 {
      var s := FailTimes(id, r, Allowance(r));
      var states, steps :| RunTo(states, steps, id, r, s, true, Allowance(r));
      assert Exhausts(states, steps, id, r, |steps|);
    }
    if CanExhaust(id, r) {
      var states, steps, i :| Exhausts(states, steps, id, r, i);
      assert FailsAt(states, steps, id, r, i);
    }
    if CanFail(id, r) {
      var states, steps, i :| FailsAt(states, steps, id, r, i);
      if EffectiveKey(r).Some? && r.maxRetries >= 1 {
        KeyedTaskIsNotRetried(states, steps, id, r, i);
      }
    }
  }

  /** n failures in a row. */
  lemma {:induction false} FailTimes(id: string, r: Row, n: nat) returns (s: State)
    requires FreshRow(r) && n <= Allowance(r) && (EffectiveKey(r).None? || r.maxRetries <= 0)
    ensures Reaches(id, r, s, true, n) && id in s.rows && Count(s.runs, id) == n
    ensures s.clock == 0 && s.workers == map[]
    ensures var row := s.rows[id];
      && row.owner.None? && row.runCount == n && row.maxRetries == r.maxRetries
      && row.state == (if n == Allowance(r) then Failed else Active)
      && (EffectiveKey(r).None? ==> EffectiveKey(row).None?) && (n == 0 ==> row == r)
  {
    if n == 0 {
      s := Fresh(id, r);
      ReachStart(id, r);
    } else {
      s := FailTimes(id, r, n - 1);
      OneExecution(id, r, s, true, n - 1, true);
      ExecutionCounts(s, id, true);
      s := AfterExecution(s, id, true);
    }
  }

  // ---- where the repository's retry promise ends ----

  /** Timed-out runs never use up retries: for every n, keyed or not, a run in which the task was executed
      n times, always failed, and is ACTIVE with run_count 0 and ready to be executed again. */
  lemma {:induction false} TimeoutsNeverExhaust(id: string, r: Row, n: nat) returns (s: State)
    requires FreshRow(r) && r.maxRetries >= 1
    ensures Reaches(id, r, s, true, n) && Ready(s, id)
    ensures Count(s.runs, id) == 0 && s.rows[id].runCount == 0 && s.rows[id].maxRetries == r.maxRetries && s.rows[id].lastRun.None?
  {
    if n == 0 {
      s := Fresh(id, r);
      ReachStart(id, r);
    } else {
      s := TimeoutsNeverExhaust(id, r, n - 1);
      OneTimeout(id, r, s, n - 1);
      s := AfterTimeout(s, id);
    }
  }

  lemma {:induction false} SucceedTimes(id: string, r: Row, n: nat) returns (s: State)
    requires FreshRow(r) && EffectiveKey(r).None?
    ensures Reaches(id, r, s, false, n) && Ready(s, id) && EffectiveKey(s.rows[id]).None?
    ensures Count(s.runs, id) == n && s.rows[id].runCount == n && s.rows[id].maxRetries == r.maxRetries
  {
    if n == 0 {
      s := Fresh(id, r);
      ReachStart(id, r);
      NotPlain(id, r, s, 0);
    } else {
      s := SucceedTimes(id, r, n - 1);
      OneExecution(id, r, s, false, n - 1, false);
      ExecutionCounts(s, id, false);
      s := AfterExecution(s, id, false);
    }
  }

  /** Successes do use them up: after n of them the first failure is retried if and only if
      n < max_retries. */
  lemma SuccessesUseUpRetries(id: string, r: Row, n: nat) returns (s: State, after: State)
    requires FreshRow(r) && EffectiveKey(r).None?
    ensures Reaches(id, r, s, false, n) && Ready(s, id) && Count(s.runs, id) == n
    ensures after == AfterExecution(s, id, true) && Reaches(id, r, after, false, n + 1)
    ensures id in after.rows && after.rows[id].state == if n < r.maxRetries then Active else Failed
  {
    s := SucceedTimes(id, r, n);
    OneExecution(id, r, s, false, n, true);
    ExecutionCounts(s, id, true);
    after := AfterExecution(s, id, true);
  }
}
