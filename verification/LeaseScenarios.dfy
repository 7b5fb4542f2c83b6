/** Runs of one task by one node at clock 0, built one execution at a time. */
module LeaseScenarios {
  import opened Wrappers
  import opened Retry
  import opened TaskTable
  import opened LeaseProtocol
  import opened LeaseExclusion
  import opened LeaseExhaustion

  const NODE := "a"
  const TTL := 120
  const POLICY := Policy(30, 3600)

  /** Only the task in the table, as r, and nothing has happened yet. */
  function Fresh(id: string, r: Row): State {
    State(map[id := r], 0, map[], map[], map[])
  }

  /** How often the executor returned from the task. */
  function Returns(steps: seq<Step>, id: string): nat {
    if steps == [] then 0
    else
      var last := steps[|steps| - 1];
      Returns(steps[..|steps| - 1], id) + if last.Finish? && last.id == id then 1 else 0
  }

  /** From Fresh(id, r) to s with n executions; plain: no step breaks the hypotheses of the exhaustion
      theorem. */
  ghost predicate RunTo(states: seq<State>, steps: seq<Step>, id: string, r: Row, s: State, plain: bool, n: nat) {
    && IsTimelyRun(states, steps) && states[0] == Fresh(id, r) && states[|steps|] == s
    && (forall i :: 0 <= i < |steps| ==> !steps[i].Create?)
    && (plain ==> forall i :: 0 <= i < |steps| ==> PlainFailure(states[i], steps[i], id, r))
    && Returns(steps, id) == n
  }

  ghost predicate Reaches(id: string, r: Row, s: State, plain: bool, n: nat) {
    exists states, steps :: RunTo(states, steps, id, r, s, plain, n)
  }

  lemma ReachStart(id: string, r: Row)
    requires FreshRow(r)
    ensures Reaches(id, r, Fresh(id, r), true, 0)
  {
    assert RunTo([Fresh(id, r)], [], id, r, Fresh(id, r), true, 0);
  }

  lemma ReachStep(id: string, r: Row, s: State, plain: bool, n: nat, step: Step)
    requires Reaches(id, r, s, plain, n) && Enabled(s, step) && Timely(Apply(s, step)) && !step.Create?
    requires plain ==> PlainFailure(s, step, id, r)
    ensures Reaches(id, r, Apply(s, step), plain, n + if step.Finish? && step.id == id then 1 else 0)
  {
    var states, steps :| RunTo(states, steps, id, r, s, plain, n);
    RunGrows(states, steps, step);
    assert (steps + [step])[..|steps|] == steps;
    assert RunTo(states + [Apply(s, step)], steps + [step], id, r, Apply(s, step), plain,
                 n + if step.Finish? && step.id == id then 1 else 0);
  }

  /** The task is up for execution, nobody works on it, and its key, if any, was not seen. */
  predicate Ready(s: State, id: string) {
    && s.clock == 0 && s.workers == map[] && id in s.rows
    && s.rows[id].state == Active && s.rows[id].owner.None?
    && (EffectiveKey(s.rows[id]).None? || s.rows[id].lastRun.None?)
  }

  /** The row once its key, if any, has been stored. */
  function KeyStored(r: Row): Row {
    if EffectiveKey(r).Some? then r.(key := EffectiveKey(r)) else r
  }

  function Working(id: string, phase: Phase): map<(string, string), Worker> {
    map[(NODE, id) := Worker(phase, TTL, 0, true)]
  }

  function Started(s: State, id: string): State
    requires id in s.rows
  {
    s.(rows := s.rows[id := Leased(KeyStored(s.rows[id]), NODE, TTL)], workers := Working(id, Running))
  }

  /** From claim to executor start. */
  lemma Start(id: string, r: Row, s: State, plain: bool, n: nat)
    requires Reaches(id, r, s, plain, n) && Ready(s, id)
    ensures Reaches(id, r, Started(s, id), plain, n)
  {
    var leased := s.(rows := s.rows[id := Leased(s.rows[id], NODE, TTL)], workers := Working(id, Holding));
    assert Apply(s, Acquire(NODE, id, 0, TTL)) == leased;
    ReachStep(id, r, s, plain, n, Acquire(NODE, id, 0, TTL));
    ReachStep(id, r, leased, plain, n, ReadBack(NODE, id));
    if EffectiveKey(s.rows[id]).Some? {
      StartKeyed(id, r, s, leased, plain, n);
    } else {
      assert Apply(leased, ReadBack(NODE, id)) == Started(s, id);
    }
  }

  lemma StartKeyed(id: string, r: Row, s: State, leased: State, plain: bool, n: nat)
    requires Ready(s, id) && EffectiveKey(s.rows[id]).Some?
    requires leased == s.(rows := s.rows[id := Leased(s.rows[id], NODE, TTL)], workers := Working(id, Holding))
    requires Reaches(id, r, Apply(leased, ReadBack(NODE, id)), plain, n)
    ensures Reaches(id, r, Started(s, id), plain, n)
  {
    var key := EffectiveKey(s.rows[id]).value;
    var read, unseen := leased.(workers := Working(id, Keyed(key))), leased.(workers := Working(id, Storing(key)));
    assert Apply(leased, ReadBack(NODE, id)) == read;
    assert Apply(read, CheckKey(NODE, id)) == unseen;
    ReachStep(id, r, read, plain, n, CheckKey(NODE, id));
    StoreStarts(id, r, s, unseen, key, plain, n);
  }

  lemma StoreStarts(id: string, r: Row, s: State, unseen: State, key: string, plain: bool, n: nat)
    requires Ready(s, id) && EffectiveKey(s.rows[id]) == Some(key) && Reaches(id, r, unseen, plain, n)
    requires unseen == s.(rows := s.rows[id := Leased(s.rows[id], NODE, TTL)], workers := Working(id, Storing(key)))
    ensures Reaches(id, r, Started(s, id), plain, n)
  {
    assert Apply(unseen, StoreKey(NODE, id)) == Started(s, id);
    ReachStep(id, r, unseen, plain, n, StoreKey(NODE, id));
  }

  function Executed(s: State, id: string, failed: bool): State
    requires id in s.rows
  {
    s.(rows := s.rows[id := Persisted(s.rows[id], 0)],
       workers := Working(id, Finished(failed)),
       runs := s.runs[id := Count(s.runs, id) + 1])
  }

  /** The run is recorded and returns. */
  lemma Execute(id: string, r: Row, s: State, plain: bool, n: nat, failed: bool)
    requires Reaches(id, r, s, plain, n) && s.clock == 0 && id in s.rows && s.workers == Working(id, Running)
    requires plain ==> failed
    ensures Reaches(id, r, Executed(s, id, failed), plain, n + 1)
  {
    var recorded := Executed(s, id, failed).(workers := Working(id, Recorded));
    assert Apply(s, Persist(NODE, id, 0)) == recorded;
    ReachStep(id, r, s, plain, n, Persist(NODE, id, 0));
    assert Apply(recorded, Finish(NODE, id, failed)) == Executed(s, id, failed);
    ReachStep(id, r, recorded, plain, n, Finish(NODE, id, failed));
  }

  /** The run times out before it is recorded. */
  function TimedOut(s: State, id: string): State {
    s.(workers := Working(id, Finished(true)))
  }

  lemma TimeOut(id: string, r: Row, s: State, plain: bool, n: nat)
    requires Reaches(id, r, s, plain, n) && s.clock == 0 && id in s.rows && s.workers == Working(id, Running)
    requires plain ==> r.maxRetries >= 1
    ensures Reaches(id, r, TimedOut(s, id), plain, n + 1)
  {
    assert Apply(s, Finish(NODE, id, true)) == TimedOut(s, id);
    ReachStep(id, r, s, plain, n, Finish(NODE, id, true));
  }

  function Settled(s: State, id: string, failed: bool): State
    requires id in s.rows
  {
    var row := s.rows[id];
    var settled := Settle(failed, row.runCount, row.maxRetries, 0, POLICY, Some(0));
    s.(rows := s.rows[id := Closed(row, settled.nextRun, settled.state)], workers := map[])
  }

  /** The row is read again and the lease completed; a success is due again at once. */
  lemma Finalize(id: string, r: Row, s: State, plain: bool, n: nat, failed: bool)
    requires Reaches(id, r, s, plain, n) && s.clock == 0 && id in s.rows && s.workers == Working(id, Finished(failed))
    requires s.rows[id].state == Active && s.rows[id].owner == Some(NODE)
    ensures Reaches(id, r, Settled(s, id, failed), plain, n)
  {
    var row := s.rows[id];
    var seen := s.(workers := Working(id, Settling(failed, row.runCount, row.maxRetries)));
    assert Apply(s, Observe(NODE, id)) == seen;
    ReachStep(id, r, s, plain, n, Observe(NODE, id));
    assert Apply(seen, Complete(NODE, id, 0, POLICY, Some(0))) == Settled(s, id, failed);
    ReachStep(id, r, seen, plain, n, Complete(NODE, id, 0, POLICY, Some(0)));
  }

  /** The state after one whole execution. */
  function AfterExecution(s: State, id: string, failed: bool): State
    requires id in s.rows
  {
    Settled(Executed(Started(s, id), id, failed), id, failed)
  }

  lemma OneExecution(id: string, r: Row, s: State, plain: bool, n: nat, failed: bool)
    requires Reaches(id, r, s, plain, n) && Ready(s, id) && (plain ==> failed)
    ensures Reaches(id, r, AfterExecution(s, id, failed), plain, n + 1)
  {
    Start(id, r, s, plain, n);
    Execute(id, r, Started(s, id), plain, n, failed);
    Finalize(id, r, Executed(Started(s, id), id, failed), plain, n + 1, failed);
  }

  /** The state after one execution that timed out. */
  function AfterTimeout(s: State, id: string): State
    requires id in s.rows
  {
    Settled(TimedOut(Started(s, id), id), id, true)
  }

  lemma OneTimeout(id: string, r: Row, s: State, n: nat)
    requires Reaches(id, r, s, true, n) && Ready(s, id) && r.maxRetries >= 1
    ensures Reaches(id, r, AfterTimeout(s, id), true, n + 1)
  {
    Start(id, r, s, true, n);
    TimeOut(id, r, Started(s, id), true, n);
    Finalize(id, r, TimedOut(Started(s, id), id), true, n + 1, true);
  }

  /** What it leaves behind. */
  lemma ExecutionCounts(s: State, id: string, failed: bool)
    requires Ready(s, id)
    ensures var s' := AfterExecution(s, id, failed);
      var before, row := s.rows[id], s'.rows[id];
      && s'.clock == 0 && s'.workers == map[] && id in s'.rows
      && Count(s'.runs, id) == Count(s.runs, id) + 1 && s'.replays == s.replays
      && row.runCount == before.runCount + 1 && row.maxRetries == before.maxRetries && row.owner.None?
      && row.key == KeyStored(before).key && row.payloadKey == before.payloadKey
      && row.state == if failed && Max(before.runCount + 1, 1) > before.maxRetries then Failed else Active
  {
  }
}
