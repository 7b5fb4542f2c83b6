/** Idempotency keys over whole runs (cognix/scheduler/store.py:275-321, dispatcher.py:187-203). */
module LeaseIdempotency {
  import opened Wrappers
  import opened TaskTable
  import opened LeaseProtocol
  import opened LeaseBelief
  import opened LeaseExclusion

  /** Executions are exclusive and every worker that reads the task's row finds the key k. */
  ghost predicate FixedKeyRun(states: seq<State>, steps: seq<Step>, id: string, k: string) {
    && IsTimelyRun(states, steps)
    && forall i :: 0 <= i < |states| && id in states[i].rows ==> EffectiveKey(states[i].rows[id]) == Some(k)
  }

  /** Runs still to be granted are paid for by replays. */
  ghost predicate KeyInv(s: State, id: string, k: string) {
    var runs, replays := Count(s.runs, id), Count(s.replays, id);
    && runs <= replays + 1
    && (id !in s.rows ==> runs == 0)
    && (id in s.rows && !KeySeen(s.rows[id], k) ==> runs <= replays)
    && (forall n :: (n, id) in s.workers && s.workers[(n, id)].phase == Running ==> id in s.rows && s.rows[id].key == Some(k) && runs <= replays)
    && (forall n :: (n, id) in s.workers && s.workers[(n, id)].phase.Keyed? ==> s.workers[(n, id)].phase.key == k)
    && (forall n :: (n, id) in s.workers && s.workers[(n, id)].phase.Storing? ==> s.workers[(n, id)].phase.key == k && runs <= replays)
  }

  lemma KeyUntouched(s: State, step: Step, id: string, k: string)
    requires Enabled(s, step) && !Touches(step, id) && KeyInv(s, id, k)
    ensures KeyInv(Apply(s, step), id, k)
  {
    Untouched(s, step, id);
  }

  /** Nobody works on a failed task, so a replay finds no execution under way. */
  lemma WorkedOnNotFailed(s: State, id: string)
    requires ExclusionInv(s) && Timely(s)
    ensures forall n :: (n, id) in s.workers ==> id in s.rows && s.rows[id].state != Failed
  {
    forall n | (n, id) in s.workers ensures id in s.rows && s.rows[id].state != Failed {
      assert s.workers[(n, id)].beating ==> Believes(s, n, id);
    }
  }

  lemma KeyWork(s: State, step: Step, id: string, k: string)
    requires ExclusionInv(s) && Enabled(s, step) && KeyInv(s, id, k)
    requires !step.Create? && !step.Cancel? && !step.Replay? && Touches(step, id)
    requires id in s.rows ==> EffectiveKey(s.rows[id]) == Some(k)
    ensures KeyInv(Apply(s, step), id, k)
  {
    if step.ReadBack? || step.CheckKey? || step.StoreKey? || step.Persist? {
      KeyRun(s, step, id, k);
    } else {
      KeyRest(s, step, id, k);
    }
  }

  /** The steps that check the key and record the run. */
  lemma KeyRun(s: State, step: Step, id: string, k: string)
    requires ExclusionInv(s) && Enabled(s, step) && KeyInv(s, id, k)
    requires (step.ReadBack? || step.CheckKey? || step.StoreKey? || step.Persist?) && step.id == id
    requires EffectiveKey(s.rows[id]) == Some(k)
    ensures KeyInv(Apply(s, step), id, k)
  {
  }

  /** The others leave key and history alone. */
  lemma KeyRest(s: State, step: Step, id: string, k: string)
    requires Enabled(s, step) && KeyInv(s, id, k)
    requires step.Acquire? || step.Extend? || step.Finish? || step.Observe? || step.Complete? || step.Discard? || step.Release? || step.Crash?
    requires step.id == id
    ensures KeyInv(Apply(s, step), id, k)
  {
    if step.Acquire? || step.Extend? || step.Complete? || step.Release? {
      KeyLease(s, step, id, k);
    } else {
      KeyMove(s, step, id, k);
    }
  }

  lemma KeyLease(s: State, step: Step, id: string, k: string)
    requires Enabled(s, step) && KeyInv(s, id, k)
    requires (step.Acquire? || step.Extend? || step.Complete? || step.Release?) && step.id == id
    ensures KeyInv(Apply(s, step), id, k)
  {
  }

  lemma KeyMove(s: State, step: Step, id: string, k: string)
    requires Enabled(s, step) && KeyInv(s, id, k)
    requires (step.Finish? || step.Observe? || step.Discard? || step.Crash?) && step.id == id
    ensures KeyInv(Apply(s, step), id, k)
  {
  }

  lemma KeyOperator(s: State, step: Step, id: string, k: string)
    requires ExclusionInv(s) && Timely(s) && Enabled(s, step) && KeyInv(s, id, k)
    requires step.Create? || step.Cancel? || step.Replay?
    requires step.id == id
    ensures KeyInv(Apply(s, step), id, k)
  {
    WorkedOnNotFailed(s, id);
  }

  lemma KeyStep(s: State, step: Step, id: string, k: string)
    requires ExclusionInv(s) && Timely(s) && Enabled(s, step) && KeyInv(s, id, k)
    requires id in s.rows ==> EffectiveKey(s.rows[id]) == Some(k)
    ensures KeyInv(Apply(s, step), id, k)
  {
    if !Touches(step, id) {
      KeyUntouched(s, step, id, k);
    } else if step.Create? || step.Cancel? || step.Replay? {
      KeyOperator(s, step, id, k);
    } else {
      KeyWork(s, step, id, k);
    }
  }

  lemma {:induction false} KeyHolds(states: seq<State>, steps: seq<Step>, id: string, k: string, i: nat)
    requires FixedKeyRun(states, steps, id, k) && i < |states|
    ensures KeyInv(states[i], id, k)
  {
    if i > 0 {
      KeyHolds(states, steps, id, k, i - 1);
      TimelyRunsExclude(states, steps, i - 1);
      assert Link(states, steps, i - 1);
      KeyStep(states[i - 1], steps[i - 1], id, k);
    }
  }

  // ---- when the key stays fixed ----

  ghost predicate PayloadKeyed(states: seq<State>, steps: seq<Step>, id: string, k: string)
    requires |states| == |steps| + 1
  {
    && k != ""
    && (id in states[0].rows ==> states[0].rows[id].payloadKey == Some(k))
    && (forall i :: 0 <= i < |steps| && steps[i].Create? && steps[i].id == id ==> steps[i].row.payloadKey == Some(k))
  }

  lemma {:induction false} PayloadKeyStays(states: seq<State>, steps: seq<Step>, id: string, k: string, i: nat)
    requires IsRun(states, steps) && PayloadKeyed(states, steps, id, k) && i < |states| && id in states[i].rows
    ensures states[i].rows[id].payloadKey == Some(k)
  {
    if i > 0 {
      assert Link(states, steps, i - 1);
      if id in states[i - 1].rows {
        PayloadKeyStays(states, steps, id, k, i - 1);
      }
    }
  }

  /** For a task whose payload carries one key, the persisted executions never outnumber the
      successful replays by more than one, in any interleaving with exclusive leases. */
  lemma KeyedRunsBounded(states: seq<State>, steps: seq<Step>, id: string, k: string, i: nat)
    requires IsTimelyRun(states, steps) && PayloadKeyed(states, steps, id, k) && i < |states|
    ensures Count(states[i].runs, id) <= 1 + Count(states[i].replays, id)
  {
    forall j | 0 <= j < |states| && id in states[j].rows ensures EffectiveKey(states[j].rows[id]) == Some(k) {
      PayloadKeyStays(states, steps, id, k, j);
    }
    KeyHolds(states, steps, id, k, i);
  }

  /** A replay keeps the key a worker will find exactly when the payload carries it. */
  lemma ReplayKeepsPayloadKeysOnly(r: Row, now: int)
    requires EffectiveKey(r).Some?
    ensures EffectiveKey(Replayed(r, now)) == EffectiveKey(r) <==> r.payloadKey == EffectiveKey(r)
    ensures EffectiveKey(Replayed(r, now)) == EffectiveKey(r) || EffectiveKey(Replayed(r, now)) == None
  {
  }
}
