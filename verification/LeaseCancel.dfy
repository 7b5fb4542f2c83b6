/** Cancellation is final for the workers (README.md of the repository, "Distributed Scheduler"). */
module LeaseCancel {
  import opened TaskTable
  import opened LeaseProtocol

  predicate Dead(s: State, id: string) {
    && id in s.rows && s.rows[id].state == Canceled
    && s.rows[id].nextRun.None? && s.rows[id].owner.None? && s.rows[id].expires.None?
  }

  lemma CancelKills(s: State, id: string)
    requires Enabled(s, Cancel(id))
    ensures Dead(Apply(s, Cancel(id)), id)
  {
  }

  lemma DeadStep(s: State, step: Step, id: string)
    requires Dead(s, id) && Enabled(s, step)
    ensures Dead(Apply(s, step), id)
    ensures step.Acquire? && step.id == id ==> !Granted(s, step)
    ensures step.Observe? && step.id == id ==> (step.node, id) !in Apply(s, step).workers
  {
  }

  /** After a cancel, whatever every node goes on to do, also one that read the row before the
      cancel and completes after it: the task stays canceled with no next run and no lease, no
      claim on it succeeds, and a worker that looks at the row stops. */
  lemma {:induction false} CancelIsFinal(states: seq<State>, steps: seq<Step>, id: string, c: nat, i: nat)
    requires IsRun(states, steps) && c < i < |states| && steps[c] == Cancel(id)
    ensures Dead(states[i], id)
    ensures i < |steps| && steps[i].Acquire? && steps[i].id == id ==> !Granted(states[i], steps[i])
    ensures i < |steps| && steps[i].Observe? && steps[i].id == id ==> (steps[i].node, id) !in states[i + 1].workers
    decreases i
  {
    assert Link(states, steps, i - 1);
    if c + 1 < i {
      CancelIsFinal(states, steps, id, c, i - 1);
      DeadStep(states[i - 1], steps[i - 1], id);
    } else {
      CancelKills(states[c], id);
    }
    if i < |steps| {
      assert Link(states, steps, i);
      DeadStep(states[i], steps[i], id);
    }
  }
}
