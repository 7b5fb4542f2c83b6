/** What holds of leases in every interleaving, with no assumption on timing. */
module LeaseBelief {
  import opened Wrappers
  import opened TaskTable
  import opened LeaseProtocol

  // ---- at most one node believes it holds an unexpired lease ----

  /** By its own last claim or heartbeat, the worker's lease has not expired yet. */
  predicate Believes(s: State, node: string, id: string) {
    (node, id) in s.workers && s.clock <= s.workers[(node, id)].refreshed + s.workers[(node, id)].ttl
  }

  /** The row carries exactly the lease that worker w of the node believes in. */
  predicate Backs(r: Row, node: string, w: Worker) {
    r.state == Active && r.owner == Some(node) && r.expires == Some(w.refreshed + w.ttl)
  }

  predicate RowShape(r: Row) {
    (r.owner.None? <==> r.expires.None?) && (r.state == Canceled ==> r.owner.None?)
  }

  ghost predicate LeaseShape(s: State) {
    && (forall t :: t in s.rows ==> RowShape(s.rows[t]))
    && (forall n, t :: (n, t) in s.workers ==> t in s.rows)
  }

  ghost predicate BeliefsBacked(s: State) {
    forall n, t :: Believes(s, n, t) && t in s.rows ==> s.rows[t].state == Canceled || Backs(s.rows[t], n, s.workers[(n, t)])
  }

  ghost predicate BeliefsUnique(s: State) {
    forall n, m, t :: Believes(s, n, t) && Believes(s, m, t) ==> n == m
  }

  ghost predicate BeliefInv(s: State) {
    LeaseShape(s) && BeliefsBacked(s) && BeliefsUnique(s)
  }

  /** The step gives the node a fresh expiry on the task. */
  predicate Renews(s: State, step: Step, node: string, id: string)
    requires Enabled(s, step)
  {
    match step
    case Acquire(n, t, now, _) => n == node && t == id && Leasable(s.rows[t], n, now)
    case Extend(n, t, _) => n == node && t == id && Extendable(s.rows[t], n)
    case _ => false
  }

  lemma ShapeStep(s: State, step: Step)
    requires LeaseShape(s) && Enabled(s, step)
    ensures LeaseShape(Apply(s, step))
  {
    forall t | t in Apply(s, step).rows ensures RowShape(Apply(s, step).rows[t]) {
      RowShapeStep(s, step, t);
    }
    WorkersHaveRows(s, step);
  }

  lemma WorkersHaveRows(s: State, step: Step)
    requires LeaseShape(s) && Enabled(s, step)
    ensures forall n, t :: (n, t) in Apply(s, step).workers ==> t in Apply(s, step).rows
  {
  }

  lemma RowShapeStep(s: State, step: Step, t: string)
    requires LeaseShape(s) && Enabled(s, step) && t in Apply(s, step).rows
    ensures RowShape(Apply(s, step).rows[t])
  {
    if !Touches(step, t) {
      Untouched(s, step, t);
    }
  }

  lemma BackedStep(s: State, step: Step, n: string, t: string)
    requires BeliefInv(s) && Enabled(s, step)
    requires Believes(Apply(s, step), n, t)
    ensures Believes(s, n, t) || Renews(s, step, n, t)
    ensures t in Apply(s, step).rows
    ensures Apply(s, step).rows[t].state == Canceled || Backs(Apply(s, step).rows[t], n, Apply(s, step).workers[(n, t)])
  {
    BeliefSource(s, step, n, t);
    if !Renews(s, step, n, t) {
      OldBeliefBacked(s, step, n, t);
    }
  }

  /** A belief is new only by a successful claim or heartbeat. */
  lemma BeliefSource(s: State, step: Step, n: string, t: string)
    requires LeaseShape(s) && Enabled(s, step) && Believes(Apply(s, step), n, t)
    ensures t in Apply(s, step).rows
    ensures Renews(s, step, n, t) || (Believes(s, n, t) && SameLease(Apply(s, step).workers[(n, t)], s.workers[(n, t)]))
  {
    if !Touches(step, t) {
      Untouched(s, step, t);
    } else {
      WorkerSource(s, step, n, t);
    }
  }

  lemma WorkerSource(s: State, step: Step, n: string, t: string)
    requires LeaseShape(s) && Enabled(s, step) && Touches(step, t) && (n, t) in Apply(s, step).workers
    ensures t in Apply(s, step).rows && Apply(s, step).clock == s.clock
    ensures Renews(s, step, n, t) || ((n, t) in s.workers && SameLease(Apply(s, step).workers[(n, t)], s.workers[(n, t)]))
  {
  }

  predicate SameLease(v: Worker, w: Worker) {
    v.refreshed == w.refreshed && v.ttl == w.ttl
  }

  /** No step of anybody else takes the lease from a node that still believes in it, but a cancel. */
  lemma OldBeliefBacked(s: State, step: Step, n: string, t: string)
    requires BeliefInv(s) && Enabled(s, step) && Believes(s, n, t) && Believes(Apply(s, step), n, t)
    requires SameLease(Apply(s, step).workers[(n, t)], s.workers[(n, t)]) && t in Apply(s, step).rows
    ensures Apply(s, step).rows[t].state == Canceled || Backs(Apply(s, step).rows[t], n, Apply(s, step).workers[(n, t)])
  {
    if !Touches(step, t) {
      Untouched(s, step, t);
    } else {
      TouchedStaysBacked(s, step, n, t);
    }
  }

  lemma TouchedStaysBacked(s: State, step: Step, n: string, t: string)
    requires BeliefInv(s) && Enabled(s, step) && Touches(step, t) && Believes(s, n, t)
    requires (n, t) in Apply(s, step).workers && SameLease(Apply(s, step).workers[(n, t)], s.workers[(n, t)])
    ensures t in Apply(s, step).rows
    ensures Apply(s, step).rows[t].state == Canceled || Backs(Apply(s, step).rows[t], n, s.workers[(n, t)])
  {
  }

  lemma BeliefStep(s: State, step: Step)
    requires BeliefInv(s) && Enabled(s, step)
    ensures BeliefInv(Apply(s, step))
  {
    var s' := Apply(s, step);
    ShapeStep(s, step);
    forall n, t | Believes(s', n, t)
      ensures t in s'.rows && (Believes(s, n, t) || Renews(s, step, n, t))
      ensures s'.rows[t].state == Canceled || Backs(s'.rows[t], n, s'.workers[(n, t)])
    {
      BackedStep(s, step, n, t);
    }
    forall n, m, t | Believes(s', n, t) && Believes(s', m, t) ensures n == m {
      if Renews(s, step, n, t) || Renews(s, step, m, t) {
        assert s.rows[t].state == Active;
      } else {
        assert Believes(s, n, t) && Believes(s, m, t);
      }
    }
  }

  /** In every reachable state at most one node believes it holds an unexpired lease on a task,
      a belief on a task that is not canceled is written on the row, and owner and expiry are
      null together. */
  lemma {:induction false} BeliefsHold(states: seq<State>, steps: seq<Step>, i: nat)
    requires IsRun(states, steps) && i < |states|
    ensures BeliefInv(states[i])
  {
    if i > 0 {
      BeliefsHold(states, steps, i - 1);
      assert Link(states, steps, i - 1);
      BeliefStep(states[i - 1], steps[i - 1]);
    }
  }

  // ---- who may still write ----

  predicate OwnedIn(s: State, node: string, id: string) {
    id in s.rows && Owned(s.rows[id], node)
  }

  /** The node won the lease at step j and has owned the row in every state after it, up to i. */
  ghost predicate HeldSince(states: seq<State>, steps: seq<Step>, node: string, id: string, j: nat, i: nat)
    requires |states| == |steps| + 1
  {
    && j < i < |states|
    && steps[j].Acquire? && steps[j].node == node && steps[j].id == id && Granted(states[j], steps[j])
    && forall k :: j < k <= i ==> OwnedIn(states[k], node, id)
  }

  lemma OwnerChange(s: State, step: Step, node: string, id: string)
    requires Enabled(s, step)
    ensures OwnedIn(Apply(s, step), node, id) ==>
         || OwnedIn(s, node, id)
         || (step.Acquire? && step.node == node && step.id == id && Granted(s, step))
  {
  }

  /** Ownership always goes back to a claim by that node with no loss in between. */
  lemma {:induction false} OwnerIsLastAcquirer(states: seq<State>, steps: seq<Step>, node: string, id: string, i: nat) returns (j: nat)
    requires IsRun(states, steps) && i < |states| && OwnedIn(states[i], node, id)
    ensures HeldSince(states, steps, node, id, j, i)
  {
    assert i > 0;
    assert Link(states, steps, i - 1);
    OwnerChange(states[i - 1], steps[i - 1], node, id);
    if OwnedIn(states[i - 1], node, id) {
      j := OwnerIsLastAcquirer(states, steps, node, id, i - 1);
    } else {
      j := i - 1;
    }
  }

  /** The steps with which a worker writes to the row of a lease it thinks it has. */
  predicate LeaseWrite(step: Step, node: string, id: string) {
    (step.Extend? || step.Complete? || step.Release?) && step.node == node && step.id == id
  }

  /** A heartbeat, completion or release changes the row only if the node claimed the lease and has not
      lost it since: a stale worker's write leaves the row as it was. */
  lemma WritesNeedAnUnbrokenLease(states: seq<State>, steps: seq<Step>, node: string, id: string, i: nat)
    requires IsRun(states, steps) && i < |steps| && LeaseWrite(steps[i], node, id)
    ensures id in states[i].rows && id in states[i + 1].rows
    ensures states[i + 1].rows[id] == states[i].rows[id]
         || exists j :: HeldSince(states, steps, node, id, j, i)
  {
    assert Link(states, steps, i);
    if OwnedIn(states[i], node, id) {
      var j := OwnerIsLastAcquirer(states, steps, node, id, i);
    }
  }

  lemma {:induction false} StaysLost(states: seq<State>, steps: seq<Step>, node: string, id: string, lost: nat, i: nat)
    requires IsRun(states, steps) && lost <= i < |states|
    requires !OwnedIn(states[lost], node, id)
    requires forall k :: lost <= k < i ==> !(steps[k].Acquire? && steps[k].node == node && steps[k].id == id)
    ensures !OwnedIn(states[i], node, id)
    decreases i
  {
    if lost < i {
      StaysLost(states, steps, node, id, lost, i - 1);
      assert Link(states, steps, i - 1);
      OwnerChange(states[i - 1], steps[i - 1], node, id);
    }
  }

  /** A step that a worker of the node takes on the task, other than a new claim. */
  predicate WorkerStep(step: Step, node: string, id: string) {
    && (|| step.ReadBack? || step.CheckKey? || step.StoreKey? || step.Extend? || step.Persist? || step.Finish? || step.Observe?
        || step.Complete? || step.Discard? || step.Release? || step.Crash?)
    && step.node == node && step.id == id
  }

  /** The two updates that name no owner: the run record, and storing a key not yet on the row. */
  predicate OwnerlessWrite(s: State, step: Step)
    requires Enabled(s, step)
  {
    match step
    case Persist(_, _, _) => true
    case StoreKey(n, t) => s.rows[t].key != Some(s.workers[(n, t)].phase.key)
    case _ => false
  }

  /** What a worker can still do to a row its node does not own: nothing, except those two, which
      leave lease, state and schedule alone. */
  lemma StaleStep(s: State, step: Step, node: string, id: string)
    requires Enabled(s, step) && WorkerStep(step, node, id) && !OwnedIn(s, node, id)
    ensures Apply(s, step).rows == s.rows <==> !OwnerlessWrite(s, step)
    ensures forall t :: t in Apply(s, step).rows <==> t in s.rows
    ensures forall t :: t in s.rows ==> KeepsLease(s.rows[t], Apply(s, step).rows[t])
  {
    if OwnerlessWrite(s, step) {
      assert Apply(s, step).rows[id] != s.rows[id];
    }
  }

  /** Same owner, expiry, state and schedule. */
  predicate KeepsLease(before: Row, after: Row) {
    && after.owner == before.owner && after.expires == before.expires
    && after.state == before.state && after.nextRun == before.nextRun
    && after.maxRetries == before.maxRetries && after.payloadKey == before.payloadKey
  }

  /** Once the node has lost a lease and not claimed again, its steps change the table exactly when
      they are one of the two that name no owner, and even those leave every lease, state and next
      run as they were. */
  lemma StaleStepsKeepLeases(states: seq<State>, steps: seq<Step>, node: string, id: string, lost: nat, i: nat)
    requires IsRun(states, steps) && lost <= i < |steps| && WorkerStep(steps[i], node, id)
    requires !OwnedIn(states[lost], node, id)
    requires forall k :: lost <= k < i ==> !(steps[k].Acquire? && steps[k].node == node && steps[k].id == id)
    ensures Enabled(states[i], steps[i])
    ensures states[i + 1].rows == states[i].rows <==> !OwnerlessWrite(states[i], steps[i])
    ensures forall t :: t in states[i + 1].rows <==> t in states[i].rows
    ensures forall t :: t in states[i].rows ==> KeepsLease(states[i].rows[t], states[i + 1].rows[t])
  {
    assert Link(states, steps, i);
    StaysLost(states, steps, node, id, lost, i);
    StaleStep(states[i], steps[i], node, id);
  }

  /** A stale heartbeat, completion or release has no effect at all. */
  lemma StaleWritesDoNothing(states: seq<State>, steps: seq<Step>, node: string, id: string, lost: nat, i: nat)
    requires IsRun(states, steps) && lost <= i < |steps| && LeaseWrite(steps[i], node, id)
    requires !OwnedIn(states[lost], node, id)
    requires forall k :: lost <= k < i ==> !(steps[k].Acquire? && steps[k].node == node && steps[k].id == id)
    ensures states[i + 1].rows == states[i].rows
  {
    StaleStepsKeepLeases(states, steps, node, id, lost, i);
  }

  /** A run that leaves node "a" executing task "t" after its lease was reaped. */
  lemma ReapedWhileRunning() returns (states: seq<State>, steps: seq<Step>)
    ensures IsRun(states, steps) && |steps| == 4
    ensures var row := Row(Active, Some(0), None, None, 0, 3, None, None, None);
      states[4] == State(map["t" := row], 5, map[("a", "t") := Worker(Running, 1, 0, true)], map[], map[])
  {
    var row := Row(Active, Some(0), None, None, 0, 3, None, None, None);
    var leased := Leased(row, "a", 1);
    var holding, running := map[("a", "t") := Worker(Holding, 1, 0, true)], map[("a", "t") := Worker(Running, 1, 0, true)];
    var s0 := State(map["t" := row], 0, map[], map[], map[]);
    var s1 := State(map["t" := leased], 0, holding, map[], map[]);
    var s2 := State(map["t" := leased], 0, running, map[], map[]);
    var s3 := State(map["t" := leased], 5, running, map[], map[]);
    assert Apply(s0, Acquire("a", "t", 0, 1)) == s1;
    assert Apply(s1, ReadBack("a", "t")) == s2;
    states, steps := [s0], [];
    RunGrows(states, steps, Acquire("a", "t", 0, 1));
    states, steps := states + [s1], steps + [Acquire("a", "t", 0, 1)];
    RunGrows(states, steps, ReadBack("a", "t"));
    states, steps := states + [s2], steps + [ReadBack("a", "t")];
    RunGrows(states, steps, Tick(5));
    states, steps := states + [s3], steps + [Tick(5)];
    RunGrows(states, steps, Reap(5));
    states, steps := states + [Apply(s3, Reap(5))], steps + [Reap(5)];
    assert Apply(s3, Reap(5)).rows == map["t" := row];
  }

  /** A stale run record does happen: a node whose lease was reaped still counts its run. */
  lemma StaleRecordIsCounted() returns (states: seq<State>, steps: seq<Step>)
    ensures IsRun(states, steps) && |steps| == 5 && steps[4] == Persist("a", "t", 5)
    ensures !OwnedIn(states[4], "a", "t") && "t" in states[4].rows && "t" in states[5].rows
    ensures states[5].rows["t"].runCount == states[4].rows["t"].runCount + 1
  {
    states, steps := ReapedWhileRunning();
    RunGrows(states, steps, Persist("a", "t", 5));
    states, steps := states + [Apply(states[4], Persist("a", "t", 5))], steps + [Persist("a", "t", 5)];
  }
}
