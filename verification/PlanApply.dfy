/** Applying a plan: both loops of apply_plan and the final status (cognix/planner/service.py). */
module PlanApply {
  import opened Wrappers
  import opened PlanSort
  import opened PlanOrder

  datatype Status = Pending | Executing | Completed | Failed | NeedsInput

  datatype PlanStatus = Confirmed | PlanExecuting | PlanFailed | PlanNeedsInput | Applied

  /** once: the task has no schedule of its own and is run at once. */
  datatype Task = Task(id: string, once: bool)

  /** What a step's action does: foreign code, so any of these. An action may create its task
      and then raise. */
  datatype Outcome = Completes | CreatesTask(task: Task) | AsksInput | Raises(made: Option<Task>)

  /** What an immediate task run comes back with; asks: input is needed and an approval was made. */
  datatype ExecResult = ExecResult(failed: bool, blocked: bool, asks: bool)

  datatype Progress = Progress(
    statuses: map<string, Status>,
    failed: seq<string>,
    approvals: seq<string>,
    tasks: seq<(Task, string)>,
    attempted: seq<string>)

  predicate DepFailed(s: Step, failed: seq<string>) {
    exists d :: d in s.deps && d in failed
  }

  function MarkFailed(p: Progress, id: string): Progress {
    p.(statuses := p.statuses[id := Failed], failed := if id in p.failed then p.failed else p.failed + [id])
  }

  function ApplyStep(p: Progress, s: Step, act: string -> Outcome): Progress {
    if DepFailed(s, p.failed) then
      p.(statuses := p.statuses[s.id := Failed], failed := p.failed + [s.id])
    else
      var q := p.(attempted := p.attempted + [s.id]);
      match act(s.id)
      case Completes => q.(statuses := q.statuses[s.id := Completed])
      case CreatesTask(task) => q.(statuses := q.statuses[s.id := Completed], tasks := q.tasks + [(task, s.id)])
      case AsksInput => q.(statuses := q.statuses[s.id := NeedsInput], approvals := q.approvals + [s.id])
      case Raises(task) =>
        q.(statuses := q.statuses[s.id := Failed], failed := q.failed + [s.id],
           tasks := if task.Some? then q.tasks + [(task.value, s.id)] else q.tasks)
  }

  function Start(sorted: seq<Step>): Progress {
    Progress(map id | id in Placed(sorted) :: Pending, [], [], [], [])
  }

  /** The first loop, over the first n steps. */
  function FirstLoop(sorted: seq<Step>, act: string -> Outcome, n: nat): Progress
    requires n <= |sorted|
  {
    if n == 0 then Start(sorted) else ApplyStep(FirstLoop(sorted, act, n - 1), sorted[n - 1], act)
  }

  function RunTask(p: Progress, task: Task, id: string, r: ExecResult): Progress {
    if id in p.failed || !task.once then p
    else
      var q := if r.failed then MarkFailed(p, id) else p.(statuses := p.statuses[id := Completed]);
      if r.blocked then MarkFailed(q, id)
      else if r.asks then q.(approvals := q.approvals + [id])
      else q
  }

  /** The second loop, over the first n created tasks. */
  function SecondLoop(p: Progress, exec: nat -> ExecResult, n: nat): Progress
    requires n <= |p.tasks|
  {
    if n == 0 then p
    else RunTask(SecondLoop(p, exec, n - 1), p.tasks[n - 1].0, p.tasks[n - 1].1, exec(n - 1))
  }

  function Final(steps: seq<Step>, act: string -> Outcome, exec: nat -> ExecResult): Progress {
    var p := FirstLoop(Sorted(steps), act, |Sorted(steps)|);
    SecondLoop(p, exec, |p.tasks|)
  }

  function FinalStatus(p: Progress): PlanStatus {
    if p.failed != [] then PlanFailed else if p.approvals != [] then PlanNeedsInput else Applied
  }

  // ---- the code ----

  class WorkspacePlan {
    const steps: seq<Step>
    var status: PlanStatus
    var stepStatuses: map<string, Status>

    constructor (steps: seq<Step>)
      ensures this.steps == steps && status == Confirmed && stepStatuses == map[]
    {
      this.steps, status, stepStatuses := steps, Confirmed, map[];
    }

    method FirstPass(sorted: seq<Step>, act: string -> Outcome)
      returns (failedSteps: seq<string>, approvals: seq<string>, taskSteps: seq<(Task, string)>, attempted: seq<string>)
      requires stepStatuses == Start(sorted).statuses
      modifies this`stepStatuses
      ensures Progress(stepStatuses, failedSteps, approvals, taskSteps, attempted) == FirstLoop(sorted, act, |sorted|)
    {
      failedSteps, approvals, attempted, taskSteps := [], [], [], [];
      for i := 0 to |sorted|
        invariant Progress(stepStatuses, failedSteps, approvals, taskSteps, attempted) == FirstLoop(sorted, act, i)
      {
        var step := sorted[i];
        if DepFailed(step, failedSteps) {
          stepStatuses := stepStatuses[step.id := Failed];
          failedSteps := failedSteps + [step.id];
          continue;
        }
        stepStatuses := stepStatuses[step.id := Executing];
        attempted := attempted + [step.id];
        match act(step.id)
        case Completes =>
          stepStatuses := stepStatuses[step.id := Completed];
        case CreatesTask(task) =>
          taskSteps := taskSteps + [(task, step.id)];
          stepStatuses := stepStatuses[step.id := Completed];
        case AsksInput =>
          approvals := approvals + [step.id];
          stepStatuses := stepStatuses[step.id := NeedsInput];
        case Raises(made) =>
          if made.Some? {
            taskSteps := taskSteps + [(made.value, step.id)];
          }
          stepStatuses := stepStatuses[step.id := Failed];
          failedSteps := failedSteps + [step.id];
      }
    }

    /** One immediate task of the second loop. */
    method RunOnce(task: Task, id: string, failedIn: seq<string>, approvalsIn: seq<string>, result: ExecResult,
                   ghost before: Progress)
      returns (failedSteps: seq<string>, approvals: seq<string>)
      requires before.statuses == stepStatuses && before.failed == failedIn && before.approvals == approvalsIn
      modifies this`stepStatuses
      ensures before.(statuses := stepStatuses, failed := failedSteps, approvals := approvals)
           == RunTask(before, task, id, result)
    {
      failedSteps, approvals := failedIn, approvalsIn;
      if id in failedSteps || !task.once {
        return;
      }
      stepStatuses := stepStatuses[id := Executing];
      if result.failed {
        stepStatuses := stepStatuses[id := Failed];
        if id !in failedSteps {
          failedSteps := failedSteps + [id];
        }
      } else {
        stepStatuses := stepStatuses[id := Completed];
      }
      if result.blocked {
        stepStatuses := stepStatuses[id := Failed];
        if id !in failedSteps {
          failedSteps := failedSteps + [id];
        }
      } else if result.asks {
        approvals := approvals + [id];
      }
    }

    method Apply(act: string -> Outcome, exec: nat -> ExecResult)
      returns (failedSteps: seq<string>, approvals: seq<string>, attempted: seq<string>)
      requires status == Confirmed
      modifies this
      ensures var final := Final(steps, act, exec);
        && stepStatuses == final.statuses && status == FinalStatus(final)
        && failedSteps == final.failed && approvals == final.approvals && attempted == final.attempted
    {
      var sorted := SortSteps(steps);
      stepStatuses := map id | id in Placed(sorted) :: Pending;
      status := PlanExecuting;
      var taskSteps;
      failedSteps, approvals, taskSteps, attempted := FirstPass(sorted, act);
      ghost var first := FirstLoop(sorted, act, |sorted|);
      for i := 0 to |taskSteps|
        invariant first.(statuses := stepStatuses, failed := failedSteps, approvals := approvals) == SecondLoop(first, exec, i)
      {
        failedSteps, approvals :=
          RunOnce(taskSteps[i].0, taskSteps[i].1, failedSteps, approvals, exec(i), SecondLoop(first, exec, i));
      }
      status := if failedSteps != [] then PlanFailed else if approvals != [] then PlanNeedsInput else Applied;
    }
  }

  // ---- statuses after both loops ----

  /** The step has settled, and the lists agree with its status. */
  predicate SettledAt(p: Progress, id: string) {
    && id in p.statuses && p.statuses[id] != Pending && p.statuses[id] != Executing
    && (p.statuses[id] == Failed <==> id in p.failed)
    && (p.statuses[id] == NeedsInput ==> id in p.approvals)
  }

  predicate TaskKnown(task: (Task, string), ids: set<string>) {
    task.1 in ids
  }

  /** Every step among ids has settled. */
  ghost predicate Settled(p: Progress, ids: set<string>) {
    && (forall id :: id in ids ==> SettledAt(p, id))
    && (forall id :: id in p.failed ==> id in ids)
    && (forall i :: 0 <= i < |p.tasks| ==> TaskKnown(p.tasks[i], ids))
  }

  lemma StepSettles(p: Progress, s: Step, act: string -> Outcome, ids: set<string>)
    requires Settled(p, ids) && s.id !in ids
    ensures Settled(ApplyStep(p, s, act), ids + {s.id})
  {
  }

  lemma PlacedNext(sorted: seq<Step>, n: nat)
    requires 0 < n <= |sorted|
    ensures Placed(sorted[..n]) == Placed(sorted[..n - 1]) + {sorted[n - 1].id}
  {
    assert sorted[..n] == sorted[..n - 1] + [sorted[n - 1]];
    PlacedAppend(sorted[..n - 1], sorted[n - 1]);
  }

  lemma NotPlacedBefore(sorted: seq<Step>, n: nat)
    requires DistinctIds(sorted) && n < |sorted|
    ensures sorted[n].id !in Placed(sorted[..n])
  {
  }

  lemma {:induction false} FirstLoopSettles(sorted: seq<Step>, act: string -> Outcome, n: nat)
    requires DistinctIds(sorted) && n <= |sorted|
    ensures Settled(FirstLoop(sorted, act, n), Placed(sorted[..n]))
  {
    if n > 0 {
      var s, ids := sorted[n - 1], Placed(sorted[..n - 1]);
      FirstLoopSettles(sorted, act, n - 1);
      PlacedNext(sorted, n);
      NotPlacedBefore(sorted, n - 1);
      StepSettles(FirstLoop(sorted, act, n - 1), s, act, ids);
    } else {
      assert Placed(sorted[..0]) == {};
    }
  }

  lemma {:induction false} FirstLoopKeys(sorted: seq<Step>, act: string -> Outcome, n: nat)
    requires n <= |sorted|
    ensures FirstLoop(sorted, act, n).statuses.Keys == Placed(sorted)
  {
    if n > 0 {
      FirstLoopKeys(sorted, act, n - 1);
      assert sorted[n - 1] in sorted;
    }
  }

  lemma TaskSettles(p: Progress, task: Task, id: string, r: ExecResult, ids: set<string>)
    requires Settled(p, ids) && id in ids
    ensures Settled(RunTask(p, task, id, r), ids)
    ensures RunTask(p, task, id, r).statuses.Keys == p.statuses.Keys
  {
    assert id in p.statuses;
  }

  lemma {:induction false} SecondLoopSettles(p: Progress, exec: nat -> ExecResult, n: nat, ids: set<string>)
    requires Settled(p, ids) && p.statuses.Keys == ids && n <= |p.tasks|
    ensures Settled(SecondLoop(p, exec, n), ids) && SecondLoop(p, exec, n).statuses.Keys == ids
  {
    if n > 0 {
      SecondLoopSettles(p, exec, n - 1, ids);
      assert TaskKnown(p.tasks[n - 1], ids);
      TaskSettles(SecondLoop(p, exec, n - 1), p.tasks[n - 1].0, p.tasks[n - 1].1, exec(n - 1), ids);
    }
  }

  lemma SettledStatus(p: Progress, ids: set<string>)
    requires Settled(p, ids) && p.statuses.Keys == ids
    ensures FinalStatus(p) == PlanFailed <==> exists id :: id in p.statuses && p.statuses[id] == Failed
    ensures FinalStatus(p) == PlanNeedsInput <==> (forall id :: id in p.statuses ==> p.statuses[id] != Failed) && p.approvals != []
    ensures FinalStatus(p) == Applied ==> forall id :: id in p.statuses ==> p.statuses[id] == Completed
  {
    if p.failed != [] {
      assert p.failed[0] in p.failed;
      assert p.statuses[p.failed[0]] == Failed;
    }
  }

  /** When apply_plan returns: every step has a status and none is pending or executing; the plan
      is failed exactly when some step is; it needs input exactly when no step failed and an
      approval was asked for; and it is applied only if every step completed. For every plan,
      cyclic ones included, and every outcome of every action and task. */
  lemma StatusesSettle(steps: seq<Step>, act: string -> Outcome, exec: nat -> ExecResult)
    ensures var p := Final(steps, act, exec);
      && p.statuses.Keys == Placed(steps)
      && (forall id :: id in p.statuses ==> p.statuses[id] != Pending && p.statuses[id] != Executing)
      && (FinalStatus(p) == PlanFailed <==> exists id :: id in p.statuses && p.statuses[id] == Failed)
      && (FinalStatus(p) == PlanNeedsInput <==> (forall id :: id in p.statuses ==> p.statuses[id] != Failed) && p.approvals != [])
      && (FinalStatus(p) == Applied ==> forall id :: id in p.statuses ==> p.statuses[id] == Completed)
  {
    FinalSettles(steps, act, exec);
    SettledStatus(Final(steps, act, exec), Placed(steps));
    assert forall id :: id in Placed(steps) ==> SettledAt(Final(steps, act, exec), id);
  }

  lemma FinalSettles(steps: seq<Step>, act: string -> Outcome, exec: nat -> ExecResult)
    ensures Settled(Final(steps, act, exec), Placed(steps)) && Final(steps, act, exec).statuses.Keys == Placed(steps)
  {
    var sorted := Sorted(steps);
    var first := FirstLoop(sorted, act, |sorted|);
    SortedIsSound(steps);
    FirstLoopSettles(sorted, act, |sorted|);
    FirstLoopKeys(sorted, act, |sorted|);
    assert sorted[..|sorted|] == sorted;
    SecondLoopSettles(first, exec, |first.tasks|, Placed(sorted));
  }

  // ---- which steps fail in the first loop ----

  function FirstFailed(steps: seq<Step>, act: string -> Outcome): seq<string> {
    FirstLoop(Sorted(steps), act, |Sorted(steps)|).failed
  }

  /** Its own action raises, or it depends, directly or not, on a step whose action does. */
  ghost predicate Doomed(g: Graph, act: string -> Outcome, id: string) {
    exists r :: r in g && act(r).Raises? && Reaches(g, id, r)
  }

  lemma ReachesVia(g: Graph, a: string, b: string, c: string)
    requires a in g && b in g[a].deps && Reaches(g, b, c)
    ensures Reaches(g, a, c)
  {
    var p :| IsPath(g, p) && p[0] == b && p[|p| - 1] == c;
    var q := [a] + p;
    forall i | 0 <= i < |q| - 1 ensures q[i] in g && q[i + 1] in g[q[i]].deps {
      if i > 0 {
        assert q[i] == p[i - 1] && q[i + 1] == p[i];
      }
    }
    assert IsPath(g, q);
  }

  /** Where a path first leaves a. */
  lemma LeavesAt(g: Graph, p: seq<string>, a: string) returns (i: nat)
    requires IsPath(g, p) && p[0] == a && exists k :: 0 <= k < |p| && p[k] != a
    ensures 0 < i < |p| && p[i - 1] == a && p[i] != a && p[i] in g[a].deps
  {
    var k :| 0 <= k < |p| && p[k] != a;
    i := k;
    while i > 0 && p[i - 1] != a
      invariant 0 < i < |p| && p[i] != a
    {
      i := i - 1;
    }
  }

  lemma PathTail(g: Graph, p: seq<string>, i: nat)
    requires IsPath(g, p) && i < |p|
    ensures Reaches(g, p[i], p[|p| - 1])
  {
    var tail := p[i..];
    assert IsPath(g, tail) && tail[0] == p[i] && tail[|tail| - 1] == p[|p| - 1];
  }

  /** The step a doomed one is doomed by: itself, or a known dependency that is doomed too. */
  lemma DoomedSplit(g: Graph, act: string -> Outcome, id: string)
    requires id in g && Doomed(g, act, id)
    ensures act(id).Raises? || exists d :: d in g[id].deps && d in g && d != id && Doomed(g, act, d)
  {
    var r :| r in g && act(r).Raises? && Reaches(g, id, r);
    if r != id {
      var p :| IsPath(g, p) && p[0] == id && p[|p| - 1] == r;
      var i := LeavesAt(g, p, id);
      PathTail(g, p, i);
      assert i + 1 < |p| ==> p[i] in g;
    }
  }

  lemma {:induction false} FailedAreDoomed(g: Graph, sorted: seq<Step>, act: string -> Outcome, n: nat)
    requires n <= |sorted| && forall s :: s in sorted ==> s.id in g && g[s.id] == s
    ensures forall id :: id in FirstLoop(sorted, act, n).failed ==> Doomed(g, act, id) && id in Placed(sorted[..n])
  {
    if n > 0 {
      var before, s := FirstLoop(sorted, act, n - 1), sorted[n - 1];
      FailedAreDoomed(g, sorted, act, n - 1);
      assert s in sorted;
      PlacedNext(sorted, n);
      FailedStepIsDoomed(g, before, s, act);
    }
  }

  lemma FailedStepIsDoomed(g: Graph, before: Progress, s: Step, act: string -> Outcome)
    requires s.id in g && g[s.id] == s && forall id :: id in before.failed ==> Doomed(g, act, id)
    ensures forall id :: id in ApplyStep(before, s, act).failed ==> id in before.failed || (id == s.id && Doomed(g, act, id))
  {
    if DepFailed(s, before.failed) {
      var d :| d in s.deps && d in before.failed;
      var r :| r in g && act(r).Raises? && Reaches(g, d, r);
      ReachesVia(g, s.id, d, r);
    } else if act(s.id).Raises? {
      ReachesSelf(g, s.id);
    }
  }

  lemma DoomedStepFails(g: Graph, before: Progress, s: Step, act: string -> Outcome)
    requires s.id in g && g[s.id] == s && Doomed(g, act, s.id)
    requires forall d :: d in s.deps && d in g && d != s.id && Doomed(g, act, d) ==> d in before.failed
    ensures s.id in ApplyStep(before, s, act).failed
  {
    DoomedSplit(g, act, s.id);
    if !act(s.id).Raises? {
      var d :| d in g[s.id].deps && d in g && d != s.id && Doomed(g, act, d);
      assert DepFailed(s, before.failed);
    }
  }

  lemma FailedGrows(before: Progress, s: Step, act: string -> Outcome)
    ensures forall id :: id in before.failed ==> id in ApplyStep(before, s, act).failed
  {
  }

  /** Every doomed step among ids is in the list of failed ones. */
  ghost predicate DoomedListed(g: Graph, act: string -> Outcome, ids: set<string>, failed: seq<string>) {
    forall id :: id in ids && Doomed(g, act, id) ==> id in failed
  }

  lemma {:induction false} DoomedFail(g: Graph, sorted: seq<Step>, act: string -> Outcome, n: nat)
    requires n <= |sorted| && DependencyOrdered(g, sorted) && forall s :: s in sorted ==> s.id in g && g[s.id] == s
    ensures DoomedListed(g, act, Placed(sorted[..n]), FirstLoop(sorted, act, n).failed)
  {
    if n > 0 {
      DoomedFail(g, sorted, act, n - 1);
      DoomedStep(g, sorted, act, n);
    } else {
      assert Placed(sorted[..0]) == {};
    }
  }

  lemma DoomedStep(g: Graph, sorted: seq<Step>, act: string -> Outcome, n: nat)
    requires 0 < n <= |sorted| && DependencyOrdered(g, sorted) && forall s :: s in sorted ==> s.id in g && g[s.id] == s
    requires DoomedListed(g, act, Placed(sorted[..n - 1]), FirstLoop(sorted, act, n - 1).failed)
    ensures DoomedListed(g, act, Placed(sorted[..n]), FirstLoop(sorted, act, n).failed)
  {
    PlacedNext(sorted, n);
    DependsEarlier(g, sorted, n - 1);
    DoomedNext(g, sorted[n - 1], act, Placed(sorted[..n - 1]), FirstLoop(sorted, act, n - 1));
  }

  /** The step is known, and so are the known steps that it lists, among ids. */
  predicate DependsOnEarlier(g: Graph, s: Step, ids: set<string>) {
    s.id in g && g[s.id] == s && forall d :: d in s.deps && d in g && d != s.id ==> d in ids
  }

  lemma DependsEarlier(g: Graph, sorted: seq<Step>, j: nat)
    requires j < |sorted| && DependencyOrdered(g, sorted) && forall s :: s in sorted ==> s.id in g && g[s.id] == s
    ensures DependsOnEarlier(g, sorted[j], Placed(sorted[..j]))
  {
    assert sorted[j] in sorted;
  }

  lemma DoomedNext(g: Graph, s: Step, act: string -> Outcome, ids: set<string>, before: Progress)
    requires DependsOnEarlier(g, s, ids) && DoomedListed(g, act, ids, before.failed)
    ensures DoomedListed(g, act, ids + {s.id}, ApplyStep(before, s, act).failed)
  {
    FailedGrows(before, s, act);
    if Doomed(g, act, s.id) {
      DoomedStepFails(g, before, s, act);
    }
  }

  ghost predicate FailuresAreTheClosure(steps: seq<Step>, act: string -> Outcome) {
    forall id :: id in ById(steps) ==> (id in FirstFailed(steps, act) <==> Doomed(ById(steps), act, id))
  }

  lemma AcyclicFailures(steps: seq<Step>, act: string -> Outcome)
    requires Acyclic(ById(steps))
    ensures FailuresAreTheClosure(steps, act)
  {
    var g, sorted := ById(steps), Sorted(steps);
    SortedIsSound(steps);
    SortOrdersAcyclicPlansOnly(steps);
    FailedAreDoomed(g, sorted, act, |sorted|);
    DoomedFail(g, sorted, act, |sorted|);
    assert sorted[..|sorted|] == sorted;
  }

  lemma {:induction false} NothingFailsBefore(sorted: seq<Step>, act: string -> Outcome, n: nat)
    requires n <= |sorted| && forall i :: 0 <= i < n ==> !act(sorted[i].id).Raises?
    ensures FirstLoop(sorted, act, n).failed == []
  {
    if n > 0 {
      NothingFailsBefore(sorted, act, n - 1);
    }
  }

  lemma {:induction false} FailedStaysOut(sorted: seq<Step>, act: string -> Outcome, j: nat, n: nat)
    requires DistinctIds(sorted) && j < n <= |sorted|
    requires sorted[j].id !in FirstLoop(sorted, act, j + 1).failed
    ensures sorted[j].id !in FirstLoop(sorted, act, n).failed
  {
    if j + 1 < n {
      FailedStaysOut(sorted, act, j, n - 1);
    }
  }

  /** Where a dependency comes too late, its failure does not reach the step before it. */
  lemma LateDepMissed(steps: seq<Step>, j: nat, d: string) returns (act: string -> Outcome)
    requires j < |Sorted(steps)|
    requires d in Sorted(steps)[j].deps && d in ById(steps) && d != Sorted(steps)[j].id
    requires d !in Placed(Sorted(steps)[..j])
    ensures !FailuresAreTheClosure(steps, act)
  {
    var g, sorted := ById(steps), Sorted(steps);
    act := id => if id == d then Raises(None) else Completes;
    SortedIsSound(steps);
    forall i | 0 <= i < j ensures !act(sorted[i].id).Raises? {
      assert sorted[..j][i].id in Placed(sorted[..j]);
    }
    NothingFailsBefore(sorted, act, j);
    FailedStaysOut(sorted, act, j, |sorted|);
    var x := sorted[j].id;
    assert sorted[j] in sorted;
    ReachesSelf(g, d);
    ReachesVia(g, x, d, d);
    assert Doomed(g, act, x) && x in g;
  }

  /** The steps failed by the first loop are those whose own action raises plus all their
      transitive dependents, whatever the actions do, exactly when no two different steps of the
      plan depend on each other. */
  lemma FailurePropagationIsExact(steps: seq<Step>)
    ensures (forall act :: FailuresAreTheClosure(steps, act)) <==> Acyclic(ById(steps))
  {
    if Acyclic(ById(steps)) {
      forall act ensures FailuresAreTheClosure(steps, act) {
        AcyclicFailures(steps, act);
      }
    } else {
      var g, sorted := ById(steps), Sorted(steps);
      SortOrdersAcyclicPlansOnly(steps);
      var j, d :| 0 <= j < |sorted| && d in sorted[j].deps && d in g && d != sorted[j].id && d !in Placed(sorted[..j]);
      var act := LateDepMissed(steps, j, d);
    }
  }

  // ---- which actions are attempted ----

  /** No other step that s lists has failed. */
  predicate Clear(s: Step, failed: seq<string>) {
    forall d :: d in s.deps && d != s.id ==> d !in failed
  }

  /** After n steps, step i was attempted exactly if it came up and is clear. */
  predicate AttemptedRight(sorted: seq<Step>, p: Progress, n: nat, i: nat)
    requires i < |sorted|
  {
    sorted[i].id in p.attempted <==> i < n && Clear(sorted[i], p.failed)
  }

  lemma AttemptedNext(g: Graph, sorted: seq<Step>, p: Progress, act: string -> Outcome, n: nat, i: nat)
    requires n < |sorted| && i < |sorted| && DistinctIds(sorted) && DependencyOrdered(g, sorted) && Placed(sorted) <= g.Keys
    requires (forall id :: id in p.failed ==> id in Placed(sorted[..n])) && AttemptedRight(sorted, p, n, i)
    ensures AttemptedRight(sorted, ApplyStep(p, sorted[n], act), n + 1, i)
  {
    var s := sorted[n];
    assert sorted[i] in sorted && s in sorted;
    assert s.id !in Placed(sorted[..n]);
    if i < n {
      assert s.id !in Placed(sorted[..i]);
      assert s.id in g && s.id !in sorted[i].deps;
    } else if i == n {
      assert DepFailed(s, p.failed) <==> !Clear(s, p.failed);
    }
  }

  lemma {:induction false} AttemptedSoFar(g: Graph, sorted: seq<Step>, act: string -> Outcome, n: nat)
    requires n <= |sorted| && DistinctIds(sorted) && DependencyOrdered(g, sorted) && Placed(sorted) <= g.Keys
    ensures forall id :: id in FirstLoop(sorted, act, n).failed ==> id in Placed(sorted[..n])
    ensures forall i :: 0 <= i < |sorted| ==> AttemptedRight(sorted, FirstLoop(sorted, act, n), n, i)
  {
    if n > 0 {
      AttemptedSoFar(g, sorted, act, n - 1);
      PlacedNext(sorted, n);
      var before := FirstLoop(sorted, act, n - 1);
      forall i | 0 <= i < |sorted| ensures AttemptedRight(sorted, FirstLoop(sorted, act, n), n, i) {
        AttemptedNext(g, sorted, before, act, n - 1, i);
      }
    }
  }

  /** In a plan without cycles a step's action is attempted exactly when none of the other steps
      it lists ends up failed by the loop: no action runs after a dependency's failure, and no
      other action is held back. */
  lemma AttemptedUnlessDependencyFailed(steps: seq<Step>, act: string -> Outcome)
    requires Acyclic(ById(steps))
    ensures forall s :: s in Sorted(steps) ==>
      (s.id in FirstLoop(Sorted(steps), act, |Sorted(steps)|).attempted <==> Clear(s, FirstFailed(steps, act)))
  {
    var sorted := Sorted(steps);
    SortedIsSound(steps);
    SortOrdersAcyclicPlansOnly(steps);
    AttemptedSoFar(ById(steps), sorted, act, |sorted|);
    forall s | s in sorted ensures s.id in FirstLoop(sorted, act, |sorted|).attempted <==> Clear(s, FirstFailed(steps, act)) {
      var i :| 0 <= i < |sorted| && sorted[i] == s;
      assert AttemptedRight(sorted, FirstLoop(sorted, act, |sorted|), |sorted|, i);
    }
  }
}
