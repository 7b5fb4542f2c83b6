/** What a plan comes to, told from the outcomes of its actions and task runs alone, by position in the
    sorted plan (cognix/planner/service.py:320-621). */
module PlanOutcome {
  import opened Wrappers
  import opened PlanSort
  import opened PlanOrder
  import opened PlanApply

  // ---- the first loop ----

  /** Step i lists a step before it that fails. */
  predicate Blocked(sorted: seq<Step>, act: string -> Outcome, i: nat)
    requires i < |sorted|
    decreases i, 0
  {
    exists j :: 0 <= j < i && sorted[j].id in sorted[i].deps && Fails(sorted, act, j)
  }

  /** Step i fails in the first loop: its action raises, or it is blocked. */
  predicate Fails(sorted: seq<Step>, act: string -> Outcome, i: nat)
    requires i < |sorted|
    decreases i, 1
  {
    Blocked(sorted, act, i) || act(sorted[i].id).Raises?
  }

  /** The task that step i creates: also that of an action that raises after creating it. */
  function Made(sorted: seq<Step>, act: string -> Outcome, i: nat): Option<Task>
    requires i < |sorted|
  {
    if Blocked(sorted, act, i) then None
    else
      match act(sorted[i].id)
      case CreatesTask(task) => Some(task)
      case Raises(made) => made
      case _ => None
  }

  predicate Asks(sorted: seq<Step>, act: string -> Outcome, i: nat)
    requires i < |sorted|
  {
    !Blocked(sorted, act, i) && act(sorted[i].id).AsksInput?
  }

  function FailedBy(sorted: seq<Step>, act: string -> Outcome, n: nat): seq<string>
    requires n <= |sorted|
  {
    if n == 0 then []
    else FailedBy(sorted, act, n - 1) + if Fails(sorted, act, n - 1) then [sorted[n - 1].id] else []
  }

  function AsksBy(sorted: seq<Step>, act: string -> Outcome, n: nat): seq<string>
    requires n <= |sorted|
  {
    if n == 0 then []
    else AsksBy(sorted, act, n - 1) + if Asks(sorted, act, n - 1) then [sorted[n - 1].id] else []
  }

  function TasksBy(sorted: seq<Step>, act: string -> Outcome, n: nat): seq<(Task, string)>
    requires n <= |sorted|
  {
    if n == 0 then []
    else
      var made := Made(sorted, act, n - 1);
      TasksBy(sorted, act, n - 1) + if made.Some? then [(made.value, sorted[n - 1].id)] else []
  }

  lemma {:induction false} FailedByAre(sorted: seq<Step>, act: string -> Outcome, n: nat, id: string)
    requires n <= |sorted|
    ensures id in FailedBy(sorted, act, n) <==> exists j :: 0 <= j < n && sorted[j].id == id && Fails(sorted, act, j)
  {
    if n > 0 {
      FailedByAre(sorted, act, n - 1, id);
    }
  }

  lemma BlockedIs(sorted: seq<Step>, act: string -> Outcome, i: nat)
    requires i < |sorted|
    ensures DepFailed(sorted[i], FailedBy(sorted, act, i)) <==> Blocked(sorted, act, i)
  {
    forall d: string ensures d in FailedBy(sorted, act, i) <==> exists j :: 0 <= j < i && sorted[j].id == d && Fails(sorted, act, j) {
      FailedByAre(sorted, act, i, d);
    }
  }

  /** The lists of the first loop, from the actions alone. */
  lemma {:induction false} FirstLoopIs(sorted: seq<Step>, act: string -> Outcome, n: nat)
    requires n <= |sorted|
    ensures FirstLoop(sorted, act, n).failed == FailedBy(sorted, act, n)
    ensures FirstLoop(sorted, act, n).approvals == AsksBy(sorted, act, n)
    ensures FirstLoop(sorted, act, n).tasks == TasksBy(sorted, act, n)
  {
    if n > 0 {
      FirstLoopIs(sorted, act, n - 1);
      BlockedIs(sorted, act, n - 1);
      var p := FirstLoop(sorted, act, n - 1);
      FirstStepIs(p, sorted, act, n - 1);
      assert FirstLoop(sorted, act, n) == ApplyStep(p, sorted[n - 1], act);
    }
  }

  lemma FirstStepIs(p: Progress, sorted: seq<Step>, act: string -> Outcome, i: nat)
    requires i < |sorted| && (DepFailed(sorted[i], p.failed) <==> Blocked(sorted, act, i))
    ensures var q, id, made := ApplyStep(p, sorted[i], act), sorted[i].id, Made(sorted, act, i);
      && q.failed == p.failed + (if Fails(sorted, act, i) then [id] else [])
      && q.approvals == p.approvals + (if Asks(sorted, act, i) then [id] else [])
      && q.tasks == p.tasks + (if made.Some? then [(made.value, id)] else [])
      && q.statuses == p.statuses[id := FirstStatus(sorted, act, i)]
  {
  }

  function FirstStatus(sorted: seq<Step>, act: string -> Outcome, i: nat): Status
    requires i < |sorted|
  {
    if Fails(sorted, act, i) then Failed
    else if act(sorted[i].id).AsksInput? then NeedsInput
    else Completed
  }

  predicate HasStatus(statuses: map<string, Status>, id: string, status: Status) {
    id in statuses && statuses[id] == status
  }

  lemma {:induction false} FirstStatuses(sorted: seq<Step>, act: string -> Outcome, n: nat, i: nat)
    requires DistinctIds(sorted) && i < n <= |sorted|
    ensures HasStatus(FirstLoop(sorted, act, n).statuses, sorted[i].id, FirstStatus(sorted, act, i))
  {
    FirstLoopIs(sorted, act, n - 1);
    BlockedIs(sorted, act, n - 1);
    FirstStepIs(FirstLoop(sorted, act, n - 1), sorted, act, n - 1);
    if i < n - 1 {
      FirstStatuses(sorted, act, n - 1, i);
    }
  }

  // ---- the second loop ----

  /** Task k was made by step i. */
  predicate MadeBy(sorted: seq<Step>, act: string -> Outcome, task: (Task, string), i: nat) {
    i < |sorted| && sorted[i].id == task.1 && Made(sorted, act, i) == Some(task.0)
  }

  lemma {:induction false} TaskMaker(sorted: seq<Step>, act: string -> Outcome, n: nat, k: nat) returns (i: nat)
    requires n <= |sorted| && k < |TasksBy(sorted, act, n)|
    ensures i < n && MadeBy(sorted, act, TasksBy(sorted, act, n)[k], i)
  {
    if k < |TasksBy(sorted, act, n - 1)| {
      i := TaskMaker(sorted, act, n - 1, k);
    } else {
      i := n - 1;
    }
  }

  ghost predicate DistinctSteps(tasks: seq<(Task, string)>) {
    forall j, k :: 0 <= j < k < |tasks| ==> tasks[j].1 != tasks[k].1
  }

  /** A step makes at most one task. */
  lemma {:induction false} TasksDistinct(sorted: seq<Step>, act: string -> Outcome, n: nat)
    requires DistinctIds(sorted) && n <= |sorted|
    ensures DistinctSteps(TasksBy(sorted, act, n))
  {
    if n > 0 {
      TasksDistinct(sorted, act, n - 1);
      var before := TasksBy(sorted, act, n - 1);
      forall j | 0 <= j < |before| ensures before[j].1 != sorted[n - 1].id {
        var i := TaskMaker(sorted, act, n - 1, j);
      }
    }
  }

  /** Task k is run at once, and its run fails or is blocked by a missing capability. */
  predicate RunFails(tasks: seq<(Task, string)>, exec: nat -> ExecResult, k: nat)
    requires k < |tasks|
  {
    tasks[k].0.once && (exec(k).failed || exec(k).blocked)
  }

  /** Task k is run at once and its result, not blocked, asks for input. */
  predicate RunAsks(tasks: seq<(Task, string)>, exec: nat -> ExecResult, k: nat)
    requires k < |tasks|
  {
    tasks[k].0.once && exec(k).asks && !exec(k).blocked
  }

  /** The steps whose runs fail, among the first m tasks and beside those already failed. */
  function RunsFailed(tasks: seq<(Task, string)>, failed: seq<string>, exec: nat -> ExecResult, m: nat): seq<string>
    requires m <= |tasks|
  {
    if m == 0 then []
    else
      RunsFailed(tasks, failed, exec, m - 1)
      + if tasks[m - 1].1 !in failed && RunFails(tasks, exec, m - 1) then [tasks[m - 1].1] else []
  }

  function RunsAsking(tasks: seq<(Task, string)>, failed: seq<string>, exec: nat -> ExecResult, m: nat): seq<string>
    requires m <= |tasks|
  {
    if m == 0 then []
    else
      RunsAsking(tasks, failed, exec, m - 1)
      + if tasks[m - 1].1 !in failed && RunAsks(tasks, exec, m - 1) then [tasks[m - 1].1] else []
  }

  lemma {:induction false} RunsFailedAre(tasks: seq<(Task, string)>, failed: seq<string>, exec: nat -> ExecResult, m: nat, id: string)
    requires m <= |tasks|
    ensures id in RunsFailed(tasks, failed, exec, m) <==>
      exists k :: 0 <= k < m && tasks[k].1 == id && id !in failed && RunFails(tasks, exec, k)
  {
    if m > 0 {
      RunsFailedAre(tasks, failed, exec, m - 1, id);
    }
  }

  lemma RunStepIs(p: Progress, failed: seq<string>, task: Task, id: string, r: ExecResult)
    requires id in p.failed <==> id in failed
    ensures var q, failing, asking := RunTask(p, task, id, r), task.once && (r.failed || r.blocked), task.once && r.asks && !r.blocked;
      && q.failed == p.failed + (if id !in failed && failing then [id] else [])
      && q.approvals == p.approvals + (if id !in failed && asking then [id] else [])
      && (q.statuses == if id in failed || !task.once then p.statuses
                        else p.statuses[id := if failing then Failed else Completed])
  {
  }

  lemma {:induction false} SecondLoopIs(p: Progress, exec: nat -> ExecResult, m: nat)
    requires m <= |p.tasks| && DistinctSteps(p.tasks)
    ensures SecondLoop(p, exec, m).failed == p.failed + RunsFailed(p.tasks, p.failed, exec, m)
    ensures SecondLoop(p, exec, m).approvals == p.approvals + RunsAsking(p.tasks, p.failed, exec, m)
  {
    if m > 0 {
      SecondLoopIs(p, exec, m - 1);
      SecondStepIs(p, exec, m);
    }
  }

  lemma SecondStepIs(p: Progress, exec: nat -> ExecResult, m: nat)
    requires 0 < m <= |p.tasks| && DistinctSteps(p.tasks)
    requires SecondLoop(p, exec, m - 1).failed == p.failed + RunsFailed(p.tasks, p.failed, exec, m - 1)
    ensures p.tasks[m - 1].1 in SecondLoop(p, exec, m - 1).failed <==> p.tasks[m - 1].1 in p.failed
    ensures SecondLoop(p, exec, m).failed == SecondLoop(p, exec, m - 1).failed
      + if p.tasks[m - 1].1 !in p.failed && RunFails(p.tasks, exec, m - 1) then [p.tasks[m - 1].1] else []
    ensures SecondLoop(p, exec, m).approvals == SecondLoop(p, exec, m - 1).approvals
      + if p.tasks[m - 1].1 !in p.failed && RunAsks(p.tasks, exec, m - 1) then [p.tasks[m - 1].1] else []
  {
    RunsFailedAre(p.tasks, p.failed, exec, m - 1, p.tasks[m - 1].1);
    RunStepIs(SecondLoop(p, exec, m - 1), p.failed, p.tasks[m - 1].0, p.tasks[m - 1].1, exec(m - 1));
  }

  /** The second loop leaves every status as it was, but for the steps it fails. */
  lemma {:induction false} SecondStatuses(p: Progress, exec: nat -> ExecResult, m: nat, id: string, was: Status)
    requires m <= |p.tasks| && DistinctSteps(p.tasks) && HasStatus(p.statuses, id, was) && id !in p.failed
    requires forall k :: 0 <= k < |p.tasks| && p.tasks[k].1 == id ==> was == Completed
    ensures HasStatus(SecondLoop(p, exec, m).statuses, id,
                      if id in RunsFailed(p.tasks, p.failed, exec, m) then Failed else was)
  {
    if m > 0 {
      SecondStatuses(p, exec, m - 1, id, was);
      SecondLoopIs(p, exec, m - 1);
      SecondStepIs(p, exec, m);
      var before := RunsFailed(p.tasks, p.failed, exec, m - 1);
      RunsFailedAre(p.tasks, p.failed, exec, m - 1, id);
      RunStatusIs(SecondLoop(p, exec, m - 1), p.failed, p.tasks[m - 1].0, p.tasks[m - 1].1, exec(m - 1), id, id in before, was);
    }
  }

  lemma RunStatusIs(q: Progress, failed: seq<string>, task: Task, own: string, r: ExecResult, id: string, lost: bool, was: Status)
    requires (own in q.failed <==> own in failed) && id !in failed && HasStatus(q.statuses, id, if lost then Failed else was)
    requires own == id ==> was == Completed && !lost
    ensures HasStatus(RunTask(q, task, own, r).statuses, id,
                      if lost || (own == id && task.once && (r.failed || r.blocked)) then Failed else was)
  {
    RunStepIs(q, failed, task, own, r);
  }

  // ---- the whole plan ----

  /** The tasks that the actions create. */
  function Tasks(steps: seq<Step>, act: string -> Outcome): seq<(Task, string)> {
    TasksBy(Sorted(steps), act, |Sorted(steps)|)
  }

  /** Step i fails in the first loop, or a run of its task does. */
  predicate StepFails(steps: seq<Step>, act: string -> Outcome, exec: nat -> ExecResult, i: nat)
    requires i < |Sorted(steps)|
  {
    || Fails(Sorted(steps), act, i)
    || exists k :: 0 <= k < |Tasks(steps, act)| && Tasks(steps, act)[k].1 == Sorted(steps)[i].id && RunFails(Tasks(steps, act), exec, k)
  }

  /** A failed plan's lists: the steps failed by the first loop and then those whose runs failed; the steps
      that asked and then those whose runs asked. */
  lemma OutcomeLists(steps: seq<Step>, act: string -> Outcome, exec: nat -> ExecResult)
    ensures var p, sorted, tasks := Final(steps, act, exec), Sorted(steps), Tasks(steps, act);
      && p.failed == FailedBy(sorted, act, |sorted|) + RunsFailed(tasks, FailedBy(sorted, act, |sorted|), exec, |tasks|)
      && p.approvals == AsksBy(sorted, act, |sorted|) + RunsAsking(tasks, FailedBy(sorted, act, |sorted|), exec, |tasks|)
    ensures DistinctIds(Sorted(steps)) && DistinctSteps(Tasks(steps, act))
  {
    var sorted := Sorted(steps);
    SortedIsSound(steps);
    FirstLoopIs(sorted, act, |sorted|);
    TasksDistinct(sorted, act, |sorted|);
    var first := FirstLoop(sorted, act, |sorted|);
    SecondLoopIs(first, exec, |first.tasks|);
  }

  lemma FailedFirst(sorted: seq<Step>, act: string -> Outcome, i: nat)
    requires DistinctIds(sorted) && i < |sorted|
    ensures sorted[i].id in FailedBy(sorted, act, |sorted|) <==> Fails(sorted, act, i)
  {
    var id := sorted[i].id;
    FailedByAre(sorted, act, |sorted|, id);
    if id in FailedBy(sorted, act, |sorted|) {
      var j :| 0 <= j < |sorted| && sorted[j].id == id && Fails(sorted, act, j);
      SamePlace(sorted, i, j);
    }
  }

  lemma SamePlace(sorted: seq<Step>, i: nat, j: nat)
    requires DistinctIds(sorted) && i < |sorted| && j < |sorted| && sorted[i].id == sorted[j].id
    ensures i == j
  {
  }

  /** A step ends up failed if and only if it failed in the first loop, because its action raised or because
      of a step before it, or its task was run at once and the run failed or was blocked. */
  lemma FailsExactlyWhen(steps: seq<Step>, act: string -> Outcome, exec: nat -> ExecResult, i: nat)
    requires i < |Sorted(steps)|
    ensures Sorted(steps)[i].id in Final(steps, act, exec).failed <==> StepFails(steps, act, exec, i)
  {
    var sorted, tasks := Sorted(steps), Tasks(steps, act);
    OutcomeLists(steps, act, exec);
    FailedFirst(sorted, act, i);
    RunsFailedAre(tasks, FailedBy(sorted, act, |sorted|), exec, |tasks|, sorted[i].id);
  }

  lemma TaskOfCompleted(sorted: seq<Step>, act: string -> Outcome, i: nat, k: nat)
    requires DistinctIds(sorted) && i < |sorted| && k < |TasksBy(sorted, act, |sorted|)|
    requires TasksBy(sorted, act, |sorted|)[k].1 == sorted[i].id && !Fails(sorted, act, i)
    ensures FirstStatus(sorted, act, i) == Completed
  {
    var j := TaskMaker(sorted, act, |sorted|, k);
    assert j == i;
  }

  /** Every step's final status: failed as above, waiting if its action asked, and else completed. */
  lemma StatusExactly(steps: seq<Step>, act: string -> Outcome, exec: nat -> ExecResult, i: nat)
    requires i < |Sorted(steps)|
    ensures HasStatus(Final(steps, act, exec).statuses, Sorted(steps)[i].id,
      if StepFails(steps, act, exec, i) then Failed
      else if act(Sorted(steps)[i].id).AsksInput? then NeedsInput
      else Completed)
  {
    var sorted := Sorted(steps);
    var first, id := FirstLoop(sorted, act, |sorted|), sorted[i].id;
    FailsExactlyWhen(steps, act, exec, i);
    FinalSettles(steps, act, exec);
    assert sorted[i] in sorted;
    SortedIsSound(steps);
    assert SettledAt(Final(steps, act, exec), id);
    if !StepFails(steps, act, exec, i) {
      OutcomeLists(steps, act, exec);
      FirstLoopIs(sorted, act, |sorted|);
      FirstStatuses(sorted, act, |sorted|, i);
      FailedFirst(sorted, act, i);
      forall k | 0 <= k < |first.tasks| && first.tasks[k].1 == id ensures FirstStatus(sorted, act, i) == Completed {
        TaskOfCompleted(sorted, act, i, k);
      }
      SecondStatuses(first, exec, |first.tasks|, id, FirstStatus(sorted, act, i));
    }
  }

  /** Task k adds to neither list. */
  predicate IsQuiet(tasks: seq<(Task, string)>, failed: seq<string>, exec: nat -> ExecResult, k: nat)
    requires k < |tasks|
  {
    tasks[k].1 in failed || (!RunFails(tasks, exec, k) && !RunAsks(tasks, exec, k))
  }

  lemma {:induction false} EmptyIsQuiet(tasks: seq<(Task, string)>, failed: seq<string>, exec: nat -> ExecResult, m: nat, k: nat)
    requires k < m <= |tasks| && RunsFailed(tasks, failed, exec, m) == [] && RunsAsking(tasks, failed, exec, m) == []
    ensures IsQuiet(tasks, failed, exec, k)
  {
    if k < m - 1 {
      EmptyIsQuiet(tasks, failed, exec, m - 1, k);
    }
  }

  lemma {:induction false} QuietIsEmpty(tasks: seq<(Task, string)>, failed: seq<string>, exec: nat -> ExecResult, m: nat)
    requires m <= |tasks| && forall k :: 0 <= k < m ==> IsQuiet(tasks, failed, exec, k)
    ensures RunsFailed(tasks, failed, exec, m) == [] && RunsAsking(tasks, failed, exec, m) == []
  {
    if m > 0 {
      QuietIsEmpty(tasks, failed, exec, m - 1);
      assert IsQuiet(tasks, failed, exec, m - 1);
    }
  }

  /** Step i adds to neither list. */
  predicate IsSmooth(sorted: seq<Step>, act: string -> Outcome, i: nat)
    requires i < |sorted|
  {
    !Fails(sorted, act, i) && !Asks(sorted, act, i)
  }

  lemma {:induction false} EmptyIsSmooth(sorted: seq<Step>, act: string -> Outcome, n: nat, i: nat)
    requires i < n <= |sorted| && FailedBy(sorted, act, n) == [] && AsksBy(sorted, act, n) == []
    ensures IsSmooth(sorted, act, i)
  {
    if i < n - 1 {
      EmptyIsSmooth(sorted, act, n - 1, i);
    }
  }

  lemma {:induction false} SmoothIsEmpty(sorted: seq<Step>, act: string -> Outcome, n: nat)
    requires n <= |sorted| && forall i :: 0 <= i < n ==> IsSmooth(sorted, act, i)
    ensures FailedBy(sorted, act, n) == [] && AsksBy(sorted, act, n) == []
  {
    if n > 0 {
      SmoothIsEmpty(sorted, act, n - 1);
      assert IsSmooth(sorted, act, n - 1);
    }
  }

  /** No step failed or asked for input, and no task run at once failed, was blocked or asked for input. */
  ghost predicate AllWell(steps: seq<Step>, act: string -> Outcome, exec: nat -> ExecResult) {
    && (forall i :: 0 <= i < |Sorted(steps)| ==> !Fails(Sorted(steps), act, i) && !Asks(Sorted(steps), act, i))
    && forall k :: 0 <= k < |Tasks(steps, act)| ==> !RunFails(Tasks(steps, act), exec, k) && !RunAsks(Tasks(steps, act), exec, k)
  }

  lemma AppliedIsWell(steps: seq<Step>, act: string -> Outcome, exec: nat -> ExecResult)
    requires FinalStatus(Final(steps, act, exec)) == Applied
    ensures AllWell(steps, act, exec)
  {
    var sorted, tasks := Sorted(steps), Tasks(steps, act);
    OutcomeLists(steps, act, exec);
    forall i | 0 <= i < |sorted| ensures !Fails(sorted, act, i) && !Asks(sorted, act, i) {
      EmptyIsSmooth(sorted, act, |sorted|, i);
    }
    forall k | 0 <= k < |tasks| ensures !RunFails(tasks, exec, k) && !RunAsks(tasks, exec, k) {
      EmptyIsQuiet(tasks, FailedBy(sorted, act, |sorted|), exec, |tasks|, k);
    }
  }

  lemma WellIsApplied(steps: seq<Step>, act: string -> Outcome, exec: nat -> ExecResult)
    requires AllWell(steps, act, exec)
    ensures FinalStatus(Final(steps, act, exec)) == Applied
  {
    var sorted, tasks := Sorted(steps), Tasks(steps, act);
    OutcomeLists(steps, act, exec);
    SmoothIsEmpty(sorted, act, |sorted|);
    QuietIsEmpty(tasks, FailedBy(sorted, act, |sorted|), exec, |tasks|);
  }

  /** A plan is applied if and only if all went well. */
  lemma AppliedExactlyWhen(steps: seq<Step>, act: string -> Outcome, exec: nat -> ExecResult)
    ensures FinalStatus(Final(steps, act, exec)) == Applied <==> AllWell(steps, act, exec)
  {
    if FinalStatus(Final(steps, act, exec)) == Applied {
      AppliedIsWell(steps, act, exec);
    }
    if AllWell(steps, act, exec) {
      WellIsApplied(steps, act, exec);
    }
  }
}
