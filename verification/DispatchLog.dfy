/** The steps of a batch of runs between two awaits, told by the columns of the rows
    (cognix/scheduler/dispatcher.py:179-313). */
module DispatchLog {
  import opened Wrappers
  import opened Retry
  import opened TaskTable

  /** What one run meets: its idempotency key, whether its executor failed, timed out or raised, the
      schedule's next run, and the clock when its failure is settled. */
  datatype Run = Run(key: Option<string>, failed: bool, schedule: Option<int>, settledAt: int)

  /** Activates the task and checks its key; deactivates it; reads the row back; counts the outcome and,
      for a success, completes the lease; settles a failure on the row read back. */
  datatype Act = Begins(skipped: bool) | Ends | Reads(row: Option<Row>) | Books(row: Option<Row>, failed: bool) | Settles(failure: Row)

  /** One step and the table before and after it. */
  datatype Step = Step(id: string, run: Run, act: Act, found: Table, left: Table)

  /** The check of a key: it refuses a key that is on a row that has run, and otherwise stores it. */
  predicate KeyChecked(found: Table, left: Table, id: string, key: Option<string>, skipped: bool) {
    && (skipped <==> key.Some? && id in found && found[id].key == key && found[id].lastRun.Some?)
    && left == if key.Some? && !skipped && id in found then found[id := found[id].(key := key)] else found
  }

  /** The step does to the table what it should. */
  predicate StepRight(s: Step, node: string, policy: Policy) {
    match s.act
    case Begins(skipped) => KeyChecked(s.found, s.left, s.id, s.run.key, skipped)
    case Ends => s.left == s.found
    case Reads(row) => s.left == s.found && row == if s.id in s.found then Some(s.found[s.id]) else None
    case Books(row, failed) =>
      if row.Some? && (row.value.state == Canceled || failed) then s.left == s.found
      else ClosedBy(s.found, s.left, s.id, node, s.run.schedule, None)
    case Settles(row) =>
      if Max(row.runCount, 1) <= row.maxRetries
      then ClosedBy(s.found, s.left, s.id, node, Some(s.run.settledAt + Delay(Max(row.runCount, 1), policy)), None)
      else ClosedBy(s.found, s.left, s.id, node, None, Some(Failed))
  }

  predicate StepBy(s: Step, runs: string -> Run, claimed: seq<string>, found: Table, left: Table, node: string, policy: Policy) {
    s.id in claimed && s.run == runs(s.id) && s.found == found && s.left == left && StepRight(s, node, policy)
  }

  lemma CompletedByColumns(rows: Table, id: string, owner: string, nextRun: Option<int>, state: Option<TaskState>)
    ensures ClosedBy(rows, CompletedTable(rows, id, owner, Settlement(nextRun, state)), id, owner, nextRun, state)
  {
  }

  lemma BooksRight(s: Step, row: Option<Row>, failed: bool, node: string, policy: Policy)
    requires s.act == Books(row, failed)
    requires s.left == if row.Some? && (row.value.state == Canceled || failed) then s.found
                       else CompletedTable(s.found, s.id, node, Settlement(s.run.schedule, None))
    ensures StepRight(s, node, policy)
  {
    CompletedByColumns(s.found, s.id, node, s.run.schedule, None);
  }

  lemma SettlesRight(s: Step, row: Row, node: string, policy: Policy)
    requires s.act == Settles(row)
    requires s.left == CompletedTable(s.found, s.id, node, SettleFailure(row.runCount, row.maxRetries, s.run.settledAt, policy))
    ensures StepRight(s, node, policy)
  {
    CompletedByColumns(s.found, s.id, node, Some(s.run.settledAt + Delay(Max(row.runCount, 1), policy)), None);
    CompletedByColumns(s.found, s.id, node, None, Some(Failed));
  }

  // ---- the counters ----

  datatype Kind = Skips | Cancels | Successes | Failures | Retries | Exhaustions

  /** The counter a step adds to. */
  predicate Is(s: Step, kind: Kind) {
    match kind
    case Skips => s.act == Begins(true)
    case Cancels => s.act.Books? && s.act.row.Some? && s.act.row.value.state == Canceled
    case Failures => s.act.Books? && s.act.row.Some? && s.act.row.value.state != Canceled && s.act.failed
    case Successes => s.act.Books? && (s.act.row.None? || (s.act.row.value.state != Canceled && !s.act.failed))
    case Retries => s.act.Settles? && Max(s.act.failure.runCount, 1) <= s.act.failure.maxRetries
    case Exhaustions => s.act.Settles? && Max(s.act.failure.runCount, 1) > s.act.failure.maxRetries
  }

  function One(s: Step, kind: Kind): nat {
    if Is(s, kind) then 1 else 0
  }

  /** How many steps add to a counter. */
  function Tally(log: seq<Step>, kind: Kind): nat {
    if log == [] then 0 else Tally(log[..|log| - 1], kind) + One(log[|log| - 1], kind)
  }

  /** The metrics of a node. */
  datatype Counters = Counters(skips: nat, cancels: nat, successes: nat, failures: nat, retries: nat, exhaustions: nat)

  /** Every counter rose by the steps that add to it. */
  predicate RoseBy(before: Counters, after: Counters, log: seq<Step>) {
    && after.skips == before.skips + Tally(log, Kind.Skips)
    && after.cancels == before.cancels + Tally(log, Kind.Cancels)
    && after.successes == before.successes + Tally(log, Kind.Successes)
    && after.failures == before.failures + Tally(log, Kind.Failures)
    && after.retries == before.retries + Tally(log, Kind.Retries)
    && after.exhaustions == before.exhaustions + Tally(log, Kind.Exhaustions)
  }

  predicate RoseByOne(before: Counters, after: Counters, s: Step) {
    && after.skips == before.skips + One(s, Kind.Skips)
    && after.cancels == before.cancels + One(s, Kind.Cancels)
    && after.successes == before.successes + One(s, Kind.Successes)
    && after.failures == before.failures + One(s, Kind.Failures)
    && after.retries == before.retries + One(s, Kind.Retries)
    && after.exhaustions == before.exhaustions + One(s, Kind.Exhaustions)
  }

  lemma RoseAtBegin(before: Counters, after: Counters, s: Step, skipped: bool)
    requires s.act == Begins(skipped) && after == before.(skips := before.skips + if skipped then 1 else 0)
    ensures RoseByOne(before, after, s)
  {
  }

  lemma RoseNowhere(before: Counters, s: Step)
    requires s.act.Ends? || s.act.Reads?
    ensures RoseByOne(before, before, s)
  {
  }

  lemma RoseAtBooking(before: Counters, after: Counters, s: Step, row: Option<Row>, failed: bool)
    requires s.act == Books(row, failed)
    requires after.cancels == before.cancels + if row.Some? && row.value.state == Canceled then 1 else 0
    requires after.failures == before.failures + if row.Some? && row.value.state != Canceled && failed then 1 else 0
    requires after.successes == before.successes + if row.None? || (row.value.state != Canceled && !failed) then 1 else 0
    requires after.skips == before.skips && after.retries == before.retries && after.exhaustions == before.exhaustions
    ensures RoseByOne(before, after, s)
  {
  }

  lemma RoseAtSettling(before: Counters, after: Counters, s: Step, row: Row)
    requires s.act == Settles(row)
    requires after == if Max(row.runCount, 1) <= row.maxRetries
      then before.(retries := before.retries + 1) else before.(exhaustions := before.exhaustions + 1)
    ensures RoseByOne(before, after, s)
  {
  }

  lemma TallyAppend(log: seq<Step>, s: Step, kind: Kind)
    ensures Tally(log + [s], kind) == Tally(log, kind) + One(s, kind)
  {
    assert (log + [s])[..|log|] == log;
  }

  lemma {:induction false} TallyConcat(a: seq<Step>, b: seq<Step>, kind: Kind)
    ensures Tally(a + b, kind) == Tally(a, kind) + Tally(b, kind)
  {
    if b == [] {
      assert a + b == a;
    } else {
      var front, last := b[..|b| - 1], b[|b| - 1];
      TallyConcat(a, front, kind);
      TallyAppend(a + front, last, kind);
      assert a + b == a + front + [last];
    }
  }

  lemma RoseConcat(before: Counters, a: seq<Step>, between: Counters, b: seq<Step>, after: Counters)
    requires RoseBy(before, between, a) && RoseBy(between, after, b)
    ensures RoseBy(before, after, a + b)
  {
    forall kind ensures Tally(a + b, kind) == Tally(a, kind) + Tally(b, kind) {
      TallyConcat(a, b, kind);
    }
  }

  lemma RoseOnce(before: Counters, a: seq<Step>, between: Counters, s: Step, after: Counters)
    requires RoseBy(before, between, a) && RoseByOne(between, after, s)
    ensures RoseBy(before, after, a + [s])
  {
    forall kind ensures Tally(a + [s], kind) == Tally(a, kind) + One(s, kind) {
      TallyAppend(a, s, kind);
    }
  }

  // ---- the steps of one run ----

  function StepsOf(log: seq<Step>, id: string): seq<Step> {
    if log == [] then []
    else StepsOf(log[..|log| - 1], id) + if log[|log| - 1].id == id then [log[|log| - 1]] else []
  }

  lemma StepsOfAppend(log: seq<Step>, s: Step, id: string)
    ensures StepsOf(log + [s], id) == if s.id == id then StepsOf(log, id) + [s] else StepsOf(log, id)
  {
    assert (log + [s])[..|log|] == log;
  }

  /** Up to the booking: a skipped run does not fail. */
  predicate IsBooked(o: seq<Step>) {
    && |o| >= 4 && o[0].act.Begins? && o[1].act.Ends? && o[2].act.Reads?
    && o[3].act == Books(o[2].act.row, o[3].run.failed && !o[0].act.skipped)
  }

  /** A run's steps: it is booked once, and settled once more on the row read back exactly if it is
      booked as a failure. */
  predicate IsWholeRun(o: seq<Step>) {
    IsBooked(o) && if Is(o[3], Failures) then |o| == 5 && o[4].act == Settles(o[3].act.row.value) else |o| == 4
  }

  /** The table after the first i steps. */
  function LeftAt(rows: Table, log: seq<Step>, i: nat): Table
    requires i <= |log|
  {
    if i == 0 then rows else log[i - 1].left
  }

  /** Step i is right, belongs to a run of the batch, and found the table as the other nodes left it. */
  predicate Logged(rows: Table, claimed: seq<string>, runs: string -> Run, others: Others, node: string, policy: Policy, log: seq<Step>, i: nat)
    requires i < |log|
  {
    StepBy(log[i], runs, claimed, others(i)(LeftAt(rows, log, i)), log[i].left, node, policy)
  }

  ghost predicate IsLog(
    rows: Table, after: Table, claimed: seq<string>, runs: string -> Run, others: Others, node: string, policy: Policy, log: seq<Step>)
  {
    && (forall i :: 0 <= i < |log| ==> Logged(rows, claimed, runs, others, node, policy, log, i))
    && after == LeftAt(rows, log, |log|)
  }

  lemma LogAppend(
    rows: Table, before: Table, claimed: seq<string>, runs: string -> Run, others: Others, node: string, policy: Policy, log: seq<Step>, s: Step)
    requires IsLog(rows, before, claimed, runs, others, node, policy, log)
    requires StepBy(s, runs, claimed, others(|log|)(before), s.left, node, policy)
    ensures IsLog(rows, s.left, claimed, runs, others, node, policy, log + [s])
  {
    forall i | 0 <= i < |log| + 1 ensures Logged(rows, claimed, runs, others, node, policy, log + [s], i) {
      assert i < |log| ==> Logged(rows, claimed, runs, others, node, policy, log, i);
    }
  }

  /** Every claimed task has its steps, and no other task has any. */
  ghost predicate RunsWhole(claimed: seq<string>, log: seq<Step>) {
    forall id :: if id in claimed then IsWholeRun(StepsOf(log, id)) else StepsOf(log, id) == []
  }

  // ---- a batch under way ----

  /** The runs of one batch by how far they are: claimed, executing, returned, with the row read back, and
      failed on that row. */
  datatype Batch = Batch(
    waiting: set<string>, running: set<string>, ended: set<string>, reread: map<string, Option<Row>>, failures: map<string, Row>,
    skipped: set<string>)

  function Begun(b: Batch, id: string, skip: bool): Batch {
    b.(waiting := b.waiting - {id}, running := b.running + {id}, skipped := if skip then b.skipped + {id} else b.skipped - {id})
  }

  function Finished(b: Batch, id: string): Batch {
    b.(running := b.running - {id}, ended := b.ended + {id})
  }

  function Reread(b: Batch, id: string, row: Option<Row>): Batch {
    b.(ended := b.ended - {id}, reread := b.reread[id := row])
  }

  function Booked(b: Batch, id: string, failure: Option<Row>): Batch {
    var next := b.(reread := b.reread - {id});
    if failure.Some? then next.(failures := b.failures[id := failure.value]) else next
  }

  function Settled(b: Batch, id: string): Batch {
    b.(failures := b.failures - {id})
  }

  predicate Done(b: Batch) {
    b.waiting == b.running == b.ended == {} && b.reread == map[] && b.failures == map[]
  }

  /** Steps still ahead. */
  function Work(b: Batch): nat {
    5 * |b.waiting| + 4 * |b.running| + 3 * |b.ended| + 2 * |b.reread| + |b.failures|
  }

  ghost predicate Covers(b: Batch, inFlight: set<string>, active: set<string>, settling: set<string>) {
    && inFlight == b.waiting + b.running + b.ended + b.reread.Keys && active == b.running && settling == b.failures.Keys
    && b.waiting !! b.running && b.waiting !! b.ended && b.running !! b.ended
    && b.reread.Keys !! b.waiting && b.reread.Keys !! b.running && b.reread.Keys !! b.ended
    && b.failures.Keys !! inFlight
  }

  /** The steps that a run has made so far. */
  predicate Stage(b: Batch, id: string, o: seq<Step>) {
    if id in b.waiting then o == []
    else if id in b.running then |o| == 1 && o[0].act == Begins(id in b.skipped)
    else if id in b.ended then |o| == 2 && o[0].act == Begins(id in b.skipped) && o[1].act.Ends?
    else if id in b.reread then
      |o| == 3 && o[0].act == Begins(id in b.skipped) && o[1].act.Ends? && o[2].act == Reads(b.reread[id])
    else if id in b.failures then |o| == 4 && IsBooked(o) && Is(o[3], Failures) && b.failures[id] == o[3].act.row.value
    else IsWholeRun(o)
  }

  ghost predicate Stages(b: Batch, claimed: seq<string>, log: seq<Step>) {
    && (forall id :: id in claimed ==> Stage(b, id, StepsOf(log, id)))
    && (forall id :: id !in claimed ==> StepsOf(log, id) == [])
  }

  lemma DoneIsWhole(b: Batch, claimed: seq<string>, log: seq<Step>)
    requires Done(b) && Stages(b, claimed, log)
    ensures RunsWhole(claimed, log)
  {
  }

  /** Nothing changes for other runs. */
  ghost predicate SameStages(b: Batch, next: Batch, id: string) {
    forall other: string, o: seq<Step> :: other != id && Stage(b, other, o) ==> Stage(next, other, o)
  }

  lemma StagesAppend(b: Batch, next: Batch, claimed: seq<string>, log: seq<Step>, s: Step)
    requires Stages(b, claimed, log) && s.id in claimed && SameStages(b, next, s.id)
    requires Stage(next, s.id, StepsOf(log, s.id) + [s])
    ensures Stages(next, claimed, log + [s])
  {
    forall id ensures StepsOf(log + [s], id) == if s.id == id then StepsOf(log, id) + [s] else StepsOf(log, id) {
      StepsOfAppend(log, s, id);
    }
  }

  lemma BeginStages(b: Batch, claimed: seq<string>, log: seq<Step>, s: Step, skip: bool)
    requires Stages(b, claimed, log) && s.id in claimed && s.id in b.waiting && s.act == Begins(skip)
    ensures Stages(Begun(b, s.id, skip), claimed, log + [s])
  {
    assert Stage(b, s.id, StepsOf(log, s.id));
    StagesAppend(b, Begun(b, s.id, skip), claimed, log, s);
  }

  lemma FinishStages(b: Batch, claimed: seq<string>, log: seq<Step>, s: Step)
    requires Stages(b, claimed, log) && s.id in claimed && s.id in b.running - b.waiting && s.act == Ends
    ensures Stages(Finished(b, s.id), claimed, log + [s])
  {
    assert Stage(b, s.id, StepsOf(log, s.id));
    StagesAppend(b, Finished(b, s.id), claimed, log, s);
  }

  lemma RereadStages(b: Batch, claimed: seq<string>, log: seq<Step>, s: Step, row: Option<Row>)
    requires Stages(b, claimed, log) && s.id in claimed && s.id in b.ended - b.running - b.waiting && s.act == Reads(row)
    ensures Stages(Reread(b, s.id, row), claimed, log + [s])
  {
    assert Stage(b, s.id, StepsOf(log, s.id));
    StagesAppend(b, Reread(b, s.id, row), claimed, log, s);
  }

  lemma BookStages(b: Batch, claimed: seq<string>, log: seq<Step>, s: Step, failure: Option<Row>)
    requires Stages(b, claimed, log) && s.id in claimed && s.id in b.reread.Keys - b.ended - b.running - b.waiting - b.failures.Keys
    requires s.act == Books(b.reread[s.id], s.run.failed && s.id !in b.skipped)
    requires failure == if Is(s, Failures) then s.act.row else None
    ensures Stages(Booked(b, s.id, failure), claimed, log + [s])
  {
    assert Stage(b, s.id, StepsOf(log, s.id));
    StagesAppend(b, Booked(b, s.id, failure), claimed, log, s);
  }

  lemma SettleStages(b: Batch, claimed: seq<string>, log: seq<Step>, s: Step)
    requires Stages(b, claimed, log) && s.id in claimed
    requires s.id in b.failures.Keys - b.reread.Keys - b.ended - b.running - b.waiting && s.act == Settles(b.failures[s.id])
    ensures Stages(Settled(b, s.id), claimed, log + [s])
  {
    assert Stage(b, s.id, StepsOf(log, s.id));
    StagesAppend(b, Settled(b, s.id), claimed, log, s);
  }

  // ---- the ghost sets of the node, and termination ----

  lemma BeginCovers(b: Batch, id: string, skip: bool, inFlight: set<string>, active: set<string>, settling: set<string>)
    requires Covers(b, inFlight, active, settling) && id in b.waiting
    ensures Covers(Begun(b, id, skip), inFlight, active + {id}, settling)
  {
  }

  lemma BeginWorks(b: Batch, id: string, skip: bool)
    requires id in b.waiting
    ensures Work(Begun(b, id, skip)) < Work(b)
  {
    SetMoves(b.waiting, b.running, id);
  }

  lemma FinishCovers(b: Batch, id: string, inFlight: set<string>, active: set<string>, settling: set<string>)
    requires Covers(b, inFlight, active, settling) && id in b.running
    ensures Covers(Finished(b, id), inFlight, active - {id}, settling)
  {
  }

  lemma FinishWorks(b: Batch, id: string)
    requires id in b.running
    ensures Work(Finished(b, id)) < Work(b)
  {
    SetMoves(b.running, b.ended, id);
  }

  lemma RereadCovers(b: Batch, id: string, row: Option<Row>, inFlight: set<string>, active: set<string>, settling: set<string>)
    requires Covers(b, inFlight, active, settling) && id in b.ended
    ensures Covers(Reread(b, id, row), inFlight, active, settling)
  {
  }

  lemma RereadWorks(b: Batch, id: string, row: Option<Row>)
    requires id in b.ended
    ensures Work(Reread(b, id, row)) < Work(b)
  {
    SetMoves(b.ended, {}, id);
    MapGrows(b.reread, id, row);
  }

  lemma BookCovers(b: Batch, id: string, failure: Option<Row>, inFlight: set<string>, active: set<string>, settling: set<string>)
    requires Covers(b, inFlight, active, settling) && id in b.reread
    ensures Covers(Booked(b, id, failure), inFlight - {id}, active, settling + if failure.Some? then {id} else {})
  {
  }

  lemma BookWorks(b: Batch, id: string, failure: Option<Row>)
    requires id in b.reread
    ensures Work(Booked(b, id, failure)) < Work(b)
  {
    MapShrinks(b.reread, id);
    if failure.Some? {
      MapGrows(b.failures, id, failure.value);
    }
  }

  lemma SettleCovers(b: Batch, id: string, inFlight: set<string>, active: set<string>, settling: set<string>)
    requires Covers(b, inFlight, active, settling) && id in b.failures
    ensures Covers(Settled(b, id), inFlight, active, settling - {id})
  {
  }

  lemma SettleWorks(b: Batch, id: string)
    requires id in b.failures
    ensures Work(Settled(b, id)) < Work(b)
  {
    MapShrinks(b.failures, id);
  }

  // ---- one step of the batch ----

  /** What a step of the node may change, beside the rows. */
  datatype Ledger = Ledger(inFlight: set<string>, active: set<string>, settling: set<string>, counters: Counters)

  /** The batch, its log and the sets of the node agree. */
  ghost predicate BatchAt(b: Batch, claimed: seq<string>, log: seq<Step>, k: Ledger) {
    && Covers(b, k.inFlight, k.active, k.settling) && Stages(b, claimed, log)
    && forall id :: id in k.inFlight + k.settling ==> id in claimed
  }

  /** The step is right and is booked, and leads from one batch to the next. */
  ghost predicate Advances(
    next: Batch, claimed: seq<string>, log: seq<Step>, s: Step, runs: string -> Run, node: string, policy: Policy, before: Ledger, after: Ledger)
  {
    && BatchAt(next, claimed, log + [s], after) && RoseByOne(before.counters, after.counters, s)
    && s.id in claimed && s.run == runs(s.id) && StepRight(s, node, policy)
  }

  lemma BeginAdvances(
    b: Batch, claimed: seq<string>, log: seq<Step>, s: Step, skip: bool, runs: string -> Run, node: string, policy: Policy, before: Ledger, after: Ledger)
    requires BatchAt(b, claimed, log, before) && s.id in b.waiting && s.run == runs(s.id)
    requires s.act == Begins(skip) && KeyChecked(s.found, s.left, s.id, s.run.key, skip)
    requires after == before.(active := before.active + {s.id}, counters := before.counters.(skips := after.counters.skips))
    requires after.counters.skips == before.counters.skips + if skip then 1 else 0
    ensures Advances(Begun(b, s.id, skip), claimed, log, s, runs, node, policy, before, after)
  {
    BeginCovers(b, s.id, skip, before.inFlight, before.active, before.settling);
    BeginStages(b, claimed, log, s, skip);
    RoseAtBegin(before.counters, after.counters, s, skip);
  }

  lemma FinishAdvances(
    b: Batch, claimed: seq<string>, log: seq<Step>, s: Step, runs: string -> Run, node: string, policy: Policy, before: Ledger, after: Ledger)
    requires BatchAt(b, claimed, log, before) && s.id in b.running && s.run == runs(s.id)
    requires s.act == Ends && s.left == s.found && after == before.(active := before.active - {s.id})
    ensures Advances(Finished(b, s.id), claimed, log, s, runs, node, policy, before, after)
  {
    FinishCovers(b, s.id, before.inFlight, before.active, before.settling);
    FinishStages(b, claimed, log, s);
    RoseNowhere(before.counters, s);
  }

  lemma RereadAdvances(
    b: Batch, claimed: seq<string>, log: seq<Step>, s: Step, row: Option<Row>, runs: string -> Run, node: string, policy: Policy, before: Ledger, after: Ledger)
    requires BatchAt(b, claimed, log, before) && s.id in b.ended && s.run == runs(s.id)
    requires s.act == Reads(row) && s.left == s.found && after == before
    requires row == if s.id in s.found then Some(s.found[s.id]) else None
    ensures Advances(Reread(b, s.id, row), claimed, log, s, runs, node, policy, before, after)
  {
    RereadCovers(b, s.id, row, before.inFlight, before.active, before.settling);
    RereadStages(b, claimed, log, s, row);
    RoseNowhere(before.counters, s);
  }

  /** How a run is booked on the row read back after it: as a cancel, as a failure of that row, or as a
      success that completes the lease. */
  predicate BooksAs(
    id: string, row: Option<Row>, failed: bool, schedule: Option<int>, failure: Option<Row>, node: string,
    before: Ledger, after: Ledger, found: Table, left: Table)
  {
    var k, c := before.(inFlight := before.inFlight - {id}), before.counters;
    if row.Some? && row.value.state == Canceled then
      failure == None && left == found && after == k.(counters := c.(cancels := c.cancels + 1))
    else if row.Some? && failed then
      failure == row && left == found && after == k.(settling := k.settling + {id}, counters := c.(failures := c.failures + 1))
    else
      && failure == None && left == CompletedTable(found, id, node, Settlement(schedule, None))
      && after == k.(counters := c.(successes := c.successes + 1))
  }

  lemma BookAdvances(
    b: Batch, claimed: seq<string>, log: seq<Step>, s: Step, row: Option<Row>, failed: bool, failure: Option<Row>, runs: string -> Run, node: string, policy: Policy, before: Ledger, after: Ledger)
    requires BatchAt(b, claimed, log, before) && s.id in b.reread && s.run == runs(s.id)
    requires s.act == Books(row, failed) && row == b.reread[s.id] && failed == (s.run.failed && s.id !in b.skipped)
    requires BooksAs(s.id, row, failed, s.run.schedule, failure, node, before, after, s.found, s.left)
    ensures Advances(Booked(b, s.id, failure), claimed, log, s, runs, node, policy, before, after)
  {
    BookCovers(b, s.id, failure, before.inFlight, before.active, before.settling);
    BookStages(b, claimed, log, s, failure);
    BooksRight(s, row, failed, node, policy);
    RoseAtBooking(before.counters, after.counters, s, row, failed);
  }

  lemma SettleAdvances(
    b: Batch, claimed: seq<string>, log: seq<Step>, s: Step, row: Row, runs: string -> Run, node: string, policy: Policy, before: Ledger, after: Ledger)
    requires BatchAt(b, claimed, log, before) && s.id in b.failures && s.run == runs(s.id)
    requires s.act == Settles(row) && row == b.failures[s.id]
    requires s.left == CompletedTable(s.found, s.id, node, SettleFailure(row.runCount, row.maxRetries, s.run.settledAt, policy))
    requires after == before.(settling := before.settling - {s.id}, counters := after.counters)
    requires after.counters == if Max(row.runCount, 1) <= row.maxRetries
      then before.counters.(retries := before.counters.retries + 1) else before.counters.(exhaustions := before.counters.exhaustions + 1)
    ensures Advances(Settled(b, s.id), claimed, log, s, runs, node, policy, before, after)
  {
    SettleCovers(b, s.id, before.inFlight, before.active, before.settling);
    SettleStages(b, claimed, log, s);
    SettlesRight(s, row, node, policy);
    RoseAtSettling(before.counters, after.counters, s, row);
  }

  lemma SetMoves(a: set<string>, b: set<string>, id: string)
    requires id in a
    ensures |a - {id}| == |a| - 1 && |b + {id}| <= |b| + 1
  {
  }

  lemma MapGrows<T>(m: map<string, T>, k: string, v: T)
    ensures |m[k := v]| <= |m| + 1
  {
    assert m[k := v].Keys == m.Keys + {k};
    assert |m.Keys + {k}| <= |m.Keys| + 1;
  }

  lemma MapShrinks<T>(m: map<string, T>, k: string)
    requires k in m
    ensures |m - {k}| == |m| - 1
  {
    assert (m - {k}).Keys == m.Keys - {k};
  }
}
