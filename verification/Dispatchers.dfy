/** One runtime node's bookkeeping (cognix/scheduler/dispatcher.py) and the engine's copy of the
    settling decision (cognix/scheduler/engine.py). Each method is the code between two awaits;
    other nodes may change the store's rows between two calls. */
module Dispatchers {
  import opened Wrappers
  import opened Retry
  import opened TaskTable
  import opened DispatchLog

  class Dispatcher {
    const nodeId: string
    const batchSize: nat
    const maxConcurrent: nat
    const ttl: int
    const policy: Policy
    const store: TaskStore

    var active: set<string>
    var claimedTotal: nat
    var successTotal: nat
    var failureTotal: nat
    var canceledTotal: nat
    var retryScheduledTotal: nat
    var exhaustedFailureTotal: nat
    var skippedTotal: nat

    /** Claimed tasks whose outcome is not counted yet. */
    ghost var inFlight: set<string>
    /** Tasks whose failure is counted and whose completion is still to be written. */
    ghost var settling: set<string>

    /** The books balance, and the node is within its capacity. */
    ghost predicate Valid()
      reads this
    {
      && claimedTotal == successTotal + failureTotal + canceledTotal + |inFlight|
      && failureTotal == retryScheduledTotal + exhaustedFailureTotal + |settling|
      && active <= inFlight && inFlight !! settling
      && |inFlight| + |settling| <= maxConcurrent
    }

    /** dispatch_once has returned: its gather has awaited every run of the batch. */
    ghost predicate Quiet()
      reads this
    {
      inFlight == {} && settling == {}
    }

    ghost function Counts(): Counters
      reads this
    {
      Counters(skippedTotal, canceledTotal, successTotal, failureTotal, retryScheduledTotal, exhaustedFailureTotal)
    }

    ghost function Now(): Ledger
      reads this
    {
      Ledger(inFlight, active, settling, Counts())
    }

    constructor (nodeId: string, batchSize: nat, maxConcurrent: int, ttl: int, policy: Policy, store: TaskStore)
      ensures Valid() && Quiet()
      ensures this.maxConcurrent == Max(1, maxConcurrent) && this.store == store && this.nodeId == nodeId && this.policy == policy
      ensures claimedTotal == 0 && Counts() == Counters(0, 0, 0, 0, 0, 0)
    {
      this.nodeId, this.batchSize, this.maxConcurrent := nodeId, batchSize, Max(1, maxConcurrent);
      this.ttl, this.policy, this.store := ttl, policy, store;
      active := {};
      claimedTotal, successTotal, failureTotal, canceledTotal := 0, 0, 0, 0;
      retryScheduledTotal, exhaustedFailureTotal, skippedTotal := 0, 0, 0;
      inFlight, settling := {}, {};
    }

    /** First part of dispatch_once: claims what fits. Other nodes may act between its leases. */
    method Claim(selectedAt: int, clock: nat -> int, others: Others) returns (claimed: seq<string>, ghost candidates: seq<string>)
      requires Valid() && Quiet()
      modifies this, store
      ensures Valid() && active == settling == {}
      ensures Distinct(claimed) && inFlight == (set id | id in claimed)
      ensures claimedTotal == old(claimedTotal) + |claimed| && Counts() == old(Counts())
      ensures |claimed| <= maxConcurrent && |claimed| <= batchSize
      ensures IsSelection(old(store.rows), selectedAt, Min(batchSize, maxConcurrent), candidates)
      ensures (store.rows, claimed) == ClaimedFrom(old(store.rows), candidates, 0, nodeId, ttl, clock, others)
    {
      assert active == {};
      var slots: int := Max(0, maxConcurrent - |active|);
      var limit: nat := Min(batchSize, slots);
      claimed, candidates := store.ClaimDueTasks(nodeId, limit, ttl, selectedAt, clock, others);
      ClaimedAreCandidates(old(store.rows), candidates, 0, nodeId, ttl, clock, others);
      DistinctSize(claimed);
      claimedTotal := claimedTotal + |claimed|;
      inFlight := set id | id in claimed;
    }

    /** The batch describes the runs that are under way, and the log the steps they have made. */
    ghost predicate UnderWay(b: Batch, claimed: seq<string>, log: seq<Step>)
      reads this
    {
      Valid() && BatchAt(b, claimed, log, Now())
    }

    /** The gather of dispatch_once: the runs of the batch advance in any order, each from await to
        await, while other nodes change the table before each step. Every claimed task makes the steps of
        one whole run, each step changes the table as it should, and the counters count the steps. */
    method Gather(claimed: seq<string>, runs: string -> Run, others: Others) returns (ghost log: seq<Step>)
      requires Valid() && active == settling == {} && inFlight == set id | id in claimed
      modifies this, store
      ensures Valid() && Quiet() && claimedTotal == old(claimedTotal)
      ensures IsLog(old(store.rows), store.rows, claimed, runs, others, nodeId, policy, log)
      ensures RunsWhole(claimed, log)
      ensures RoseBy(old(Counts()), Counts(), log)
    {
      var b := Batch(set id | id in claimed, {}, {}, map[], map[], {});
      var n: nat := 0;
      log := [];
      while !Done(b)
        invariant Going(b, claimed, runs, others, log, old(store.rows), old(Counts())) && claimedTotal == old(claimedTotal) && n == |log|
        decreases Work(b)
      {
        b, log := Turn(b, n, runs, others, claimed, log, old(store.rows), old(Counts()));
        n := n + 1;
      }
      DoneIsWhole(b, claimed, log);
    }

    ghost predicate Going(
      b: Batch, claimed: seq<string>, runs: string -> Run, others: Others, log: seq<Step>, rows: Table, counts: Counters)
      reads this, store
    {
      && UnderWay(b, claimed, log) && IsLog(rows, store.rows, claimed, runs, others, nodeId, policy, log)
      && RoseBy(counts, Counts(), log)
    }

    /** The other nodes act, and then one run makes a step. */
    method Turn(
      b: Batch, n: nat, runs: string -> Run, others: Others, ghost claimed: seq<string>, ghost log: seq<Step>, ghost rows: Table,
      ghost counts: Counters)
      returns (next: Batch, ghost longer: seq<Step>)
      requires Going(b, claimed, runs, others, log, rows, counts) && !Done(b) && n == |log|
      modifies this, store
      ensures Going(next, claimed, runs, others, longer, rows, counts)
      ensures |longer| == |log| + 1 && claimedTotal == old(claimedTotal) && Work(next) < Work(b)
    {
      ghost var step, left := *, store.rows;
      store.rows := others(n)(store.rows);
      next, step := Advance(b, runs, claimed, log);
      longer := log + [step];
      LogAppend(rows, left, claimed, runs, others, nodeId, policy, log, step);
      RoseOnce(counts, log, old(Counts()), step, Counts());
    }

    /** The step has been made: found and total are the table and claimedTotal before it. */
    ghost predicate Moved(
      b: Batch, next: Batch, claimed: seq<string>, log: seq<Step>, step: Step, runs: string -> Run, before: Ledger, found: Table, total: nat)
      reads this, store
    {
      && Valid() && claimedTotal == total && Work(next) < Work(b) && step.found == found && step.left == store.rows
      && Advances(next, claimed, log, step, runs, nodeId, policy, before, Now())
    }

    /** One run of the batch, any, makes its next step. */
    method Advance(b: Batch, runs: string -> Run, ghost claimed: seq<string>, ghost log: seq<Step>)
      returns (next: Batch, ghost step: Step)
      requires UnderWay(b, claimed, log) && !Done(b)
      modifies this, store
      ensures Moved(b, next, claimed, log, step, runs, old(Now()), old(store.rows), old(claimedTotal))
    {
      if {
        case b.waiting != {} =>
          var id :| id in b.waiting;
          next, step := Begin(b, id, runs, claimed, log);
        case b.running != {} =>
          var id :| id in b.running;
          next, step := Finish(b, id, runs, claimed, log);
        case b.ended != {} =>
          var id :| id in b.ended;
          next, step := ReadBack(b, id, runs, claimed, log);
        case b.reread != map[] =>
          var id :| id in b.reread;
          next, step := Book(b, id, runs, claimed, log);
        case b.failures != map[] =>
          var id :| id in b.failures;
          next, step := SettleFailed(b, id, runs, claimed, log);
      }
    }

    method Begin(b: Batch, id: string, runs: string -> Run, ghost claimed: seq<string>, ghost log: seq<Step>)
      returns (next: Batch, ghost step: Step)
      requires UnderWay(b, claimed, log) && id in b.waiting
      modifies this, store
      ensures Moved(b, next, claimed, log, step, runs, old(Now()), old(store.rows), old(claimedTotal))
    {
      var skip := StartRun(id, runs(id).key);
      step := Step(id, runs(id), Begins(skip), old(store.rows), store.rows);
      next := Begun(b, id, skip);
      BeginAdvances(b, claimed, log, step, skip, runs, nodeId, policy, old(Now()), Now());
      BeginWorks(b, id, skip);
    }

    method Finish(b: Batch, id: string, runs: string -> Run, ghost claimed: seq<string>, ghost log: seq<Step>)
      returns (next: Batch, ghost step: Step)
      requires UnderWay(b, claimed, log) && id in b.running
      modifies this, store
      ensures Moved(b, next, claimed, log, step, runs, old(Now()), old(store.rows), old(claimedTotal))
    {
      EndRun(id);
      step := Step(id, runs(id), Ends, store.rows, store.rows);
      next := Finished(b, id);
      FinishAdvances(b, claimed, log, step, runs, nodeId, policy, old(Now()), Now());
      FinishWorks(b, id);
    }

    method ReadBack(b: Batch, id: string, runs: string -> Run, ghost claimed: seq<string>, ghost log: seq<Step>)
      returns (next: Batch, ghost step: Step)
      requires UnderWay(b, claimed, log) && id in b.ended
      modifies this, store
      ensures Moved(b, next, claimed, log, step, runs, old(Now()), old(store.rows), old(claimedTotal))
    {
      var row := store.Get(id);
      step := Step(id, runs(id), Reads(row), store.rows, store.rows);
      next := Reread(b, id, row);
      RereadAdvances(b, claimed, log, step, row, runs, nodeId, policy, Now(), Now());
      RereadWorks(b, id, row);
    }

    method Book(b: Batch, id: string, runs: string -> Run, ghost claimed: seq<string>, ghost log: seq<Step>)
      returns (next: Batch, ghost step: Step)
      requires UnderWay(b, claimed, log) && id in b.reread
      modifies this, store
      ensures Moved(b, next, claimed, log, step, runs, old(Now()), old(store.rows), old(claimedTotal))
    {
      var row, failed := b.reread[id], runs(id).failed && id !in b.skipped;
      var failure := AfterRun(id, row, failed, runs(id).schedule);
      step := Step(id, runs(id), Books(row, failed), old(store.rows), store.rows);
      next := Booked(b, id, failure);
      BookAdvances(b, claimed, log, step, row, failed, failure, runs, nodeId, policy, old(Now()), Now());
      BookWorks(b, id, failure);
    }

    method SettleFailed(b: Batch, id: string, runs: string -> Run, ghost claimed: seq<string>, ghost log: seq<Step>)
      returns (next: Batch, ghost step: Step)
      requires UnderWay(b, claimed, log) && id in b.failures
      modifies this, store
      ensures Moved(b, next, claimed, log, step, runs, old(Now()), old(store.rows), old(claimedTotal))
    {
      var row := b.failures[id];
      CompleteFailedRun(id, row, runs(id).settledAt);
      step := Step(id, runs(id), Settles(row), old(store.rows), store.rows);
      next := Settled(b, id);
      SettleAdvances(b, claimed, log, step, row, runs, nodeId, policy, old(Now()), Now());
      SettleWorks(b, id);
    }

    /** The claim, and then the gather over what was claimed. */
    method DispatchOnce(selectedAt: int, clock: nat -> int, others: Others, runs: string -> Run, meanwhile: Others)
      returns (claimed: nat, ghost batch: seq<string>, ghost log: seq<Step>, ghost candidates: seq<string>, ghost leased: Table)
      requires Valid() && Quiet()
      modifies this, store
      ensures Valid() && Quiet()
      ensures claimedTotal == old(claimedTotal) + claimed && claimed == |batch| && claimed <= maxConcurrent && claimed <= batchSize
      ensures IsSelection(old(store.rows), selectedAt, Min(batchSize, maxConcurrent), candidates)
      ensures (leased, batch) == ClaimedFrom(old(store.rows), candidates, 0, nodeId, ttl, clock, others)
      ensures IsLog(leased, store.rows, batch, runs, meanwhile, nodeId, policy, log) && RunsWhole(batch, log)
      ensures RoseBy(old(Counts()), Counts(), log)
    {
      var ids;
      ids, candidates := Claim(selectedAt, clock, others);
      batch, leased := ids, store.rows;
      log := Gather(ids, runs, meanwhile);
      claimed := |ids|;
    }

    /** The polling loop, for any number of rounds: the sole caller of dispatch_once. After every round
        all that was claimed is accounted for, and the counters count the steps of all rounds. */
    method RunLoop(rounds: nat) returns (ghost log: seq<Step>)
      requires Valid() && Quiet()
      modifies this, store
      ensures Valid() && Quiet()
      ensures claimedTotal == successTotal + failureTotal + canceledTotal
      ensures failureTotal == retryScheduledTotal + exhaustedFailureTotal
      ensures forall i :: 0 <= i < |log| ==> StepRight(log[i], nodeId, policy)
      ensures RoseBy(old(Counts()), Counts(), log)
    {
      log := [];
      for i := 0 to rounds
        invariant Valid() && Quiet()
        invariant forall i :: 0 <= i < |log| ==> StepRight(log[i], nodeId, policy)
        invariant RoseBy(old(Counts()), Counts(), log)
      {
        store.rows := *;
        var at: int, clock: nat -> int, others: Others, runs: string -> Run, meanwhile: Others := *, *, *, *, *;
        ghost var batch, steps, candidates, leased;
        ghost var counted := Counts();
        var claimed;
        claimed, batch, steps, candidates, leased := DispatchOnce(at, clock, others, runs, meanwhile);
        forall i | 0 <= i < |steps| ensures StepRight(steps[i], nodeId, policy) {
          assert Logged(leased, batch, runs, meanwhile, nodeId, policy, steps, i);
        }
        RoseConcat(old(Counts()), log, counted, steps, Counts());
        log := log + steps;
      }
    }

    /** First part of _run_claimed: the run becomes active and its key, if any, is checked. */
    method StartRun(id: string, key: Option<string>) returns (skip: bool)
      requires Valid() && id in inFlight && id !in active
      modifies this, store
      ensures Valid() && active == old(active) + {id}
      ensures inFlight == old(inFlight) && settling == old(settling) && claimedTotal == old(claimedTotal)
      ensures KeyChecked(old(store.rows), store.rows, id, key, skip)
      ensures Counts() == old(Counts()).(skips := old(skippedTotal) + if skip then 1 else 0)
    {
      active := active + {id};
      skip := false;
      if key.Some? {
        var proceed := store.CheckIdempotency(id, key.value);
        if !proceed {
          skippedTotal := skippedTotal + 1;
          skip := true;
        }
      }
    }

    /** The finally block of _run_claimed. */
    method EndRun(id: string)
      requires Valid() && id in active
      modifies this
      ensures Valid() && active == old(active) - {id}
      ensures inFlight == old(inFlight) && settling == old(settling) && claimedTotal == old(claimedTotal)
      ensures Counts() == old(Counts())
    {
      active := active - {id};
    }

    /** Last part of _run_claimed, on the row read back after the run: a canceled row, a failed run of
        another row, which is then settled, and anything else are counted apart; only the last completes
        the lease here. */
    method AfterRun(id: string, row: Option<Row>, failed: bool, schedule: Option<int>) returns (failure: Option<Row>)
      requires Valid() && id in inFlight && id !in active
      modifies this, store
      ensures Valid() && claimedTotal == old(claimedTotal)
      ensures BooksAs(id, row, failed, schedule, failure, nodeId, old(Now()), Now(), old(store.rows), store.rows)
    {
      inFlight := inFlight - {id};
      failure := None;
      if row.Some? && row.value.state == Canceled {
        canceledTotal := canceledTotal + 1;
      } else if failed && row.Some? {
        failureTotal := failureTotal + 1;
        settling := settling + {id};
        failure := row;
      } else {
        successTotal := successTotal + 1;
        var _ := store.CompleteLease(id, nodeId, schedule, None);
      }
    }

    /** The retry decision on the row read back. */
    method CompleteFailedRun(id: string, row: Row, now: int)
      requires Valid() && id in settling
      modifies this, store
      ensures Valid() && settling == old(settling) - {id} && inFlight == old(inFlight) && active == old(active)
      ensures claimedTotal == old(claimedTotal)
      ensures Counts() == if Max(row.runCount, 1) <= row.maxRetries
                          then old(Counts()).(retries := old(retryScheduledTotal) + 1)
                          else old(Counts()).(exhaustions := old(exhaustedFailureTotal) + 1)
      ensures store.rows == CompletedTable(old(store.rows), id, nodeId, SettleFailure(row.runCount, row.maxRetries, now, policy))
    {
      settling := settling - {id};
      var attempts := Max(row.runCount, 1);
      if attempts <= row.maxRetries {
        var _ := store.CompleteLease(id, nodeId, Some(now + Delay(attempts, policy)), None);
        retryScheduledTotal := retryScheduledTotal + 1;
      } else {
        var _ := store.CompleteLease(id, nodeId, None, Some(Failed));
        exhaustedFailureTotal := exhaustedFailureTotal + 1;
      }
    }
  }

  /** Between any two awaits no more tasks are active than the node may run. */
  lemma ActiveFits(d: Dispatcher)
    requires d.Valid()
    ensures |d.active| <= d.maxConcurrent
  {
    assert d.inFlight == d.active + (d.inFlight - d.active);
  }

  class Engine {
    const nodeId: string
    const policy: Policy
    const store: TaskStore

    constructor (nodeId: string, policy: Policy, store: TaskStore)
      ensures this.nodeId == nodeId && this.policy == policy && this.store == store
    {
      this.nodeId, this.policy, this.store := nodeId, policy, store;
    }

    /** Tail of _execute_task, on the row re-read after the run: on a failure the table changes
        exactly as under Dispatcher.CompleteFailedRun. */
    method SettleRun(id: string, row: Option<Row>, failed: bool, now: int, jobNext: Option<int>)
      modifies store
      ensures row.Some? && row.value.state == Canceled ==>
        store.rows == if id in old(store.rows) && Owned(old(store.rows)[id], nodeId)
                      then old(store.rows)[id := Unleased(old(store.rows)[id])] else old(store.rows)
      ensures row.Some? && row.value.state != Canceled && failed ==>
        store.rows == CompletedTable(old(store.rows), id, nodeId,
                                     SettleFailure(row.value.runCount, row.value.maxRetries, now, policy))
      ensures row.None? || (row.value.state != Canceled && !failed) ==>
        store.rows == CompletedTable(old(store.rows), id, nodeId, Settlement(jobNext, None))
    {
      if row.Some? && row.value.state == Canceled {
        var _ := store.ReleaseLease(id, nodeId);
        return;
      }
      if failed && row.Some? {
        var attempts := Max(row.value.runCount, 1);
        if attempts <= row.value.maxRetries {
          var _ := store.CompleteLease(id, nodeId, Some(now + Delay(attempts, policy)), None);
          return;
        }
        var _ := store.CompleteLease(id, nodeId, None, Some(Failed));
        return;
      }
      var _ := store.CompleteLease(id, nodeId, jobNext, None);
    }
  }
}
