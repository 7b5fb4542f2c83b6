/** The scheduled task table and its conditional updates (cognix/scheduler/store.py).
    Every UPDATE ... WHERE is one function on a row; TaskStore applies it to the stored rows. */
module TaskTable {
  import opened Wrappers
  import opened Retry

  datatype TaskState = Active | Paused | Completed | Failed | Canceled

  /** The columns that the scheduler reads or writes. payloadKey is the idempotency key
      carried by the task's payload, which no update changes. */
  datatype Row = Row(
    state: TaskState,
    nextRun: Option<int>,
    owner: Option<string>,
    expires: Option<int>,
    runCount: int,
    maxRetries: int,
    lastRun: Option<int>,
    key: Option<string>,
    payloadKey: Option<string>)

  type Table = map<string, Row>

  // ---- row conditions and row updates ----

  predicate LeaseFree(r: Row, now: int) {
    r.owner.None? || r.expires.None? || r.expires.value < now
  }

  /** WHERE clause of claim_due_tasks. */
  predicate Due(r: Row, now: int) {
    r.state == Active && r.nextRun.Some? && r.nextRun.value <= now && LeaseFree(r, now)
  }

  /** WHERE clause of acquire_lease. */
  predicate Leasable(r: Row, owner: string, now: int) {
    r.state == Active && (LeaseFree(r, now) || r.owner == Some(owner))
  }

  predicate Owned(r: Row, owner: string) {
    r.owner == Some(owner)
  }

  /** WHERE clause of extend_lease. */
  predicate Extendable(r: Row, owner: string) {
    Owned(r, owner) && r.state == Active
  }

  /** WHERE clause of reap_orphaned_leases. */
  predicate Orphaned(r: Row, now: int) {
    r.state == Active && r.owner.Some? && r.expires.Some? && r.expires.value < now
  }

  function Leased(r: Row, owner: string, expires: int): Row {
    r.(owner := Some(owner), expires := Some(expires))
  }

  function Unleased(r: Row): Row {
    r.(owner := None, expires := None)
  }

  function Closed(r: Row, nextRun: Option<int>, state: Option<TaskState>): Row {
    Unleased(r).(nextRun := nextRun, state := if state.Some? then state.value else r.state)
  }

  function CanceledRow(r: Row): Row {
    Closed(r, None, Some(Canceled))
  }

  function Replayed(r: Row, now: int): Row {
    Closed(r, Some(now), Some(Active)).(runCount := 0, key := None)
  }

  function Persisted(r: Row, now: int): Row {
    r.(runCount := r.runCount + 1, lastRun := Some(now))
  }

  predicate KeySeen(r: Row, key: string) {
    r.key == Some(key) && r.lastRun.Some?
  }

  function Reaped(rows: Table, now: int): Table {
    map t | t in rows :: if Orphaned(rows[t], now) then Unleased(rows[t]) else rows[t]
  }

  /** payload.get("idempotency_key") or task.idempotency_key, with "" read as absent. */
  function EffectiveKey(r: Row): Option<string> {
    if r.payloadKey.Some? && r.payloadKey.value != "" then r.payloadKey
    else if r.key.Some? && r.key.value != "" then r.key
    else None
  }

  // ---- what a finished run does to its row ----

  datatype Settlement = Settlement(nextRun: Option<int>, state: Option<TaskState>)

  /** The retry decision taken by both _complete_failed_run and _execute_task. */
  function SettleFailure(runCount: int, maxRetries: int, now: int, policy: Policy): Settlement {
    var attempts := Max(runCount, 1);
    if attempts <= maxRetries then Settlement(Some(now + Delay(attempts, policy)), None)
    else Settlement(None, Some(Failed))
  }

  function Settle(failed: bool, runCount: int, maxRetries: int, now: int, policy: Policy, next: Option<int>): Settlement {
    if failed then SettleFailure(runCount, maxRetries, now, policy) else Settlement(next, None)
  }

  /** By columns: only row id changes, and only if owner holds it; the lease goes, the next run is set,
      and the state, if one is given. */
  predicate ClosedBy(before: Table, after: Table, id: string, owner: string, nextRun: Option<int>, state: Option<TaskState>) {
    if id in before && before[id].owner == Some(owner) then
      var r := before[id].(owner := None, expires := None, nextRun := nextRun);
      after == before[id := if state.Some? then r.(state := state.value) else r]
    else after == before
  }

  /** complete_lease on a table. */
  function CompletedTable(rows: Table, id: string, owner: string, s: Settlement): Table {
    if id in rows && Owned(rows[id], owner) then rows[id := Closed(rows[id], s.nextRun, s.state)] else rows
  }

  /** release_lease on a table. */
  function ReleasedTable(rows: Table, id: string, owner: string): Table {
    if id in rows && Owned(rows[id], owner) then rows[id := Unleased(rows[id])] else rows
  }

  // ---- candidate selection ----

  function DueIds(rows: Table, now: int): set<string> {
    set t | t in rows && Due(rows[t], now)
  }

  function RunAt(rows: Table, id: string): int {
    if id in rows && rows[id].nextRun.Some? then rows[id].nextRun.value else 0
  }

  ghost predicate Distinct(ids: seq<string>) {
    forall i, j :: 0 <= i < j < |ids| ==> ids[i] != ids[j]
  }

  lemma {:induction false} DistinctSize(ids: seq<string>)
    requires Distinct(ids)
    ensures |set id | id in ids| == |ids|
  {
    if ids != [] {
      var front, last := ids[..|ids| - 1], ids[|ids| - 1];
      DistinctSize(front);
      assert (set id | id in ids) == (set id | id in front) + {last};
      assert last !in front;
    }
  }

  /** ORDER BY next_run ASC LIMIT limit over the due rows. */
  ghost predicate IsSelection(rows: Table, now: int, limit: nat, ids: seq<string>) {
    && Distinct(ids)
    && (forall id :: id in ids ==> id in DueIds(rows, now))
    && |ids| == (if limit < |DueIds(rows, now)| then limit else |DueIds(rows, now)|)
    && (forall i, j :: 0 <= i < j < |ids| ==> RunAt(rows, ids[i]) <= RunAt(rows, ids[j]))
    && (forall i, other :: 0 <= i < |ids| && other in DueIds(rows, now) && other !in ids
          ==> RunAt(rows, ids[i]) <= RunAt(rows, other))
  }

  predicate IsEarliest(rows: Table, ids: set<string>, id: string) {
    id in ids && forall other :: other in ids ==> RunAt(rows, id) <= RunAt(rows, other)
  }

  /** The selection so far and the due rows not yet selected. */
  ghost predicate Selecting(rows: Table, now: int, ids: seq<string>, rest: set<string>) {
    && Distinct(ids)
    && (forall id :: id in ids ==> id in DueIds(rows, now) && id !in rest)
    && (forall id :: id in DueIds(rows, now) ==> id in ids || id in rest)
    && rest <= DueIds(rows, now)
    && |ids| + |rest| == |DueIds(rows, now)|
    && (forall i, j :: 0 <= i < j < |ids| ==> RunAt(rows, ids[i]) <= RunAt(rows, ids[j]))
    && (forall i, other :: 0 <= i < |ids| && other in rest ==> RunAt(rows, ids[i]) <= RunAt(rows, other))
  }

  lemma SelectingStep(rows: Table, now: int, ids: seq<string>, rest: set<string>, id: string)
    requires Selecting(rows, now, ids, rest) && IsEarliest(rows, rest, id)
    ensures Selecting(rows, now, ids + [id], rest - {id})
  {
  }

  /** What other nodes do to the table between the n-th await and the next. */
  type Others = nat -> Table -> Table

  /** One lease and its read-back: the table, and whether the row came back. */
  function ClaimedOne(rows: Table, id: string, owner: string, ttl: int, now: int, before: Table -> Table, after: Table -> Table): (Table, bool) {
    var found := before(rows);
    if id in found && Leasable(found[id], owner, now) then
      var left := after(found[id := Leased(found[id], owner, now + ttl)]);
      (left, id in left)
    else (found, false)
  }

  /** The table and the ids claimed, from the i-th candidate on. */
  function ClaimedFrom(rows: Table, candidates: seq<string>, i: nat, owner: string, ttl: int, clock: nat -> int, others: Others): (Table, seq<string>)
    requires i <= |candidates|
    decreases |candidates| - i
  {
    if i == |candidates| then (rows, [])
    else
      var (left, won) := ClaimedOne(rows, candidates[i], owner, ttl, clock(i), others(2 * i), others(2 * i + 1));
      var (rest, more) := ClaimedFrom(left, candidates, i + 1, owner, ttl, clock, others);
      (rest, if won then [candidates[i]] + more else more)
  }

  lemma ClaimedNext(
    rows: Table, candidates: seq<string>, i: nat, owner: string, ttl: int, clock: nat -> int, others: Others, claimed: seq<string>)
    requires i < |candidates|
    ensures var (left, won) := ClaimedOne(rows, candidates[i], owner, ttl, clock(i), others(2 * i), others(2 * i + 1));
      var now, next := ClaimedFrom(rows, candidates, i, owner, ttl, clock, others), ClaimedFrom(left, candidates, i + 1, owner, ttl, clock, others);
      now.0 == next.0 && claimed + now.1 == (if won then claimed + [candidates[i]] else claimed) + next.1
  {
  }

  /** Whatever the other nodes do, a node claims each candidate at most once and nothing else. */
  lemma {:induction false} ClaimedAreCandidates(
    rows: Table, candidates: seq<string>, i: nat, owner: string, ttl: int, clock: nat -> int, others: Others)
    requires i <= |candidates| && Distinct(candidates)
    ensures var claimed := ClaimedFrom(rows, candidates, i, owner, ttl, clock, others).1;
      && Distinct(claimed) && |claimed| <= |candidates| - i
      && forall id :: id in claimed ==> id in candidates[i..]
    decreases |candidates| - i
  {
    if i < |candidates| {
      var (left, won) := ClaimedOne(rows, candidates[i], owner, ttl, clock(i), others(2 * i), others(2 * i + 1));
      ClaimedAreCandidates(left, candidates, i + 1, owner, ttl, clock, others);
      assert candidates[i..] == [candidates[i]] + candidates[i + 1..];
      assert candidates[i] !in candidates[i + 1..];
    }
  }

  /** No other node touches the table. */
  function Nobody(): Others {
    n => rows => rows
  }

  /** Alone at the table and with a clock that does not go back, it wins every candidate, in order, and
      changes nothing else. */
  lemma {:induction false} AloneClaimsAll(
    rows: Table, selectedAt: int, candidates: seq<string>, i: nat, owner: string, ttl: int, clock: nat -> int)
    requires i <= |candidates| && Distinct(candidates)
    requires forall k :: i <= k < |candidates| ==> DueAt(rows, candidates[k], selectedAt) && selectedAt <= clock(k)
    ensures var (after, claimed) := ClaimedFrom(rows, candidates, i, owner, ttl, clock, Nobody());
      && claimed == candidates[i..] && after.Keys == rows.Keys
      && (forall k :: i <= k < |candidates| ==> LeasedIn(after, rows, candidates[k], owner, clock(k) + ttl))
      && (forall t :: t in rows && t !in candidates[i..] ==> after[t] == rows[t])
    decreases |candidates| - i
  {
    if i < |candidates| {
      var id := candidates[i];
      var leased := rows[id := Leased(rows[id], owner, clock(i) + ttl)];
      assert candidates[i..] == [id] + candidates[i + 1..];
      assert id !in candidates[i + 1..];
      assert DueAt(rows, id, selectedAt);
      assert ClaimedOne(rows, id, owner, ttl, clock(i), Nobody()(2 * i), Nobody()(2 * i + 1)) == (leased, true);
      forall k | i + 1 <= k < |candidates| ensures DueAt(leased, candidates[k], selectedAt) {
        assert DueAt(rows, candidates[k], selectedAt);
      }
      AloneClaimsAll(leased, selectedAt, candidates, i + 1, owner, ttl, clock);
      var after := ClaimedFrom(leased, candidates, i + 1, owner, ttl, clock, Nobody()).0;
      forall k | i <= k < |candidates| ensures LeasedIn(after, rows, candidates[k], owner, clock(k) + ttl) {
        assert DueAt(rows, candidates[k], selectedAt);
        assert k > i ==> LeasedIn(after, leased, candidates[k], owner, clock(k) + ttl);
      }
    }
  }

  predicate LeasedIn(after: Table, before: Table, id: string, owner: string, expires: int) {
    id in before && id in after && after[id] == Leased(before[id], owner, expires)
  }

  predicate DueAt(rows: Table, id: string, now: int) {
    id in rows && Due(rows[id], now)
  }

  class TaskStore {
    var rows: Table

    constructor ()
      ensures rows == map[]
    {
      rows := map[];
    }

    method Create(id: string, maxRetries: int, key: Option<string>, payloadKey: Option<string>, nextRun: Option<int>)
      requires id !in rows
      modifies this
      ensures rows == old(rows)[id := Row(Active, nextRun, None, None, 0, maxRetries, None, key, payloadKey)]
    {
      rows := rows[id := Row(Active, nextRun, None, None, 0, maxRetries, None, key, payloadKey)];
    }

    method Get(id: string) returns (row: Option<Row>)
      ensures row == if id in rows then Some(rows[id]) else None
    {
      row := if id in rows then Some(rows[id]) else None;
    }

    /** Running workers lose the row at once: see LeaseCancel for what that means for them. */
    method Cancel(id: string) returns (ok: bool)
      modifies this
      ensures ok == (id in old(rows))
      ensures rows == if ok then old(rows)[id := CanceledRow(old(rows)[id])] else old(rows)
    {
      ok := id in rows;
      if ok {
        rows := rows[id := CanceledRow(rows[id])];
      }
    }

    method AcquireLease(id: string, owner: string, ttl: int, now: int) returns (ok: bool)
      modifies this
      ensures ok == (id in old(rows) && Leasable(old(rows)[id], owner, now))
      ensures rows == if ok then old(rows)[id := Leased(old(rows)[id], owner, now + ttl)] else old(rows)
    {
      ok := id in rows && Leasable(rows[id], owner, now);
      if ok {
        rows := rows[id := Leased(rows[id], owner, now + ttl)];
      }
    }

    method ExtendLease(id: string, owner: string, ttl: int, now: int) returns (ok: bool)
      modifies this
      ensures ok == (id in old(rows) && Extendable(old(rows)[id], owner))
      ensures rows == if ok then old(rows)[id := old(rows)[id].(expires := Some(now + ttl))] else old(rows)
    {
      ok := id in rows && Extendable(rows[id], owner);
      if ok {
        rows := rows[id := rows[id].(expires := Some(now + ttl))];
      }
    }

    method ReleaseLease(id: string, owner: string) returns (ok: bool)
      modifies this
      ensures ok == (id in old(rows) && Owned(old(rows)[id], owner))
      ensures rows == ReleasedTable(old(rows), id, owner)
    {
      ok := id in rows && Owned(rows[id], owner);
      if ok {
        rows := rows[id := Unleased(rows[id])];
      }
    }

    method CompleteLease(id: string, owner: string, nextRun: Option<int>, state: Option<TaskState>) returns (ok: bool)
      modifies this
      ensures ok == (id in old(rows) && Owned(old(rows)[id], owner))
      ensures rows == CompletedTable(old(rows), id, owner, Settlement(nextRun, state))
    {
      ok := id in rows && Owned(rows[id], owner);
      if ok {
        rows := rows[id := Closed(rows[id], nextRun, state)];
      }
    }

    method ReapOrphanedLeases(now: int) returns (released: nat)
      modifies this
      ensures rows == Reaped(old(rows), now)
      ensures released == |set t | t in old(rows) && Orphaned(old(rows)[t], now)|
      ensures forall t :: t in rows ==> !Orphaned(rows[t], now)
    {
      released := |set t | t in rows && Orphaned(rows[t], now)|;
      rows := Reaped(rows, now);
    }

    method ReplayFailed(id: string, now: int) returns (ok: bool)
      modifies this
      ensures ok == (id in old(rows) && old(rows)[id].state == Failed)
      ensures rows == if ok then old(rows)[id := Replayed(old(rows)[id], now)] else old(rows)
      ensures ok ==> rows[id].state == Active && rows[id].nextRun == Some(now) && rows[id].owner == None && rows[id].expires == None
      ensures ok ==> rows[id].runCount == 0 && rows[id].key == None
    {
      ok := id in rows && rows[id].state == Failed;
      if ok {
        rows := rows[id := Replayed(rows[id], now)];
      }
    }

    /** True when the run may proceed; the key is then stored on the row, if there is one. */
    method CheckIdempotency(id: string, key: string) returns (proceed: bool)
      modifies this
      ensures proceed == !(id in old(rows) && KeySeen(old(rows)[id], key))
      ensures rows == if proceed && id in old(rows) then old(rows)[id := old(rows)[id].(key := Some(key))] else old(rows)
    {
      proceed := !(id in rows && KeySeen(rows[id], key));
      if proceed && id in rows {
        rows := rows[id := rows[id].(key := Some(key))];
      }
    }

    /** The due rows in next_run order, cut at limit. */
    method SelectDue(limit: nat, now: int) returns (ids: seq<string>)
      ensures IsSelection(rows, now, limit, ids)
    {
      ids := [];
      var rest := DueIds(rows, now);
      while |ids| < limit && rest != {}
        invariant |ids| <= limit && Selecting(rows, now, ids, rest)
        decreases |rest|
      {
        EarliestExists(rows, rest);
        var id :| IsEarliest(rows, rest, id);
        SelectingStep(rows, now, ids, rest, id);
        ids, rest := ids + [id], rest - {id};
      }
    }

    /** Claims up to limit due rows for owner. Other nodes may change the table before each lease and
        before each row is read back, and the clock is read anew for each lease. */
    method ClaimDueTasks(owner: string, limit: nat, ttl: int, selectedAt: int, clock: nat -> int, others: Others)
      returns (claimed: seq<string>, ghost candidates: seq<string>)
      modifies this
      ensures IsSelection(old(rows), selectedAt, limit, candidates)
      ensures (rows, claimed) == ClaimedFrom(old(rows), candidates, 0, owner, ttl, clock, others)
    {
      var selected := SelectDue(limit, selectedAt);
      candidates := selected;
      claimed := ClaimAll(selected, owner, ttl, clock, others);
    }

    /** The loop over the candidates. */
    method ClaimAll(candidates: seq<string>, owner: string, ttl: int, clock: nat -> int, others: Others) returns (claimed: seq<string>)
      modifies this
      ensures (rows, claimed) == ClaimedFrom(old(rows), candidates, 0, owner, ttl, clock, others)
    {
      claimed := [];
      ghost var all := ClaimedFrom(rows, candidates, 0, owner, ttl, clock, others);
      assert claimed + all.1 == all.1;
      for i := 0 to |candidates|
        invariant ClaimedFrom(rows, candidates, i, owner, ttl, clock, others).0 == all.0
        invariant claimed + ClaimedFrom(rows, candidates, i, owner, ttl, clock, others).1 == all.1
      {
        ClaimedNext(rows, candidates, i, owner, ttl, clock, others, claimed);
        var won := ClaimOne(candidates[i], owner, ttl, clock(i), others(2 * i), others(2 * i + 1));
        if won {
          claimed := claimed + [candidates[i]];
        }
      }
      assert claimed + [] == claimed;
    }

    method ClaimOne(id: string, owner: string, ttl: int, now: int, before: Table -> Table, after: Table -> Table) returns (won: bool)
      modifies this
      ensures (rows, won) == ClaimedOne(old(rows), id, owner, ttl, now, before, after)
    {
      rows := before(rows);
      var ok := AcquireLease(id, owner, ttl, now);
      if !ok {
        return false;
      }
      rows := after(rows);
      var row := Get(id);
      won := row.Some?;
    }
  }

  lemma {:induction false} EarliestExists(rows: Table, ids: set<string>)
    requires ids != {}
    ensures exists id :: IsEarliest(rows, ids, id)
    decreases |ids|
  {
    var x :| x in ids;
    if ids == {x} {
      assert IsEarliest(rows, ids, x);
    } else {
      EarliestExists(rows, ids - {x});
      var y :| IsEarliest(rows, ids - {x}, y);
      assert IsEarliest(rows, ids, if RunAt(rows, x) < RunAt(rows, y) then x else y);
    }
  }
}
