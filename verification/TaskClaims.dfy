/** Which due tasks a node claims while other nodes do as they like, told by the columns of the rows
    (cognix/scheduler/store.py:110-184). */
module TaskClaims {
  import opened Wrappers
  import opened TaskTable

  /** The row is ACTIVE, and unowned, the owner's own or expired. */
  predicate Takeable(found: Table, id: string, owner: string, now: int) {
    && id in found && found[id].state == Active
    && (found[id].owner in {None, Some(owner)} || found[id].expires.None? || found[id].expires.value < now)
  }

  /** One pass over the candidates. */
  datatype Pass = Pass(rows: Table, candidates: seq<string>, owner: string, ttl: int, clock: nat -> int, others: Others)

  /** The table after the first k candidates: a row that may be taken gets owner and expiry, and the other
      nodes act before it is read back; otherwise nothing happens. */
  function TableAt(p: Pass, k: nat): Table
    requires k <= |p.candidates|
    decreases k, 0
  {
    if k == 0 then p.rows
    else
      var id, found, now := p.candidates[k - 1], FoundAt(p, k - 1), p.clock(k - 1);
      if Takeable(found, id, p.owner, now)
      then p.others(2 * k - 1)(found[id := found[id].(owner := Some(p.owner), expires := Some(now + p.ttl))])
      else found
  }

  /** The table as the other nodes left it before the lease of candidate k. */
  function FoundAt(p: Pass, k: nat): Table
    requires k < |p.candidates|
    decreases k, 1
  {
    p.others(2 * k)(TableAt(p, k))
  }

  /** Candidate k may be taken when its turn comes, and its row is still there afterwards. */
  predicate WonAt(p: Pass, k: nat)
    requires k < |p.candidates|
  {
    Takeable(FoundAt(p, k), p.candidates[k], p.owner, p.clock(k)) && p.candidates[k] in TableAt(p, k + 1)
  }

  /** What the method does from candidate i on. */
  function From(p: Pass, i: nat): (Table, seq<string>)
    requires i <= |p.candidates|
  {
    ClaimedFrom(TableAt(p, i), p.candidates, i, p.owner, p.ttl, p.clock, p.others)
  }

  lemma FromNext(p: Pass, i: nat, claimed: seq<string>)
    requires i < |p.candidates|
    ensures From(p, i).0 == From(p, i + 1).0
    ensures claimed + From(p, i).1 == (if WonAt(p, i) then claimed + [p.candidates[i]] else claimed) + From(p, i + 1).1
  {
    ClaimedNext(TableAt(p, i), p.candidates, i, p.owner, p.ttl, p.clock, p.others, claimed);
    OneByColumns(p, i);
  }

  lemma OneByColumns(p: Pass, i: nat)
    requires i < |p.candidates|
    ensures ClaimedOne(TableAt(p, i), p.candidates[i], p.owner, p.ttl, p.clock(i), p.others(2 * i), p.others(2 * i + 1))
         == (TableAt(p, i + 1), WonAt(p, i))
  {
    assert 2 * (i + 1) - 1 == 2 * i + 1;
  }

  /** The first n candidates that were won, in order. */
  function Winners(p: Pass, n: nat): seq<string>
    requires n <= |p.candidates|
  {
    if n == 0 then []
    else Winners(p, n - 1) + if WonAt(p, n - 1) then [p.candidates[n - 1]] else []
  }

  lemma {:induction false} WinnersAre(p: Pass, n: nat, k: nat)
    requires Distinct(p.candidates) && n <= |p.candidates| && k < |p.candidates|
    ensures p.candidates[k] in Winners(p, n) <==> k < n && WonAt(p, k)
  {
    if n > 0 {
      WinnersAre(p, n - 1, k);
      assert k != n - 1 ==> p.candidates[k] != p.candidates[n - 1];
    }
  }

  lemma {:induction false} WinnersSoFar(p: Pass, n: nat)
    requires n <= |p.candidates|
    ensures From(p, 0).0 == From(p, n).0 && From(p, 0).1 == Winners(p, n) + From(p, n).1
  {
    if n > 0 {
      WinnersSoFar(p, n - 1);
      FromNext(p, n - 1, Winners(p, n - 1));
      assert Winners(p, n - 1) + [] == Winners(p, n - 1);
    } else {
      assert [] + From(p, 0).1 == From(p, 0).1;
    }
  }

  /** Whatever the other nodes do: a candidate is claimed if and only if, as they left the table before its
      lease, its row is ACTIVE and unowned, the owner's own or expired at that time, and the row is still
      there when it is read back. Such a row gets the owner and the expiry; of anything else this node
      changes nothing. */
  lemma ClaimIsExact(p: Pass)
    requires Distinct(p.candidates)
    ensures var (after, claimed) := ClaimedFrom(p.rows, p.candidates, 0, p.owner, p.ttl, p.clock, p.others);
      && after == TableAt(p, |p.candidates|) && claimed == Winners(p, |p.candidates|)
      && forall k :: 0 <= k < |p.candidates| ==> (p.candidates[k] in claimed <==> WonAt(p, k))
  {
    var n := |p.candidates|;
    WinnersSoFar(p, n);
    assert From(p, n) == (TableAt(p, n), []);
    forall k | 0 <= k < n ensures p.candidates[k] in Winners(p, n) <==> WonAt(p, k) {
      WinnersAre(p, n, k);
    }
  }

  /** Another node holds a lease on the row that has not expired. */
  predicate HeldByOther(rows: Table, id: string, owner: string, now: int) {
    id in rows && rows[id].owner.Some? && rows[id].owner.value != owner && rows[id].expires.Some? && now <= rows[id].expires.value
  }

  /** A task that another node holds when its turn comes is not claimed, and its row stays as it is. */
  lemma HeldIsNotClaimed(p: Pass, k: nat)
    requires Distinct(p.candidates) && k < |p.candidates|
    requires HeldByOther(FoundAt(p, k), p.candidates[k], p.owner, p.clock(k))
    ensures p.candidates[k] !in ClaimedFrom(p.rows, p.candidates, 0, p.owner, p.ttl, p.clock, p.others).1
    ensures TableAt(p, k + 1) == FoundAt(p, k)
  {
    ClaimIsExact(p);
    WinnersAre(p, |p.candidates|, k);
  }

  /** The row is ACTIVE, its next run has come, and no unexpired lease is on it. */
  predicate Ready(rows: Table, id: string, now: int) {
    && id in rows && rows[id].state == Active
    && rows[id].nextRun.Some? && rows[id].nextRun.value <= now
    && (rows[id].owner.None? || rows[id].expires.None? || rows[id].expires.value < now)
  }

  /** Both have a next run, and a's comes no later. */
  predicate RunsNoLater(rows: Table, a: string, b: string) {
    && a in rows && b in rows && rows[a].nextRun.Some? && rows[b].nextRun.Some?
    && rows[a].nextRun.value <= rows[b].nextRun.value
  }

  lemma ReadyIsDue(rows: Table, id: string, now: int)
    ensures Ready(rows, id, now) <==> id in DueIds(rows, now)
  {
  }

  lemma DueInOrder(rows: Table, a: string, b: string, now: int)
    requires Ready(rows, a, now) && Ready(rows, b, now) && RunAt(rows, a) <= RunAt(rows, b)
    ensures RunsNoLater(rows, a, b)
  {
  }

  lemma PassedOver(rows: Table, now: int, limit: nat, ids: seq<string>, t: string)
    requires IsSelection(rows, now, limit, ids) && t in DueIds(rows, now) && t !in ids
    ensures |ids| == limit
  {
    var picked, rest := (set id | id in ids), DueIds(rows, now) - {t};
    DistinctSize(ids);
    assert rest == picked + (rest - picked);
  }

  /** What is selected is ready, in order of next run; a ready row is passed over only when the limit is
      reached, by rows that are due no later. */
  lemma SelectionByColumns(rows: Table, now: int, limit: nat, ids: seq<string>)
    requires IsSelection(rows, now, limit, ids)
    ensures |ids| <= limit && forall i :: 0 <= i < |ids| ==> Ready(rows, ids[i], now)
    ensures forall i, j :: 0 <= i < j < |ids| ==> RunsNoLater(rows, ids[i], ids[j])
    ensures forall t :: Ready(rows, t, now) && t !in ids ==>
      |ids| == limit && forall i :: 0 <= i < |ids| ==> RunsNoLater(rows, ids[i], t)
  {
    forall i | 0 <= i < |ids| ensures Ready(rows, ids[i], now) {
      assert ids[i] in ids;
      ReadyIsDue(rows, ids[i], now);
    }
    forall i, j | 0 <= i < j < |ids| ensures RunsNoLater(rows, ids[i], ids[j]) {
      DueInOrder(rows, ids[i], ids[j], now);
    }
    forall t | Ready(rows, t, now) && t !in ids
      ensures |ids| == limit && forall i :: 0 <= i < |ids| ==> RunsNoLater(rows, ids[i], t)
    {
      ReadyIsDue(rows, t, now);
      PassedOver(rows, now, limit, ids, t);
      forall i | 0 <= i < |ids| ensures RunsNoLater(rows, ids[i], t) {
        DueInOrder(rows, ids[i], t, now);
      }
    }
  }
}
