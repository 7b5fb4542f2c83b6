/** Approval requests and their store (cognix/local/approvals.py). */
module Approvals {
  import opened Wrappers
  import opened Messages

  /** What a gated conversation needs to go on: context, calls still to run, user message. */
  datatype Snapshot = Snapshot(messages: seq<Message>, remaining: seq<ToolCall>, message: string)

  datatype Status = Pending | Approved | Rejected | Completed

  datatype Approval = Approval(
    id: nat,
    agentId: string,
    tool: string,
    args: string,
    level: string,
    status: Status,
    result: string,
    snapshot: Option<Snapshot>)

  function Find(rows: seq<Approval>, id: nat): (r: Option<Approval>)
    ensures r.Some? <==> exists i :: 0 <= i < |rows| && rows[i].id == id
    ensures r.Some? ==> r.value in rows && r.value.id == id
  {
    if rows == [] then None
    else if rows[0].id == id then Some(rows[0])
    else
      assert forall i :: 0 < i < |rows| ==> rows[i] == rows[1..][i - 1];
      Find(rows[1..], id)
  }

  function Resolved(a: Approval, status: Status, result: string): Approval {
    a.(status := status, result := if result != "" then result else a.result)
  }

  function SetStatus(rows: seq<Approval>, id: nat, status: Status, result: string): (r: seq<Approval>)
    ensures |r| == |rows|
  {
    seq(|rows|, i requires 0 <= i < |rows| => if rows[i].id == id then Resolved(rows[i], status, result) else rows[i])
  }

  /** approve leaves a request that is already resolved as it is. */
  function ApproveRows(rows: seq<Approval>, id: nat): seq<Approval> {
    var existing := Find(rows, id);
    if existing.Some? && existing.value.status != Pending then rows else SetStatus(rows, id, Approved, "")
  }

  function RejectRows(rows: seq<Approval>, id: nat): seq<Approval> {
    SetStatus(rows, id, Rejected, "")
  }

  function SaveSnapshot(rows: seq<Approval>, id: nat, snapshot: Snapshot): (r: seq<Approval>)
    ensures |r| == |rows|
  {
    seq(|rows|, i requires 0 <= i < |rows| => if rows[i].id == id then rows[i].(snapshot := Some(snapshot)) else rows[i])
  }

  lemma {:induction false} FindSetStatus(rows: seq<Approval>, id: nat, status: Status, result: string, other: nat)
    ensures Find(SetStatus(rows, id, status, result), other) ==
      (match Find(rows, other)
       case None => None
       case Some(a) => Some(if other == id then Resolved(a, status, result) else a))
  {
    if rows != [] {
      assert SetStatus(rows, id, status, result)[1..] == SetStatus(rows[1..], id, status, result);
      FindSetStatus(rows[1..], id, status, result, other);
    }
  }

  lemma {:induction false} FindSaveSnapshot(rows: seq<Approval>, id: nat, snapshot: Snapshot, other: nat)
    ensures Find(SaveSnapshot(rows, id, snapshot), other) ==
      (match Find(rows, other)
       case None => None
       case Some(a) => Some(if other == id then a.(snapshot := Some(snapshot)) else a))
  {
    if rows != [] {
      assert SaveSnapshot(rows, id, snapshot)[1..] == SaveSnapshot(rows[1..], id, snapshot);
      FindSaveSnapshot(rows[1..], id, snapshot, other);
    }
  }

  lemma {:induction false} FindAppend(rows: seq<Approval>, a: Approval, other: nat)
    ensures Find(rows + [a], other) ==
      if Find(rows, other).Some? then Find(rows, other) else if a.id == other then Some(a) else None
  {
    if rows != [] {
      assert (rows + [a])[1..] == rows[1..] + [a];
      FindAppend(rows[1..], a, other);
    } else {
      assert rows + [a] == [a];
    }
  }

  /** The store file: every call loads the list, rebuilds it and writes it back. */
  class ApprovalStore {
    var rows: seq<Approval>

    constructor ()
      ensures rows == []
    {
      rows := [];
    }

    method Create(request: Approval)
      modifies this
      ensures rows == old(rows) + [request.(status := Pending)]
    {
      rows := rows + [request.(status := Pending)];
    }

    method Get(id: nat) returns (found: Option<Approval>)
      ensures found == Find(rows, id)
    {
      for i := 0 to |rows|
        invariant Find(rows[i..], id) == Find(rows, id)
      {
        if rows[i].id == id {
          return Some(rows[i]);
        }
        assert rows[i..][1..] == rows[i + 1..];
      }
      found := None;
    }

    method WriteStatus(id: nat, status: Status, result: string) returns (updated: Option<Approval>)
      modifies this
      ensures rows == SetStatus(old(rows), id, status, result)
      ensures updated.Some? <==> Find(old(rows), id).Some?
    {
      var next: seq<Approval> := [];
      updated := None;
      for i := 0 to |rows|
        invariant next == SetStatus(rows, id, status, result)[..i]
        invariant updated.Some? <==> exists j :: 0 <= j < i && rows[j].id == id
      {
        if rows[i].id == id {
          updated := Some(Resolved(rows[i], status, result));
          next := next + [updated.value];
        } else {
          next := next + [rows[i]];
        }
      }
      rows := next;
    }

    method Approve(id: nat)
      modifies this
      ensures rows == ApproveRows(old(rows), id)
    {
      var existing := Get(id);
      if existing.Some? && existing.value.status != Pending {
        return;
      }
      var _ := WriteStatus(id, Approved, "");
    }

    method Reject(id: nat)
      modifies this
      ensures rows == RejectRows(old(rows), id)
    {
      var _ := WriteStatus(id, Rejected, "");
    }

    method Complete(id: nat, result: string)
      modifies this
      ensures rows == SetStatus(old(rows), id, Completed, result)
    {
      var _ := WriteStatus(id, Completed, result);
    }

    method UpdateMetadata(id: nat, snapshot: Snapshot)
      modifies this
      ensures rows == SaveSnapshot(old(rows), id, snapshot)
    {
      var next: seq<Approval> := [];
      for i := 0 to |rows|
        invariant next == SaveSnapshot(rows, id, snapshot)[..i]
      {
        next := next + [if rows[i].id == id then rows[i].(snapshot := Some(snapshot)) else rows[i]];
      }
      rows := next;
    }
  }
}
