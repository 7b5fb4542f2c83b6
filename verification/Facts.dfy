/** The superseding fact store (cognix/memory/facts.py). */
module Facts {
  import opened Wrappers
  import Text

  datatype Status = Active | Superseded

  datatype Fact = Fact(
    id: string,
    workspace: Option<string>,
    entityType: string,
    entityId: string,
    key: string,
    value: string,
    status: Status,
    confidence: real,
    sourceRef: string,
    supersedes: string)

  /** The columns that _active_for_key compares: a missing workspace counts as "", and an empty
      entity id as "default". */
  datatype Key = Key(workspace: string, entityType: string, entityId: string, key: string)

  function EntityId(entityId: string): string {
    if entityId == "" then "default" else entityId
  }

  function KeyFor(workspace: Option<string>, entityType: string, entityId: string, key: string): Key {
    Key(if workspace.Some? then workspace.value else "", entityType, EntityId(entityId), key)
  }

  function KeyOf(f: Fact): Key {
    Key(if f.workspace.Some? then f.workspace.value else "", f.entityType, f.entityId, f.key)
  }

  predicate IsActive(f: Fact, k: Key) {
    f.status == Active && KeyOf(f) == k
  }

  /** Index of the active row for the key, the last one inserted if there were several. */
  function ActiveIndex(rows: seq<Fact>, k: Key): (i: Option<nat>)
    ensures i.Some? ==> i.value < |rows| && IsActive(rows[i.value], k)
    ensures i.None? ==> forall j :: 0 <= j < |rows| ==> !IsActive(rows[j], k)
  {
    if rows == [] then None
    else if IsActive(rows[|rows| - 1], k) then Some(|rows| - 1)
    else ActiveIndex(rows[..|rows| - 1], k)
  }

  /** The active fact of a key. */
  function Standing(rows: seq<Fact>, k: Key): Option<Fact> {
    var i := ActiveIndex(rows, k);
    if i.Some? then Some(rows[i.value]) else None
  }

  datatype Request = Request(
    workspace: Option<string>,
    entityType: string,
    entityId: string,
    key: string,
    value: string,
    confidence: real,
    sourceRef: string)

  function RequestKey(r: Request): Key {
    KeyFor(r.workspace, r.entityType, r.entityId, r.key)
  }

  function MaxReal(a: real, b: real): real {
    if a < b then b else a
  }

  function Inserted(r: Request, value: string, id: string, supersedes: string): Fact {
    Fact(id, r.workspace, r.entityType, EntityId(r.entityId), r.key, value, Active, r.confidence, r.sourceRef, supersedes)
  }

  function Confirmed(f: Fact, r: Request): Fact {
    f.(confidence := MaxReal(f.confidence, r.confidence), sourceRef := if r.sourceRef != "" then r.sourceRef else f.sourceRef)
  }

  /** The rows after upsert; newId is the uuid drawn for an insertion. A blank value raises. */
  function Upserted(rows: seq<Fact>, r: Request, newId: string): Result<seq<Fact>, string> {
    var value := Text.Strip(r.value);
    if value == "" then Failure("Atomic fact value cannot be empty")
    else
      var existing := ActiveIndex(rows, RequestKey(r));
      if existing.None? then Success(rows + [Inserted(r, value, newId, "")])
      else Success(Replaced(rows, existing.value, r, value, newId))
  }

  function Replaced(rows: seq<Fact>, i: nat, r: Request, value: string, newId: string): seq<Fact>
    requires i < |rows|
  {
    var f := rows[i];
    if f.value == value then rows[i := Confirmed(f, r)]
    else rows[i := f.(status := Superseded)] + [Inserted(r, value, newId, f.id)]
  }

  /** The fact that stands after an upsert: a standing one with the same value keeps its id and has the
      higher confidence of both and the newer source, if there is one; otherwise it is new. */
  predicate Stands(fact: Fact, r: Request, before: Option<Fact>) {
    if before.Some? && before.value.value == fact.value then
      && fact.id == before.value.id
      && fact.confidence == (if before.value.confidence < r.confidence then r.confidence else before.value.confidence)
      && fact.sourceRef == (if r.sourceRef == "" then before.value.sourceRef else r.sourceRef)
    else
      && fact.confidence == r.confidence && fact.sourceRef == r.sourceRef
      && fact.supersedes == if before.Some? then before.value.id else ""
  }

  /** A request for no entity is one for "default", and one for no workspace reads and replaces what "" has. */
  lemma KeysAreNormalized(rows: seq<Fact>, r: Request, newId: string)
    ensures Upserted(rows, r.(entityId := ""), newId) == Upserted(rows, r.(entityId := "default"), newId)
    ensures RequestKey(r.(workspace := None)) == RequestKey(r.(workspace := Some("")))
  {
  }

  class AtomicFactStore {
    var rows: seq<Fact>

    constructor ()
      ensures rows == []
    {
      rows := [];
    }

    method Upsert(r: Request, newId: string) returns (result: Result<Fact, string>)
      modifies this
      ensures match Upserted(old(rows), r, newId)
              case Failure(error) => result == Failure(error) && rows == old(rows)
              case Success(after) =>
                && rows == after && result.Success?
                && result.value in rows && IsActive(result.value, RequestKey(r)) && result.value.value == Text.Strip(r.value)
                && Stands(result.value, r, Standing(old(rows), RequestKey(r)))
    {
      var value := Text.Strip(r.value);
      if value == "" {
        return Failure("Atomic fact value cannot be empty");
      }
      var existing := ActiveIndex(rows, RequestKey(r));
      var fact;
      if existing.Some? {
        fact := Replace(existing.value, r, value, newId);
      } else {
        fact := Inserted(r, value, newId, "");
        rows := rows + [fact];
        assert rows[|rows| - 1] == fact;
      }
      result := Success(fact);
    }

    method Replace(i: nat, r: Request, value: string, newId: string) returns (fact: Fact)
      requires i < |rows| && IsActive(rows[i], RequestKey(r))
      modifies this
      ensures rows == Replaced(old(rows), i, r, value, newId)
      ensures fact in rows && IsActive(fact, RequestKey(r)) && fact.value == value && Stands(fact, r, Some(old(rows)[i]))
    {
      var existing := rows[i];
      if existing.value == value {
        fact := Confirmed(existing, r);
        rows := rows[i := fact];
        assert rows[i] == fact;
      } else {
        fact := Inserted(r, value, newId, existing.id);
        rows := rows[i := existing.(status := Superseded)] + [fact];
        assert rows[|rows| - 1] == fact;
      }
    }
  }

  // ---- what the rows represent ----

  /** The facts ever stored for a key, oldest first. */
  function Stored(rows: seq<Fact>, k: Key): (r: seq<Fact>)
    ensures forall f :: f in r ==> f in rows && KeyOf(f) == k
  {
    if rows == [] then []
    else
      var front, last := rows[..|rows| - 1], rows[|rows| - 1];
      Stored(front, k) + if KeyOf(last) == k then [last] else []
  }

  /** The plain map that the store stands for, read at one key. */
  function Lookup(rows: seq<Fact>, k: Key): Option<string> {
    var i := ActiveIndex(rows, k);
    if i.Some? then Some(rows[i.value].value) else None
  }

  /** One key's facts, oldest first: each supersedes the one before it and differs from it in
      value; only the newest is active. */
  predicate IsHistory(fs: seq<Fact>) {
    forall i :: 0 <= i < |fs| ==> Linked(fs, i)
  }

  predicate Linked(fs: seq<Fact>, i: nat)
    requires i < |fs|
  {
    && (fs[i].status == Active <==> i == |fs| - 1)
    && if i == 0 then fs[i].supersedes == ""
       else fs[i].supersedes == fs[i - 1].id && fs[i].value != fs[i - 1].value
  }

  ghost predicate UniqueIds(rows: seq<Fact>) {
    && (forall i, j :: 0 <= i < j < |rows| ==> rows[i].id != rows[j].id)
    && (forall i :: 0 <= i < |rows| ==> rows[i].id != "")
  }

  ghost predicate Sound(rows: seq<Fact>) {
    UniqueIds(rows) && forall k :: HistoryAt(rows, k)
  }

  predicate HistoryAt(rows: seq<Fact>, k: Key) {
    IsHistory(Stored(rows, k))
  }

  /** A uuid not drawn before. */
  ghost predicate FreshId(rows: seq<Fact>, id: string) {
    id != "" && forall i :: 0 <= i < |rows| ==> rows[i].id != id
  }

  lemma {:induction false} StoredAppend(rows: seq<Fact>, f: Fact, k: Key)
    ensures Stored(rows + [f], k) == Stored(rows, k) + if KeyOf(f) == k then [f] else []
  {
    assert (rows + [f])[..|rows|] == rows;
  }

  lemma {:induction false} StoredConcat(a: seq<Fact>, b: seq<Fact>, k: Key)
    ensures Stored(a + b, k) == Stored(a, k) + Stored(b, k)
    decreases |b|
  {
    if b == [] {
      assert a + b == a;
    } else {
      var front, last := b[..|b| - 1], b[|b| - 1];
      assert a + b == (a + front) + [last];
      StoredConcat(a, front, k);
      StoredAppend(a + front, last, k);
    }
  }

  lemma StoredSplit(rows: seq<Fact>, i: nat, k: Key)
    requires i < |rows|
    ensures Stored(rows, k) == Stored(rows[..i], k) + (if KeyOf(rows[i]) == k then [rows[i]] else []) + Stored(rows[i + 1..], k)
  {
    assert rows == (rows[..i] + [rows[i]]) + rows[i + 1..];
    StoredConcat(rows[..i] + [rows[i]], rows[i + 1..], k);
    StoredAppend(rows[..i], rows[i], k);
  }

  /** Changing the newest fact of a key in place changes the last of its history and no other. */
  lemma StoredUpdate(rows: seq<Fact>, i: nat, f: Fact, k: Key)
    requires i < |rows| && KeyOf(f) == KeyOf(rows[i])
    requires forall j :: i < j < |rows| ==> KeyOf(rows[j]) != KeyOf(rows[i])
    ensures KeyOf(f) != k ==> Stored(rows[i := f], k) == Stored(rows, k)
    ensures KeyOf(f) == k ==> |Stored(rows, k)| > 0 && Stored(rows, k)[|Stored(rows, k)| - 1] == rows[i]
    ensures KeyOf(f) == k ==> Stored(rows[i := f], k) == Stored(rows, k)[|Stored(rows, k)| - 1 := f]
  {
    StoredSplit(rows, i, k);
    StoredSplit(rows[i := f], i, k);
    assert rows[i := f][..i] == rows[..i] && rows[i := f][i + 1..] == rows[i + 1..];
    if KeyOf(f) == k {
      StoredNone(rows[i + 1..], k);
    }
  }

  lemma {:induction false} StoredNone(rows: seq<Fact>, k: Key)
    requires forall j :: 0 <= j < |rows| ==> KeyOf(rows[j]) != k
    ensures Stored(rows, k) == []
  {
    if rows != [] {
      StoredNone(rows[..|rows| - 1], k);
    }
  }

  lemma {:induction false} StoredHas(rows: seq<Fact>, j: nat)
    requires j < |rows|
    ensures rows[j] in Stored(rows, KeyOf(rows[j]))
    decreases |rows|
  {
    if j < |rows| - 1 {
      StoredHas(rows[..|rows| - 1], j);
    }
  }

  /** Two facts of one key keep their order in its history. */
  lemma {:induction false} LaterInStored(rows: seq<Fact>, i: nat, j: nat) returns (a: nat, b: nat)
    requires i < j < |rows| && KeyOf(rows[i]) == KeyOf(rows[j])
    ensures a < b < |Stored(rows, KeyOf(rows[i]))|
    ensures Stored(rows, KeyOf(rows[i]))[a] == rows[i] && Stored(rows, KeyOf(rows[i]))[b] == rows[j]
    decreases |rows|
  {
    var front, k := rows[..|rows| - 1], KeyOf(rows[i]);
    if j < |rows| - 1 {
      a, b := LaterInStored(front, i, j);
    } else {
      StoredHas(front, i);
      a :| 0 <= a < |Stored(front, k)| && Stored(front, k)[a] == rows[i];
      b := |Stored(front, k)|;
    }
  }

  lemma OlderIsInactive(rows: seq<Fact>, i: nat, j: nat)
    requires Sound(rows) && i < j < |rows| && KeyOf(rows[i]) == KeyOf(rows[j])
    ensures rows[i].status != Active
  {
    var a, b := LaterInStored(rows, i, j);
    assert HistoryAt(rows, KeyOf(rows[i]));
    assert Linked(Stored(rows, KeyOf(rows[i])), a);
  }

  /** In a sound store at most one fact of a key is active, and it is the newest. */
  lemma ActiveIsNewest(rows: seq<Fact>, i: nat)
    requires Sound(rows) && i < |rows| && rows[i].status == Active
    ensures forall j :: i < j < |rows| ==> KeyOf(rows[j]) != KeyOf(rows[i])
    ensures ActiveIndex(rows, KeyOf(rows[i])) == Some(i)
  {
    forall j | i < j < |rows| ensures KeyOf(rows[j]) != KeyOf(rows[i]) {
      if KeyOf(rows[j]) == KeyOf(rows[i]) {
        OlderIsInactive(rows, i, j);
      }
    }
    LastActive(rows, KeyOf(rows[i]), i);
  }

  lemma {:induction false} LastActive(rows: seq<Fact>, k: Key, i: nat)
    requires i < |rows| && IsActive(rows[i], k) && forall j :: i < j < |rows| ==> !IsActive(rows[j], k)
    ensures ActiveIndex(rows, k) == Some(i)
    decreases |rows|
  {
    if i < |rows| - 1 {
      LastActive(rows[..|rows| - 1], k, i);
    }
  }

  lemma HistoryHasActive(rows: seq<Fact>, k: Key)
    requires Sound(rows) && Stored(rows, k) != []
    ensures ActiveIndex(rows, k).Some?
  {
    var fs := Stored(rows, k);
    assert HistoryAt(rows, k);
    assert Linked(fs, |fs| - 1);
    var last := fs[|fs| - 1];
    assert last in rows && IsActive(last, k);
  }

  // ---- one upsert ----

  /** The facts already stored stay, with their ids, keys, values and links; confidence never drops. */
  ghost predicate Keeps(before: seq<Fact>, after: seq<Fact>) {
    && |before| <= |after|
    && forall i :: 0 <= i < |before| ==>
         && after[i].id == before[i].id && KeyOf(after[i]) == KeyOf(before[i])
         && after[i].value == before[i].value && after[i].supersedes == before[i].supersedes
         && after[i].confidence >= before[i].confidence
  }

  lemma UpsertKeeps(rows: seq<Fact>, r: Request, newId: string)
    requires Upserted(rows, r, newId).Success?
    ensures Keeps(rows, Upserted(rows, r, newId).value)
  {
    var existing := ActiveIndex(rows, RequestKey(r));
    if existing.Some? {
      ReplacedKeeps(rows, existing.value, r, Text.Strip(r.value), newId);
    }
  }

  lemma ReplacedKeeps(rows: seq<Fact>, i: nat, r: Request, value: string, newId: string)
    requires i < |rows|
    ensures Keeps(rows, Replaced(rows, i, r, value, newId))
  {
  }

  /** What an accepted upsert does to the history of its own key. */
  function Grown(fs: seq<Fact>, r: Request, value: string, newId: string): seq<Fact> {
    if fs == [] then [Inserted(r, value, newId, "")] else Replaced(fs, |fs| - 1, r, value, newId)
  }

  lemma GrownIsHistory(fs: seq<Fact>, r: Request, value: string, newId: string)
    requires IsHistory(fs)
    ensures IsHistory(Grown(fs, r, value, newId))
  {
    var grown, n := Grown(fs, r, value, newId), |fs| - 1;
    forall i | 0 <= i < |grown| ensures Linked(grown, i) {
      if i < |fs| {
        assert Linked(fs, i);
      }
    }
  }

  /** An upsert changes the history of its own key only. */
  lemma UpsertHistory(rows: seq<Fact>, r: Request, newId: string, k: Key)
    requires Sound(rows) && Upserted(rows, r, newId).Success?
    ensures Stored(Upserted(rows, r, newId).value, k)
         == if k == RequestKey(r) then Grown(Stored(rows, k), r, Text.Strip(r.value), newId) else Stored(rows, k)
  {
    var value, existing := Text.Strip(r.value), ActiveIndex(rows, RequestKey(r));
    if existing.None? {
      if Stored(rows, RequestKey(r)) != [] {
        HistoryHasActive(rows, RequestKey(r));
      }
      StoredAppend(rows, Inserted(r, value, newId, ""), k);
    } else {
      ActiveIsNewest(rows, existing.value);
      ReplacedHistory(rows, existing.value, r, value, newId, k);
    }
  }

  lemma ReplacedHistory(rows: seq<Fact>, i: nat, r: Request, value: string, newId: string, k: Key)
    requires i < |rows| && KeyOf(rows[i]) == RequestKey(r)
    requires forall j :: i < j < |rows| ==> KeyOf(rows[j]) != KeyOf(rows[i])
    ensures Stored(Replaced(rows, i, r, value, newId), k)
         == if k == RequestKey(r) then Grown(Stored(rows, k), r, value, newId) else Stored(rows, k)
  {
    var f := rows[i];
    if f.value == value {
      StoredUpdate(rows, i, Confirmed(f, r), k);
    } else {
      var closed := f.(status := Superseded);
      StoredUpdate(rows, i, closed, k);
      StoredAppend(rows[i := closed], Inserted(r, value, newId, f.id), k);
    }
  }

  /** An accepted upsert keeps the store sound. */
  lemma UpsertKeepsSound(rows: seq<Fact>, r: Request, newId: string)
    requires Sound(rows) && FreshId(rows, newId) && Upserted(rows, r, newId).Success?
    ensures Sound(Upserted(rows, r, newId).value)
  {
    var after := Upserted(rows, r, newId).value;
    UpsertIds(rows, r, newId);
    forall k ensures HistoryAt(after, k) {
      assert HistoryAt(rows, k);
      UpsertHistory(rows, r, newId, k);
      GrownIsHistory(Stored(rows, k), r, Text.Strip(r.value), newId);
    }
  }

  lemma UpsertIds(rows: seq<Fact>, r: Request, newId: string)
    requires Upserted(rows, r, newId).Success?
    ensures var after := Upserted(rows, r, newId).value;
      && |rows| <= |after| <= |rows| + 1
      && (forall i :: 0 <= i < |rows| ==> after[i].id == rows[i].id)
      && (|rows| < |after| ==> after[|rows|].id == newId)
  {
    UpsertKeeps(rows, r, newId);
  }

  /** An accepted upsert acts on the map as one assignment, and a refused one not at all. */
  lemma UpsertRefinesMap(rows: seq<Fact>, r: Request, newId: string, k: Key)
    requires Sound(rows) && FreshId(rows, newId)
    ensures Upserted(rows, r, newId).Success? <==> Text.Strip(r.value) != ""
    ensures Upserted(rows, r, newId).Success? ==>
      Lookup(Upserted(rows, r, newId).value, k) == if k == RequestKey(r) then Some(Text.Strip(r.value)) else Lookup(rows, k)
  {
    if Upserted(rows, r, newId).Success? {
      var after := Upserted(rows, r, newId).value;
      UpsertKeepsSound(rows, r, newId);
      UpsertHistory(rows, r, newId, k);
      LookupIsNewest(rows, k);
      LookupIsNewest(after, k);
      if k == RequestKey(r) {
        GrownNewest(Stored(rows, k), r, Text.Strip(r.value), newId);
      }
    }
  }

  lemma GrownNewest(fs: seq<Fact>, r: Request, value: string, newId: string)
    ensures Newest(Grown(fs, r, value, newId)) == Some(value)
  {
  }

  lemma LookupIsNewest(rows: seq<Fact>, k: Key)
    requires Sound(rows)
    ensures Lookup(rows, k) == Newest(Stored(rows, k))
  {
    var i := ActiveIndex(rows, k);
    if i.None? {
      if Stored(rows, k) != [] {
        HistoryHasActive(rows, k);
      }
    } else {
      ActiveIsNewest(rows, i.value);
      StoredUpdate(rows, i.value, rows[i.value], k);
    }
  }

  function Newest(fs: seq<Fact>): Option<string> {
    if fs == [] then None else Some(fs[|fs| - 1].value)
  }

  // ---- following the links ----

  function FactById(rows: seq<Fact>, id: string): Option<Fact> {
    if rows == [] then None
    else if rows[0].id == id then Some(rows[0])
    else FactById(rows[1..], id)
  }

  /** The fact with this id and those reached through supersedes, in at most `fuel` links. */
  function Follow(rows: seq<Fact>, id: string, fuel: nat): seq<Fact>
    decreases fuel
  {
    if fuel == 0 then []
    else
      var f := FactById(rows, id);
      if f.None? then []
      else [f.value] + if f.value.supersedes == "" then [] else Follow(rows, f.value.supersedes, fuel - 1)
  }

  function Reversed(fs: seq<Fact>): seq<Fact> {
    if fs == [] then [] else [fs[|fs| - 1]] + Reversed(fs[..|fs| - 1])
  }

  lemma {:induction false} FactByIdIs(rows: seq<Fact>, i: nat)
    requires i < |rows| && forall j :: 0 <= j < i ==> rows[j].id != rows[i].id
    ensures FactById(rows, rows[i].id) == Some(rows[i])
  {
    if i > 0 {
      FactByIdIs(rows[1..], i - 1);
    }
  }

  /** fs is a history whose facts can be looked up by id. */
  ghost predicate Findable(rows: seq<Fact>, fs: seq<Fact>) {
    && IsHistory(fs)
    && forall f :: f in fs ==> f.id != "" && FactById(rows, f.id) == Some(f)
  }

  lemma StoredIsFindable(rows: seq<Fact>, k: Key)
    requires Sound(rows)
    ensures Findable(rows, Stored(rows, k))
  {
    assert HistoryAt(rows, k);
    forall f | f in Stored(rows, k) ensures f.id != "" && FactById(rows, f.id) == Some(f) {
      var i :| 0 <= i < |rows| && rows[i] == f;
      FactByIdIs(rows, i);
    }
  }

  lemma {:induction false} FollowBack(rows: seq<Fact>, fs: seq<Fact>, p: nat, fuel: nat)
    requires Findable(rows, fs) && p < |fs| && p < fuel
    ensures Follow(rows, fs[p].id, fuel) == Reversed(fs[..p + 1])
    decreases p
  {
    assert Linked(fs, p) && fs[p] in fs;
    assert fs[..p + 1][..p] == fs[..p];
    if p > 0 {
      assert fs[p - 1] in fs;
      FollowBack(rows, fs, p - 1, fuel - 1);
    }
  }

  lemma {:induction false} StoredFits(rows: seq<Fact>, k: Key)
    ensures |Stored(rows, k)| <= |rows|
  {
    if rows != [] {
      StoredFits(rows[..|rows| - 1], k);
    }
  }

  /** Following supersedes from the active fact visits every fact ever stored for the key exactly
      once, newest first. */
  lemma LinksVisitHistory(rows: seq<Fact>, k: Key)
    requires Sound(rows) && ActiveIndex(rows, k).Some?
    ensures Follow(rows, rows[ActiveIndex(rows, k).value].id, |rows|) == Reversed(Stored(rows, k))
  {
    var fs, i := HistoryOf(rows, k);
    LinksFrom(rows, fs, i);
  }

  /** The key's history, which ends with the active fact and whose facts can be looked up. */
  lemma HistoryOf(rows: seq<Fact>, k: Key) returns (fs: seq<Fact>, i: nat)
    requires Sound(rows) && ActiveIndex(rows, k).Some?
    ensures fs == Stored(rows, k) && i == ActiveIndex(rows, k).value
    ensures i < |rows| && Findable(rows, fs) && 0 < |fs| <= |rows| && fs[|fs| - 1] == rows[i]
  {
    fs, i := Stored(rows, k), ActiveIndex(rows, k).value;
    ActiveEndsHistory(rows, k);
    StoredIsFindable(rows, k);
    StoredFits(rows, k);
  }

  lemma LinksFrom(rows: seq<Fact>, fs: seq<Fact>, i: nat)
    requires i < |rows| && Findable(rows, fs) && 0 < |fs| <= |rows| && fs[|fs| - 1] == rows[i]
    ensures Follow(rows, rows[i].id, |rows|) == Reversed(fs)
  {
    FollowAll(rows, fs, |rows|);
  }

  /** The same, said without Reversed and Stored. */
  lemma LinksVisitEachOnce(rows: seq<Fact>, k: Key)
    requires Sound(rows) && ActiveIndex(rows, k).Some?
    ensures var visited := Follow(rows, rows[ActiveIndex(rows, k).value].id, |rows|);
      && (forall i :: 0 <= i < |rows| ==> (rows[i] in visited <==> KeyOf(rows[i]) == k))
      && (forall p, q :: 0 <= p < q < |visited| ==> visited[p].id != visited[q].id)
      && (forall p :: 0 <= p < |visited| ==> visited[p] in rows)
  {
    LinksVisitHistory(rows, k);
    StoredDistinct(rows, k);
    forall i | 0 <= i < |rows| && KeyOf(rows[i]) == k ensures rows[i] in Stored(rows, k) {
      StoredHas(rows, i);
    }
    ReversedVisits(Stored(rows, k));
  }

  lemma ReversedVisits(fs: seq<Fact>)
    ensures forall f :: f in Reversed(fs) <==> f in fs
    ensures (forall p, q :: 0 <= p < q < |fs| ==> fs[p].id != fs[q].id) ==>
      forall p, q :: 0 <= p < q < |Reversed(fs)| ==> Reversed(fs)[p].id != Reversed(fs)[q].id
  {
    ReversedAt(fs);
    forall f | f in fs ensures f in Reversed(fs) {
      var p :| 0 <= p < |fs| && fs[p] == f;
      assert Reversed(fs)[|fs| - 1 - p] == f;
    }
  }

  lemma {:induction false} ReversedAt(fs: seq<Fact>)
    ensures |Reversed(fs)| == |fs|
    ensures forall p :: 0 <= p < |fs| ==> Reversed(fs)[p] == fs[|fs| - 1 - p]
  {
    if fs != [] {
      ReversedAt(fs[..|fs| - 1]);
    }
  }

  lemma {:induction false} StoredDistinct(rows: seq<Fact>, k: Key)
    requires UniqueIds(rows)
    ensures forall p, q :: 0 <= p < q < |Stored(rows, k)| ==> Stored(rows, k)[p].id != Stored(rows, k)[q].id
  {
    if rows != [] {
      var front, last := rows[..|rows| - 1], rows[|rows| - 1];
      StoredDistinct(front, k);
      forall p | 0 <= p < |Stored(front, k)| ensures Stored(front, k)[p].id != last.id {
        assert Stored(front, k)[p] in front;
        var i :| 0 <= i < |front| && rows[i] == Stored(front, k)[p];
      }
    }
  }

  lemma FollowAll(rows: seq<Fact>, fs: seq<Fact>, fuel: nat)
    requires Findable(rows, fs) && 0 < |fs| <= fuel
    ensures Follow(rows, fs[|fs| - 1].id, fuel) == Reversed(fs)
  {
    FollowBack(rows, fs, |fs| - 1, fuel);
    assert fs[..|fs| - 1 + 1] == fs;
  }

  lemma ActiveEndsHistory(rows: seq<Fact>, k: Key)
    requires Sound(rows) && ActiveIndex(rows, k).Some?
    ensures Stored(rows, k) != [] && Stored(rows, k)[|Stored(rows, k)| - 1] == rows[ActiveIndex(rows, k).value]
  {
    var i := ActiveIndex(rows, k).value;
    ActiveIsNewest(rows, i);
    StoredUpdate(rows, i, rows[i], k);
  }

  // ---- every run ----

  /** The store after a sequence of upserts, each with the uuid it would draw. */
  function After(requests: seq<(Request, string)>): seq<Fact> {
    if requests == [] then []
    else
      AfterOne(After(requests[..|requests| - 1]), requests[|requests| - 1].0, requests[|requests| - 1].1)
  }

  /** A refused upsert leaves the store as it was. */
  function AfterOne(rows: seq<Fact>, r: Request, id: string): seq<Fact> {
    var result := Upserted(rows, r, id);
    if result.Success? then result.value else rows
  }

  /** The value of the last upsert for the key that was not blank. */
  function LastAccepted(requests: seq<(Request, string)>, k: Key): Option<string> {
    if requests == [] then None
    else
      var r := requests[|requests| - 1].0;
      if RequestKey(r) == k && Text.Strip(r.value) != "" then Some(Text.Strip(r.value))
      else LastAccepted(requests[..|requests| - 1], k)
  }

  ghost predicate FreshIds(requests: seq<(Request, string)>) {
    && (forall i :: 0 <= i < |requests| ==> requests[i].1 != "")
    && (forall i, j :: 0 <= i < j < |requests| ==> requests[i].1 != requests[j].1)
  }

  ghost predicate Drawn(requests: seq<(Request, string)>, id: string) {
    exists j :: 0 <= j < |requests| && requests[j].1 == id
  }

  lemma AfterOneIds(rows: seq<Fact>, r: Request, id: string, i: nat)
    requires i < |AfterOne(rows, r, id)|
    ensures AfterOne(rows, r, id)[i].id == if i < |rows| then rows[i].id else id
  {
    if Upserted(rows, r, id).Success? {
      UpsertIds(rows, r, id);
    }
  }

  lemma {:induction false} IdsAreDrawn(requests: seq<(Request, string)>, i: nat)
    requires i < |After(requests)|
    ensures Drawn(requests, After(requests)[i].id)
  {
    var front, last := requests[..|requests| - 1], requests[|requests| - 1];
    AfterOneIds(After(front), last.0, last.1, i);
    if i < |After(front)| {
      IdsAreDrawn(front, i);
      var j :| 0 <= j < |front| && front[j].1 == After(front)[i].id;
      assert requests[j].1 == After(front)[i].id;
    }
  }

  /** After any sequence of upserts the store is sound, and stands for the map that holds, for each
      key, the last accepted value. */
  lemma {:induction false} StoreRefinesMap(requests: seq<(Request, string)>)
    requires FreshIds(requests)
    ensures Sound(After(requests))
    ensures forall k :: Lookup(After(requests), k) == LastAccepted(requests, k)
  {
    if requests != [] {
      var front := requests[..|requests| - 1];
      var (r, id) := requests[|requests| - 1];
      StoreRefinesMap(front);
      forall i | 0 <= i < |After(front)| ensures After(front)[i].id != id {
        IdsAreDrawn(front, i);
      }
      assert FreshId(After(front), id);
      if Upserted(After(front), r, id).Success? {
        UpsertKeepsSound(After(front), r, id);
      }
      forall k ensures Lookup(After(requests), k) == LastAccepted(requests, k) {
        UpsertRefinesMap(After(front), r, id, k);
      }
    }
  }

  lemma AfterOneKeeps(rows: seq<Fact>, r: Request, id: string)
    ensures Keeps(rows, AfterOne(rows, r, id))
  {
    if Upserted(rows, r, id).Success? {
      UpsertKeeps(rows, r, id);
    }
  }

  lemma KeepsTransitive(a: seq<Fact>, b: seq<Fact>, c: seq<Fact>)
    requires Keeps(a, b) && Keeps(b, c)
    ensures Keeps(a, c)
  {
  }

  /** No later upsert loses a fact, rewrites its value or link, or lowers its confidence. */
  lemma {:induction false} FactsAreKept(requests: seq<(Request, string)>, n: nat)
    requires n <= |requests|
    ensures Keeps(After(requests[..n]), After(requests))
  {
    if n == |requests| {
      assert requests[..n] == requests;
    } else {
      var front, last := requests[..|requests| - 1], requests[|requests| - 1];
      assert front[..n] == requests[..n];
      FactsAreKept(front, n);
      AfterOneKeeps(After(front), last.0, last.1);
      KeepsTransitive(After(front[..n]), After(front), After(requests));
    }
  }
}
