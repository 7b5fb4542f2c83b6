/** What the depth-first sort guarantees, on every list of steps. */
module PlanOrder {
  import opened PlanSort

  // ---- dependency paths ----

  /** Each id on the path is a step that lists the next one as a dependency. */
  ghost predicate IsPath(g: Graph, p: seq<string>) {
    |p| > 0 && forall i :: 0 <= i < |p| - 1 ==> p[i] in g && p[i + 1] in g[p[i]].deps
  }

  /** a depends on b, directly or not; every id reaches itself. */
  ghost predicate Reaches(g: Graph, a: string, b: string) {
    exists p :: IsPath(g, p) && p[0] == a && p[|p| - 1] == b
  }

  lemma ReachesSelf(g: Graph, a: string)
    ensures Reaches(g, a, a)
  {
    assert IsPath(g, [a]);
  }

  lemma ReachesNext(g: Graph, a: string, b: string, c: string)
    requires Reaches(g, a, b) && b in g && c in g[b].deps
    ensures Reaches(g, a, c)
  {
    var p :| IsPath(g, p) && p[0] == a && p[|p| - 1] == b;
    assert IsPath(g, p + [c]);
  }

  /** No two different steps depend on each other. A step that names itself is allowed: the
      visited set makes the sort ignore it. */
  ghost predicate Acyclic(g: Graph) {
    forall a, b :: a in g && b in g && Reaches(g, a, b) && Reaches(g, b, a) ==> a == b
  }

  // ---- the result of a visit ----

  function Placed(steps: seq<Step>): set<string> {
    set s | s in steps :: s.id
  }

  lemma PlacedAppend(steps: seq<Step>, s: Step)
    ensures Placed(steps + [s]) == Placed(steps) + {s.id}
  {
    var all := steps + [s];
    assert all[|steps|] == s;
    forall id | id in Placed(steps) ensures id in Placed(all) {
      var i :| 0 <= i < |steps| && steps[i].id == id;
      assert all[i].id == id;
    }
  }

  ghost predicate DistinctIds(steps: seq<Step>) {
    forall i, j :: 0 <= i < j < |steps| ==> steps[i].id != steps[j].id
  }

  /** Every known dependency comes earlier, or lies on a cycle with the step. */
  ghost predicate OrderedButCycles(g: Graph, result: seq<Step>) {
    forall j, d :: 0 <= j < |result| && d in result[j].deps && d in g ==>
      d in Placed(result[..j]) || Reaches(g, d, result[j].id)
  }

  /** stack holds the steps whose visit has begun and not ended. */
  ghost predicate Sound(g: Graph, acc: Acc, stack: set<string>) {
    && (forall id :: id in g ==> g[id].id == id)
    && (forall s :: s in acc.result ==> s.id in g && g[s.id] == s)
    && DistinctIds(acc.result)
    && stack <= acc.visited && stack <= g.Keys
    && (forall id :: id in g ==> (id in Placed(acc.result) <==> id in acc.visited && id !in stack))
    && OrderedButCycles(g, acc.result)
  }

  lemma SoundAppend(g: Graph, acc: Acc, stack: set<string>, id: string)
    requires Sound(g, acc, stack + {id}) && id in g && id !in stack
    requires forall s :: s in stack ==> Reaches(g, s, id)
    requires forall d :: d in g[id].deps ==> d in acc.visited
    ensures Sound(g, Acc(acc.visited, acc.result + [g[id]]), stack)
  {
    var result := acc.result + [g[id]];
    PlacedAppend(acc.result, g[id]);
    forall i, j | 0 <= i < j < |result| ensures result[i].id != result[j].id {
      if j == |acc.result| {
        assert result[i].id in Placed(acc.result);
      }
    }
    forall j, d | 0 <= j < |result| && d in result[j].deps && d in g
      ensures d in Placed(result[..j]) || Reaches(g, d, result[j].id)
    {
      if j < |acc.result| {
        assert result[..j] == acc.result[..j];
      } else {
        assert result[..j] == acc.result;
        if d == id {
          ReachesSelf(g, id);
        }
      }
    }
  }

  lemma {:induction false} VisitSound(g: Graph, id: string, acc: Acc, stack: set<string>)
    requires Sound(g, acc, stack) && id in Names(g)
    requires forall s :: s in stack ==> Reaches(g, s, id)
    ensures Sound(g, Visited(g, id, acc), stack)
    decreases Unvisited(g, acc), 0
  {
    if id !in acc.visited {
      var entered := Acc(acc.visited + {id}, acc.result);
      if id in g {
        assert Names(g) - entered.visited == (Names(g) - acc.visited) - {id};
        forall s, d | s in stack + {id} && d in g[id].deps ensures Reaches(g, s, d) {
          ReachesSelf(g, id);
          ReachesNext(g, s, id, d);
        }
        VisitAllSound(g, g[id].deps, entered, stack + {id});
        SoundAppend(g, VisitedAll(g, g[id].deps, entered), stack, id);
      }
    }
  }

  lemma {:induction false} VisitAllSound(g: Graph, ids: seq<string>, acc: Acc, stack: set<string>)
    requires Sound(g, acc, stack) && forall id :: id in ids ==> id in Names(g)
    requires forall s, d :: s in stack && d in ids ==> Reaches(g, s, d)
    ensures Sound(g, VisitedAll(g, ids, acc), stack)
    decreases Unvisited(g, acc), |ids| + 1
  {
    if ids != [] {
      var next := Visited(g, ids[0], acc);
      VisitSound(g, ids[0], acc, stack);
      SubsetSize(Names(g) - next.visited, Names(g) - acc.visited);
      VisitAllSound(g, ids[1..], next, stack);
    }
  }

  // ---- every input ----

  /** On every input, cycles and missing references included: the result holds each id exactly
      once, with the last step of that id, and each step follows all its known dependencies
      except those that lie on a cycle with it. */
  lemma SortedIsSound(steps: seq<Step>)
    ensures DistinctIds(Sorted(steps))
    ensures Placed(Sorted(steps)) == Placed(steps) == ById(steps).Keys
    ensures forall s :: s in Sorted(steps) ==> s.id in ById(steps) && s == ById(steps)[s.id]
    ensures OrderedButCycles(ById(steps), Sorted(steps))
  {
    var acc := SortSound(steps);
    SoundComplete(ById(steps), acc);
  }

  lemma SortSound(steps: seq<Step>) returns (acc: Acc)
    ensures acc.result == Sorted(steps)
    ensures Sound(ById(steps), acc, {}) && ById(steps).Keys <= acc.visited
    ensures Placed(steps) == ById(steps).Keys
  {
    var g, ids := ById(steps), Ids(steps);
    KnownIds(steps);
    VisitAllSound(g, ids, Acc({}, []), {});
    acc := VisitedAll(g, ids, Acc({}, []));
  }

  lemma SoundComplete(g: Graph, acc: Acc)
    requires Sound(g, acc, {}) && g.Keys <= acc.visited
    ensures Placed(acc.result) == g.Keys
  {
  }

  lemma KnownIds(steps: seq<Step>)
    ensures Placed(steps) == ById(steps).Keys == set id | id in Ids(steps)
  {
    forall id ensures id in Placed(steps) <==> id in Ids(steps) {
      if id in Ids(steps) {
        var i :| 0 <= i < |steps| && Ids(steps)[i] == id;
        assert steps[i].id == id;
      }
      if id in Placed(steps) {
        var i :| 0 <= i < |steps| && steps[i].id == id;
        assert Ids(steps)[i] == id;
      }
    }
  }

  lemma {:induction false} ByIdDistinct(steps: seq<Step>)
    requires DistinctIds(steps)
    ensures forall s :: s in steps ==> ById(steps)[s.id] == s
  {
    if steps != [] {
      ByIdDistinct(steps[..|steps| - 1]);
    }
  }

  lemma {:induction false} CountDistinct(steps: seq<Step>, s: Step)
    requires DistinctIds(steps)
    ensures multiset(steps)[s] == if s in steps then 1 else 0
  {
    if steps != [] {
      var front, last := steps[..|steps| - 1], steps[|steps| - 1];
      assert steps == front + [last];
      CountDistinct(front, s);
    }
  }

  /** With distinct ids the sort permutes the steps. */
  lemma SortIsPermutation(steps: seq<Step>)
    requires DistinctIds(steps)
    ensures multiset(Sorted(steps)) == multiset(steps)
  {
    SortedIsSound(steps);
    ByIdDistinct(steps);
    var result := Sorted(steps);
    forall s ensures multiset(result)[s] == multiset(steps)[s] {
      CountDistinct(result, s);
      CountDistinct(steps, s);
      if s in steps {
        assert s.id in Placed(result);
      }
      if s in result {
        assert s.id in Placed(steps);
      }
    }
  }

  // ---- dependency order and cycles ----

  /** Every known dependency other than the step itself comes earlier. */
  ghost predicate DependencyOrdered(g: Graph, result: seq<Step>) {
    forall j, d :: 0 <= j < |result| && d in result[j].deps && d in g && d != result[j].id ==> d in Placed(result[..j])
  }

  function Position(steps: seq<Step>, id: string): (i: nat)
    requires id in Placed(steps)
    ensures i < |steps| && steps[i].id == id
  {
    if steps[0].id == id then 0 else 1 + Position(steps[1..], id)
  }

  lemma {:induction false} PathsGoBack(g: Graph, result: seq<Step>, p: seq<string>)
    requires DistinctIds(result) && Placed(result) == g.Keys && DependencyOrdered(g, result)
    requires forall s :: s in result ==> s == g[s.id]
    requires IsPath(g, p) && p[0] in g && p[|p| - 1] in g
    ensures Position(result, p[|p| - 1]) <= Position(result, p[0])
  {
    if |p| > 1 {
      if |p| == 2 {
        assert p[1] in g;
      } else {
        assert p[1] in g && p[2] in g[p[1]].deps;
      }
      var j := Position(result, p[0]);
      assert p[1] in result[j].deps;
      if p[1] != p[0] {
        assert p[1] in Placed(result[..j]);
        var i :| 0 <= i < j && result[i].id == p[1];
      }
      assert IsPath(g, p[1..]);
      PathsGoBack(g, result, p[1..]);
    }
  }

  lemma AcyclicIsOrdered(g: Graph, result: seq<Step>)
    requires Acyclic(g) && OrderedButCycles(g, result)
    requires forall s :: s in result ==> s.id in g && s == g[s.id]
    ensures DependencyOrdered(g, result)
  {
    forall j, d | 0 <= j < |result| && d in result[j].deps && d in g && d != result[j].id
      ensures d in Placed(result[..j])
    {
      assert result[j] in result;
      ReachesSelf(g, result[j].id);
      ReachesNext(g, result[j].id, result[j].id, d);
    }
  }

  lemma OrderedIsAcyclic(g: Graph, result: seq<Step>)
    requires DistinctIds(result) && Placed(result) == g.Keys && DependencyOrdered(g, result)
    requires forall s :: s in result ==> s.id in g && s == g[s.id]
    ensures Acyclic(g)
  {
    forall a, b | a in g && b in g && Reaches(g, a, b) && Reaches(g, b, a) ensures a == b {
      var p :| IsPath(g, p) && p[0] == a && p[|p| - 1] == b;
      var q :| IsPath(g, q) && q[0] == b && q[|q| - 1] == a;
      PathsGoBack(g, result, p);
      PathsGoBack(g, result, q);
    }
  }

  /** The sort puts every step after all its known dependencies exactly when no two different
      steps depend on each other. */
  lemma SortOrdersAcyclicPlansOnly(steps: seq<Step>)
    ensures DependencyOrdered(ById(steps), Sorted(steps)) <==> Acyclic(ById(steps))
  {
    SortedIsSound(steps);
    if Acyclic(ById(steps)) {
      AcyclicIsOrdered(ById(steps), Sorted(steps));
    }
    if DependencyOrdered(ById(steps), Sorted(steps)) {
      OrderedIsAcyclic(ById(steps), Sorted(steps));
    }
  }

  // ---- plans that are already in order ----

  /** No step lists a step that comes after it. */
  ghost predicate NoForwardDeps(steps: seq<Step>) {
    forall i, j :: 0 <= i < j < |steps| ==> steps[j].id !in steps[i].deps
  }

  /** Visiting ids that are all visited, or no step at all, leaves the result alone. */
  lemma {:induction false} VisitKnownDeps(g: Graph, ids: seq<string>, acc: Acc)
    requires forall id :: id in ids ==> id in Names(g) && (id in acc.visited || id !in g)
    ensures VisitedAll(g, ids, acc).result == acc.result
    ensures VisitedAll(g, ids, acc).visited * g.Keys == acc.visited * g.Keys
    decreases |ids|
  {
    if ids != [] {
      VisitKnownDeps(g, ids[1..], Visited(g, ids[0], acc));
    }
  }

  /** A visit of a step that is not there yet appends something before it appends the step. */
  lemma {:induction false} NewDepComesFirst(g: Graph, ids: seq<string>, acc: Acc, d: string)
    requires forall id :: id in ids ==> id in Names(g)
    requires d in ids && d in g && d !in acc.visited
    ensures |VisitedAll(g, ids, acc).result| > |acc.result|
    decreases |ids|
  {
    var next := Visited(g, ids[0], acc);
    if d in next.visited {
      VisitGrows(g, ids[0], acc, d);
    } else {
      NewDepComesFirst(g, ids[1..], next, d);
    }
  }

  lemma VisitGrows(g: Graph, id: string, acc: Acc, d: string)
    requires id in Names(g) && d in g && d !in acc.visited && d in Visited(g, id, acc).visited
    ensures |Visited(g, id, acc).result| > |acc.result|
  {
  }

  /** A visit of a new step whose known dependencies are all visited appends just that step. */
  lemma VisitReadyStep(g: Graph, step: Step, before: Acc)
    requires step.id in g && g[step.id] == step && step.id !in before.visited
    requires forall d :: d in step.deps && d in g ==> d in before.visited || d == step.id
    ensures Visited(g, step.id, before).result == before.result + [step]
    ensures Visited(g, step.id, before).visited * g.Keys == before.visited * g.Keys + {step.id}
  {
    assert forall d :: d in step.deps ==> d in Names(g);
    VisitKnownDeps(g, step.deps, Acc(before.visited + {step.id}, before.result));
  }

  /** The first i steps list no later step. */
  ghost predicate ReadyPrefix(steps: seq<Step>, i: nat) {
    i <= |steps| && forall k, j :: 0 <= k < i && k < j < |steps| ==> steps[j].id !in steps[k].deps
  }

  ghost predicate PrefixPlaced(steps: seq<Step>, i: nat, acc: Acc) {
    && i <= |steps|
    && acc.result == steps[..i]
    && forall k :: 0 <= k < |steps| ==> (steps[k].id in acc.visited <==> k < i)
  }

  lemma PrefixStep(g: Graph, steps: seq<Step>, i: nat, acc: Acc)
    requires DistinctIds(steps) && i < |steps| && ReadyPrefix(steps, i + 1) && PrefixPlaced(steps, i, acc)
    requires g.Keys == Placed(steps) && forall s :: s in steps ==> s.id in g && g[s.id] == s
    ensures PrefixPlaced(steps, i + 1, Visited(g, steps[i].id, acc))
  {
    var step := steps[i];
    forall d | d in step.deps && d in g ensures d in acc.visited || d == step.id {
      var j :| 0 <= j < |steps| && steps[j].id == d;
    }
    assert step in steps;
    VisitReadyStep(g, step, acc);
    var after := Visited(g, step.id, acc);
    forall k | 0 <= k < |steps| ensures steps[k].id in after.visited <==> k < i + 1 {
      assert steps[k] in steps;
      assert steps[k].id in after.visited * g.Keys <==> steps[k].id in acc.visited * g.Keys + {step.id};
    }
    assert steps[..i + 1] == steps[..i] + [step];
  }

  /** The sort after its first i top-level visits. */
  function First(g: Graph, ids: seq<string>, i: nat): Acc
    requires i <= |ids| && forall id :: id in ids ==> id in Names(g)
  {
    if i == 0 then Acc({}, []) else Visited(g, ids[i - 1], First(g, ids, i - 1))
  }

  lemma {:induction false} VisitAllSnoc(g: Graph, ids: seq<string>, last: string, acc: Acc)
    requires last in Names(g) && forall id :: id in ids ==> id in Names(g)
    ensures VisitedAll(g, ids + [last], acc) == Visited(g, last, VisitedAll(g, ids, acc))
    decreases |ids|
  {
    if ids != [] {
      assert (ids + [last])[1..] == ids[1..] + [last];
      VisitAllSnoc(g, ids[1..], last, Visited(g, ids[0], acc));
    } else {
      assert ids + [last] == [last];
    }
  }

  lemma {:induction false} FirstIsVisitAll(g: Graph, ids: seq<string>, i: nat)
    requires i <= |ids| && forall id :: id in ids ==> id in Names(g)
    ensures VisitedAll(g, ids[..i], Acc({}, [])) == First(g, ids, i)
  {
    if i > 0 {
      FirstIsVisitAll(g, ids, i - 1);
      assert ids[..i] == ids[..i - 1] + [ids[i - 1]];
      VisitAllSnoc(g, ids[..i - 1], ids[i - 1], Acc({}, []));
    }
  }

  lemma SortedIsFirst(steps: seq<Step>)
    ensures forall id :: id in Ids(steps) ==> id in Names(ById(steps))
    ensures Sorted(steps) == First(ById(steps), Ids(steps), |steps|).result
  {
    KnownIds(steps);
    FirstIsAll(ById(steps), Ids(steps));
  }

  lemma FirstIsAll(g: Graph, ids: seq<string>)
    requires forall id :: id in ids ==> id in Names(g)
    ensures VisitedAll(g, ids, Acc({}, [])) == First(g, ids, |ids|)
  {
    FirstIsVisitAll(g, ids, |ids|);
    assert ids[..|ids|] == ids;
  }

  lemma {:induction false} FirstGrows(g: Graph, ids: seq<string>, i: nat, j: nat)
    requires i <= j <= |ids| && forall id :: id in ids ==> id in Names(g)
    ensures First(g, ids, i).result <= First(g, ids, j).result
    decreases j
  {
    if i < j {
      FirstGrows(g, ids, i, j - 1);
    }
  }

  lemma {:induction false} FirstSound(g: Graph, ids: seq<string>, i: nat)
    requires i <= |ids| && (forall id :: id in ids ==> id in Names(g)) && forall id :: id in g ==> g[id].id == id
    ensures Sound(g, First(g, ids, i), {})
  {
    if i > 0 {
      FirstSound(g, ids, i - 1);
      VisitSound(g, ids[i - 1], First(g, ids, i - 1), {});
    }
  }

  /** g and ids are what the sort makes of steps. */
  ghost predicate Indexed(g: Graph, ids: seq<string>, steps: seq<Step>) {
    && ids == Ids(steps) && g.Keys == Placed(steps)
    && (forall s :: s in steps ==> s.id in g && g[s.id] == s)
    && forall id :: id in ids ==> id in Names(g)
  }

  lemma SortIndexes(steps: seq<Step>)
    requires DistinctIds(steps)
    ensures Indexed(ById(steps), Ids(steps), steps)
  {
    KnownIds(steps);
    ByIdDistinct(steps);
  }

  lemma {:induction false} OrderedPrefix(g: Graph, ids: seq<string>, steps: seq<Step>, i: nat)
    requires Indexed(g, ids, steps) && DistinctIds(steps) && ReadyPrefix(steps, i)
    ensures PrefixPlaced(steps, i, First(g, ids, i))
  {
    if i > 0 {
      OrderedPrefix(g, ids, steps, i - 1);
      PrefixStep(g, steps, i - 1, First(g, ids, i - 1));
    }
  }

  /** A visit that has to place a dependency first puts that one where the step would go. */
  lemma DisplacedBy(g: Graph, step: Step, before: Acc, d: string)
    requires Sound(g, before, {}) && step.id in g && g[step.id] == step && step.id !in before.visited
    requires d in step.deps && d in g && d !in before.visited && d != step.id
    ensures var result := Visited(g, step.id, before).result;
      |result| > |before.result| && result[|before.result|] != step
  {
    var entered := Acc(before.visited + {step.id}, before.result);
    assert forall e :: e in step.deps ==> e in Names(g);
    var inner := VisitedAll(g, step.deps, entered);
    NewDepComesFirst(g, step.deps, entered, d);
    assert entered.visited - {step.id} == before.visited;
    InProgressNotPlaced(g, step, entered, inner);
    assert inner.result[|before.result|].id in Placed(inner.result);
  }

  /** With a forward dependency, the first step that has one is displaced. */
  lemma ForwardDepMoves(steps: seq<Step>, i: nat, j: nat)
    requires DistinctIds(steps) && i < j < |steps| && steps[j].id in steps[i].deps
    requires ReadyPrefix(steps, i)
    ensures Sorted(steps) != steps
  {
    var g, ids := ById(steps), Ids(steps);
    SortIndexes(steps);
    OrderedPrefix(g, ids, steps, i);
    FirstSound(g, ids, i);
    assert steps[i] in steps && steps[j] in steps;
    DisplacedBy(g, steps[i], First(g, ids, i), steps[j].id);
    FirstGrows(g, ids, i + 1, |steps|);
    SortedIsFirst(steps);
    assert First(g, ids, i + 1).result[i] == Sorted(steps)[i];
  }

  /** The step whose dependencies are being visited is not placed by them. */
  lemma InProgressNotPlaced(g: Graph, step: Step, entered: Acc, inner: Acc)
    requires step.id in g && g[step.id] == step && step.id in entered.visited
    requires Sound(g, Acc(entered.visited - {step.id}, entered.result), {}) && step.id !in Placed(entered.result)
    requires inner == VisitedAll(g, step.deps, entered)
    ensures step.id !in Placed(inner.result)
  {
    forall d | d in step.deps ensures Reaches(g, step.id, d) {
      ReachesSelf(g, step.id);
      ReachesNext(g, step.id, step.id, d);
    }
    VisitAllSound(g, step.deps, entered, {step.id});
  }

  /** With distinct ids, the sort keeps the original order exactly when no step lists a later
      one. The docstring's "original order on cycles" therefore fails on every plan in which two
      steps depend on each other. */
  lemma SortKeepsOrderedPlansOnly(steps: seq<Step>)
    requires DistinctIds(steps)
    ensures Sorted(steps) == steps <==> NoForwardDeps(steps)
  {
    if NoForwardDeps(steps) {
      assert ReadyPrefix(steps, |steps|);
      SortIndexes(steps);
      OrderedPrefix(ById(steps), Ids(steps), steps, |steps|);
      SortedIsFirst(steps);
      assert steps[..|steps|] == steps;
    } else {
      var i := 0;
      while !(exists j :: i < j < |steps| && steps[j].id in steps[i].deps)
        invariant 0 <= i < |steps|
        invariant forall k, m :: 0 <= k < i && k < m < |steps| ==> steps[m].id !in steps[k].deps
        invariant exists k, m :: i <= k < m < |steps| && steps[m].id in steps[k].deps
        decreases |steps| - i
      {
        i := i + 1;
      }
      var j :| i < j < |steps| && steps[j].id in steps[i].deps;
      ForwardDepMoves(steps, i, j);
    }
  }

  /** Sorting twice is sorting once, on plans without cycles. */
  lemma SortIsIdempotent(steps: seq<Step>)
    requires Acyclic(ById(steps))
    ensures Sorted(Sorted(steps)) == Sorted(steps)
  {
    var g, result := ById(steps), Sorted(steps);
    SortedIsSound(steps);
    SortOrdersAcyclicPlansOnly(steps);
    forall i, j | 0 <= i < j < |result| ensures result[j].id !in result[i].deps {
      assert result[j] in result;
      assert result[j].id !in Placed(result[..i]);
    }
    SortKeepsOrderedPlansOnly(result);
  }

  /** The steps of these ids. */
  function StepsOf(g: Graph, ids: seq<string>): seq<Step>
    requires forall id :: id in ids ==> id in g
  {
    seq(|ids|, i requires 0 <= i < |ids| => g[ids[i]])
  }

  lemma StepsOfFirst(g: Graph, ids: seq<string>)
    requires ids != [] && forall id :: id in ids ==> id in g
    ensures StepsOf(g, ids) == [g[ids[0]]] + StepsOf(g, ids[1..])
  {
  }

  predicate FreshLeaf(g: Graph, id: string, acc: Acc) {
    id in g && g[id].deps == [] && id !in acc.visited
  }

  lemma LeafVisit(g: Graph, id: string, acc: Acc)
    requires FreshLeaf(g, id, acc) && id in Names(g)
    ensures Visited(g, id, acc) == Acc(acc.visited + {id}, acc.result + [g[id]])
  {
  }

  lemma {:induction false} LeavesInOrder(g: Graph, ids: seq<string>, acc: Acc)
    requires forall i, j :: 0 <= i < j < |ids| ==> ids[i] != ids[j]
    requires forall id :: id in ids ==> id in g && id in Names(g)
    requires forall i :: 0 <= i < |ids| ==> FreshLeaf(g, ids[i], acc)
    ensures VisitedAll(g, ids, acc).result == acc.result + StepsOf(g, ids)
  {
    if ids != [] {
      var id, rest := ids[0], ids[1..];
      var next := Visited(g, id, acc);
      assert FreshLeaf(g, id, acc);
      LeafVisit(g, id, acc);
      forall i | 0 <= i < |rest| ensures FreshLeaf(g, rest[i], next) {
        assert FreshLeaf(g, ids[i + 1], acc);
      }
      LeavesInOrder(g, rest, next);
      StepsOfFirst(g, ids);
      assert acc.result + [g[id]] + StepsOf(g, rest) == acc.result + ([g[id]] + StepsOf(g, rest));
    }
  }

  /** Dependencies that have none themselves come out in the order in which the step lists them, and before
      it, whatever their order in the plan. */
  lemma DependenciesInListedOrder(steps: seq<Step>)
    requires steps != [] && ById(steps)[steps[0].id] == steps[0] && steps[0].id !in steps[0].deps
    requires forall i, j :: 0 <= i < j < |steps[0].deps| ==> steps[0].deps[i] != steps[0].deps[j]
    requires forall d :: d in steps[0].deps ==> d in ById(steps) && ById(steps)[d].deps == []
    ensures StepsOf(ById(steps), steps[0].deps) + [steps[0]] <= Sorted(steps)
  {
    var g, top := ById(steps), steps[0];
    forall d | d in top.deps ensures FreshLeaf(g, d, Acc({top.id}, [])) && d in Names(g) {
    }
    LeavesInOrder(g, top.deps, Acc({top.id}, []));
    VisitOfTop(g, top);
    FirstVisited(g, Ids(steps), Acc({}, []));
    var leaves := StepsOf(g, top.deps);
    assert [] + leaves == leaves;
    assert Visited(g, Ids(steps)[0], Acc({}, [])).result == leaves + [top];
  }

  lemma VisitOfTop(g: Graph, top: Step)
    requires top.id in g && g[top.id] == top && top.id in Names(g) && forall d :: d in top.deps ==> d in Names(g)
    ensures Visited(g, top.id, Acc({}, [])).result == VisitedAll(g, top.deps, Acc({top.id}, [])).result + [top]
  {
    assert {} + {top.id} == {top.id};
  }

  lemma FirstVisited(g: Graph, ids: seq<string>, acc: Acc)
    requires ids != [] && forall id :: id in ids ==> id in Names(g)
    ensures Visited(g, ids[0], acc).result <= VisitedAll(g, ids, acc).result
  {
  }

  /** Two steps that wait for each other come out swapped. */
  lemma CycleIsReversed()
    ensures var a, b := Step("a", "", ["b"]), Step("b", "", ["a"]);
      Sorted([a, b]) == [b, a]
  {
    var a, b := Step("a", "", ["b"]), Step("b", "", ["a"]);
    var steps := [a, b];
    assert b.id in steps[0].deps && steps[1] == b;
    SortKeepsOrderedPlansOnly(steps);
    SortIsPermutation(steps);
    TwoElements(Sorted(steps), a, b);
  }

  lemma TwoElements(s: seq<Step>, a: Step, b: Step)
    requires multiset(s) == multiset{a, b} && a != b
    ensures s == [a, b] || s == [b, a]
  {
    assert |s| == |multiset(s)|;
    assert s[0] in multiset(s) && s[1] in multiset(s);
    assert s == [s[0], s[1]];
    assert multiset(s)[a] == 1 && multiset(s)[b] == 1;
  }
}
