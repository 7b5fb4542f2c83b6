/** Dependency ordering of plan steps (cognix/planner/service.py, _sort_steps). */
module PlanSort {

  datatype Step = Step(id: string, action: string, deps: seq<string>)

  type Graph = map<string, Step>

  /** by_id: the last step with an id wins. */
  function ById(steps: seq<Step>): (g: Graph)
    ensures forall id :: id in g ==> g[id].id == id && g[id] in steps
    ensures forall s :: s in steps ==> s.id in g
  {
    if steps == [] then map[]
    else ById(steps[..|steps| - 1])[steps[|steps| - 1].id := steps[|steps| - 1]]
  }

  function Ids(steps: seq<Step>): (ids: seq<string>)
    ensures |ids| == |steps| && forall i :: 0 <= i < |ids| ==> ids[i] == steps[i].id
  {
    seq(|steps|, i requires 0 <= i < |steps| => steps[i].id)
  }

  /** Every id that occurs, as a step or only as a dependency. */
  function Names(g: Graph): set<string> {
    g.Keys + set id, d | id in g && d in g[id].deps :: d
  }

  // ---- the depth-first visit ----

  datatype Acc = Acc(visited: set<string>, result: seq<Step>)

  lemma SubsetSize(a: set<string>, b: set<string>)
    requires a <= b
    ensures |a| <= |b|
  {
    assert b == a + (b - a);
  }

  function Unvisited(g: Graph, acc: Acc): nat {
    |Names(g) - acc.visited|
  }

  function Visited(g: Graph, id: string, acc: Acc): (r: Acc)
    requires id in Names(g)
    ensures acc.visited + {id} <= r.visited <= acc.visited + Names(g)
    ensures acc.result <= r.result
    decreases Unvisited(g, acc), 0
  {
    if id in acc.visited then acc
    else
      var entered := Acc(acc.visited + {id}, acc.result);
      if id !in g then entered
      else
        assert Names(g) - entered.visited == (Names(g) - acc.visited) - {id};
        var inner := VisitedAll(g, g[id].deps, entered);
        Acc(inner.visited, inner.result + [g[id]])
  }

  function VisitedAll(g: Graph, ids: seq<string>, acc: Acc): (r: Acc)
    requires forall id :: id in ids ==> id in Names(g)
    ensures acc.visited + (set id | id in ids) <= r.visited <= acc.visited + Names(g)
    ensures acc.result <= r.result
    decreases Unvisited(g, acc), |ids| + 1
  {
    if ids == [] then acc
    else
      var next := Visited(g, ids[0], acc);
      SubsetSize(Names(g) - next.visited, Names(g) - acc.visited);
      VisitedAll(g, ids[1..], next)
  }

  function Sorted(steps: seq<Step>): seq<Step> {
    VisitedAll(ById(steps), Ids(steps), Acc({}, [])).result
  }

  // ---- the code: visited set and result list updated in place ----

  class Sorter {
    const byId: Graph
    var visited: set<string>
    var result: seq<Step>

    ghost function State(): Acc
      reads this
    {
      Acc(visited, result)
    }

    constructor (byId: Graph)
      ensures this.byId == byId && State() == Acc({}, [])
    {
      this.byId, visited, result := byId, {}, [];
    }

    method Visit(id: string)
      requires id in Names(byId)
      modifies this
      ensures State() == Visited(byId, id, old(State()))
      decreases Unvisited(byId, State())
    {
      if id in visited {
        return;
      }
      visited := visited + {id};
      if id !in byId {
        return;
      }
      var deps := byId[id].deps;
      assert forall d :: d in deps ==> d in Names(byId);
      ghost var entered := State();
      assert Names(byId) - visited == (Names(byId) - old(visited)) - {id};
      for i := 0 to |deps|
        invariant visited >= entered.visited
        invariant VisitedAll(byId, deps[i..], State()) == VisitedAll(byId, deps, entered)
      {
        SubsetSize(Names(byId) - visited, Names(byId) - entered.visited);
        assert deps[i..][1..] == deps[i + 1..];
        Visit(deps[i]);
      }
      result := result + [byId[id]];
    }
  }

  function UnvisitedSteps(steps: seq<Step>, visited: set<string>): seq<Step> {
    if steps == [] then []
    else
      var last := steps[|steps| - 1];
      UnvisitedSteps(steps[..|steps| - 1], visited) + if last.id in visited then [] else [last]
  }

  /** The final loop of the sort. */
  method AppendUnvisited(steps: seq<Step>, visited: set<string>, result: seq<Step>) returns (extended: seq<Step>)
    ensures extended == result + UnvisitedSteps(steps, visited)
  {
    extended := result;
    for i := 0 to |steps|
      invariant extended == result + UnvisitedSteps(steps[..i], visited)
    {
      assert steps[..i + 1][..i] == steps[..i];
      if steps[i].id !in visited {
        extended := extended + [steps[i]];
      }
    }
    assert steps[..|steps|] == steps;
  }

  /** The final loop never finds anything to append. */
  lemma {:induction false} NoneUnvisited(steps: seq<Step>, visited: set<string>)
    requires forall s :: s in steps ==> s.id in visited
    ensures UnvisitedSteps(steps, visited) == []
  {
    if steps != [] {
      NoneUnvisited(steps[..|steps| - 1], visited);
    }
  }

  method SortSteps(steps: seq<Step>) returns (sorted: seq<Step>)
    ensures sorted == Sorted(steps)
  {
    var sorter := new Sorter(ById(steps));
    VisitSteps(sorter, steps);
    forall s | s in steps ensures s.id in sorter.visited {
      var i :| 0 <= i < |steps| && steps[i] == s;
      assert Ids(steps)[i] in Ids(steps);
    }
    sorted := AppendUnvisited(steps, sorter.visited, sorter.result);
    NoneUnvisited(steps, sorter.visited);
  }

  method VisitSteps(sorter: Sorter, steps: seq<Step>)
    requires forall id :: id in Ids(steps) ==> id in Names(sorter.byId)
    modifies sorter
    ensures sorter.State() == VisitedAll(sorter.byId, Ids(steps), old(sorter.State()))
  {
    ghost var ids, start := Ids(steps), sorter.State();
    for i := 0 to |steps|
      invariant VisitedAll(sorter.byId, ids[i..], sorter.State()) == VisitedAll(sorter.byId, ids, start)
    {
      assert ids[i..][1..] == ids[i + 1..];
      assert ids[i] in ids;
      sorter.Visit(steps[i].id);
    }
  }
}
