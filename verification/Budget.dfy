/** Token budgets for the memory sources (cognix/memory/budget.py, cognix/memory/pipeline.py). */
module Budget {
  import opened Wrappers
  import Text

  /** A memory source and the tokens of content it has; the sources form a dict in insertion order. */
  datatype Source = Source(name: string, available: int)

  datatype Allocation = Allocation(source: string, tokens: int, priority: nat)

  // ---- allocate ----

  /** Default ratios in hundredths. */
  function DefaultRatio(name: string): nat {
    if name == "hot" then 40
    else if name == "procedural" || name == "cold" then 25
    else if name == "deep" then 10
    else 0
  }

  function Active(sources: seq<Source>): (r: seq<Source>)
    ensures forall i :: 0 <= i < |r| ==> r[i].available > 0
  {
    if sources == [] then []
    else Active(sources[..|sources| - 1]) + if sources[|sources| - 1].available > 0 then [sources[|sources| - 1]] else []
  }

  function DefaultRatios(active: seq<Source>): (r: seq<nat>)
    ensures |r| == |active|
  {
    seq(|active|, i requires 0 <= i < |active| => DefaultRatio(active[i].name))
  }

  /** The default ratios, or equal ones when no source has any. */
  function Ratios(active: seq<Source>): (r: seq<nat>)
    ensures |r| == |active| && (active != [] ==> Total(r) > 0)
  {
    var defaults := DefaultRatios(active);
    if Total(defaults) == 0 then
      var equal := seq(|active|, _ => 1);
      TotalOfOnes(equal);
      equal
    else defaults
  }

  function Total(r: seq<nat>): nat {
    if r == [] then 0 else Total(r[..|r| - 1]) + r[|r| - 1]
  }

  lemma {:induction false} TotalOfOnes(r: seq<nat>)
    requires forall i :: 0 <= i < |r| ==> r[i] == 1
    ensures Total(r) == |r|
  {
    if r != [] {
      TotalOfOnes(r[..|r| - 1]);
    }
  }

  /** int(a / b), which rounds toward zero. */
  function Truncated(a: int, b: nat): int
    requires b > 0
  {
    if a >= 0 then a / b else -((-a) / b)
  }

  function ShareOf(budget: int, ratio: nat, all: nat, available: int): int
    requires all > 0
  {
    Min(Truncated(budget * ratio, all), available)
  }

  function Share(budget: int, active: seq<Source>, i: nat): int
    requires i < |active|
  {
    ShareOf(budget, Ratios(active)[i], Total(Ratios(active)), active[i].available)
  }

  /** The shares of the first n active sources. */
  function Shares(budget: int, active: seq<Source>, n: nat): (r: seq<Allocation>)
    requires n <= |active|
    ensures |r| == n
    ensures forall i :: 0 <= i < n ==> r[i] == Allocation(active[i].name, Share(budget, active, i), i)
  {
    if n == 0 then [] else Shares(budget, active, n - 1) + [Allocation(active[n - 1].name, Share(budget, active, n - 1), n - 1)]
  }

  function Assigned(r: seq<Allocation>): int {
    if r == [] then 0 else Assigned(r[..|r| - 1]) + r[|r| - 1].tokens
  }

  /** What is left over goes on top of the first share. */
  function WithLeftover(shares: seq<Allocation>, budget: int): (r: seq<Allocation>)
    requires shares != []
    ensures |r| == |shares|
  {
    var leftover := budget - Assigned(shares);
    if leftover > 0 then shares[0 := shares[0].(tokens := shares[0].tokens + leftover)] else shares
  }

  /** What allocate returns. */
  function Allocated(budget: int, sources: seq<Source>): seq<Allocation> {
    var active := Active(sources);
    if active == [] then [] else WithLeftover(Shares(budget, active, |active|), budget)
  }

  method Allocate(budget: int, sources: seq<Source>) returns (allocations: seq<Allocation>)
    ensures allocations == Allocated(budget, sources)
  {
    var active := Active(sources);
    if active == [] {
      return [];
    }
    var ratios := Ratios(active);
    var totalRatio := Total(ratios);
    allocations := [];
    for i := 0 to |active|
      invariant allocations == Shares(budget, active, i)
    {
      var share := ShareOf(budget, ratios[i], totalRatio, active[i].available);
      allocations := allocations + [Allocation(active[i].name, share, i)];
    }
    var leftover := budget - Assigned(allocations);
    if leftover > 0 {
      allocations := allocations[0 := allocations[0].(tokens := allocations[0].tokens + leftover)];
    }
  }

  lemma {:induction false} AssignedUpdate(r: seq<Allocation>, i: nat, a: Allocation)
    requires i < |r|
    ensures Assigned(r[i := a]) == Assigned(r) - r[i].tokens + a.tokens
  {
    var n := |r| - 1;
    if i < n {
      assert r[i := a][..n] == r[..n][i := a];
      AssignedUpdate(r[..n], i, a);
    } else {
      assert r[i := a][..n] == r[..n];
    }
  }

  // Products are kept apart from the sums they are used in.

  lemma TimesSum(a: int, b: int, c: int)
    ensures (a + b) * c == a * c + b * c
  {
  }

  lemma TimesOrder(a: int, b: int, c: int)
    requires c > 0
    ensures a * c <= b * c <==> a <= b
    ensures a * c == b * c <==> a == b
  {
    TimesSum(a, -b, c);
    if a < b {
      TimesPositive(b - a, c);
    } else if a > b {
      TimesPositive(a - b, c);
    }
  }

  lemma TimesPositive(a: nat, b: nat)
    ensures a * b >= 0
    ensures a > 0 && b > 0 ==> a * b > 0
  {
  }

  predicate ExactAt(budget: int, ratio: nat, all: nat)
    requires all > 0
  {
    (budget * ratio) % all == 0
  }

  /** A share, times the ratio sum, against its exact part of the budget. */
  ghost predicate Fits(share: int, budget: int, ratio: nat, all: nat)
    requires all > 0
  {
    if budget >= 0 then 0 <= share && share * all <= budget * ratio
    else share <= 0 && share * all >= budget * ratio && (share * all == budget * ratio <==> ExactAt(budget, ratio, all))
  }

  lemma TruncatedBound(a: nat, b: nat)
    requires b > 0
    ensures a / b >= 0 && (a / b) * b <= a && ((a / b) * b == a <==> a % b == 0)
  {
  }

  lemma MultipleMod(q: int, b: int)
    requires b > 0
    ensures (q * b) % b == 0
  {
    var d, r := (q * b) / b, (q * b) % b;
    assert q * b == d * b + r;
    TimesSum(q, -d, b);
    TimesOrder(q - d, 0, b);
    TimesOrder(1, q - d, b);
  }

  lemma NegatedMod(a: int, b: int)
    requires b > 0
    ensures (-a) % b == 0 <==> a % b == 0
  {
    var d, e := a / b, (-a) / b;
    assert a % b == 0 ==> -a == (-d) * b;
    assert (-a) % b == 0 ==> a == (-e) * b;
    MultipleMod(-d, b);
    MultipleMod(-e, b);
  }

  lemma ShareFits(budget: int, ratio: nat, all: nat, available: int)
    requires all > 0 && available > 0
    ensures Fits(ShareOf(budget, ratio, all, available), budget, ratio, all)
  {
    if budget >= 0 {
      TimesPositive(budget, ratio);
      TruncatedBound(budget * ratio, all);
      TimesOrder(available, (budget * ratio) / all, all);
    } else {
      var part := (-budget) * ratio;
      TimesPositive(-budget, ratio);
      assert budget * ratio == -part;
      TruncatedBound(part, all);
      NegatedMod(part, all);
      var share := ShareOf(budget, ratio, all, available);
      assert share == -(part / all);
      TimesSum(share, part / all, all);
    }
  }

  lemma StepBound(budget: int, before: int, share: int, all: nat, t: nat, ratio: nat)
    ensures (before + share) * all == before * all + share * all
    ensures budget * (t + ratio) == budget * t + budget * ratio
  {
  }

  /** A share is the proportional part of the budget, whole tokens only, up to the content. */
  lemma ShareIsProportional(budget: nat, ratio: nat, all: nat, available: int)
    requires all > 0 && available > 0
    ensures var share := ShareOf(budget, ratio, all, available);
      && share <= available && share * all <= budget * ratio
      && (share < available ==> budget * ratio < (share + 1) * all)
  {
    TimesPositive(budget, ratio);
    ShareFits(budget, ratio, all, available);
    QuotientBound(budget * ratio, all);
  }

  lemma QuotientBound(a: nat, b: nat)
    requires b > 0
    ensures a < (a / b + 1) * b
  {
  }

  /** What the sources after the first get: the part of the budget that their ratio is of all ratios. */
  lemma LaterSharesAreProportional(budget: nat, sources: seq<Source>, i: nat)
    requires 0 < i < |Active(sources)|
    ensures var given, ratios := Allocated(budget, sources)[i].tokens, Ratios(Active(sources));
      && given * Total(ratios) <= budget * ratios[i]
      && (given < Active(sources)[i].available ==> budget * ratios[i] < (given + 1) * Total(ratios))
  {
    var active := Active(sources);
    ShareIsProportional(budget, Ratios(active)[i], Total(Ratios(active)), active[i].available);
  }

  lemma {:induction false} SumFits(shares: seq<Allocation>, budget: int, ratios: seq<nat>, all: nat)
    requires |shares| == |ratios| && all > 0
    requires forall i :: 0 <= i < |shares| ==> Fits(shares[i].tokens, budget, ratios[i], all)
    ensures if budget >= 0 then Assigned(shares) * all <= budget * Total(ratios)
      else
        && Assigned(shares) * all >= budget * Total(ratios)
        && (Assigned(shares) * all == budget * Total(ratios) <==> forall i :: 0 <= i < |ratios| ==> ExactAt(budget, ratios[i], all))
  {
    var n := |shares| - 1;
    if shares != [] {
      SumFits(shares[..n], budget, ratios[..n], all);
      assert Fits(shares[n].tokens, budget, ratios[n], all);
      StepBound(budget, Assigned(shares[..n]), shares[n].tokens, all, Total(ratios[..n]), ratios[n]);
      assert forall i :: 0 <= i < n ==> ratios[..n][i] == ratios[i];
    }
  }

  lemma SharesWithin(budget: int, active: seq<Source>)
    requires active != [] && forall i :: 0 <= i < |active| ==> active[i].available > 0
    ensures var given, ratios := Assigned(Shares(budget, active, |active|)), Ratios(active);
      if budget >= 0 then given <= budget
      else given >= budget && (given == budget <==> forall i :: 0 <= i < |ratios| ==> ExactAt(budget, ratios[i], Total(ratios)))
  {
    var shares, ratios := Shares(budget, active, |active|), Ratios(active);
    var all := Total(ratios);
    forall i | 0 <= i < |active| ensures Fits(Share(budget, active, i), budget, ratios[i], all) {
      ShareFits(budget, ratios[i], all, active[i].available);
    }
    SumFits(shares, budget, ratios, all);
    TimesOrder(Assigned(shares), budget, all);
    TimesOrder(budget, Assigned(shares), all);
  }

  /** Whenever some source has content, the whole of a budget that is not negative is handed out, no
      more and no less. */
  lemma AllocateConserves(budget: nat, sources: seq<Source>)
    requires Active(sources) != []
    ensures Assigned(Allocated(budget, sources)) == budget
  {
    SharesWithin(budget, Active(sources));
    LeftoverSum(Shares(budget, Active(sources), |Active(sources)|), budget);
  }

  /** No source gets a negative part of it, and none but the first more than it can use. */
  lemma AllocateIsUsable(budget: nat, sources: seq<Source>)
    ensures |Allocated(budget, sources)| == |Active(sources)|
    ensures forall i :: 0 <= i < |Active(sources)| ==> Usable(Allocated(budget, sources)[i], Active(sources)[i], i)
  {
    var active := Active(sources);
    if active != [] {
      forall i | 0 <= i < |active| ensures Usable(Shares(budget, active, |active|)[i], active[i], i) {
        ShareIsUsable(budget, active, i);
      }
      LeftoverIsUsable(Shares(budget, active, |active|), active, budget);
    }
  }

  lemma ShareIsUsable(budget: nat, active: seq<Source>, i: nat)
    requires i < |active| && active[i].available > 0
    ensures Usable(Shares(budget, active, |active|)[i], active[i], i)
  {
    ShareFits(budget, Ratios(active)[i], Total(Ratios(active)), active[i].available);
  }

  lemma LeftoverIsUsable(shares: seq<Allocation>, active: seq<Source>, budget: nat)
    requires shares != [] && |shares| == |active|
    requires forall i :: 0 <= i < |active| ==> Usable(shares[i], active[i], i)
    ensures forall i :: 0 <= i < |active| ==> Usable(WithLeftover(shares, budget)[i], active[i], i)
  {
  }

  predicate Usable(given: Allocation, source: Source, i: nat) {
    && given.source == source.name && given.priority == i
    && 0 <= given.tokens && (i > 0 ==> given.tokens <= source.available)
  }

  lemma LeftoverSum(shares: seq<Allocation>, budget: int)
    requires shares != [] && Assigned(shares) <= budget
    ensures Assigned(WithLeftover(shares, budget)) == budget
  {
    AssignedUpdate(shares, 0, WithLeftover(shares, budget)[0]);
  }

  /** The first source gets more than it can use if and only if the budget exceeds what the others' shares
      and its own content take. */
  lemma FirstExceedsExactlyWhen(budget: nat, sources: seq<Source>)
    requires Active(sources) != []
    ensures Allocated(budget, sources)[0].tokens > Active(sources)[0].available
       <==> budget > Active(sources)[0].available + Assigned(Shares(budget, Active(sources), |Active(sources)|)[1..])
  {
    var shares := Shares(budget, Active(sources), |Active(sources)|);
    SharesWithin(budget, Active(sources));
    AssignedFirst(shares);
  }

  /** A negative budget is rounded up share by share, so never more than all of it is taken away, and
      the sum is exact just when every share is. */
  lemma NegativeBudgets(budget: int, sources: seq<Source>)
    requires budget < 0 && Active(sources) != []
    ensures Assigned(Allocated(budget, sources)) >= budget
    ensures Assigned(Allocated(budget, sources)) == budget <==>
      var ratios := Ratios(Active(sources));
      forall i :: 0 <= i < |ratios| ==> ExactAt(budget, ratios[i], Total(ratios))
  {
    SharesWithin(budget, Active(sources));
  }

  /** When all four sources with a default ratio have plenty, a budget is split 40, 25, 25, 10. */
  lemma DefaultSplit(b: nat, sources: seq<Source>)
    requires |sources| == 4 && forall i :: 0 <= i < 4 ==> sources[i].available > 100 * b
    requires sources[0].name == "hot" && sources[1].name == "procedural" && sources[2].name == "cold" && sources[3].name == "deep"
    ensures TokensOf(Allocated(100 * b, sources)) == [40 * b, 25 * b, 25 * b, 10 * b]
  {
    AllActive(sources);
    DefaultsOfFour(sources);
    SharesOfFour(b, sources, Ratios(sources));
    AssignedIsTotal(Shares(100 * b, sources, 4));
    TotalOfFour(40 * b, 25 * b, 25 * b, 10 * b);
  }

  function TokensOf(r: seq<Allocation>): seq<int> {
    seq(|r|, i requires 0 <= i < |r| => r[i].tokens)
  }

  lemma {:induction false} AssignedIsTotal(r: seq<Allocation>)
    requires forall i :: 0 <= i < |r| ==> r[i].tokens >= 0
    ensures Assigned(r) == Total(TokensOf(r))
  {
    if r != [] {
      AssignedIsTotal(r[..|r| - 1]);
      assert TokensOf(r)[..|r| - 1] == TokensOf(r[..|r| - 1]);
    }
  }

  lemma TotalOfFour(a: nat, b: nat, c: nat, d: nat)
    ensures Total([a, b, c, d]) == a + b + c + d
  {
    TotalAppend([], a);
    TotalAppend([a], b);
    TotalAppend([a, b], c);
    TotalAppend([a, b, c], d);
    assert [] + [a] == [a] && [a] + [b] == [a, b] && [a, b] + [c] == [a, b, c] && [a, b, c] + [d] == [a, b, c, d];
  }

  lemma TotalAppend(r: seq<nat>, x: nat)
    ensures Total(r + [x]) == Total(r) + x
  {
    assert (r + [x])[..|r|] == r;
  }

  lemma DefaultsOfFour(sources: seq<Source>)
    requires |sources| == 4
    requires sources[0].name == "hot" && sources[1].name == "procedural" && sources[2].name == "cold" && sources[3].name == "deep"
    ensures Ratios(sources) == [40, 25, 25, 10] && Total(Ratios(sources)) == 100
  {
    assert DefaultRatios(sources) == [40, 25, 25, 10];
    TotalOfFour(40, 25, 25, 10);
  }

  lemma Hundredth(a: int, n: int)
    requires a == 100 * n
    ensures a / 100 == n
  {
  }

  lemma SharesOfFour(b: nat, sources: seq<Source>, ratios: seq<nat>)
    requires |sources| == 4 && forall i :: 0 <= i < 4 ==> sources[i].available > 100 * b
    requires ratios == Ratios(sources) == [40, 25, 25, 10] && Total(ratios) == 100
    ensures TokensOf(Shares(100 * b, sources, 4)) == [40 * b, 25 * b, 25 * b, 10 * b]
  {
    Hundredth(100 * b * 40, 40 * b);
    Hundredth(100 * b * 25, 25 * b);
    Hundredth(100 * b * 10, 10 * b);
  }

  lemma {:induction false} AllActive(sources: seq<Source>)
    requires forall i :: 0 <= i < |sources| ==> sources[i].available > 0
    ensures Active(sources) == sources
  {
    if sources != [] {
      AllActive(sources[..|sources| - 1]);
      assert sources == sources[..|sources| - 1] + [sources[|sources| - 1]];
    }
  }

  /** A source without a default ratio (such as atomic_facts) gets nothing as soon as another active
      source has one, unless it comes first. */
  lemma NoRatioNoTokens(budget: int, sources: seq<Source>, i: nat)
    requires 1 <= i < |Active(sources)| && DefaultRatio(Active(sources)[i].name) == 0
    requires Total(DefaultRatios(Active(sources))) > 0
    ensures Allocated(budget, sources)[i].tokens == 0
  {
    var active := Active(sources);
    assert Ratios(active)[i] == 0;
    assert Share(budget, active, i) == 0;
  }

  /** The budget of a source, 0 if it was not allocated any. */
  function TokensFor(r: seq<Allocation>, name: string): int {
    if r == [] then 0 else if r[0].source == name then r[0].tokens else TokensFor(r[1..], name)
  }

  // ---- _select_by_budget ----

  function Costs<T>(items: seq<T>, taken: seq<bool>, cost: T -> nat): nat
    requires |taken| <= |items|
  {
    if taken == [] then 0
    else Costs(items, taken[..|taken| - 1], cost) + if taken[|taken| - 1] then cost(items[|taken| - 1]) else 0
  }

  /** Which of the first n items are selected: each that still fits when its turn comes. */
  function Taken<T>(items: seq<T>, budget: int, cost: T -> nat, n: nat): (r: seq<bool>)
    requires n <= |items|
    ensures |r| == n
  {
    if n == 0 then []
    else
      var before := Taken(items, budget, cost, n - 1);
      before + [Costs(items, before, cost) + cost(items[n - 1]) <= budget]
  }

  function Picked<T>(items: seq<T>, taken: seq<bool>): seq<T>
    requires |taken| <= |items|
  {
    if taken == [] then []
    else Picked(items, taken[..|taken| - 1]) + if taken[|taken| - 1] then [items[|taken| - 1]] else []
  }

  function TotalCost<T>(items: seq<T>, cost: T -> nat): nat {
    if items == [] then 0 else TotalCost(items[..|items| - 1], cost) + cost(items[|items| - 1])
  }

  function Selected<T>(items: seq<T>, budget: int, cost: T -> nat): seq<T> {
    if budget <= 0 then [] else Picked(items, Taken(items, budget, cost, |items|))
  }

  method SelectByBudget<T>(items: seq<T>, budget: int, cost: T -> nat) returns (selected: seq<T>)
    ensures selected == Selected(items, budget, cost)
  {
    if budget <= 0 {
      return [];
    }
    selected := [];
    var used := 0;
    for i := 0 to |items|
      invariant selected == Picked(items, Taken(items, budget, cost, i))
      invariant used == Costs(items, Taken(items, budget, cost, i), cost)
    {
      assert Taken(items, budget, cost, i + 1)[..i] == Taken(items, budget, cost, i);
      var tokens := cost(items[i]);
      if used + tokens <= budget {
        selected := selected + [items[i]];
        used := used + tokens;
      }
    }
  }

  lemma {:induction false} PickedCost<T>(items: seq<T>, taken: seq<bool>, cost: T -> nat)
    requires |taken| <= |items|
    ensures TotalCost(Picked(items, taken), cost) == Costs(items, taken, cost)
  {
    if taken != [] {
      var front := taken[..|taken| - 1];
      PickedCost(items, front, cost);
      assert Picked(items, front) + [] == Picked(items, front);
      if taken[|taken| - 1] {
        assert Picked(items, taken)[..|Picked(items, front)|] == Picked(items, front);
      }
    }
  }

  /** How many items are taken. */
  function Ones(taken: seq<bool>): nat {
    if taken == [] then 0 else Ones(taken[..|taken| - 1]) + if taken[|taken| - 1] then 1 else 0
  }

  /** The selected items keep their order: each stands after the selected ones before it. */
  lemma {:induction false} PickedInOrder<T>(items: seq<T>, taken: seq<bool>, i: nat)
    requires |taken| <= |items| && i < |taken| && taken[i]
    ensures Ones(taken[..i]) < |Picked(items, taken)| && Picked(items, taken)[Ones(taken[..i])] == items[i]
  {
    var n := |taken| - 1;
    assert taken[..n][..i] == taken[..i];
    if i < n {
      PickedInOrder(items, taken[..n], i);
    } else {
      PickedSize(items, taken[..n]);
    }
  }

  lemma {:induction false} PickedSize<T>(items: seq<T>, taken: seq<bool>)
    requires |taken| <= |items|
    ensures |Picked(items, taken)| == Ones(taken)
  {
    if taken != [] {
      PickedSize(items, taken[..|taken| - 1]);
    }
  }

  lemma {:induction false} CostsGrow<T>(items: seq<T>, taken: seq<bool>, cost: T -> nat, n: nat)
    requires n <= |taken| <= |items|
    ensures Costs(items, taken[..n], cost) <= Costs(items, taken, cost)
    decreases |taken|
  {
    if n < |taken| {
      assert taken[..|taken| - 1][..n] == taken[..n];
      CostsGrow(items, taken[..|taken| - 1], cost, n);
    } else {
      assert taken[..n] == taken;
    }
  }

  lemma {:induction false} TakenPrefix<T>(items: seq<T>, budget: int, cost: T -> nat, n: nat, m: nat)
    requires n <= m <= |items|
    ensures Taken(items, budget, cost, m)[..n] == Taken(items, budget, cost, n)
    decreases m
  {
    if n < m {
      TakenPrefix(items, budget, cost, n, m - 1);
      var before := Taken(items, budget, cost, m - 1);
      PrefixOfAppend(before, Costs(items, before, cost) + cost(items[m - 1]) <= budget, n);
    }
  }

  lemma PrefixOfAppend<T>(s: seq<T>, x: T, n: nat)
    requires n <= |s|
    ensures (s + [x])[..n] == s[..n]
  {
  }

  lemma {:induction false} TakenFits<T>(items: seq<T>, budget: int, cost: T -> nat, n: nat)
    requires n <= |items| && budget >= 0
    ensures Costs(items, Taken(items, budget, cost, n), cost) <= budget
  {
    if n > 0 {
      TakenFits(items, budget, cost, n - 1);
      assert Taken(items, budget, cost, n)[..n - 1] == Taken(items, budget, cost, n - 1);
    }
  }

  /** Selection stays within budget, and no item left out could be added to it. */
  lemma SelectionIsMaximal<T>(items: seq<T>, budget: int, cost: T -> nat, i: nat)
    requires i < |items|
    ensures TotalCost(Selected(items, budget, cost), cost) <= if budget < 0 then 0 else budget
    ensures budget > 0 && !Taken(items, budget, cost, |items|)[i] ==> TotalCost(Selected(items, budget, cost), cost) + cost(items[i]) > budget
  {
    if budget > 0 {
      var taken := Taken(items, budget, cost, |items|);
      TakenFits(items, budget, cost, |items|);
      PickedCost(items, taken, cost);
      TakenPrefix(items, budget, cost, i + 1, |items|);
      assert taken[i] == taken[..i + 1][i];
      TakenPrefix(items, budget, cost, i, i + 1);
      TakenPrefix(items, budget, cost, i, |items|);
      CostsGrow(items, taken, cost, i);
    }
  }

  /** Any other choice within budget first departs from the selection by leaving out an item that the
      selection has: earlier items are never given up for later ones. */
  lemma SelectionPrefersEarlier<T>(items: seq<T>, budget: int, cost: T -> nat, other: seq<bool>, i: nat)
    requires |other| == |items| && i < |items| && Costs(items, other, cost) <= budget
    requires other[..i] == Taken(items, budget, cost, |items|)[..i] && other[i] != Taken(items, budget, cost, |items|)[i]
    ensures Taken(items, budget, cost, |items|)[i] && !other[i]
  {
    var taken := Taken(items, budget, cost, |items|);
    TakenPrefix(items, budget, cost, i, |items|);
    TakenPrefix(items, budget, cost, i + 1, |items|);
    assert taken[i] == taken[..i + 1][i];
    CostsGrow(items, other, cost, i + 1);
    assert other[..i + 1][..i] == other[..i];
  }

  /** The three selected sources together stay within a budget that is not negative. */
  lemma SelectionsFitTogether<T>(budget: nat, sources: seq<Source>, facts: seq<T>, skills: seq<T>, cold: seq<T>, cost: T -> nat)
    requires Active(sources) != []
    ensures var r := Allocated(budget, sources);
      TotalCost(Selected(facts, TokensFor(r, "atomic_facts"), cost), cost)
      + TotalCost(Selected(skills, TokensFor(r, "procedural"), cost), cost)
      + TotalCost(Selected(cold, TokensFor(r, "cold"), cost), cost) <= budget
  {
    var r := Allocated(budget, sources);
    AllocateConserves(budget, sources);
    AllocateIsUsable(budget, sources);
    assert forall i :: 0 <= i < |r| ==> Usable(r[i], Active(sources)[i], i);
    TokensForThree(r);
    SelectionFits(facts, TokensFor(r, "atomic_facts"), cost);
    SelectionFits(skills, TokensFor(r, "procedural"), cost);
    SelectionFits(cold, TokensFor(r, "cold"), cost);
  }

  lemma SelectionFits<T>(items: seq<T>, budget: int, cost: T -> nat)
    requires budget >= 0
    ensures TotalCost(Selected(items, budget, cost), cost) <= budget
  {
    TakenFits(items, budget, cost, |items|);
    PickedCost(items, Taken(items, budget, cost, |items|), cost);
  }

  lemma {:induction false} TokensForThree(r: seq<Allocation>)
    requires forall i :: 0 <= i < |r| ==> r[i].tokens >= 0
    ensures TokensFor(r, "atomic_facts") >= 0 && TokensFor(r, "procedural") >= 0 && TokensFor(r, "cold") >= 0
    ensures TokensFor(r, "atomic_facts") + TokensFor(r, "procedural") + TokensFor(r, "cold") <= Assigned(r)
  {
    if r != [] {
      TokensForThree(r[1..]);
      AssignedFirst(r);
    }
  }

  lemma {:induction false} AssignedFirst(r: seq<Allocation>)
    requires r != []
    ensures Assigned(r) == r[0].tokens + Assigned(r[1..])
  {
    if |r| > 1 {
      var front := r[..|r| - 1];
      AssignedFirst(front);
      assert r[1..][..|r| - 2] == front[1..];
    } else {
      assert r[..0] == [];
    }
  }

  // ---- estimate_tokens and trim_to_budget ----

  /** int(words * 1.3) */
  function Estimate(words: nat): nat {
    13 * words / 10
  }

  function EstimateTokens(text: string): nat {
    Estimate(|Text.Split(text)|)
  }

  /** words * 1.3 rounded up, as the documentation says. */
  function RoundedUp(words: nat): nat {
    (13 * words + 9) / 10
  }

  /** The estimate is the rounded-up value if and only if the number of words is a multiple of ten, and one
      less otherwise. */
  lemma EstimateRoundsUpExactlyWhen(words: nat)
    ensures Estimate(words) == RoundedUp(words) <==> words % 10 == 0
    ensures words % 10 != 0 ==> Estimate(words) == RoundedUp(words) - 1
  {
    TensAndRest(words / 10, words % 10);
  }

  lemma TensAndRest(tens: nat, rest: nat)
    requires rest < 10
    ensures Estimate(10 * tens + rest) == 13 * tens + 13 * rest / 10
    ensures RoundedUp(10 * tens + rest) == 13 * tens + (13 * rest + 9) / 10
  {
  }

  lemma OneWordRoundsDown()
    ensures EstimateTokens("a") == 1 && RoundedUp(|Text.Split("a")|) == 2
  {
    Text.SplitJoin(["a"]);
  }

  /** The most words whose estimate is within the limit. */
  function MostWords(maxTokens: nat): (n: nat)
    ensures forall k: nat :: Estimate(k) <= maxTokens <==> k <= n
  {
    (10 * maxTokens + 9) / 13
  }

  /** The binary search finds the longest run of leading words whose estimate fits. */
  method TrimToBudget(text: string, maxTokens: int) returns (r: string)
    ensures r == if text == [] || maxTokens <= 0 then ""
                 else if EstimateTokens(text) <= maxTokens then text
                 else Text.Join(Text.Split(text)[..MostWords(maxTokens)])
  {
    if text == [] || maxTokens <= 0 {
      return "";
    }
    var words := Text.Split(text);
    if Estimate(|words|) <= maxTokens {
      return text;
    }
    var lo, hi := 0, |words|;
    while lo < hi
      invariant 0 <= lo <= MostWords(maxTokens)
      invariant lo <= hi <= |words| && MostWords(maxTokens) <= hi
      decreases hi - lo
    {
      var mid := (lo + hi + 1) / 2;
      if Estimate(mid) <= maxTokens {
        lo := mid;
      } else {
        hi := mid - 1;
      }
    }
    r := Text.Join(words[..lo]);
  }

  /** Joining words[..n] gives a text with exactly those words, so a cut text is within its limit, and
      one more word would not be. */
  lemma TrimFitsTightly(text: string, maxTokens: nat)
    requires EstimateTokens(text) > maxTokens
    ensures MostWords(maxTokens) < |Text.Split(text)|
    ensures var words := Text.Split(text);
      && Text.Split(Text.Join(words[..MostWords(maxTokens)])) == words[..MostWords(maxTokens)]
      && EstimateTokens(Text.Join(words[..MostWords(maxTokens)])) <= maxTokens
      && EstimateTokens(Text.Join(words[..MostWords(maxTokens) + 1])) > maxTokens
  {
    var words, n := Text.Split(text), MostWords(maxTokens);
    assert Estimate(|words|) > maxTokens;
    Text.SplitJoin(words[..n]);
    Text.SplitJoin(words[..n + 1]);
  }
}
