/** Exclusive execution under timely heartbeats (cognix/scheduler/dispatcher.py:206-209, 264-281). */
module LeaseExclusion {
  import opened Wrappers
  import opened TaskTable
  import opened LeaseProtocol
  import opened LeaseBelief

  // ---- the timing assumption ----

  /** No worker whose heartbeats still succeed has let its ttl pass since its last refresh. */
  ghost predicate Timely(s: State) {
    forall n, t :: (n, t) in s.workers && s.workers[(n, t)].beating ==> Believes(s, n, t)
  }

  ghost predicate IsTimelyRun(states: seq<State>, steps: seq<Step>) {
    IsRun(states, steps) && forall i :: 0 <= i < |states| ==> Timely(states[i])
  }

  ghost predicate Exclusive(s: State) {
    forall n, m, t :: (n, t) in s.workers && (m, t) in s.workers ==> n == m
  }

  /** A worker that lost its heartbeat works on a canceled task. */
  ghost predicate LostMeansCanceled(s: State) {
    forall n, t :: (n, t) in s.workers && !s.workers[(n, t)].beating ==> t in s.rows && s.rows[t].state == Canceled
  }

  ghost predicate ExclusionInv(s: State) {
    BeliefInv(s) && Exclusive(s) && LostMeansCanceled(s)
  }

  /** A lease is only granted on a task nobody else works on. */
  lemma GrantMeansAlone(s: State, node: string, id: string, now: int, other: string)
    requires ExclusionInv(s) && Timely(s) && now <= s.clock
    requires id in s.rows && Leasable(s.rows[id], node, now) && (other, id) in s.workers
    ensures other == node
  {
    assert s.workers[(other, id)].beating;
    assert Believes(s, other, id);
  }

  lemma ExclusionStep(s: State, step: Step)
    requires ExclusionInv(s) && Timely(s) && Enabled(s, step)
    ensures ExclusionInv(Apply(s, step))
  {
    BeliefStep(s, step);
    LostStep(s, step);
    AloneStep(s, step);
  }

  lemma LostStep(s: State, step: Step)
    requires ExclusionInv(s) && Timely(s) && Enabled(s, step)
    ensures LostMeansCanceled(Apply(s, step))
  {
    var s' := Apply(s, step);
    forall n, t | (n, t) in s'.workers && !s'.workers[(n, t)].beating
      ensures t in s'.rows && s'.rows[t].state == Canceled
    {
      if s.workers[(n, t)].beating {
        assert step.Extend? && Believes(s, n, t);
      }
    }
  }

  lemma AloneStep(s: State, step: Step)
    requires ExclusionInv(s) && Timely(s) && Enabled(s, step)
    ensures Exclusive(Apply(s, step))
  {
    var s' := Apply(s, step);
    forall n, m, t | (n, t) in s'.workers && (m, t) in s'.workers ensures n == m {
      if Granted(s, step) && step.id == t {
        if (n, t) in s.workers {
          GrantMeansAlone(s, step.node, t, step.now, n);
        }
        if (m, t) in s.workers {
          GrantMeansAlone(s, step.node, t, step.now, m);
        }
      }
    }
  }

  /** If no gap between refreshes, or from the last refresh to completion, exceeds the ttl, then
      in every interleaving no two nodes are between claim and completion of the same task, and
      a working node's row is leased to it unless the task was canceled. */
  lemma {:induction false} TimelyRunsExclude(states: seq<State>, steps: seq<Step>, i: nat)
    requires IsTimelyRun(states, steps) && i < |states|
    ensures ExclusionInv(states[i])
    ensures forall n, t :: (n, t) in states[i].workers ==>
      states[i].rows[t].state == Canceled || Backs(states[i].rows[t], n, states[i].workers[(n, t)])
  {
    if i > 0 {
      TimelyRunsExclude(states, steps, i - 1);
      assert Link(states, steps, i - 1);
      ExclusionStep(states[i - 1], steps[i - 1]);
    }
  }

  // ---- the heartbeat schedule ----

  function HeartbeatInterval(ttl: int): int {
    Max(ttl / 3, 10)
  }

  /** Every worker uses this ttl and refreshes at most delay seconds after its heartbeat is due. */
  ghost predicate Punctual(s: State, ttl: int, delay: nat) {
    forall n, t :: (n, t) in s.workers ==>
      && s.workers[(n, t)].ttl == ttl
      && (s.workers[(n, t)].beating ==> s.clock <= s.workers[(n, t)].refreshed + HeartbeatInterval(ttl) + delay)
  }

  ghost predicate IsPunctualRun(states: seq<State>, steps: seq<Step>, ttl: int, delay: nat) {
    IsRun(states, steps) && forall i :: 0 <= i < |states| ==> Punctual(states[i], ttl, delay)
  }

  lemma PunctualIsTimely(states: seq<State>, steps: seq<Step>, ttl: int, delay: nat)
    requires IsPunctualRun(states, steps, ttl, delay) && HeartbeatInterval(ttl) + delay <= ttl
    ensures IsTimelyRun(states, steps)
  {
    forall i | 0 <= i < |states| ensures Timely(states[i]) {
      assert Punctual(states[i], ttl, delay);
    }
  }

  /** Otherwise a second node takes the lease before the first one's heartbeat is due. */
  lemma LateHeartbeatsOverlap(ttl: int, delay: nat) returns (states: seq<State>, steps: seq<Step>)
    requires HeartbeatInterval(ttl) + delay > ttl
    ensures IsPunctualRun(states, steps, ttl, delay)
    ensures exists i :: 0 <= i < |states| && !Exclusive(states[i])
  {
    var row := Row(Active, Some(0), None, None, 0, 3, None, None, None);
    var wait: nat := if ttl < 0 then 0 else ttl + 1;
    var s0 := State(map["t" := row], 0, map[], map[], map[]);
    steps := [Acquire("a", "t", 0, ttl), Tick(wait), Acquire("b", "t", wait, ttl)];
    var s1 := Apply(s0, steps[0]);
    var s2 := Apply(s1, steps[1]);
    var s3 := Apply(s2, steps[2]);
    states := [s0, s1, s2, s3];
    assert Link(states, steps, 0) && Link(states, steps, 1) && Link(states, steps, 2);
    assert ("a", "t") in s3.workers && ("b", "t") in s3.workers;
    assert !Exclusive(states[3]);
  }

  /** Heartbeats late by at most `delay` seconds keep execution exclusive in every run exactly
      when the interval plus the delay fits in the ttl; with no delay, exactly from ttl 10 on. */
  lemma HeartbeatToleranceIsExact(ttl: int, delay: nat)
    ensures (forall states, steps :: IsPunctualRun(states, steps, ttl, delay) ==>
              forall i :: 0 <= i < |states| ==> Exclusive(states[i]))
       <==> HeartbeatInterval(ttl) + delay <= ttl
    ensures HeartbeatInterval(ttl) <= ttl <==> ttl >= 10
    ensures HeartbeatInterval(ttl) < ttl <==> ttl > 10
  {
    if HeartbeatInterval(ttl) + delay <= ttl {
      forall states, steps, i | IsPunctualRun(states, steps, ttl, delay) && 0 <= i < |states|
        ensures Exclusive(states[i])
      {
        PunctualIsTimely(states, steps, ttl, delay);
        TimelyRunsExclude(states, steps, i);
      }
    } else {
      var states, steps := LateHeartbeatsOverlap(ttl, delay);
    }
  }
}
