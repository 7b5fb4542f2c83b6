/** Many runtime nodes over one task table (cognix/scheduler/dispatcher.py, store.py).
    A step is what happens between two awaits: one store update, or the clock moving.
    Nodes read the clock before their update reaches the table, so `now` may lag behind it. */
module LeaseProtocol {
  import opened Wrappers
  import opened Retry
  import opened TaskTable

  /** Where a worker stands between winning a lease and leaving it. */
  datatype Phase =
    | Holding                       // lease won, row not read back yet
    | Keyed(key: string)            // row read, idempotency key to be checked
    | Storing(key: string)          // key not seen, to be stored on the row
    | Running                       // executor started, heartbeat loop running
    | Recorded                      // run record persisted, executor not returned yet
    | Finished(failed: bool)        // executor returned, timed out or was skipped
    | Settling(failed: bool, runCount: int, maxRetries: int)  // row re-read, completion pending
    | Leaving                       // row found canceled, lease to be given back

  /** refreshed is the clock reading of the last successful claim or heartbeat; beating is
      false once a heartbeat has found the lease gone. */
  datatype Worker = Worker(phase: Phase, ttl: int, refreshed: int, beating: bool)

  /** runs and replays are history: persisted executions and successful replays of each task. */
  datatype State = State(
    rows: Table,
    clock: int,
    workers: map<(string, string), Worker>,
    runs: map<string, nat>,
    replays: map<string, nat>)

  datatype Step =
    | Tick(seconds: nat)
    | Create(id: string, row: Row)
    | Acquire(node: string, id: string, now: int, ttl: int)
    | ReadBack(node: string, id: string)
    | CheckKey(node: string, id: string)
    | StoreKey(node: string, id: string)
    | Extend(node: string, id: string, now: int)
    | Persist(node: string, id: string, now: int)
    | Finish(node: string, id: string, failed: bool)
    | Observe(node: string, id: string)
    | Complete(node: string, id: string, now: int, policy: Policy, next: Option<int>)
    | Discard(node: string, id: string)
    | Release(node: string, id: string)
    | Crash(node: string, id: string)
    | Reap(now: int)
    | Cancel(id: string)
    | Replay(id: string, now: int)

  function Count(m: map<string, nat>, id: string): nat {
    if id in m then m[id] else 0
  }

  predicate InPhase(s: State, node: string, id: string, phase: Phase) {
    (node, id) in s.workers && s.workers[(node, id)].phase == phase
  }

  predicate Finishing(s: State, node: string, id: string) {
    (node, id) in s.workers && s.workers[(node, id)].phase.Finished?
  }

  function Moved(s: State, node: string, id: string, phase: Phase): State
    requires (node, id) in s.workers
  {
    s.(workers := s.workers[(node, id) := s.workers[(node, id)].(phase := phase)])
  }

  function Gone(s: State, node: string, id: string): State {
    s.(workers := s.workers - {(node, id)})
  }

  /** A row as TaskStore.Create makes it. */
  predicate FreshRow(r: Row) {
    r.state == Active && r.owner.None? && r.expires.None? && r.runCount == 0 && r.lastRun.None?
  }

  /** A lease may be tried at any moment, due or not: a dispatcher may hold a stale candidate
      list and the engine is driven by its own timer. One worker path per node and task. */
  predicate Enabled(s: State, step: Step) {
    match step
    case Tick(_) => true
    case Create(id, row) => id !in s.rows && FreshRow(row)
    case Acquire(n, id, now, _) => id in s.rows && (n, id) !in s.workers && now <= s.clock
    case ReadBack(n, id) => id in s.rows && InPhase(s, n, id, Holding)
    case CheckKey(n, id) => id in s.rows && (n, id) in s.workers && s.workers[(n, id)].phase.Keyed?
    case StoreKey(n, id) => id in s.rows && (n, id) in s.workers && s.workers[(n, id)].phase.Storing?
    case Extend(n, id, now) =>
      id in s.rows && now <= s.clock && (InPhase(s, n, id, Running) || InPhase(s, n, id, Recorded)) && s.workers[(n, id)].beating
    case Persist(n, id, now) => id in s.rows && now <= s.clock && InPhase(s, n, id, Running)
    case Finish(n, id, _) => InPhase(s, n, id, Running) || InPhase(s, n, id, Recorded)
    case Observe(n, id) => id in s.rows && Finishing(s, n, id)
    case Complete(n, id, now, _, _) =>
      id in s.rows && now <= s.clock && (n, id) in s.workers && s.workers[(n, id)].phase.Settling?
    case Discard(n, id) => id in s.rows && s.rows[id].state == Canceled && (InPhase(s, n, id, Holding) || Finishing(s, n, id))
    case Release(n, id) => id in s.rows && InPhase(s, n, id, Leaving)
    case Crash(n, id) => (n, id) in s.workers
    case Reap(now) => now <= s.clock
    case Cancel(id) => id in s.rows
    case Replay(id, now) => id in s.rows && now <= s.clock
  }

  function Apply(s: State, step: Step): State
    requires Enabled(s, step)
  {
    match step
    case Tick(d) => s.(clock := s.clock + d)
    case Create(id, row) => s.(rows := s.rows[id := row])
    case Acquire(n, id, now, ttl) =>
      if Leasable(s.rows[id], n, now) then
        s.(rows := s.rows[id := Leased(s.rows[id], n, now + ttl)],
           workers := s.workers[(n, id) := Worker(Holding, ttl, now, true)])
      else s
    case ReadBack(n, id) =>
      var key := EffectiveKey(s.rows[id]);
      Moved(s, n, id, if key.Some? then Keyed(key.value) else Running)
    case CheckKey(n, id) =>
      var key := s.workers[(n, id)].phase.key;
      Moved(s, n, id, if KeySeen(s.rows[id], key) then Finished(false) else Storing(key))
    case StoreKey(n, id) =>
      var key := s.workers[(n, id)].phase.key;
      Moved(s, n, id, Running).(rows := s.rows[id := s.rows[id].(key := Some(key))])
    case Extend(n, id, now) =>
      var w := s.workers[(n, id)];
      if Extendable(s.rows[id], n) then
        s.(rows := s.rows[id := s.rows[id].(expires := Some(now + w.ttl))],
           workers := s.workers[(n, id) := w.(refreshed := now)])
      else s.(workers := s.workers[(n, id) := w.(beating := false)])
    case Persist(n, id, now) =>
      Moved(s, n, id, Recorded).(
        rows := s.rows[id := Persisted(s.rows[id], now)],
        runs := s.runs[id := Count(s.runs, id) + 1])
    case Finish(n, id, failed) => Moved(s, n, id, Finished(failed))
    case Observe(n, id) =>
      var r := s.rows[id];
      if r.state == Canceled then Gone(s, n, id)
      else Moved(s, n, id, Settling(s.workers[(n, id)].phase.failed, r.runCount, r.maxRetries))
    case Complete(n, id, now, policy, next) =>
      var p := s.workers[(n, id)].phase;
      Gone(s, n, id).(rows := CompletedTable(s.rows, id, n, Settle(p.failed, p.runCount, p.maxRetries, now, policy, next)))
    case Discard(n, id) => Moved(s, n, id, Leaving)
    case Release(n, id) => Gone(s, n, id).(rows := ReleasedTable(s.rows, id, n))
    case Crash(n, id) => Gone(s, n, id)
    case Reap(now) => s.(rows := Reaped(s.rows, now))
    case Cancel(id) => s.(rows := s.rows[id := CanceledRow(s.rows[id])])
    case Replay(id, now) =>
      if s.rows[id].state == Failed then
        s.(rows := s.rows[id := Replayed(s.rows[id], now)],
           replays := s.replays[id := Count(s.replays, id) + 1])
      else s
  }

  /** Nothing leased, nobody working, no history. */
  predicate Init(s: State) {
    && (forall t :: t in s.rows ==> s.rows[t].owner.None? && s.rows[t].expires.None?)
    && s.workers == map[] && s.runs == map[] && s.replays == map[]
  }

  ghost predicate Link(states: seq<State>, steps: seq<Step>, i: nat)
    requires i < |steps| && |states| == |steps| + 1
  {
    Enabled(states[i], steps[i]) && states[i + 1] == Apply(states[i], steps[i])
  }

  /** One interleaving of every node, the clock and the operators. */
  ghost predicate IsRun(states: seq<State>, steps: seq<Step>) {
    && |states| == |steps| + 1
    && Init(states[0])
    && forall i :: 0 <= i < |steps| ==> Link(states, steps, i)
  }

  /** A run grows by any enabled step. */
  lemma RunGrows(states: seq<State>, steps: seq<Step>, step: Step)
    requires IsRun(states, steps) && Enabled(states[|steps|], step)
    ensures IsRun(states + [Apply(states[|steps|], step)], steps + [step])
  {
    var states', steps' := states + [Apply(states[|steps|], step)], steps + [step];
    forall i | 0 <= i < |steps'| ensures Link(states', steps', i) {
      if i < |steps| {
        assert Link(states, steps, i);
      }
    }
  }

  /** The task is, or becomes, the row r that Create makes. */
  ghost predicate CreatedAs(states: seq<State>, steps: seq<Step>, id: string, r: Row)
    requires |states| == |steps| + 1
  {
    && FreshRow(r)
    && (id in states[0].rows ==> states[0].rows[id] == r)
    && forall i :: 0 <= i < |steps| && steps[i].Create? && steps[i].id == id ==> steps[i].row == r
  }

  predicate Granted(s: State, step: Step) {
    step.Acquire? && step.id in s.rows && Leasable(s.rows[step.id], step.node, step.now)
  }

  predicate Touches(step: Step, id: string) {
    match step
    case Tick(_) => false
    case Reap(_) => false
    case Create(t, _) => t == id
    case Acquire(_, t, _, _) => t == id
    case ReadBack(_, t) => t == id
    case CheckKey(_, t) => t == id
    case StoreKey(_, t) => t == id
    case Extend(_, t, _) => t == id
    case Persist(_, t, _) => t == id
    case Finish(_, t, _) => t == id
    case Observe(_, t) => t == id
    case Complete(_, t, _, _, _) => t == id
    case Discard(_, t) => t == id
    case Release(_, t) => t == id
    case Crash(_, t) => t == id
    case Cancel(t) => t == id
    case Replay(t, _) => t == id
  }

  /** A step on another task leaves this one alone; reaping takes expired leases only. */
  lemma Untouched(s: State, step: Step, id: string)
    requires Enabled(s, step) && !Touches(step, id)
    ensures id in s.rows <==> id in Apply(s, step).rows
    ensures id in s.rows ==>
      || Apply(s, step).rows[id] == s.rows[id]
      || (Orphaned(s.rows[id], s.clock) && Apply(s, step).rows[id] == Unleased(s.rows[id]))
    ensures forall n :: (n, id) in s.workers <==> (n, id) in Apply(s, step).workers
    ensures forall n :: (n, id) in s.workers ==> Apply(s, step).workers[(n, id)] == s.workers[(n, id)]
    ensures Count(Apply(s, step).runs, id) == Count(s.runs, id)
    ensures Count(Apply(s, step).replays, id) == Count(s.replays, id)
  {
    WorkersUntouched(s, step, id);
    RowUntouched(s, step, id);
  }

  lemma WorkersUntouched(s: State, step: Step, id: string)
    requires Enabled(s, step) && !Touches(step, id)
    ensures forall n :: (n, id) in s.workers <==> (n, id) in Apply(s, step).workers
    ensures forall n :: (n, id) in s.workers ==> Apply(s, step).workers[(n, id)] == s.workers[(n, id)]
  {
  }

  lemma RowUntouched(s: State, step: Step, id: string)
    requires Enabled(s, step) && !Touches(step, id)
    ensures id in s.rows <==> id in Apply(s, step).rows
    ensures id in s.rows ==>
      || Apply(s, step).rows[id] == s.rows[id]
      || (Orphaned(s.rows[id], s.clock) && Apply(s, step).rows[id] == Unleased(s.rows[id]))
  {
  }
}
