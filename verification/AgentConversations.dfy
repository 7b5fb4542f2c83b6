/** Whose conversation a resumption continues, over all turns of an agent
    (cognix/core/agent.py:223-326, 675-780, 961-977). */
module AgentConversations {
  import opened Wrappers
  import opened Messages
  import opened Permissions
  import opened Approvals
  import opened AgentTools
  import opened AgentLoop
  import opened AgentEvents

  // ---- what a saved conversation says of its gate ----

  lemma GateTextsDiffer(i: nat, j: nat)
    ensures GateText(i) == GateText(j) <==> i == j
  {
    var prefix := "Approval required [";
    assert GateText(i)[|prefix|..|GateText(i)| - 1] == Text.Decimal(i);
    assert GateText(j)[|prefix|..|GateText(j)| - 1] == Text.Decimal(j);
    Text.ParseDecimal(i);
    Text.ParseDecimal(j);
  }

  /** The conversation ends with the stand-in result of request id. */
  predicate Tags(sn: Snapshot, id: nat) {
    sn.messages != [] && sn.messages[|sn.messages| - 1].content == Plain(GateText(id))
  }

  /** Every saved conversation stopped at the request that holds it. */
  ghost predicate Tagged(w: World) {
    forall a :: a in w.approvals && a.snapshot.Some? ==> Tags(a.snapshot.value, a.id)
  }

  ghost predicate WorldOk(w: World) {
    IdsUsed(w) && Tagged(w)
  }

  predicate SameSnapshot(w: World, w': World, id: nat) {
    Find(w.approvals, id).Some? ==>
      Find(w'.approvals, id).Some? && Find(w'.approvals, id).value.snapshot == Find(w.approvals, id).value.snapshot
  }

  /** Nothing that was saved before is lost or replaced. */
  ghost predicate Extends(w: World, w': World) {
    w.nextId <= w'.nextId && forall id: nat :: id < w.nextId ==> SameSnapshot(w, w', id)
  }

  lemma ExtendsTransitive(u: World, v: World, w: World)
    requires Extends(u, v) && Extends(v, w)
    ensures Extends(u, w)
  {
    forall id: nat | id < u.nextId ensures SameSnapshot(u, w, id) {
      assert SameSnapshot(u, v, id) && SameSnapshot(v, w, id);
    }
  }

  lemma SameApprovals(w: World, w': World)
    requires WorldOk(w) && w'.approvals == w.approvals && w'.nextId == w.nextId
    ensures WorldOk(w') && Extends(w, w')
  {
  }

  lemma RequestKeeps(w: World, agentId: string, tool: string, args: string, level: string)
    requires WorldOk(w)
    ensures WorldOk(Requested(w, agentId, tool, args, level)) && Extends(w, Requested(w, agentId, tool, args, level))
  {
    var request := Approval(w.nextId, agentId, tool, args, level, Pending, "", None);
    forall id: nat | id < w.nextId ensures SameSnapshot(w, Requested(w, agentId, tool, args, level), id) {
      FindAppend(w.approvals, request, id);
    }
  }

  lemma StatusKeeps(w: World, id: nat, status: Status, result: string)
    requires WorldOk(w)
    ensures var w' := w.(approvals := SetStatus(w.approvals, id, status, result));
      WorldOk(w') && Extends(w, w')
  {
    var w' := w.(approvals := SetStatus(w.approvals, id, status, result));
    forall a | a in w'.approvals ensures a.id < w'.nextId && (a.snapshot.Some? ==> Tags(a.snapshot.value, a.id)) {
      var i :| 0 <= i < |w'.approvals| && w'.approvals[i] == a;
      assert w.approvals[i] in w.approvals;
    }
    forall other: nat | other < w.nextId ensures SameSnapshot(w, w', other) {
      FindSetStatus(w.approvals, id, status, result, other);
    }
  }

  /** A conversation is saved on the request filed last. */
  lemma SaveKeeps(before: World, w: World, id: nat, sn: Snapshot)
    requires WorldOk(w) && Extends(before, w) && before.nextId <= id && Tags(sn, id)
    ensures var w' := w.(approvals := SaveSnapshot(w.approvals, id, sn));
      WorldOk(w') && Extends(before, w')
  {
    var w' := w.(approvals := SaveSnapshot(w.approvals, id, sn));
    forall a | a in w'.approvals ensures a.id < w'.nextId && (a.snapshot.Some? ==> Tags(a.snapshot.value, a.id)) {
      var i :| 0 <= i < |w'.approvals| && w'.approvals[i] == a;
      assert w.approvals[i] in w.approvals;
    }
    forall other: nat | other < before.nextId ensures SameSnapshot(before, w', other) {
      assert SameSnapshot(before, w, other);
      FindSaveSnapshot(w.approvals, id, sn, other);
    }
  }

  // ---- what a stream leaves in memory ----

  /** The request that the stream stopped for. */
  function GateOf(t: Session): Option<nat> {
    if t.events != [] && t.events[|t.events| - 1].DoneWaiting? then Some(t.events[|t.events| - 1].approval) else None
  }

  /** Memory and request hold the same conversation. */
  ghost predicate Remembered(t: Session, id: nat) {
    t.snapshot.Some? && Find(t.world.approvals, id).Some? && Find(t.world.approvals, id).value.snapshot == t.snapshot
  }

  /** From s to t: at a gate the new conversation, about the same message, is in memory, otherwise memory is
      as it was. */
  ghost predicate Kept(s: Session, t: Session, message: string) {
    && WorldOk(t.world) && Extends(s.world, t.world)
    && (GateOf(t).Some? ==> Remembered(t, GateOf(t).value) && t.snapshot.value.message == message)
    && (GateOf(t).None? ==> t.snapshot == s.snapshot)
  }

  lemma KeptTransitive(r: Session, s: Session, t: Session, message: string)
    requires Kept(r, s, message) && Kept(s, t, message) && GateOf(s).None?
    ensures Kept(r, t, message)
  {
    ExtendsTransitive(r.world, s.world, t.world);
  }

  lemma ToolKeeps(cfg: Config, w: World, call: ToolCall, policy: Decision, fault: bool)
    requires WorldOk(w)
    ensures var w' := ExecuteTool(cfg, w, call, policy, fault).0;
      WorldOk(w') && Extends(w, w')
  {
    var (w', r) := ExecuteTool(cfg, w, call, policy, fault);
    if r.Gated? {
      RequestKeeps(w, cfg.agentId, call.name, call.args, cfg.tools[call.name].level);
    } else {
      SameApprovals(w, w');
    }
  }

  lemma CallKept(cfg: Config, env: Env, s: Session, call: ToolCall, batch: seq<ToolCall>, message: string)
    requires WorldOk(s.world)
    ensures var (t, flow) := OneCall(cfg, env, s, call, batch, message);
      Kept(s, t, message) && (flow == Halt <==> GateOf(t).Some?)
  {
    var n := s.toolCalls;
    var (w, r) := ExecuteTool(cfg, s.world, call, env.policy(n), env.fault(n));
    ToolKeeps(cfg, s.world, call, env.policy(n), env.fault(n));
    if r.Gated? {
      GateKept(cfg, env, s, call, batch, message, w, r.approval);
    } else {
      var id := OneCallEvents(cfg, env, s, call, batch, message);
    }
  }

  lemma GateKept(cfg: Config, env: Env, s: Session, call: ToolCall, batch: seq<ToolCall>, message: string, w: World, id: nat)
    requires WorldOk(s.world) && WorldOk(w) && Extends(s.world, w)
    requires ExecuteTool(cfg, s.world, call, env.policy(s.toolCalls), env.fault(s.toolCalls)) == (w, Gated(id))
    ensures Kept(s, OneCall(cfg, env, s, call, batch, message).0, message)
    ensures OneCall(cfg, env, s, call, batch, message).1 == Halt
    ensures GateOf(OneCall(cfg, env, s, call, batch, message).0) == Some(id)
  {
    var t := OneCall(cfg, env, s, call, batch, message).0;
    var sn := t.snapshot.value;
    var level := cfg.tools[call.name].level;
    assert w == Requested(s.world, cfg.agentId, call.name, call.args, level) && id == s.world.nextId;
    assert sn.messages == s.messages + [ToolMessage(call, GateText(id))];
    SaveKeeps(s.world, w, id, sn);
    SnapshotIsSaved(s.world, cfg.agentId, call.name, call.args, level, sn);
  }

  lemma SnapshotIsSaved(w: World, agentId: string, tool: string, args: string, level: string, sn: Snapshot)
    requires IdsUsed(w)
    ensures var found := Find(SaveSnapshot(Requested(w, agentId, tool, args, level).approvals, w.nextId, sn), w.nextId);
      found == Some(Approval(w.nextId, agentId, tool, args, level, Pending, "", Some(sn)))
  {
    var request := Approval(w.nextId, agentId, tool, args, level, Pending, "", None);
    FindAppend(w.approvals, request, w.nextId);
    FindSaveSnapshot(w.approvals + [request], w.nextId, sn, w.nextId);
  }

  lemma {:induction false} BatchKept(cfg: Config, env: Env, s: Session, batch: seq<ToolCall>, i: nat, message: string)
    requires WorldOk(s.world) && i <= |batch| && GateOf(s).None?
    ensures var (t, flow) := Batch(cfg, env, s, batch, i, message);
      Kept(s, t, message) && (flow == Halt <==> GateOf(t).Some?)
    decreases |batch| - i
  {
    if i == |batch| {
      SameApprovals(s.world, s.world);
    } else {
      CallKept(cfg, env, s, batch[i], batch, message);
      var (t, flow) := OneCall(cfg, env, s, batch[i], batch, message);
      if flow == GoOn {
        BatchKept(cfg, env, t, batch, i + 1, message);
        KeptTransitive(s, t, Batch(cfg, env, t, batch, i + 1, message).0, message);
      }
    }
  }

  lemma RememberKeeps(cfg: Config, w: World, message: string)
    requires WorldOk(w)
    ensures WorldOk(Remember(cfg, w, message)) && Extends(w, Remember(cfg, w, message))
  {
    SameApprovals(w, w);
    RequestKeeps(w, cfg.agentId, "memory.write", message, "ask");
  }

  lemma ReplyKept(cfg: Config, env: Env, s: Session, replied: Session, calls: seq<ToolCall>, message: string)
    requires WorldOk(s.world) && GateOf(s).None?
    requires replied.world == s.world && replied.snapshot == s.snapshot && replied.events == s.events
    ensures var (t, flow) := Batch(cfg, env, replied, calls, 0, message);
      Kept(s, t, message) && (flow == Halt <==> GateOf(t).Some?)
  {
    BatchKept(cfg, env, replied, calls, 0, message);
  }

  lemma {:induction false} IterateKept(cfg: Config, env: Env, s: Session, left: nat, message: string)
    requires WorldOk(s.world) && GateOf(s).None?
    ensures Kept(s, Iterate(cfg, env, s, left, message), message)
    decreases left
  {
    SameApprovals(s.world, s.world);
    if left > 0 {
      var reply := env.reply(s.modelCalls);
      if reply.Reply? && reply.calls == [] {
        RememberKeeps(cfg, s.world, message);
      } else if reply.Reply? {
        var replied := s.(modelCalls := s.modelCalls + 1, messages := s.messages + [AssistantMessage(reply)]);
        var (t, flow) := Batch(cfg, env, replied, reply.calls, 0, message);
        ReplyKept(cfg, env, s, replied, reply.calls, message);
        if flow == GoOn {
          IterateKept(cfg, env, t, left - 1, message);
          KeptTransitive(s, t, Iterate(cfg, env, t, left - 1, message), message);
        }
      }
    }
  }

  lemma StreamKept(cfg: Config, env: Env, s: Session, limit: nat, message: string)
    requires WorldOk(s.world)
    ensures Kept(s, StreamEvents(cfg, env, s, limit, message), message)
  {
    SameApprovals(s.world, s.world);
    RememberKeeps(cfg, s.world, message);
    if cfg.tools != map[] {
      IterateKept(cfg, env, s.(messages := s.messages + [UserMessage(message)], events := [], state := Running), limit, message);
    }
  }

  lemma ContinueKept(cfg: Config, env: Env, ready: Session, saved: Snapshot, limit: nat)
    requires WorldOk(ready.world) && GateOf(ready).None?
    ensures Kept(ready, Continue(cfg, env, ready, saved, limit).session, saved.message)
  {
    BatchKept(cfg, env, ready, saved.remaining, 0, saved.message);
    var (t, flow) := Batch(cfg, env, ready, saved.remaining, 0, saved.message);
    if flow == GoOn {
      IterateKept(cfg, env, t.(state := Running), limit, saved.message);
      KeptTransitive(ready, t, Iterate(cfg, env, t.(state := Running), limit, saved.message), saved.message);
    }
  }

  /** After a resumption memory holds a conversation only if it stopped at a new gate. */
  lemma ResumeKept(cfg: Config, env: Env, s: Session, id: nat, limit: nat)
    requires WorldOk(s.world) && !ResumeAndContinue(cfg, env, s, id, limit).Refused?
    ensures var t := ResumeAndContinue(cfg, env, s, id, limit).session;
      && WorldOk(t.world) && Extends(s.world, t.world)
      && (GateOf(t).Some? ==> Remembered(t, GateOf(t).value))
      && (GateOf(t).None? ==> t.snapshot.None?)
  {
    var result := env.result(s.toolCalls);
    var a := Find(s.world.approvals, id).value;
    var world := Resume(cfg, s.world, id, result).value;
    ResumeKeeps(cfg, s.world, id, result);
    var done := AfterTool(s, world, a.tool);
    var saved := Continued(s, id);
    if saved.Some? {
      var ready := done.(snapshot := None, messages := ReplaceLast(saved.value.messages, a.tool, result));
      ContinueKept(cfg, env, ready, saved.value, limit);
      ExtendsTransitive(s.world, world, Continue(cfg, env, ready, saved.value, limit).session.world);
    }
  }

  lemma ResumeKeeps(cfg: Config, w: World, id: nat, result: string)
    requires WorldOk(w) && Resume(cfg, w, id, result).Success?
    ensures WorldOk(Resume(cfg, w, id, result).value) && Extends(w, Resume(cfg, w, id, result).value)
  {
    var completed := w.(approvals := SetStatus(w.approvals, id, Completed, result));
    StatusKeeps(w, id, Completed, result);
    SameApprovals(completed, Resume(cfg, w, id, result).value);
    ExtendsTransitive(w, completed, Resume(cfg, w, id, result).value);
  }

  // ---- turns ----

  /** What may happen to an agent: streams on any context, resumptions, a decision on a request, and a restart
      of the process. */
  datatype Turn =
    | Say(cfg: Config, env: Env, context: seq<Message>, limit: nat, message: string)
    | ResumeOn(cfg: Config, env: Env, id: nat, limit: nat)
    | Decided(act: Act)
    | Restart

  /** gate is the request that the last gated stream or resumption stopped for, if no resumption has gone
      on since and the process was not restarted. */
  datatype Conversation = Conversation(session: Session, gate: Option<nat>)

  /** Approving, rejecting, resuming without going on, and a request filed by others. */
  predicate IsDecision(act: Act) {
    act.ResumeTool? || act.Approve? || act.Reject? || act.OtherRequest?
  }

  function Taken(a: Conversation, turn: Turn): Conversation {
    var s := a.session;
    match turn
    case Say(cfg, env, context, limit, message) =>
      var t := StreamEvents(cfg, env, s.(messages := context), limit, message);
      Conversation(t, if GateOf(t).Some? then GateOf(t) else a.gate)
    case ResumeOn(cfg, env, id, limit) =>
      var r := ResumeAndContinue(cfg, env, s, id, limit);
      if r.Refused? then a else Conversation(r.session, GateOf(r.session))
    case Decided(act) => if IsDecision(act) then a.(session := s.(world := Next(s.world, act))) else a
    case Restart => Conversation(s.(snapshot := None), None)
  }

  const START := Conversation(Session([], [], Idle, None, World([], 0, []), 0, 0), None)

  /** The agent after the turns. */
  function AfterTurns(turns: seq<Turn>): Conversation {
    if turns == [] then START else Taken(AfterTurns(turns[..|turns| - 1]), turns[|turns| - 1])
  }

  /** Memory holds the conversation saved at the gate not yet resumed, and nothing without one. */
  ghost predicate MemoryIsGate(a: Conversation) {
    && WorldOk(a.session.world)
    && (a.gate.None? ==> a.session.snapshot.None?)
    && (a.gate.Some? ==> a.gate.value < a.session.world.nextId && Remembered(a.session, a.gate.value))
  }

  lemma WorldTurn(a: Conversation, w: World)
    requires MemoryIsGate(a) && WorldOk(w) && Extends(a.session.world, w)
    ensures MemoryIsGate(a.(session := a.session.(world := w)))
  {
    if a.gate.Some? {
      assert SameSnapshot(a.session.world, w, a.gate.value);
    }
  }

  lemma SayKeepsMemory(a: Conversation, cfg: Config, env: Env, context: seq<Message>, limit: nat, message: string)
    requires MemoryIsGate(a)
    ensures MemoryIsGate(Taken(a, Say(cfg, env, context, limit, message)))
  {
    var s := a.session.(messages := context);
    StreamKept(cfg, env, s, limit, message);
    var t := StreamEvents(cfg, env, s, limit, message);
    if GateOf(t).None? {
      WorldTurn(a, t.world);
    } else {
      GateIsFiled(t, GateOf(t).value);
    }
  }

  lemma GateIsFiled(t: Session, id: nat)
    requires WorldOk(t.world) && Remembered(t, id)
    ensures id < t.world.nextId
  {
    assert Find(t.world.approvals, id).value in t.world.approvals;
  }

  lemma ResumeKeepsMemory(a: Conversation, cfg: Config, env: Env, id: nat, limit: nat)
    requires MemoryIsGate(a)
    ensures MemoryIsGate(Taken(a, ResumeOn(cfg, env, id, limit)))
  {
    var r := ResumeAndContinue(cfg, env, a.session, id, limit);
    if !r.Refused? {
      ResumeKept(cfg, env, a.session, id, limit);
      if GateOf(r.session).Some? {
        GateIsFiled(r.session, GateOf(r.session).value);
      }
    }
  }

  lemma TurnKeepsMemory(a: Conversation, turn: Turn)
    requires MemoryIsGate(a)
    ensures MemoryIsGate(Taken(a, turn))
  {
    match turn
    case Say(cfg, env, context, limit, message) => SayKeepsMemory(a, cfg, env, context, limit, message);
    case ResumeOn(cfg, env, id, limit) => ResumeKeepsMemory(a, cfg, env, id, limit);
    case Decided(act) =>
      if IsDecision(act) {
        ActKeepsMemory(a, act);
      }
    case Restart =>
  }

  lemma ActKeepsMemory(a: Conversation, act: Act)
    requires MemoryIsGate(a) && IsDecision(act)
    ensures MemoryIsGate(a.(session := a.session.(world := Next(a.session.world, act))))
  {
    var w := a.session.world;
    SameApprovals(w, w);
    match act {
      case ResumeTool(cfg, id, result) =>
        if Resume(cfg, w, id, result).Success? {
          ResumeKeeps(cfg, w, id, result);
        }
      case Approve(id) => StatusKeeps(w, id, Approved, "");
      case Reject(id) => StatusKeeps(w, id, Rejected, "");
      case OtherRequest(agentId, tool, args, level) => RequestKeeps(w, agentId, tool, args, level);
    }
    WorldTurn(a, Next(w, act));
  }

  /** After any turns, memory holds exactly the conversation saved at the last gate that no resumption has
      gone on from. A later stream that ends without a gate leaves it there. */
  lemma {:induction false} MemoryHolds(turns: seq<Turn>)
    ensures MemoryIsGate(AfterTurns(turns))
  {
    if turns != [] {
      MemoryHolds(turns[..|turns| - 1]);
      TurnKeepsMemory(AfterTurns(turns[..|turns| - 1]), turns[|turns| - 1]);
    }
  }

  /** After any turns, the conversation that resuming a request continues is the one saved on that request
      if and only if memory is empty or the request is the last gate that was not resumed; otherwise it is
      the conversation of that gate. */
  lemma ResumesOwnExactlyWhen(turns: seq<Turn>, id: nat)
    requires Find(AfterTurns(turns).session.world.approvals, id).Some?
    ensures OwnIfGate(AfterTurns(turns), id)
  {
    MemoryHolds(turns);
    OwnIsGate(AfterTurns(turns), id);
  }

  ghost predicate OwnIfGate(a: Conversation, id: nat)
    requires Find(a.session.world.approvals, id).Some?
  {
    && (a.gate.None? <==> a.session.snapshot.None?)
    && (Continued(a.session, id) == Find(a.session.world.approvals, id).value.snapshot <==> a.gate.None? || a.gate == Some(id))
    && (a.gate.Some? ==>
          && Find(a.session.world.approvals, a.gate.value).Some?
          && Continued(a.session, id) == Find(a.session.world.approvals, a.gate.value).value.snapshot)
  }

  lemma OwnIsGate(a: Conversation, id: nat)
    requires MemoryIsGate(a) && Find(a.session.world.approvals, id).Some?
    ensures OwnIfGate(a, id)
  {
    if a.gate.Some? && a.gate != Some(id) {
      var g := a.gate.value;
      TagOf(a.session.world, g);
      TagOf(a.session.world, id);
      GateTextsDiffer(g, id);
    }
  }

  lemma TagOf(w: World, id: nat)
    requires Tagged(w) && Find(w.approvals, id).Some?
    ensures var sn := Find(w.approvals, id).value.snapshot;
      sn.Some? ==> Tags(sn.value, id)
  {
    assert Find(w.approvals, id).value in w.approvals;
  }

  // ---- the input ----

  /** Two streams, both stopped at a call that asks; then the first request is approved. */
  function TwoGates(cfg: Config, env: Env): seq<Turn> {
    [] + [Say(cfg, env, [], 1, "one")] + [Say(cfg, env, [], 1, "two")] + [Decided(Approve(0))]
  }

  lemma TurnAppends(turns: seq<Turn>, turn: Turn)
    ensures AfterTurns(turns + [turn]) == Taken(AfterTurns(turns), turn)
  {
    assert (turns + [turn])[..|turns|] == turns;
  }

  predicate AsksAlways(cfg: Config, env: Env, call: ToolCall) {
    && call.name in cfg.tools && MustAsk(cfg.mode, cfg.tools[call.name].level)
    && env.reply(0) == env.reply(1) == Reply("", [call]) && !env.fault(0) && !env.fault(1)
  }

  lemma GatedStream(cfg: Config, env: Env, s: Session, call: ToolCall, message: string)
    requires AsksAlways(cfg, env, call) && s.modelCalls <= 1 && s.toolCalls == s.modelCalls
    ensures var t := StreamEvents(cfg, env, s, 1, message);
      var w := Requested(s.world, cfg.agentId, call.name, call.args, cfg.tools[call.name].level);
      && GateOf(t) == Some(s.world.nextId) && t.snapshot.Some? && t.snapshot.value.message == message
      && t.modelCalls == s.modelCalls + 1 && t.toolCalls == s.toolCalls + 1
      && t.world == w.(approvals := SaveSnapshot(w.approvals, s.world.nextId, t.snapshot.value))
  {
    DecidesExactly(cfg.mode, cfg.tools[call.name].level);
    var asked := s.(modelCalls := s.modelCalls + 1, messages := s.messages + [UserMessage(message)] + [AssistantMessage(Reply("", [call]))],
                    events := [], state := Running);
    var (t, flow) := OneCall(cfg, env, asked, call, [call], message);
    assert Batch(cfg, env, asked, [call], 0, message) == (t, Halt);
  }

  /** Request 0 may be resumed, saved the conversation about "one", and would continue the one about "two". */
  ghost predicate ContinuesOther(a: Conversation, cfg: Config, result: string) {
    && Resume(cfg, a.session.world, 0, result).Success?
    && a.gate == Some(1) && Continued(a.session, 0).Some? && Continued(a.session, 0).value.message == "two"
    && Find(a.session.world.approvals, 0).value.snapshot.Some?
    && Find(a.session.world.approvals, 0).value.snapshot.value.message == "one"
  }

  /** Approving the first of two gated requests and resuming it continues the second conversation. */
  lemma OlderApprovalContinuesNewer(cfg: Config, env: Env, call: ToolCall, result: string)
    requires AsksAlways(cfg, env, call)
    ensures ContinuesOther(AfterTurns(TwoGates(cfg, env)), cfg, result)
  {
    var one, two := TwoStreams(cfg, env, call);
    TurnAppends([] + [Say(cfg, env, [], 1, "one")] + [Say(cfg, env, [], 1, "two")], Decided(Approve(0)));
    ApprovedContinuesOther(one.session, two, cfg, call, result);
  }

  lemma ApprovedContinuesOther(one: Session, two: Conversation, cfg: Config, call: ToolCall, result: string)
    requires call.name in cfg.tools
    requires one.snapshot.Some? && one.snapshot.value.message == "one"
    requires two.session.snapshot.Some? && two.session.snapshot.value.message == "two" && two.gate == Some(1)
    requires var level := cfg.tools[call.name].level;
      && Find(one.world.approvals, 0) == Some(Approval(0, cfg.agentId, call.name, call.args, level, Pending, "", one.snapshot))
      && two.session.world.approvals
         == SaveSnapshot(one.world.approvals + [Approval(1, cfg.agentId, call.name, call.args, level, Pending, "", None)],
                         1, two.session.snapshot.value)
    ensures ContinuesOther(Taken(two, Decided(Approve(0))), cfg, result)
  {
    var second := Approval(1, cfg.agentId, call.name, call.args, cfg.tools[call.name].level, Pending, "", None);
    FindApproved(one.world.approvals, second, two.session.snapshot.value);
  }

  lemma TwoStreams(cfg: Config, env: Env, call: ToolCall) returns (one: Conversation, two: Conversation)
    requires AsksAlways(cfg, env, call)
    ensures two == AfterTurns([] + [Say(cfg, env, [], 1, "one")] + [Say(cfg, env, [], 1, "two")])
    ensures one.session.snapshot.Some? && one.session.snapshot.value.message == "one"
    ensures two.session.snapshot.Some? && two.session.snapshot.value.message == "two" && two.gate == Some(1)
    ensures var level := cfg.tools[call.name].level;
      && Find(one.session.world.approvals, 0)
         == Some(Approval(0, cfg.agentId, call.name, call.args, level, Pending, "", one.session.snapshot))
      && two.session.world.approvals
         == SaveSnapshot(one.session.world.approvals + [Approval(1, cfg.agentId, call.name, call.args, level, Pending, "", None)],
                         1, two.session.snapshot.value)
  {
    one := Taken(START, Say(cfg, env, [], 1, "one"));
    two := Taken(one, Say(cfg, env, [], 1, "two"));
    TurnAppends([], Say(cfg, env, [], 1, "one"));
    TurnAppends([] + [Say(cfg, env, [], 1, "one")], Say(cfg, env, [], 1, "two"));
    GatedStream(cfg, env, START.session, call, "one");
    GatedStream(cfg, env, one.session.(messages := []), call, "two");
    SnapshotIsSaved(START.session.world, cfg.agentId, call.name, call.args, cfg.tools[call.name].level, one.session.snapshot.value);
  }

  lemma FindApproved(rows: seq<Approval>, second: Approval, sn: Snapshot)
    requires Find(rows, 0).Some? && Find(rows, 0).value.status == Pending && second.id == 1
    ensures Find(ApproveRows(SaveSnapshot(rows + [second], 1, sn), 0), 0) == Some(Find(rows, 0).value.(status := Approved))
  {
    FirstStays(rows, second, sn);
    ApprovesFirst(SaveSnapshot(rows + [second], 1, sn));
  }

  lemma FirstStays(rows: seq<Approval>, second: Approval, sn: Snapshot)
    requires Find(rows, 0).Some? && second.id == 1
    ensures Find(SaveSnapshot(rows + [second], 1, sn), 0) == Find(rows, 0)
  {
    FindAppend(rows, second, 0);
    FindSaveSnapshot(rows + [second], 1, sn, 0);
  }

  lemma ApprovesFirst(rows: seq<Approval>)
    requires Find(rows, 0).Some? && Find(rows, 0).value.status == Pending
    ensures Find(ApproveRows(rows, 0), 0) == Some(Find(rows, 0).value.(status := Approved))
  {
    FindSetStatus(rows, 0, Approved, "", 0);
  }
}
