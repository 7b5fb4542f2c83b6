/** Tool execution behind permissions and approvals (cognix/core/agent.py:511-702). */
module AgentTools {
  import opened Wrappers
  import opened Messages
  import opened Permissions
  import opened Approvals
  import Text

  /** external: mounted from an MCP server or a connector, hence under the workspace policy too. */
  datatype Tool = Tool(level: string, external: bool)

  datatype Config = Config(agentId: string, mode: string, inWorkspace: bool, tools: map<string, Tool>)

  /** Why a tool was allowed to run. */
  datatype Via = Direct(policy: Option<Decision>) | Resumed(approval: nat)

  datatype Exec = Exec(agentId: string, tool: string, args: string, level: string, via: Via)

  /** The approval file, the next unused request id, and every tool execution so far. */
  datatype World = World(approvals: seq<Approval>, nextId: nat, log: seq<Exec>)

  datatype CallResult = Ran | NotFound | Denied | Gated(approval: nat) | Faulted

  function Consulted(cfg: Config, tool: Tool, policy: Decision): Option<Decision> {
    if cfg.inWorkspace && tool.external then Some(policy) else None
  }

  /** None when the call may run, else the decision that refuses it. */
  function Refusal(cfg: Config, tool: Tool, policy: Decision): Option<Decision> {
    var own, extra := Decide(cfg.mode, tool.level), Consulted(cfg, tool, policy);
    if !own.allowed then Some(own)
    else if extra.Some? && !extra.value.allowed then extra
    else None
  }

  function Requested(w: World, agentId: string, tool: string, args: string, level: string): World {
    w.(approvals := w.approvals + [Approval(w.nextId, agentId, tool, args, level, Pending, "", None)], nextId := w.nextId + 1)
  }

  /** _execute_tool. The policy answer is foreign; fault: writing the approval file or asking the
      policy raised. */
  function ExecuteTool(cfg: Config, w: World, call: ToolCall, policy: Decision, fault: bool): (World, CallResult) {
    if call.name !in cfg.tools then (w, NotFound)
    else
      var tool := cfg.tools[call.name];
      var refusal := Refusal(cfg, tool, policy);
      var asks := refusal.Some? && refusal.value.requiresApproval;
      if fault && (asks || (Decide(cfg.mode, tool.level).allowed && Consulted(cfg, tool, policy).Some?)) then (w, Faulted)
      else if asks then (Requested(w, cfg.agentId, call.name, call.args, tool.level), Gated(w.nextId))
      else if refusal.Some? then (w, Denied)
      else (w.(log := w.log + [Exec(cfg.agentId, call.name, call.args, tool.level, Direct(Consulted(cfg, tool, policy)))]), Ran)
  }

  datatype ResumeError = UnknownApproval | WrongAgent | NotApproved | UnknownTool

  /** resume_approval and the head of resume_and_continue: check, run, complete. */
  function Resume(cfg: Config, w: World, id: nat, result: string): Result<World, ResumeError> {
    var found := Find(w.approvals, id);
    if found.None? then Failure(UnknownApproval)
    else
      var a := found.value;
      if a.agentId != cfg.agentId then Failure(WrongAgent)
      else if a.status != Approved then Failure(NotApproved)
      else if a.tool !in cfg.tools then Failure(UnknownTool)
      else Success(w.(
        log := w.log + [Exec(cfg.agentId, a.tool, a.args, cfg.tools[a.tool].level, Resumed(id))],
        approvals := SetStatus(w.approvals, id, Completed, result)))
  }

  /** _remember_exchange: in the asking modes, persisting the exchange needs an approval itself. */
  function Remember(cfg: Config, w: World, message: string): World {
    if Text.Strip(message) != "" && (cfg.mode == "ask" || cfg.mode == "plan") && cfg.inWorkspace
    then Requested(w, cfg.agentId, "memory.write", message, "ask")
    else w
  }

  // ---- runs: any agents, any model, any humans ----

  datatype Act =
    | Call(cfg: Config, call: ToolCall, policy: Decision, fault: bool)
    | ResumeTool(cfg: Config, id: nat, result: string)
    | RememberExchange(cfg: Config, message: string)
    | KeepSnapshot(id: nat, snapshot: Snapshot)
    | Approve(id: nat)
    | Reject(id: nat)
    | OtherRequest(agentId: string, tool: string, args: string, level: string)

  function Next(w: World, act: Act): World {
    match act
    case Call(cfg, call, policy, fault) => ExecuteTool(cfg, w, call, policy, fault).0
    case ResumeTool(cfg, id, result) =>
      var r := Resume(cfg, w, id, result);
      if r.Success? then r.value else w
    case RememberExchange(cfg, message) => Remember(cfg, w, message)
    case KeepSnapshot(id, snapshot) => w.(approvals := SaveSnapshot(w.approvals, id, snapshot))
    case Approve(id) => w.(approvals := ApproveRows(w.approvals, id))
    case Reject(id) => w.(approvals := RejectRows(w.approvals, id))
    case OtherRequest(agentId, tool, args, level) => Requested(w, agentId, tool, args, level)
  }

  ghost predicate IsRun(worlds: seq<World>, acts: seq<Act>) {
    && |worlds| == |acts| + 1
    && worlds[0] == World([], 0, [])
    && forall i :: 0 <= i < |acts| ==> Follows(worlds, acts, i)
  }

  ghost predicate Follows(worlds: seq<World>, acts: seq<Act>, i: nat)
    requires i < |acts| && |worlds| == |acts| + 1
  {
    worlds[i + 1] == Next(worlds[i], acts[i])
  }

  predicate SameRequest(a: Approval, b: Approval) {
    a.id == b.id && a.agentId == b.agentId && a.tool == b.tool && a.args == b.args
  }

  ghost predicate IdsUsed(w: World) {
    forall a :: a in w.approvals ==> a.id < w.nextId
  }

  /** How one act may change one request. */
  predicate RequestMoves(act: Act, a: Approval, b: Approval) {
    && SameRequest(a, b)
    && (|| b.status == a.status
        || (act == Approve(a.id) && a.status == Pending && b.status == Approved)
        || (act == Reject(a.id) && b.status == Rejected)
        || (act.ResumeTool? && act.id == a.id && a.status == Approved && b.status == Completed))
  }

  lemma IdsUsedNext(w: World, act: Act)
    requires IdsUsed(w)
    ensures IdsUsed(Next(w, act))
  {
    var w' := Next(w, act);
    forall a | a in w'.approvals ensures a.id < w'.nextId {
      var i :| 0 <= i < |w'.approvals| && w'.approvals[i] == a;
      assert i < |w.approvals| ==> w.approvals[i] in w.approvals && w.approvals[i].id == a.id;
    }
  }

  /** How one act may change what is found under one id: a request appears pending, and then moves. */
  predicate Evolves(act: Act, before: Option<Approval>, after: Option<Approval>) {
    && (before.None? && after.Some? ==> after.value.status == Pending)
    && (before.Some? ==> after.Some? && RequestMoves(act, before.value, after.value))
  }

  lemma FindRequested(w: World, agentId: string, tool: string, args: string, level: string, id: nat, act: Act)
    requires IdsUsed(w)
    ensures Evolves(act, Find(w.approvals, id), Find(Requested(w, agentId, tool, args, level).approvals, id))
  {
    FindAppend(w.approvals, Approval(w.nextId, agentId, tool, args, level, Pending, "", None), id);
  }

  lemma FindNext(w: World, act: Act, id: nat)
    requires IdsUsed(w)
    ensures Evolves(act, Find(w.approvals, id), Find(Next(w, act).approvals, id))
  {
    match act
    case Call(cfg, call, policy, fault) => FindCalled(w, cfg, call, policy, fault, id);
    case ResumeTool(cfg, other, result) => FindResumed(w, cfg, other, result, id);
    case RememberExchange(cfg, message) => FindRequested(w, cfg.agentId, "memory.write", message, "ask", id, act);
    case KeepSnapshot(other, snapshot) => FindSaveSnapshot(w.approvals, other, snapshot, id);
    case Approve(other) => FindDecided(w, act, id);
    case Reject(other) => FindDecided(w, act, id);
    case OtherRequest(agentId, tool, args, level) => FindRequested(w, agentId, tool, args, level, id, act);
  }

  lemma FindDecided(w: World, act: Act, id: nat)
    requires act.Approve? || act.Reject?
    ensures Evolves(act, Find(w.approvals, id), Find(Next(w, act).approvals, id))
  {
    FindSetStatus(w.approvals, act.id, if act.Approve? then Approved else Rejected, "", id);
  }

  lemma FindCalled(w: World, cfg: Config, call: ToolCall, policy: Decision, fault: bool, id: nat)
    requires IdsUsed(w)
    ensures Evolves(Call(cfg, call, policy, fault), Find(w.approvals, id), Find(ExecuteTool(cfg, w, call, policy, fault).0.approvals, id))
  {
    if call.name in cfg.tools {
      FindRequested(w, cfg.agentId, call.name, call.args, cfg.tools[call.name].level, id, Call(cfg, call, policy, fault));
    }
  }

  lemma FindResumed(w: World, cfg: Config, other: nat, result: string, id: nat)
    ensures Evolves(ResumeTool(cfg, other, result), Find(w.approvals, id), Find(Next(w, ResumeTool(cfg, other, result)).approvals, id))
  {
    FindSetStatus(w.approvals, other, Completed, result, id);
  }

  lemma {:induction false} IdsStayUsed(worlds: seq<World>, acts: seq<Act>, i: nat)
    requires IsRun(worlds, acts) && i < |worlds|
    ensures IdsUsed(worlds[i])
  {
    if i > 0 {
      IdsStayUsed(worlds, acts, i - 1);
      assert Follows(worlds, acts, i - 1);
      IdsUsedNext(worlds[i - 1], acts[i - 1]);
    }
  }

  lemma StepEvolves(worlds: seq<World>, acts: seq<Act>, i: nat, id: nat)
    requires IsRun(worlds, acts) && i < |acts|
    ensures Evolves(acts[i], Find(worlds[i].approvals, id), Find(worlds[i + 1].approvals, id))
  {
    assert Follows(worlds, acts, i);
    IdsStayUsed(worlds, acts, i);
    FindNext(worlds[i], acts[i], id);
  }

  // ---- every execution is authorized ----

  /** Request a first appears, pending, at act k. */
  ghost predicate RequestedAt(worlds: seq<World>, k: nat, a: Approval) {
    && k + 1 < |worlds|
    && Find(worlds[k].approvals, a.id).None?
    && Find(worlds[k + 1].approvals, a.id).Some?
    && Find(worlds[k + 1].approvals, a.id).value.status == Pending
    && SameRequest(Find(worlds[k + 1].approvals, a.id).value, a)
  }

  /** Act j is a human approving request a while it is pending. */
  ghost predicate ApprovedAt(worlds: seq<World>, acts: seq<Act>, j: nat, a: Approval)
    requires |worlds| == |acts| + 1
  {
    && j < |acts| && acts[j] == Approve(a.id)
    && Find(worlds[j].approvals, a.id).Some?
    && Find(worlds[j].approvals, a.id).value.status == Pending
    && SameRequest(Find(worlds[j].approvals, a.id).value, a)
  }

  lemma {:induction false} WasRequested(worlds: seq<World>, acts: seq<Act>, i: nat, a: Approval) returns (k: nat)
    requires IsRun(worlds, acts) && i < |worlds| && Find(worlds[i].approvals, a.id).Some?
    requires SameRequest(Find(worlds[i].approvals, a.id).value, a)
    ensures k < i && RequestedAt(worlds, k, a)
  {
    assert i > 0;
    StepEvolves(worlds, acts, i - 1, a.id);
    if Find(worlds[i - 1].approvals, a.id).Some? {
      k := WasRequested(worlds, acts, i - 1, a);
    } else {
      k := i - 1;
    }
  }

  lemma ApprovedStep(act: Act, before: Option<Approval>, after: Approval, a: Approval)
    requires Evolves(act, before, Some(after)) && SameRequest(after, a) && after.status == Approved
    ensures before.Some? && SameRequest(before.value, a)
    ensures before.value.status == Approved || (act == Approve(a.id) && before.value.status == Pending)
  {
  }

  lemma {:induction false} WasApproved(worlds: seq<World>, acts: seq<Act>, i: nat, a: Approval) returns (j: nat)
    requires IsRun(worlds, acts) && i < |worlds| && Find(worlds[i].approvals, a.id).Some?
    requires SameRequest(Find(worlds[i].approvals, a.id).value, a) && Find(worlds[i].approvals, a.id).value.status == Approved
    ensures j < i && ApprovedAt(worlds, acts, j, a)
  {
    assert i > 0;
    StepEvolves(worlds, acts, i - 1, a.id);
    ApprovedStep(acts[i - 1], Find(worlds[i - 1].approvals, a.id), Find(worlds[i].approvals, a.id).value, a);
    if Find(worlds[i - 1].approvals, a.id).value.status == Approved {
      j := WasApproved(worlds, acts, i - 1, a);
    } else {
      j := i - 1;
    }
  }

  predicate AllowedDirectly(act: Act, e: Exec) {
    && act.Call? && act.call.name in act.cfg.tools
    && var tool := act.cfg.tools[act.call.name];
    && IsPermitted(act.cfg.mode, tool.level)
    && (act.cfg.inWorkspace && tool.external ==> act.policy.allowed)
    && e.agentId == act.cfg.agentId && e.tool == act.call.name && e.args == act.call.args && e.level == tool.level
  }

  ghost predicate AllowedByHuman(worlds: seq<World>, acts: seq<Act>, i: nat, e: Exec)
    requires |worlds| == |acts| + 1 && i < |acts|
  {
    && acts[i].ResumeTool? && acts[i].cfg.agentId == e.agentId && e.via == Resumed(acts[i].id)
    && exists a: Approval, k: nat, j: nat :: k < j < i && RequestedAt(worlds, k, a) && ApprovedAt(worlds, acts, j, a)
         && a.id == acts[i].id && a.agentId == e.agentId && a.tool == e.tool && a.args == e.args
  }

  /** Whatever the models answer and the humans decide, a tool runs only as one new log entry,
      and only if the permission matrix and the workspace policy allow the call at that moment, or
      a human approved, earlier and while it was pending, a request made still earlier for the same
      agent, tool and arguments. */
  lemma ToolRunsAreAuthorized(worlds: seq<World>, acts: seq<Act>, i: nat)
    requires IsRun(worlds, acts) && i < |acts| && worlds[i + 1].log != worlds[i].log
    ensures |worlds[i + 1].log| == |worlds[i].log| + 1 && worlds[i].log <= worlds[i + 1].log
    ensures var e := worlds[i + 1].log[|worlds[i].log|];
      AllowedDirectly(acts[i], e) || AllowedByHuman(worlds, acts, i, e)
  {
    assert Follows(worlds, acts, i);
    if acts[i].ResumeTool? {
      var a := Find(worlds[i].approvals, acts[i].id).value;
      var j := WasApproved(worlds, acts, i, a);
      var k := WasRequested(worlds, acts, j, a);
      assert k < j < i && RequestedAt(worlds, k, a) && ApprovedAt(worlds, acts, j, a);
    } else if acts[i].Call? && acts[i].call.name in acts[i].cfg.tools {
      DecidesExactly(acts[i].cfg.mode, acts[i].cfg.tools[acts[i].call.name].level);
    }
  }

  /** Over any run: a dangerous tool runs only under an approval or for an unrestricted agent, and a writing
      one only under an approval or for an agent that is not in read-only, ask or plan mode. */
  lemma DangerNeedsApproval(worlds: seq<World>, acts: seq<Act>, i: nat)
    requires IsRun(worlds, acts) && i < |acts| && worlds[i + 1].log != worlds[i].log
    ensures |worlds[i + 1].log| > |worlds[i].log|
    ensures var e := worlds[i + 1].log[|worlds[i].log|];
      && (e.level == "dangerous" ==>
            AllowedByHuman(worlds, acts, i, e) || (acts[i].Call? && acts[i].cfg.mode == "unrestricted"))
      && (e.level == "write" ==>
            AllowedByHuman(worlds, acts, i, e) || (acts[i].Call? && !Restricted(acts[i].cfg.mode)))
  {
    ToolRunsAreAuthorized(worlds, acts, i);
  }

  predicate Restricted(mode: string) {
    mode == "read-only" || mode == "ask" || mode == "plan"
  }

  // ---- the gate ----

  /** One pending request more, and nothing else. */
  predicate FilesRequest(w: World, after: World, agentId: string, call: ToolCall, level: string) {
    && after.log == w.log && after.nextId == w.nextId + 1
    && after.approvals == w.approvals + [Approval(w.nextId, agentId, call.name, call.args, level, Pending, "", None)]
  }

  /** What a call of a known tool comes to, by mode and level: it asks, is refused, or runs. Tools mounted
      into a workspace must pass the workspace's policy too, which may also refuse or ask. */
  lemma GateIsExact(cfg: Config, w: World, call: ToolCall, policy: Decision, fault: bool)
    requires call.name in cfg.tools
    ensures var (tool, (after, r)) := (cfg.tools[call.name], ExecuteTool(cfg, w, call, policy, fault));
      var permitted, guarded := IsPermitted(cfg.mode, tool.level), cfg.inWorkspace && tool.external;
      if MustAsk(cfg.mode, tool.level) || (permitted && guarded && !fault && !policy.allowed && policy.requiresApproval) then
        if fault then r == Faulted && after == w
        else r == Gated(w.nextId) && FilesRequest(w, after, cfg.agentId, call, tool.level)
      else if !permitted then r == Denied && after == w
      else if guarded && fault then r == Faulted && after == w
      else if guarded && !policy.allowed then r == Denied && after == w
      else
        && r == Ran && after.approvals == w.approvals && after.nextId == w.nextId
        && after.log == w.log + [Exec(cfg.agentId, call.name, call.args, tool.level, Direct(if guarded then Some(policy) else None))]
  {
    DecidesExactly(cfg.mode, cfg.tools[call.name].level);
  }

  /** A resumption goes through if and only if the request exists, is the agent's own, is approved and names a
      tool that the agent has. It then runs that tool with the arguments of the request, completes the request
      with the result, and leaves every other request alone. */
  lemma ResumeIsExact(cfg: Config, w: World, id: nat, result: string, other: nat)
    ensures var found, r := Find(w.approvals, id), Resume(cfg, w, id, result);
      && (r.Success? <==> found.Some? && found.value.agentId == cfg.agentId && found.value.status == Approved && found.value.tool in cfg.tools)
      && (r.Success? ==>
            && r.value.log == w.log + [Exec(cfg.agentId, found.value.tool, found.value.args, cfg.tools[found.value.tool].level, Resumed(id))]
            && Find(r.value.approvals, id) == Some(found.value.(status := Completed, result := if result == "" then found.value.result else result))
            && (other != id ==> Find(r.value.approvals, other) == Find(w.approvals, other)))
  {
    FindSetStatus(w.approvals, id, Completed, result, id);
    FindSetStatus(w.approvals, id, Completed, result, other);
  }

  // ---- each approval is used once ----

  predicate ResumedAt(worlds: seq<World>, acts: seq<Act>, i: nat, id: nat)
    requires |worlds| == |acts| + 1 && i < |acts|
  {
    acts[i].ResumeTool? && acts[i].id == id && Resume(acts[i].cfg, worlds[i], id, acts[i].result).Success?
  }

  predicate Closed(w: World, id: nat) {
    var found := Find(w.approvals, id);
    found.Some? && (found.value.status == Completed || found.value.status == Rejected)
  }

  lemma {:induction false} ClosedStays(worlds: seq<World>, acts: seq<Act>, i: nat, j: nat, id: nat)
    requires IsRun(worlds, acts) && i <= j < |worlds| && Closed(worlds[i], id)
    ensures Closed(worlds[j], id)
    decreases j
  {
    if i < j {
      ClosedStays(worlds, acts, i, j - 1, id);
      StepEvolves(worlds, acts, j - 1, id);
    }
  }

  lemma UseCloses(w: World, act: Act, id: nat)
    requires (act.ResumeTool? && act.id == id && Resume(act.cfg, w, id, act.result).Success?) || (act == Reject(id) && Find(w.approvals, id).Some?)
    ensures Closed(Next(w, act), id)
  {
    if act.ResumeTool? {
      FindSetStatus(w.approvals, id, Completed, act.result, id);
    } else {
      FindSetStatus(w.approvals, id, Rejected, "", id);
    }
  }

  /** Each approval lets at most one resume through, and none at all after a rejection. */
  lemma ApprovalsAreUsedOnce(worlds: seq<World>, acts: seq<Act>, i: nat, j: nat, id: nat)
    requires IsRun(worlds, acts) && i < j < |acts|
    requires ResumedAt(worlds, acts, i, id) || (acts[i] == Reject(id) && Find(worlds[i].approvals, id).Some?)
    ensures !ResumedAt(worlds, acts, j, id)
  {
    assert Follows(worlds, acts, i);
    UseCloses(worlds[i], acts[i], id);
    ClosedStays(worlds, acts, i + 1, j, id);
  }

  // ---- read-only agents ----

  /** The agent keeps its tools and read-only mode in every act, and nobody else files requests
      in its name. */
  predicate KeptReadOnly(act: Act, agentId: string, tools: map<string, Tool>) {
    match act
    case Call(cfg, _, _, _) => cfg.agentId == agentId ==> cfg.tools == tools && cfg.mode == "read-only"
    case ResumeTool(cfg, _, _) => cfg.agentId == agentId ==> cfg.tools == tools && cfg.mode == "read-only"
    case RememberExchange(cfg, _) => cfg.agentId == agentId ==> cfg.tools == tools && cfg.mode == "read-only"
    case OtherRequest(id, _, _, _) => id != agentId
    case _ => true
  }

  ghost predicate OnlyReads(w: World, agentId: string, tools: map<string, Tool>) {
    && (forall e :: e in w.log && e.agentId == agentId ==> NormalizeLevel(e.level) == "read")
    && (forall a :: a in w.approvals && a.agentId == agentId && a.tool in tools ==> NormalizeLevel(tools[a.tool].level) == "read")
  }

  lemma ReadOnlyStep(w: World, act: Act, agentId: string, tools: map<string, Tool>)
    requires OnlyReads(w, agentId, tools) && KeptReadOnly(act, agentId, tools)
    ensures OnlyReads(Next(w, act), agentId, tools)
  {
    var w' := Next(w, act);
    forall a | a in w'.approvals && a.agentId == agentId && a.tool in tools
      ensures NormalizeLevel(tools[a.tool].level) == "read"
    {
      var i :| 0 <= i < |w'.approvals| && w'.approvals[i] == a;
      if i < |w.approvals| {
        assert w.approvals[i] in w.approvals;
        assert w.approvals[i].agentId == a.agentId && w.approvals[i].tool == a.tool;
      }
    }
  }

  /** An agent kept in read-only mode never runs a write or dangerous tool, resumes included. */
  lemma {:induction false} ReadOnlyNeverWrites(worlds: seq<World>, acts: seq<Act>, agentId: string, tools: map<string, Tool>, i: nat)
    requires IsRun(worlds, acts) && i < |worlds|
    requires forall j :: 0 <= j < |acts| ==> KeptReadOnly(acts[j], agentId, tools)
    ensures OnlyReads(worlds[i], agentId, tools)
  {
    if i > 0 {
      ReadOnlyNeverWrites(worlds, acts, agentId, tools, i - 1);
      assert Follows(worlds, acts, i - 1);
      ReadOnlyStep(worlds[i - 1], acts[i - 1], agentId, tools);
    }
  }
}
