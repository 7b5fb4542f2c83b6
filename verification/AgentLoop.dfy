/** The agent's event stream and its resumption (cognix/core/agent.py:223-326, 704-919). */
module AgentLoop {
  import opened Wrappers
  import opened Messages
  import opened Permissions
  import opened Approvals
  import opened AgentTools

  datatype AgentState = Idle | Running | Waiting | Error

  datatype Event =
    | Delta(text: string)
    | ToolCalled(id: string, name: string)
    | ToolReturned(id: string, name: string)
    | ApprovalRequested(approval: nat)
    | DoneStop
    | DoneWaiting(approval: nat)
    | Errored

  /** One model answer, or a model failure. */
  datatype Reply = Reply(content: string, calls: seq<ToolCall>) | ReplyFails

  /** Everything foreign: the n-th model answer; what policy, files and tool say at the n-th tool
      call; and the chunks of a stream without tools. */
  datatype Env = Env(
    reply: nat -> Reply,
    policy: nat -> Decision,
    fault: nat -> bool,
    result: nat -> string,
    chunks: seq<string>,
    chunksFail: bool)

  /** The conversation, what was yielded so far, and the agent's own fields. */
  datatype Session = Session(
    messages: seq<Message>,
    events: seq<Event>,
    state: AgentState,
    snapshot: Option<Snapshot>,
    world: World,
    modelCalls: nat,
    toolCalls: nat)

  datatype Flow = GoOn | Halt | Raise

  function UserMessage(content: string): Message {
    Message("user", Plain(content), "", "", [])
  }

  function AssistantMessage(reply: Reply): Message
    requires reply.Reply?
  {
    Message("assistant", Plain(reply.content), "", "", reply.calls)
  }

  function ToolMessage(call: ToolCall, content: string): Message {
    Message("tool", Plain(content), call.name, call.id, [])
  }

  /** The tool result that stands in for a call until its request is approved. */
  function GateText(id: nat): string {
    "Approval required [" + Text.Decimal(id) + "]"
  }

  function ResultText(r: CallResult, result: string): string {
    match r
    case Ran => result
    case NotFound => "not found"
    case Gated(id) => GateText(id)
    case Denied => "Permission denied"
    case Faulted => ""
  }

  /** [t for t in calls if t.id != id] */
  function Without(calls: seq<ToolCall>, id: string): seq<ToolCall> {
    if calls == [] then []
    else
      var front := Without(calls[..|calls| - 1], id);
      if calls[|calls| - 1].id == id then front else front + [calls[|calls| - 1]]
  }

  // ---- one tool call, one batch, the whole loop ----

  function OneCall(cfg: Config, env: Env, s: Session, call: ToolCall, batch: seq<ToolCall>, message: string): (Session, Flow) {
    var called := s.(events := s.events + [ToolCalled(call.id, call.name)], toolCalls := s.toolCalls + 1);
    var (w, r) := ExecuteTool(cfg, s.world, call, env.policy(s.toolCalls), env.fault(s.toolCalls));
    if r.Faulted? then (called, Raise)
    else
      var messages := s.messages + [ToolMessage(call, ResultText(r, env.result(s.toolCalls)))];
      var returned := called.(world := w, messages := messages, events := called.events + [ToolReturned(call.id, call.name)]);
      if r.Gated? then
        var snapshot := Snapshot(messages, Without(batch, call.id), message);
        (returned.(
          state := Waiting,
          snapshot := Some(snapshot),
          world := w.(approvals := SaveSnapshot(w.approvals, r.approval, snapshot)),
          events := returned.events + [ApprovalRequested(r.approval), DoneWaiting(r.approval)]), Halt)
      else (returned, GoOn)
  }

  function Batch(cfg: Config, env: Env, s: Session, batch: seq<ToolCall>, i: nat, message: string): (Session, Flow)
    requires i <= |batch|
    decreases |batch| - i
  {
    if i == |batch| then (s, GoOn)
    else
      var (t, flow) := OneCall(cfg, env, s, batch[i], batch, message);
      if flow.GoOn? then Batch(cfg, env, t, batch, i + 1, message) else (t, flow)
  }

  function Failed(s: Session): Session {
    s.(state := Error, events := s.events + [Errored])
  }

  function Answered(cfg: Config, s: Session, reply: Reply, message: string): Session
    requires reply.Reply?
  {
    s.(messages := s.messages + [AssistantMessage(reply)],
       events := s.events + (if reply.content != "" then [Delta(reply.content)] else []) + [DoneStop],
       world := Remember(cfg, s.world, message),
       state := Idle)
  }

  function Iterate(cfg: Config, env: Env, s: Session, left: nat, message: string): Session
    decreases left
  {
    if left == 0 then Failed(s)
    else
      var reply := env.reply(s.modelCalls);
      var asked := s.(modelCalls := s.modelCalls + 1);
      if reply.ReplyFails? then Failed(asked)
      else if reply.calls == [] then Answered(cfg, asked, reply, message)
      else
        var (t, flow) := Batch(cfg, env, asked.(messages := s.messages + [AssistantMessage(reply)]), reply.calls, 0, message);
        match flow
        case Raise => Failed(t)
        case Halt => t
        case GoOn => Iterate(cfg, env, t, left - 1, message)
  }

  function Deltas(chunks: seq<string>): seq<Event> {
    if chunks == [] then []
    else
      var last := chunks[|chunks| - 1];
      Deltas(chunks[..|chunks| - 1]) + (if last != "" then [Delta(last)] else [])
  }

  function Joined(chunks: seq<string>): string {
    if chunks == [] then "" else Joined(chunks[..|chunks| - 1]) + chunks[|chunks| - 1]
  }

  function StreamEvents(cfg: Config, env: Env, s: Session, limit: nat, message: string): Session {
    var started := s.(messages := s.messages + [UserMessage(message)], events := [], state := Running);
    if cfg.tools == map[] then
      var streamed := started.(events := Deltas(env.chunks));
      if env.chunksFail then Failed(streamed)
      else streamed.(
        messages := started.messages + [AssistantMessage(Reply(Joined(env.chunks), []))],
        events := streamed.events + [DoneStop],
        world := Remember(cfg, s.world, message),
        state := Idle)
    else Iterate(cfg, env, started, limit, message)
  }

  predicate IsResultOf(m: Message, tool: string) {
    m.role == "tool" && m.name == tool
  }

  /** Message i is the most recent result of the tool. */
  predicate IsLastResult(messages: seq<Message>, tool: string, i: nat)
    requires i < |messages|
  {
    IsResultOf(messages[i], tool) && forall j :: i < j < |messages| ==> !IsResultOf(messages[j], tool)
  }

  /** _replace_last_tool_result: the content of the most recent result changes, and nothing else. */
  function ReplaceLast(messages: seq<Message>, tool: string, content: string): (r: seq<Message>)
    ensures |r| == |messages|
  {
    seq(|messages|, i requires 0 <= i < |messages| =>
      if IsLastResult(messages, tool, i) then messages[i].(content := Plain(content)) else messages[i])
  }

  predicate IsNewestOf(messages: seq<Message>, tool: string, i: nat)
    requires i < |messages|
  {
    && messages[i].role == "tool" && messages[i].name == tool
    && forall j :: i < j < |messages| ==> messages[j].role != "tool" || messages[j].name != tool
  }

  /** The loop over the messages, newest first. */
  method ReplaceLastToolResult(messages: seq<Message>, tool: string, content: string) returns (r: seq<Message>)
    ensures r == ReplaceLast(messages, tool, content)
    ensures forall i :: 0 <= i < |messages| && IsNewestOf(messages, tool, i) ==> r == messages[i := messages[i].(content := Plain(content))]
  {
    for i := |messages| downto 0
      invariant forall j :: i <= j < |messages| ==> !IsResultOf(messages[j], tool)
    {
      if IsResultOf(messages[i], tool) {
        return messages[i := messages[i].(content := Plain(content))];
      }
    }
    return messages;
  }

  datatype Resumption = Refused(error: ResumeError) | Propagates(session: Session) | Streamed(session: Session)

  /** The part of resume_and_continue after the approved tool ran: the calls left over from the
      gated reply, then the model loop. An error in the left-over calls propagates to the caller. */
  function Continue(cfg: Config, env: Env, ready: Session, saved: Snapshot, limit: nat): Resumption {
    var (t, flow) := Batch(cfg, env, ready, saved.remaining, 0, saved.message);
    match flow
    case Raise => Propagates(t)
    case Halt => Streamed(t)
    case GoOn => Streamed(Iterate(cfg, env, t.(state := Running), limit, saved.message))
  }

  /** resume_and_continue, with the snapshot in memory or, failing that, the one on the request;
      without any snapshot the approved tool runs and nothing else. */
  function ResumeAndContinue(cfg: Config, env: Env, s: Session, id: nat, limit: nat): Resumption {
    var result := env.result(s.toolCalls);
    var resumed := Resume(cfg, s.world, id, result);
    if resumed.Failure? then Refused(resumed.error)
    else
      var a := Find(s.world.approvals, id).value;
      AfterResume(cfg, env, AfterTool(s, resumed.value, a.tool), Continued(s, id), a.tool, result, limit)
  }

  /** The conversation that resuming request id continues. */
  function Continued(s: Session, id: nat): Option<Snapshot>
    requires Find(s.world.approvals, id).Some?
  {
    if s.snapshot.Some? then s.snapshot else Find(s.world.approvals, id).value.snapshot
  }

  /** The approved tool has run. */
  function AfterTool(s: Session, world: World, tool: string): Session {
    s.(world := world, toolCalls := s.toolCalls + 1, events := [ToolReturned("", tool)])
  }

  /** What follows the approved call: the rest of the saved conversation, if there is one. */
  function AfterResume(cfg: Config, env: Env, done: Session, saved: Option<Snapshot>, tool: string, result: string, limit: nat): Resumption {
    if saved.None? then Streamed(done.(events := done.events + [DoneStop], state := Idle))
    else Continue(cfg, env, done.(snapshot := None, messages := ReplaceLast(saved.value.messages, tool, result)), saved.value, limit)
  }

  // ---- the code ----

  class Agent {
    const cfg: Config
    var state: AgentState
    var pending: Option<nat>
    var snapshot: Option<Snapshot>
    var world: World
    var modelCalls: nat
    var toolCalls: nat

    constructor (cfg: Config, world: World)
      ensures this.cfg == cfg && this.world == world && state == Idle && pending == None && snapshot == None
    {
      this.cfg, this.world, state, pending, snapshot, modelCalls, toolCalls := cfg, world, Idle, None, None, 0, 0;
    }

    ghost function Now(messages: seq<Message>, events: seq<Event>): Session
      reads this
    {
      Session(messages, events, state, snapshot, world, modelCalls, toolCalls)
    }

    /** _execute_tool: a gate leaves the request id in pending and the agent waiting. */
    method RunTool(env: Env, call: ToolCall) returns (content: string, raised: bool)
      requires pending == None
      modifies this`world, this`pending, this`state, this`toolCalls
      ensures var (w, r) := ExecuteTool(cfg, old(world), call, env.policy(old(toolCalls)), env.fault(old(toolCalls)));
        && world == w && raised == r.Faulted? && content == ResultText(r, env.result(old(toolCalls)))
        && pending == (if r.Gated? then Some(r.approval) else None)
        && state == (if r.Gated? then Waiting else old(state))
      ensures toolCalls == old(toolCalls) + 1
    {
      var n := toolCalls;
      toolCalls := n + 1;
      if call.name !in cfg.tools {
        return "not found", false;
      }
      var tool := cfg.tools[call.name];
      var decision := Decide(cfg.mode, tool.level);
      if !decision.allowed {
        content, raised := Refuse(call, tool.level, decision, env.fault(n));
        return;
      }
      if cfg.inWorkspace && tool.external {
        if env.fault(n) {
          return "", true;
        }
        var policy := env.policy(n);
        if !policy.allowed {
          content, raised := Refuse(call, tool.level, policy, false);
          return;
        }
        world := world.(log := world.log + [Exec(cfg.agentId, call.name, call.args, tool.level, Direct(Some(policy)))]);
        return env.result(n), false;
      }
      world := world.(log := world.log + [Exec(cfg.agentId, call.name, call.args, tool.level, Direct(None))]);
      return env.result(n), false;
    }

    /** The branch of a refusing decision: it denies, or files a request, which may raise. */
    method Refuse(call: ToolCall, level: string, decision: Decision, fault: bool) returns (content: string, raised: bool)
      requires pending == None
      modifies this`world, this`pending, this`state
      ensures raised <==> decision.requiresApproval && fault
      ensures raised ==> content == "" && world == old(world) && state == old(state) && pending == None
      ensures !decision.requiresApproval ==>
        content == "Permission denied" && world == old(world) && state == old(state) && pending == None
      ensures decision.requiresApproval && !fault ==>
        && content == GateText(old(world).nextId) && state == Waiting && pending == Some(old(world).nextId)
        && world == Requested(old(world), cfg.agentId, call.name, call.args, level)
    {
      if !decision.requiresApproval {
        return "Permission denied", false;
      }
      if fault {
        return "", true;
      }
      pending := Some(world.nextId);
      world := Requested(world, cfg.agentId, call.name, call.args, level);
      state := Waiting;
      return GateText(pending.value), false;
    }

    /** The body of the loop over the tool calls of one reply. */
    method RunCall(env: Env, call: ToolCall, batch: seq<ToolCall>, message: string, messagesIn: seq<Message>, eventsIn: seq<Event>)
      returns (messages: seq<Message>, events: seq<Event>, flow: Flow)
      requires pending == None
      modifies this
      ensures pending == None
      ensures (Now(messages, events), flow) == OneCall(cfg, env, old(Now(messagesIn, eventsIn)), call, batch, message)
    {
      messages, events := messagesIn, eventsIn + [ToolCalled(call.id, call.name)];
      var content, raised := RunTool(env, call);
      if raised {
        return messages, events, Raise;
      }
      var gate := pending;
      pending := None;
      messages := messages + [ToolMessage(call, content)];
      events := events + [ToolReturned(call.id, call.name)];
      if gate.None? {
        return messages, events, GoOn;
      }
      var waiting := Snapshot(messages, Without(batch, call.id), message);
      snapshot := Some(waiting);
      world := world.(approvals := SaveSnapshot(world.approvals, gate.value, waiting));
      events := events + [ApprovalRequested(gate.value), DoneWaiting(gate.value)];
      flow := Halt;
    }

    method RunBatch(env: Env, batch: seq<ToolCall>, message: string, messagesIn: seq<Message>, eventsIn: seq<Event>)
      returns (messages: seq<Message>, events: seq<Event>, flow: Flow)
      requires pending == None
      modifies this
      ensures pending == None
      ensures (Now(messages, events), flow) == Batch(cfg, env, old(Now(messagesIn, eventsIn)), batch, 0, message)
    {
      messages, events, flow := messagesIn, eventsIn, GoOn;
      for i := 0 to |batch|
        invariant pending == None && flow == GoOn
        invariant Batch(cfg, env, Now(messages, events), batch, i, message)
               == Batch(cfg, env, old(Now(messagesIn, eventsIn)), batch, 0, message)
      {
        messages, events, flow := RunCall(env, batch[i], batch, message, messages, events);
        if flow != GoOn {
          return;
        }
      }
    }

    /** The loop over model replies, shared by stream_events and resume_and_continue. */
    method RunLoop(env: Env, limit: nat, message: string, messagesIn: seq<Message>, eventsIn: seq<Event>)
      returns (messages: seq<Message>, events: seq<Event>)
      requires pending == None
      modifies this
      ensures pending == None
      ensures Now(messages, events) == Iterate(cfg, env, old(Now(messagesIn, eventsIn)), limit, message)
    {
      messages, events := messagesIn, eventsIn;
      for i := 0 to limit
        invariant pending == None
        invariant Iterate(cfg, env, Now(messages, events), limit - i, message)
               == Iterate(cfg, env, old(Now(messagesIn, eventsIn)), limit, message)
      {
        var reply := env.reply(modelCalls);
        modelCalls := modelCalls + 1;
        if reply.ReplyFails? {
          state, events := Error, events + [Errored];
          return;
        }
        messages := messages + [AssistantMessage(reply)];
        if reply.calls == [] {
          if reply.content != "" {
            events := events + [Delta(reply.content)];
          }
          world, state := Remember(cfg, world, message), Idle;
          events := events + [DoneStop];
          return;
        }
        var flow;
        messages, events, flow := RunBatch(env, reply.calls, message, messages, events);
        if flow == Raise {
          state, events := Error, events + [Errored];
          return;
        }
        if flow == Halt {
          return;
        }
      }
      state, events := Error, events + [Errored];
    }

    method Stream(env: Env, limit: nat, message: string, messagesIn: seq<Message>)
      returns (messages: seq<Message>, events: seq<Event>)
      requires pending == None
      modifies this
      ensures pending == None
      ensures Now(messages, events) == StreamEvents(cfg, env, old(Now(messagesIn, [])), limit, message)
    {
      messages, events := messagesIn + [UserMessage(message)], [];
      state := Running;
      if cfg.tools == map[] {
        var content := "";
        for i := 0 to |env.chunks|
          invariant content == Joined(env.chunks[..i]) && events == Deltas(env.chunks[..i])
        {
          assert env.chunks[..i + 1][..i] == env.chunks[..i];
          if env.chunks[i] != "" {
            content, events := content + env.chunks[i], events + [Delta(env.chunks[i])];
          }
        }
        assert env.chunks[..|env.chunks|] == env.chunks;
        if env.chunksFail {
          state, events := Error, events + [Errored];
          return;
        }
        messages := messages + [AssistantMessage(Reply(content, []))];
        world, state := Remember(cfg, world, message), Idle;
        events := events + [DoneStop];
        return;
      }
      messages, events := RunLoop(env, limit, message, messages, events);
    }

    method ContinueSaved(env: Env, saved: Snapshot, limit: nat, messagesIn: seq<Message>, eventsIn: seq<Event>)
      returns (messages: seq<Message>, outcome: Resumption)
      requires pending == None
      modifies this
      ensures pending == None
      ensures outcome == Continue(cfg, env, old(Now(messagesIn, eventsIn)), saved, limit)
      ensures !outcome.Refused? && Now(messages, outcome.session.events) == outcome.session
    {
      var events, flow;
      messages, events, flow := RunBatch(env, saved.remaining, saved.message, messagesIn, eventsIn);
      if flow == GoOn {
        state := Running;
        messages, events := RunLoop(env, limit, saved.message, messages, events);
      }
      var session := Session(messages, events, state, snapshot, world, modelCalls, toolCalls);
      outcome := if flow == Raise then Propagates(session) else Streamed(session);
    }

    method ResumeApproved(env: Env, id: nat, limit: nat, messagesIn: seq<Message>)
      returns (messages: seq<Message>, outcome: Resumption)
      requires pending == None
      modifies this
      ensures pending == None
      ensures outcome == ResumeAndContinue(cfg, env, old(Now(messagesIn, [])), id, limit)
      ensures outcome.Refused? ==> Now(messages, []) == old(Now(messagesIn, []))
      ensures !outcome.Refused? ==> Now(messages, outcome.session.events) == outcome.session
    {
      var result := env.result(toolCalls);
      var checked := CheckAndRun(id, result);
      if checked.Failure? {
        return messagesIn, Refused(checked.error);
      }
      var approval := checked.value;
      var saved := if snapshot.Some? then snapshot else approval.snapshot;
      toolCalls := toolCalls + 1;
      assert Now(messagesIn, [ToolReturned("", approval.tool)]) == AfterTool(old(Now(messagesIn, [])), world, approval.tool);
      messages, outcome := FinishResume(env, saved, approval.tool, result, limit, messagesIn, [ToolReturned("", approval.tool)]);
    }

    /** The checks on the request; then its tool runs and it is completed. */
    method CheckAndRun(id: nat, result: string) returns (checked: Result<Approval, ResumeError>)
      modifies this`world
      ensures match Resume(cfg, old(world), id, result)
              case Failure(error) => checked == Failure(error) && world == old(world)
              case Success(after) => checked == Success(Find(old(world).approvals, id).value) && world == after
    {
      var found := Find(world.approvals, id);
      if found.None? {
        return Failure(UnknownApproval);
      }
      var approval := found.value;
      if approval.agentId != cfg.agentId {
        return Failure(WrongAgent);
      }
      if approval.status != Approved {
        return Failure(NotApproved);
      }
      if approval.tool !in cfg.tools {
        return Failure(UnknownTool);
      }
      world := world.(log := world.log + [Exec(cfg.agentId, approval.tool, approval.args, cfg.tools[approval.tool].level, Resumed(id))]);
      world := world.(approvals := SetStatus(world.approvals, id, Completed, result));
      return Success(approval);
    }

    method FinishResume(
      env: Env, saved: Option<Snapshot>, tool: string, result: string, limit: nat, messagesIn: seq<Message>, eventsIn: seq<Event>)
      returns (messages: seq<Message>, outcome: Resumption)
      requires pending == None
      modifies this
      ensures pending == None
      ensures outcome == AfterResume(cfg, env, old(Now(messagesIn, eventsIn)), saved, tool, result, limit)
      ensures !outcome.Refused? && Now(messages, outcome.session.events) == outcome.session
    {
      if saved.None? {
        state := Idle;
        return messagesIn, Streamed(Session(messagesIn, eventsIn + [DoneStop], state, snapshot, world, modelCalls, toolCalls));
      }
      snapshot := None;
      messages := ReplaceLastToolResult(saved.value.messages, tool, result);
      messages, outcome := ContinueSaved(env, saved.value, limit, messages, eventsIn);
    }
  }
}
