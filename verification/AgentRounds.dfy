/** How many rounds a stream goes and what ends it (cognix/core/agent.py:250-326). */
module AgentRounds {
  import opened Wrappers
  import opened Messages
  import opened Permissions
  import opened Approvals
  import opened AgentTools
  import opened AgentLoop
  import opened AgentEvents
  import Text

  // ---- the calls of one reply ----

  /** What the next call comes to in this session. */
  function Called(cfg: Config, env: Env, s: Session, call: ToolCall): CallResult {
    ExecuteTool(cfg, s.world, call, env.policy(s.toolCalls), env.fault(s.toolCalls)).1
  }

  /** A call that needs neither an approval nor a policy runs, and its result is the next message. */
  lemma PermittedCallIsAnswered(cfg: Config, env: Env, s: Session, call: ToolCall, batch: seq<ToolCall>, message: string)
    requires call.name in cfg.tools && IsPermitted(cfg.mode, cfg.tools[call.name].level)
    requires !cfg.inWorkspace || !cfg.tools[call.name].external
    ensures var (t, flow) := OneCall(cfg, env, s, call, batch, message);
      && flow == GoOn && t.state == s.state
      && t.messages == s.messages + [Message("tool", Plain(env.result(s.toolCalls)), call.name, call.id, [])]
      && t.world.log == s.world.log + [Exec(cfg.agentId, call.name, call.args, cfg.tools[call.name].level, Direct(None))]
      && t.world.approvals == s.world.approvals
  {
    DecidesExactly(cfg.mode, cfg.tools[call.name].level);
  }

  /** Calls i to j - 1 neither asked nor raised, and led from s to u. */
  predicate GoesOn(cfg: Config, env: Env, s: Session, batch: seq<ToolCall>, i: nat, message: string, j: nat, u: Session)
    requires i <= j <= |batch|
    decreases j - i
  {
    if i == j then u == s
    else
      && !Called(cfg, env, s, batch[i]).Faulted? && !Called(cfg, env, s, batch[i]).Gated?
      && GoesOn(cfg, env, OneCall(cfg, env, s, batch[i], batch, message).0, batch, i + 1, message, j, u)
  }

  /** The calls of a reply are made one after the other until one asks or raises, and to the end
      otherwise. */
  lemma {:induction false} BatchStops(cfg: Config, env: Env, s: Session, batch: seq<ToolCall>, i: nat, message: string) returns (j: nat, u: Session)
    requires i <= |batch|
    ensures i <= j <= |batch| && GoesOn(cfg, env, s, batch, i, message, j, u)
    ensures var (t, flow) := Batch(cfg, env, s, batch, i, message);
      if j == |batch| then flow == GoOn && t == u
      else
        && t == OneCall(cfg, env, u, batch[j], batch, message).0
        && (Called(cfg, env, u, batch[j]).Faulted? || Called(cfg, env, u, batch[j]).Gated?)
        && flow == if Called(cfg, env, u, batch[j]).Faulted? then Raise else Halt
    decreases |batch| - i
  {
    j, u := i, s;
    if i < |batch| && !Called(cfg, env, s, batch[i]).Faulted? && !Called(cfg, env, s, batch[i]).Gated? {
      j, u := BatchStops(cfg, env, OneCall(cfg, env, s, batch[i], batch, message).0, batch, i + 1, message);
    }
  }

  // ---- the rounds of a stream ----

  /** The model has answered, and its message is added. */
  function Replied(env: Env, s: Session): Session
    requires env.reply(s.modelCalls).Reply?
  {
    s.(modelCalls := s.modelCalls + 1, messages := s.messages + [AssistantMessage(env.reply(s.modelCalls))])
  }

  /** The next reply carries calls. */
  predicate HasCalls(env: Env, s: Session) {
    env.reply(s.modelCalls).Reply? && env.reply(s.modelCalls).calls != []
  }

  /** What making the calls of the next reply comes to. */
  function Round(cfg: Config, env: Env, s: Session, message: string): (Session, Flow)
    requires HasCalls(env, s)
  {
    Batch(cfg, env, Replied(env, s), env.reply(s.modelCalls).calls, 0, message)
  }

  /** The next k replies carry calls, none of which asks or raises, and lead from s to t. */
  predicate GoesThrough(cfg: Config, env: Env, s: Session, message: string, k: nat, t: Session)
    decreases k
  {
    if k == 0 then t == s
    else
      && HasCalls(env, s) && Round(cfg, env, s, message).1.GoOn?
      && GoesThrough(cfg, env, Round(cfg, env, s, message).0, message, k - 1, t)
  }

  /** Rounds that go through are followed by the rest of the loop, each after one model call. */
  lemma {:induction false} RoundsGoOn(cfg: Config, env: Env, s: Session, left: nat, message: string, k: nat, t: Session)
    requires GoesThrough(cfg, env, s, message, k, t) && k <= left
    ensures Iterate(cfg, env, s, left, message) == Iterate(cfg, env, t, left - k, message)
    ensures t.modelCalls == s.modelCalls + k
    decreases k
  {
    if k > 0 {
      BatchModelCalls(cfg, env, Replied(env, s), env.reply(s.modelCalls).calls, 0, message);
      RoundsGoOn(cfg, env, Round(cfg, env, s, message).0, left - 1, message, k - 1, t);
    }
  }

  /** The stream ended normally after n model calls, and its last message is the reply. */
  predicate EndsWith(end: Session, n: nat, messages: seq<Message>, reply: Reply) {
    && reply.Reply? && end.modelCalls == n && end.state == Idle && |end.events| > 0 && end.events[|end.events| - 1] == DoneStop
    && end.messages == messages + [Message("assistant", Plain(reply.content), "", "", reply.calls)]
  }

  predicate EndsInError(end: Session) {
    end.state == Error && |end.events| > 0 && end.events[|end.events| - 1] == Errored
  }

  /** If the first k replies carry calls that all go through, k is below the limit, and reply k carries
      none, then the loop makes k + 1 model calls and ends normally with that reply. */
  lemma AnswersAfterRounds(cfg: Config, env: Env, s: Session, left: nat, message: string, k: nat, t: Session)
    requires GoesThrough(cfg, env, s, message, k, t) && k < left
    requires env.reply(s.modelCalls + k).Reply? && env.reply(s.modelCalls + k).calls == []
    ensures EndsWith(Iterate(cfg, env, s, left, message), s.modelCalls + k + 1, t.messages, env.reply(s.modelCalls + k))
  {
    RoundsGoOn(cfg, env, s, left, message, k, t);
  }

  /** The final reply is delivered in one piece before the end; and in ask and plan mode the exchange is
      remembered in a workspace under a pending request of its own, which is all that changes in the world. */
  lemma AnswerIsDelivered(cfg: Config, env: Env, s: Session, left: nat, message: string, k: nat, t: Session)
    requires GoesThrough(cfg, env, s, message, k, t) && k < left
    requires env.reply(s.modelCalls + k).Reply? && env.reply(s.modelCalls + k).calls == []
    ensures var end, content := Iterate(cfg, env, s, left, message), env.reply(s.modelCalls + k).content;
      && end.events == t.events + (if content == "" then [] else [Delta(content)]) + [DoneStop]
      && if cfg.inWorkspace && (cfg.mode == "ask" || cfg.mode == "plan") && Text.Strip(message) != ""
         then FilesRequest(t.world, end.world, cfg.agentId, ToolCall("", "memory.write", message), "ask")
         else end.world == t.world
  {
    RoundsGoOn(cfg, env, s, left, message, k, t);
  }

  /** What stops the loop after the rounds that went through. */
  datatype Stop = LimitReached | ModelFailed | NoCalls | CallRaised | CallAsked

  function StopAt(cfg: Config, env: Env, t: Session, message: string, left: nat): Option<Stop> {
    if left == 0 then Some(LimitReached)
    else if env.reply(t.modelCalls).ReplyFails? then Some(ModelFailed)
    else if !HasCalls(env, t) then Some(NoCalls)
    else
      match Round(cfg, env, t, message).1
      case Raise => Some(CallRaised)
      case Halt => Some(CallAsked)
      case GoOn => None
  }

  lemma {:induction false} RoundsStop(cfg: Config, env: Env, s: Session, left: nat, message: string) returns (k: nat, t: Session)
    ensures k <= left && GoesThrough(cfg, env, s, message, k, t) && StopAt(cfg, env, t, message, left - k).Some?
    decreases left
  {
    k, t := 0, s;
    if StopAt(cfg, env, s, message, left).None? {
      var j, u := RoundsStop(cfg, env, Round(cfg, env, s, message).0, left - 1, message);
      k, t := j + 1, u;
    }
  }

  lemma RoundStops(cfg: Config, env: Env, t: Session, message: string)
    requires HasCalls(env, t)
    ensures var (u, flow) := Round(cfg, env, t, message);
      u.modelCalls == t.modelCalls + 1 && (flow.Halt? ==> u.state == Waiting)
  {
    BatchModelCalls(cfg, env, Replied(env, t), env.reply(t.modelCalls).calls, 0, message);
    if Round(cfg, env, t, message).1.Halt? {
      BatchHaltWaits(cfg, env, Replied(env, t), env.reply(t.modelCalls).calls, 0, message);
    }
  }

  /** How the loop ends when it stops at once. */
  predicate StopsBy(end: Session, n: nat, stop: Stop, messages: seq<Message>, reply: Reply) {
    && (EndsInError(end) <==> stop.LimitReached? || stop.ModelFailed? || stop.CallRaised?)
    && (end.state == Waiting <==> stop.CallAsked?)
    && (end.state == Idle <==> stop.NoCalls?)
    && (stop.NoCalls? ==> EndsWith(end, n + 1, messages, reply))
    && end.modelCalls == if stop.LimitReached? then n else n + 1
  }

  lemma StopsNow(cfg: Config, env: Env, t: Session, left: nat, message: string, n: nat, stop: Stop, end: Session)
    requires StopAt(cfg, env, t, message, left) == Some(stop) && n == t.modelCalls && end == Iterate(cfg, env, t, left, message)
    ensures StopsBy(end, n, stop, t.messages, env.reply(n))
  {
    if HasCalls(env, t) {
      RoundStops(cfg, env, t, message);
    }
  }

  /** The loop goes through k rounds and stops for one reason. It errs if and only if the limit is used up,
      by exactly as many model calls, or a model call fails, or a call raises; it waits if and only if a call
      asks; and otherwise it ends with the reply. */
  lemma ErrsExactlyWhen(cfg: Config, env: Env, s: Session, left: nat, message: string) returns (k: nat, t: Session, stop: Stop)
    ensures k <= left && GoesThrough(cfg, env, s, message, k, t) && StopAt(cfg, env, t, message, left - k) == Some(stop)
    ensures StopsBy(Iterate(cfg, env, s, left, message), s.modelCalls + k, stop, t.messages, env.reply(s.modelCalls + k))
    ensures stop.LimitReached? <==> k == left
  {
    k, t := RoundsStop(cfg, env, s, left, message);
    stop := StopAt(cfg, env, t, message, left - k).value;
    RoundsGoOn(cfg, env, s, left, message, k, t);
    StopsNow(cfg, env, t, left - k, message, s.modelCalls + k, stop, Iterate(cfg, env, s, left, message));
  }

  // ---- whole streams ----

  /** The session in which the loop of a stream starts. */
  function Started(s: Session, message: string): Session {
    s.(messages := s.messages + [Message("user", Plain(message), "", "", [])], events := [], state := Running)
  }

  /** A stream of an agent with tools: k replies with calls that all go through, and then one without. */
  lemma StreamAnswers(cfg: Config, env: Env, s: Session, limit: nat, message: string, k: nat, t: Session)
    requires cfg.tools != map[] && GoesThrough(cfg, env, Started(s, message), message, k, t) && k < limit
    requires env.reply(s.modelCalls + k).Reply? && env.reply(s.modelCalls + k).calls == []
    ensures EndsWith(StreamEvents(cfg, env, s, limit, message), s.modelCalls + k + 1, t.messages, env.reply(s.modelCalls + k))
  {
    AnswersAfterRounds(cfg, env, Started(s, message), limit, message, k, t);
  }

  /** The session in which a resumption works off the saved calls: the approved tool has run and its result
      stands in the saved conversation. */
  function Reopened(cfg: Config, env: Env, s: Session, id: nat, saved: Snapshot): Session
    requires Resume(cfg, s.world, id, env.result(s.toolCalls)).Success?
  {
    var result, tool := env.result(s.toolCalls), Find(s.world.approvals, id).value.tool;
    s.(world := Resume(cfg, s.world, id, result).value, toolCalls := s.toolCalls + 1, events := [ToolReturned("", tool)],
       snapshot := None, messages := ReplaceLast(saved.messages, tool, result))
  }

  /** A resumption whose saved calls go through goes on like a stream, with its own limit: k replies with
      calls that all go through, and then one without. */
  lemma ResumeAnswers(cfg: Config, env: Env, s: Session, id: nat, limit: nat, saved: Snapshot, u: Session, k: nat, t: Session)
    requires Resume(cfg, s.world, id, env.result(s.toolCalls)).Success? && Continued(s, id) == Some(saved)
    requires GoesOn(cfg, env, Reopened(cfg, env, s, id, saved), saved.remaining, 0, saved.message, |saved.remaining|, u)
    requires GoesThrough(cfg, env, u.(state := Running), saved.message, k, t) && k < limit
    requires env.reply(u.modelCalls + k).Reply? && env.reply(u.modelCalls + k).calls == []
    ensures var outcome := ResumeAndContinue(cfg, env, s, id, limit);
      outcome.Streamed? && EndsWith(outcome.session, u.modelCalls + k + 1, t.messages, env.reply(u.modelCalls + k))
  {
    ResumeContinues(cfg, env, s, id, limit, saved);
    ContinueAnswers(cfg, env, Reopened(cfg, env, s, id, saved), saved, limit, u, k, t);
  }

  lemma ResumeContinues(cfg: Config, env: Env, s: Session, id: nat, limit: nat, saved: Snapshot)
    requires Resume(cfg, s.world, id, env.result(s.toolCalls)).Success? && Continued(s, id) == Some(saved)
    ensures ResumeAndContinue(cfg, env, s, id, limit) == Continue(cfg, env, Reopened(cfg, env, s, id, saved), saved, limit)
  {
  }

  lemma ContinueAnswers(cfg: Config, env: Env, ready: Session, saved: Snapshot, limit: nat, u: Session, k: nat, t: Session)
    requires GoesOn(cfg, env, ready, saved.remaining, 0, saved.message, |saved.remaining|, u)
    requires GoesThrough(cfg, env, u.(state := Running), saved.message, k, t) && k < limit
    requires env.reply(u.modelCalls + k).Reply? && env.reply(u.modelCalls + k).calls == []
    ensures var outcome := Continue(cfg, env, ready, saved, limit);
      outcome.Streamed? && EndsWith(outcome.session, u.modelCalls + k + 1, t.messages, env.reply(u.modelCalls + k))
  {
    BatchGoesOn(cfg, env, ready, saved.remaining, 0, saved.message, u);
    AnswersAfterRounds(cfg, env, u.(state := Running), limit, saved.message, k, t);
  }

  lemma {:induction false} BatchGoesOn(cfg: Config, env: Env, s: Session, batch: seq<ToolCall>, i: nat, message: string, u: Session)
    requires i <= |batch| && GoesOn(cfg, env, s, batch, i, message, |batch|, u)
    ensures Batch(cfg, env, s, batch, i, message) == (u, GoOn)
    decreases |batch| - i
  {
    if i < |batch| {
      BatchGoesOn(cfg, env, OneCall(cfg, env, s, batch[i], batch, message).0, batch, i + 1, message, u);
    }
  }

  /** What the deltas of a stream spell. */
  function Spelled(events: seq<Event>): string {
    if events == [] then ""
    else
      var last := events[|events| - 1];
      Spelled(events[..|events| - 1]) + if last.Delta? then last.text else ""
  }

  lemma SpelledAppend(events: seq<Event>, e: Event)
    ensures Spelled(events + [e]) == if e.Delta? then Spelled(events) + e.text else Spelled(events)
  {
    assert (events + [e])[..|events|] == events;
    assert Spelled(events) + "" == Spelled(events);
  }

  lemma {:induction false} DeltasSpell(chunks: seq<string>)
    ensures Spelled(Deltas(chunks)) == Joined(chunks)
  {
    if chunks != [] {
      var front, last := chunks[..|chunks| - 1], chunks[|chunks| - 1];
      DeltasSpell(front);
      SpelledAppend(Deltas(front), Delta(last));
      assert last == "" ==> Deltas(chunks) == Deltas(front) && Joined(chunks) == Joined(front);
    }
  }

  /** A stream of an agent without tools makes no model call through the loop; unless a chunk fails, its
      deltas spell the message that it adds. */
  lemma ToollessStreamSpells(cfg: Config, env: Env, s: Session, limit: nat, message: string)
    requires cfg.tools == map[]
    ensures var end := StreamEvents(cfg, env, s, limit, message);
      if env.chunksFail then EndsInError(end) && end.messages == s.messages + [Message("user", Plain(message), "", "", [])]
      else EndsWith(end, s.modelCalls, Started(s, message).messages, Reply(Spelled(end.events), []))
  {
    DeltasSpell(env.chunks);
    SpelledAppend(Deltas(env.chunks), DoneStop);
    var end := StreamEvents(cfg, env, s, limit, message);
    assert !env.chunksFail ==> end.events == Deltas(env.chunks) + [DoneStop];
  }
}
