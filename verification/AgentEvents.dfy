/** What every event stream of the agent looks like, whatever the model, tools and humans do. */
module AgentEvents {
  import opened Wrappers
  import opened Messages
  import opened Approvals
  import opened AgentTools
  import opened AgentLoop

  // ---- the event grammar ----

  predicate Terminal(e: Event) {
    e.DoneStop? || e.DoneWaiting? || e.Errored?
  }

  predicate Pair(e: Event, f: Event) {
    e.ToolCalled? && f.ToolReturned? && e.id == f.id && e.name == f.name
  }

  /** Event i is a delta, or half of a call/result pair. */
  ghost predicate OpenAt(es: seq<Event>, i: nat)
    requires i < |es|
  {
    || es[i].Delta?
    || (es[i].ToolCalled? && i + 1 < |es| && Pair(es[i], es[i + 1]))
    || (es[i].ToolReturned? && i > 0 && Pair(es[i - 1], es[i]))
  }

  ghost predicate Open(es: seq<Event>) {
    forall i :: 0 <= i < |es| ==> OpenAt(es, i)
  }

  /** How a stream may end, and in which agent state. */
  predicate Ending(es: seq<Event>, state: AgentState) {
    || (es == [DoneStop] && state == Idle)
    || (es == [Errored] && state == Error)
    || (|es| == 2 && es[0].ToolCalled? && es[1] == Errored && state == Error)
    || (|es| == 4 && Pair(es[0], es[1]) && es[2].ApprovalRequested? && es[3] == DoneWaiting(es[2].approval) && state == Waiting)
  }

  ghost predicate Complete(es: seq<Event>, state: AgentState) {
    exists n: nat :: n <= |es| && Open(es[..n]) && Ending(es[n..], state)
  }

  lemma CompleteFrom(open: seq<Event>, ending: seq<Event>, state: AgentState)
    requires Open(open) && Ending(ending, state)
    ensures Complete(open + ending, state)
  {
    assert (open + ending)[..|open|] == open && (open + ending)[|open|..] == ending;
  }

  lemma OpenAppend(a: seq<Event>, b: seq<Event>)
    requires Open(a) && Open(b)
    ensures Open(a + b)
  {
    forall i | 0 <= i < |a + b| ensures OpenAt(a + b, i) {
      assert if i < |a| then OpenAt(a, i) else OpenAt(b, i - |a|);
    }
  }

  lemma PairOpen(e: Event, f: Event)
    requires Pair(e, f)
    ensures Open([e, f])
  {
    assert OpenAt([e, f], 0) && OpenAt([e, f], 1);
  }

  /** The yielded events after the first base ones. */
  function Since(s: Session, base: nat): seq<Event>
    requires base <= |s.events|
  {
    s.events[base..]
  }

  /** What one call or batch leaves behind. */
  ghost predicate Flows(s: Session, flow: Flow, base: nat) {
    && base <= |s.events|
    && (flow == GoOn ==> Open(Since(s, base)))
    && (flow == Halt ==> Complete(Since(s, base), s.state))
    && (flow == Raise ==> Complete(Since(s, base) + [Errored], Error))
  }

  lemma OneCallFlows(cfg: Config, env: Env, s: Session, call: ToolCall, batch: seq<ToolCall>, message: string, base: nat)
    requires base <= |s.events| && Open(Since(s, base))
    ensures var (t, flow) := OneCall(cfg, env, s, call, batch, message);
      Flows(t, flow, base)
  {
    var called, returned := ToolCalled(call.id, call.name), ToolReturned(call.id, call.name);
    var (t, flow) := OneCall(cfg, env, s, call, batch, message);
    var id := OneCallEvents(cfg, env, s, call, batch, message);
    match flow
    case GoOn =>
      PairOpen(called, returned);
      OpenAppend(Since(s, base), [called, returned]);
      assert Since(t, base) == Since(s, base) + [called, returned];
    case Raise =>
      CompleteFrom(Since(s, base), [called, Errored], Error);
      assert Since(t, base) + [Errored] == Since(s, base) + [called, Errored];
    case Halt =>
      var ending := [called, returned, ApprovalRequested(id), DoneWaiting(id)];
      CompleteFrom(Since(s, base), ending, Waiting);
      assert Since(t, base) == Since(s, base) + ending;
  }

  /** What one call yields. */
  lemma OneCallEvents(cfg: Config, env: Env, s: Session, call: ToolCall, batch: seq<ToolCall>, message: string) returns (id: nat)
    ensures var (t, flow) := OneCall(cfg, env, s, call, batch, message);
      var called, returned := ToolCalled(call.id, call.name), ToolReturned(call.id, call.name);
      match flow
      case GoOn => t.events == s.events + [called, returned]
      case Raise => t.events == s.events + [called]
      case Halt => t.state == Waiting && t.events == s.events + [called, returned, ApprovalRequested(id), DoneWaiting(id)]
  {
    var (w, r) := ExecuteTool(cfg, s.world, call, env.policy(s.toolCalls), env.fault(s.toolCalls));
    id := if r.Gated? then r.approval else 0;
  }

  lemma {:induction false} BatchFlows(cfg: Config, env: Env, s: Session, batch: seq<ToolCall>, i: nat, message: string, base: nat)
    requires i <= |batch| && base <= |s.events| && Open(Since(s, base))
    ensures var (t, flow) := Batch(cfg, env, s, batch, i, message);
      Flows(t, flow, base)
    decreases |batch| - i
  {
    if i < |batch| {
      OneCallFlows(cfg, env, s, batch[i], batch, message, base);
      var (t, flow) := OneCall(cfg, env, s, batch[i], batch, message);
      if flow == GoOn {
        BatchFlows(cfg, env, t, batch, i + 1, message, base);
      }
    }
  }

  lemma FailedCompletes(s: Session, base: nat)
    requires base <= |s.events| && Open(Since(s, base))
    ensures Complete(Since(Failed(s), base), Error)
  {
    CompleteFrom(Since(s, base), [Errored], Error);
    assert Since(Failed(s), base) == Since(s, base) + [Errored];
  }

  lemma AnsweredCompletes(cfg: Config, s: Session, reply: Reply, message: string, base: nat)
    requires base <= |s.events| && Open(Since(s, base)) && reply.Reply?
    ensures Complete(Since(Answered(cfg, s, reply, message), base), Idle)
  {
    var said := if reply.content != "" then [Delta(reply.content)] else [];
    OpenAppend(Since(s, base), said);
    CompleteFrom(Since(s, base) + said, [DoneStop], Idle);
    assert Since(Answered(cfg, s, reply, message), base) == Since(s, base) + said + [DoneStop];
  }

  lemma {:induction false} IterateCompletes(cfg: Config, env: Env, s: Session, left: nat, message: string, base: nat)
    requires base <= |s.events| && Open(Since(s, base))
    ensures var t := Iterate(cfg, env, s, left, message);
      base <= |t.events| && Complete(Since(t, base), t.state)
    decreases left
  {
    if left == 0 {
      FailedCompletes(s, base);
    } else {
      var reply := env.reply(s.modelCalls);
      var asked := s.(modelCalls := s.modelCalls + 1);
      if reply.ReplyFails? {
        FailedCompletes(asked, base);
      } else if reply.calls == [] {
        AnsweredCompletes(cfg, asked, reply, message, base);
      } else {
        var replied := asked.(messages := s.messages + [AssistantMessage(reply)]);
        BatchFlows(cfg, env, replied, reply.calls, 0, message, base);
        var (t, flow) := Batch(cfg, env, replied, reply.calls, 0, message);
        if flow == GoOn {
          IterateCompletes(cfg, env, t, left - 1, message, base);
        } else if flow == Raise {
          assert Since(Failed(t), base) == Since(t, base) + [Errored];
        }
      }
    }
  }

  lemma {:induction false} DeltasOpen(chunks: seq<string>)
    ensures Open(Deltas(chunks))
  {
    if chunks != [] {
      DeltasOpen(chunks[..|chunks| - 1]);
      var last := chunks[|chunks| - 1];
      OpenAppend(Deltas(chunks[..|chunks| - 1]), if last != "" then [Delta(last)] else []);
    }
  }

  lemma StreamCompletes(cfg: Config, env: Env, s: Session, limit: nat, message: string)
    ensures var t := StreamEvents(cfg, env, s, limit, message);
      Complete(t.events, t.state)
  {
    var t := StreamEvents(cfg, env, s, limit, message);
    var started := s.(messages := s.messages + [UserMessage(message)], events := [], state := Running);
    if cfg.tools == map[] {
      DeltasOpen(env.chunks);
      CompleteFrom(Deltas(env.chunks), if env.chunksFail then [Errored] else [DoneStop], t.state);
    } else {
      IterateCompletes(cfg, env, started, limit, message, 0);
      assert Since(t, 0) == t.events;
    }
  }

  // ---- the grammar as a consumer sees it ----

  /** Exactly one terminal event, and it is the last. */
  ghost predicate OneTerminalLast(es: seq<Event>) {
    es != [] && forall i :: 0 <= i < |es| ==> (Terminal(es[i]) <==> i == |es| - 1)
  }

  /** A call is followed at once by its result, or by the error; a result only comes right after
      its call. */
  predicate PairedAt(es: seq<Event>, i: nat)
    requires i < |es|
  {
    && (es[i].ToolCalled? ==> i + 1 < |es| && (Pair(es[i], es[i + 1]) || es[i + 1] == Errored))
    && (es[i].ToolReturned? ==> i > 0 && Pair(es[i - 1], es[i]))
  }

  /** An approval request comes right after a result and right before the waiting end, and a
      waiting end right after its request. */
  predicate GatedAt(es: seq<Event>, i: nat)
    requires i < |es|
  {
    && (es[i].ApprovalRequested? ==> 0 < i == |es| - 2 && es[i - 1].ToolReturned? && es[i + 1] == DoneWaiting(es[i].approval))
    && (es[i].DoneWaiting? ==> i > 0 && es[i - 1] == ApprovalRequested(es[i].approval))
  }

  predicate StateMatches(last: Event, state: AgentState) {
    state == match last
             case DoneStop => Idle
             case DoneWaiting(_) => Waiting
             case _ => Error
  }

  ghost predicate StreamProtocol(es: seq<Event>, state: AgentState) {
    && OneTerminalLast(es)
    && (forall i :: 0 <= i < |es| ==> PairedAt(es, i) && GatedAt(es, i))
    && StateMatches(es[|es| - 1], state)
  }

  /** An event of the part before the ending. */
  lemma OpenFacts(es: seq<Event>, n: nat, i: nat)
    requires i < n <= |es| && Open(es[..n])
    ensures !Terminal(es[i]) && !es[i].ApprovalRequested?
    ensures es[i].ToolCalled? ==> i + 1 < n && Pair(es[i], es[i + 1])
    ensures es[i].ToolReturned? ==> i > 0 && Pair(es[i - 1], es[i])
  {
    assert OpenAt(es[..n], i);
  }

  lemma CompleteEnds(es: seq<Event>, n: nat, state: AgentState)
    requires n <= |es| && Open(es[..n]) && Ending(es[n..], state)
    ensures OneTerminalLast(es) && StateMatches(es[|es| - 1], state)
  {
    var ending := es[n..];
    forall i | 0 <= i < |es| ensures Terminal(es[i]) <==> i == |es| - 1 {
      if i < n {
        OpenFacts(es, n, i);
      } else {
        assert es[i] == ending[i - n];
      }
    }
    assert es[|es| - 1] == ending[|ending| - 1];
  }

  lemma CompleteAt(es: seq<Event>, n: nat, state: AgentState, i: nat)
    requires n <= |es| && Open(es[..n]) && Ending(es[n..], state) && i < |es|
    ensures PairedAt(es, i) && GatedAt(es, i)
  {
    var ending := es[n..];
    if i < n {
      OpenFacts(es, n, i);
    } else {
      assert es[i] == ending[i - n];
      assert i > n ==> es[i - 1] == ending[i - n - 1];
      assert i + 1 < |es| ==> es[i + 1] == ending[i - n + 1];
    }
  }

  lemma CompleteIsProtocol(es: seq<Event>, state: AgentState)
    requires Complete(es, state)
    ensures StreamProtocol(es, state)
  {
    var n: nat :| n <= |es| && Open(es[..n]) && Ending(es[n..], state);
    CompleteEnds(es, n, state);
    forall i | 0 <= i < |es| ensures PairedAt(es, i) && GatedAt(es, i) {
      CompleteAt(es, n, state, i);
    }
  }

  /** Every stream_events run, for any model answers, tool outcomes, policies, faults and limit. */
  lemma StreamFollowsProtocol(cfg: Config, env: Env, s: Session, limit: nat, message: string)
    ensures var t := StreamEvents(cfg, env, s, limit, message);
      StreamProtocol(t.events, t.state)
  {
    StreamCompletes(cfg, env, s, limit, message);
    var t := StreamEvents(cfg, env, s, limit, message);
    CompleteIsProtocol(t.events, t.state);
  }

  predicate ResultThenProtocolShape(es: seq<Event>) {
    |es| > 1 && es[0].ToolReturned?
  }

  lemma ContinueFollows(cfg: Config, env: Env, ready: Session, saved: Snapshot, limit: nat)
    requires |ready.events| == 1 && ready.events[0].ToolReturned?
    ensures var r := Continue(cfg, env, ready, saved, limit);
      r.Streamed? ==> ResultThenProtocolShape(r.session.events) && Complete(r.session.events[1..], r.session.state)
  {
    BatchFlows(cfg, env, ready, saved.remaining, 0, saved.message, 1);
    BatchKeepsEvents(cfg, env, ready, saved.remaining, 0, saved.message);
    var (t, flow) := Batch(cfg, env, ready, saved.remaining, 0, saved.message);
    if flow == GoOn {
      IterateCompletes(cfg, env, t.(state := Running), limit, saved.message, 1);
      IterateKeepsEvents(cfg, env, t.(state := Running), limit, saved.message);
    }
    var r := Continue(cfg, env, ready, saved, limit);
    if r.Streamed? {
      CompleteIsProtocol(r.session.events[1..], r.session.state);
    }
  }

  lemma AfterResumeFollows(cfg: Config, env: Env, done: Session, saved: Option<Snapshot>, tool: string, result: string, limit: nat)
    requires |done.events| == 1 && done.events[0].ToolReturned?
    ensures var r := AfterResume(cfg, env, done, saved, tool, result, limit);
      r.Streamed? ==> ResultThenProtocolShape(r.session.events) && Complete(r.session.events[1..], r.session.state)
  {
    if saved.None? {
      CompleteFrom([], [DoneStop], Idle);
      assert (done.events + [DoneStop])[1..] == [] + [DoneStop];
    } else {
      ContinueFollows(cfg, env, done.(snapshot := None, messages := ReplaceLast(saved.value.messages, tool, result)), saved.value, limit);
    }
  }

  lemma ResumeCompletes(cfg: Config, env: Env, s: Session, id: nat, limit: nat)
    ensures var r := ResumeAndContinue(cfg, env, s, id, limit);
      r.Streamed? ==> ResultThenProtocolShape(r.session.events) && Complete(r.session.events[1..], r.session.state)
  {
    var result := env.result(s.toolCalls);
    var resumed := Resume(cfg, s.world, id, result);
    if resumed.Success? {
      var a := Find(s.world.approvals, id).value;
      AfterResumeFollows(cfg, env, AfterTool(s, resumed.value, a.tool), Continued(s, id), a.tool, result, limit);
    }
  }

  /** After its leading tool result, a resumed stream follows the same protocol, unless an error
      in the calls left over from the gated reply propagates to the caller. */
  lemma ResumeFollowsProtocol(cfg: Config, env: Env, s: Session, id: nat, limit: nat)
    ensures var r := ResumeAndContinue(cfg, env, s, id, limit);
      r.Streamed? ==>
        ResultThenProtocolShape(r.session.events) && StreamProtocol(r.session.events[1..], r.session.state)
  {
    ResumeCompletes(cfg, env, s, id, limit);
    var r := ResumeAndContinue(cfg, env, s, id, limit);
    if r.Streamed? {
      CompleteIsProtocol(r.session.events[1..], r.session.state);
    }
  }

  lemma {:induction false} BatchKeepsEvents(cfg: Config, env: Env, s: Session, batch: seq<ToolCall>, i: nat, message: string)
    requires i <= |batch|
    ensures s.events <= Batch(cfg, env, s, batch, i, message).0.events
    decreases |batch| - i
  {
    if i < |batch| {
      var (t, flow) := OneCall(cfg, env, s, batch[i], batch, message);
      if flow == GoOn {
        BatchKeepsEvents(cfg, env, t, batch, i + 1, message);
      }
    }
  }

  lemma {:induction false} IterateKeepsEvents(cfg: Config, env: Env, s: Session, left: nat, message: string)
    ensures s.events <= Iterate(cfg, env, s, left, message).events
    decreases left
  {
    if left > 0 {
      var reply := env.reply(s.modelCalls);
      if reply.Reply? && reply.calls != [] {
        var replied := s.(modelCalls := s.modelCalls + 1, messages := s.messages + [AssistantMessage(reply)]);
        BatchKeepsEvents(cfg, env, replied, reply.calls, 0, message);
        var (t, flow) := Batch(cfg, env, replied, reply.calls, 0, message);
        if flow == GoOn {
          IterateKeepsEvents(cfg, env, t, left - 1, message);
        }
      }
    }
  }

  // ---- the conversation handed to the model ----

  /** ms opens with an assistant message and then answers its first k calls, in order. */
  ghost predicate IsBlock(ms: seq<Message>, calls: seq<ToolCall>, k: nat) {
    && k <= |calls| && |ms| == k + 1
    && ms[0].role == "assistant" && ms[0].calls == calls
    && forall j :: 1 <= j <= k ==> ms[j].role == "tool" && ms[j].callId == calls[j - 1].id
  }

  /** A sequence of assistant messages, each followed by tool messages with the ids of its calls
      in order; all of them answered, except for the last message of a partial conversation. */
  ghost predicate WellAnswered(ms: seq<Message>, partial: bool) {
    ms == [] ||
    var calls := ms[0].calls;
    if |calls| < |ms| then IsBlock(ms[..|calls| + 1], calls, |calls|) && WellAnswered(ms[|calls| + 1..], partial)
    else partial && IsBlock(ms, calls, |ms| - 1)
  }

  lemma {:induction false} AnsweredAppend(a: seq<Message>, b: seq<Message>, partial: bool)
    requires WellAnswered(a, false) && WellAnswered(b, partial)
    ensures WellAnswered(a + b, partial)
    decreases |a|
  {
    if a == [] {
      assert a + b == b;
    } else {
      var n := |a[0].calls| + 1;
      AnsweredAppend(a[n..], b, partial);
      assert (a + b)[..n] == a[..n] && (a + b)[n..] == a[n..] + b;
    }
  }

  lemma BlockAnswered(ms: seq<Message>, calls: seq<ToolCall>, k: nat)
    requires IsBlock(ms, calls, k)
    ensures WellAnswered(ms, true)
    ensures k == |calls| ==> WellAnswered(ms, false)
  {
    assert ms[..k + 1] == ms && ms[k + 1..] == [];
  }

  lemma OneCallAnswers(cfg: Config, env: Env, s: Session, call: ToolCall, batch: seq<ToolCall>, message: string)
    ensures var (t, flow) := OneCall(cfg, env, s, call, batch, message);
      if flow == Raise then t.messages == s.messages
      else exists content :: t.messages == s.messages + [ToolMessage(call, content)]
  {
  }

  lemma {:induction false} BatchAnswers(cfg: Config, env: Env, s: Session, batch: seq<ToolCall>, i: nat, message: string, base: nat)
    returns (k: nat)
    requires i <= |batch| && base <= |s.messages| && IsBlock(s.messages[base..], batch, i)
    ensures var (t, flow) := Batch(cfg, env, s, batch, i, message);
      && base <= |t.messages| && t.messages[..base] == s.messages[..base]
      && IsBlock(t.messages[base..], batch, k) && (flow == GoOn ==> k == |batch|)
    decreases |batch| - i
  {
    k := i;
    if i < |batch| {
      OneCallAnswers(cfg, env, s, batch[i], batch, message);
      var (t, flow) := OneCall(cfg, env, s, batch[i], batch, message);
      if flow != Raise {
        var content :| t.messages == s.messages + [ToolMessage(batch[i], content)];
        BlockGrows(s.messages, batch, i, base, content);
        k := i + 1;
        if flow == GoOn {
          k := BatchAnswers(cfg, env, t, batch, i + 1, message, base);
        }
      }
    }
  }

  lemma BlockGrows(ms: seq<Message>, batch: seq<ToolCall>, i: nat, base: nat, content: string)
    requires i < |batch| && base <= |ms| && IsBlock(ms[base..], batch, i)
    ensures var grown := ms + [ToolMessage(batch[i], content)];
      IsBlock(grown[base..], batch, i + 1) && grown[..base] == ms[..base]
  {
    var grown := ms + [ToolMessage(batch[i], content)];
    assert grown[base..] == ms[base..] + [ToolMessage(batch[i], content)];
  }

  /** The conversation so far, extended by one reply and what its calls left behind. */
  lemma ReplyAnswered(cfg: Config, env: Env, s: Session, reply: Reply, message: string, base: nat)
    requires base <= |s.messages| && WellAnswered(s.messages[base..], false) && reply.Reply?
    ensures var (u, flow) := Batch(cfg, env, s.(messages := s.messages + [AssistantMessage(reply)]), reply.calls, 0, message);
      && base <= |u.messages| && WellAnswered(u.messages[base..], true)
      && (flow == GoOn ==> WellAnswered(u.messages[base..], false))
  {
    var m, mark := AssistantMessage(reply), |s.messages|;
    var replied := s.(messages := s.messages + [m]);
    assert replied.messages[mark..] == [m] && IsBlock([m], reply.calls, 0);
    var k := BatchAnswers(cfg, env, replied, reply.calls, 0, message, mark);
    var (u, flow) := Batch(cfg, env, replied, reply.calls, 0, message);
    assert replied.messages[..mark] == s.messages;
    TailSplit(s.messages, u.messages, base);
    BlockAppended(s.messages[base..], u.messages[mark..], reply.calls, k);
  }

  lemma TailSplit<T>(a: seq<T>, b: seq<T>, base: nat)
    requires base <= |a| <= |b| && b[..|a|] == a
    ensures b[base..] == a[base..] + b[|a|..]
  {
  }

  lemma BlockAppended(ms: seq<Message>, block: seq<Message>, calls: seq<ToolCall>, k: nat)
    requires WellAnswered(ms, false) && IsBlock(block, calls, k)
    ensures WellAnswered(ms + block, true)
    ensures k == |calls| ==> WellAnswered(ms + block, false)
  {
    BlockAnswered(block, calls, k);
    AnsweredAppend(ms, block, true);
    if k == |calls| {
      AnsweredAppend(ms, block, false);
    }
  }

  lemma {:induction false} IterateAnswers(cfg: Config, env: Env, s: Session, left: nat, message: string, base: nat)
    requires base <= |s.messages| && WellAnswered(s.messages[base..], false)
    ensures var t := Iterate(cfg, env, s, left, message);
      base <= |t.messages| && WellAnswered(t.messages[base..], t.state == Waiting || t.state == Error)
    decreases left
  {
    AnsweredWeaken(s.messages[base..]);
    if left > 0 {
      var reply := env.reply(s.modelCalls);
      var asked := s.(modelCalls := s.modelCalls + 1);
      if reply.Reply? {
        var replied := asked.(messages := s.messages + [AssistantMessage(reply)]);
        var (u, flow) := Batch(cfg, env, replied, reply.calls, 0, message);
        ReplyAnswered(cfg, env, asked, reply, message, base);
        BatchHaltWaits(cfg, env, replied, reply.calls, 0, message);
        if reply.calls == [] {
          assert u == replied && Answered(cfg, asked, reply, message).messages == replied.messages;
        } else if flow == GoOn {
          IterateAnswers(cfg, env, u, left - 1, message, base);
        }
      }
    }
  }

  lemma {:induction false} AnsweredWeaken(ms: seq<Message>)
    requires WellAnswered(ms, false)
    ensures WellAnswered(ms, true)
    decreases |ms|
  {
    if ms != [] {
      AnsweredWeaken(ms[|ms[0].calls| + 1..]);
    }
  }

  lemma {:induction false} BatchHaltWaits(cfg: Config, env: Env, s: Session, batch: seq<ToolCall>, i: nat, message: string)
    requires i <= |batch|
    ensures Batch(cfg, env, s, batch, i, message).1 == Halt ==> Batch(cfg, env, s, batch, i, message).0.state == Waiting
    decreases |batch| - i
  {
    if i < |batch| {
      var (t, flow) := OneCall(cfg, env, s, batch[i], batch, message);
      if flow == GoOn {
        BatchHaltWaits(cfg, env, t, batch, i + 1, message);
      }
    }
  }

  /** After the user's message, every assistant message with tool calls is followed by tool
      messages with the same ids in the same order; only a run that was gated or failed leaves its
      last ones out. */
  lemma StreamAnswersEveryCall(cfg: Config, env: Env, s: Session, limit: nat, message: string)
    ensures var t := StreamEvents(cfg, env, s, limit, message);
      && |s.messages| + 1 <= |t.messages|
      && WellAnswered(t.messages[|s.messages| + 1..], t.state == Waiting || t.state == Error)
  {
    var t := StreamEvents(cfg, env, s, limit, message);
    var base := |s.messages| + 1;
    var started := s.(messages := s.messages + [UserMessage(message)], events := [], state := Running);
    assert started.messages[base..] == [];
    if cfg.tools == map[] {
      if !env.chunksFail {
        var m := AssistantMessage(Reply(Joined(env.chunks), []));
        assert t.messages[base..] == [m];
        BlockAnswered([m], [], 0);
      }
    } else {
      IterateAnswers(cfg, env, started, limit, message, base);
    }
  }

  lemma {:induction false} BatchModelCalls(cfg: Config, env: Env, s: Session, batch: seq<ToolCall>, i: nat, message: string)
    requires i <= |batch|
    ensures Batch(cfg, env, s, batch, i, message).0.modelCalls == s.modelCalls
    decreases |batch| - i
  {
    if i < |batch| {
      var (t, flow) := OneCall(cfg, env, s, batch[i], batch, message);
      if flow == GoOn {
        BatchModelCalls(cfg, env, t, batch, i + 1, message);
      }
    }
  }

  /** At most max_iterations model calls are made. */
  lemma {:induction false} IterateModelCalls(cfg: Config, env: Env, s: Session, left: nat, message: string)
    ensures s.modelCalls <= Iterate(cfg, env, s, left, message).modelCalls <= s.modelCalls + left
    decreases left
  {
    if left > 0 {
      var reply := env.reply(s.modelCalls);
      if reply.Reply? && reply.calls != [] {
        var replied := s.(modelCalls := s.modelCalls + 1, messages := s.messages + [AssistantMessage(reply)]);
        BatchModelCalls(cfg, env, replied, reply.calls, 0, message);
        var (t, flow) := Batch(cfg, env, replied, reply.calls, 0, message);
        if flow == GoOn {
          IterateModelCalls(cfg, env, t, left - 1, message);
        }
      }
    }
  }

  // ---- what a gate saves ----

  lemma {:induction false} WithoutSplit(a: seq<ToolCall>, b: seq<ToolCall>, id: string)
    ensures Without(a + b, id) == Without(a, id) + Without(b, id)
    decreases |b|
  {
    if b == [] {
      assert a + b == a;
    } else {
      var front := b[..|b| - 1];
      assert (a + b)[..|a + b| - 1] == a + front;
      WithoutSplit(a, front, id);
    }
  }

  lemma {:induction false} WithoutNone(calls: seq<ToolCall>, id: string)
    requires forall c :: c in calls ==> c.id != id
    ensures Without(calls, id) == calls
  {
    if calls != [] {
      var n := |calls| - 1;
      assert calls[n] in calls;
      WithoutNone(calls[..n], id);
      assert calls == calls[..n] + [calls[n]];
    }
  }

  lemma {:induction false} WithoutAll(calls: seq<ToolCall>, id: string)
    requires forall c :: c in calls ==> c.id == id
    ensures Without(calls, id) == []
  {
    if calls != [] {
      var n := |calls| - 1;
      assert calls[n] in calls;
      assert forall c :: c in calls[..n] ==> c in calls;
      WithoutAll(calls[..n], id);
    }
  }

  lemma WithoutAt(calls: seq<ToolCall>, k: nat)
    requires k < |calls|
    ensures Without(calls, calls[k].id) == Without(calls[..k], calls[k].id) + Without(calls[k + 1..], calls[k].id)
  {
    SplitAt(calls, k);
    WithoutMiddle(calls[..k], calls[k], calls[k + 1..]);
  }

  lemma SplitAt<T>(s: seq<T>, k: nat)
    requires k < |s|
    ensures s == (s[..k] + [s[k]]) + s[k + 1..]
  {
  }

  lemma {:induction false} WithoutHas(calls: seq<ToolCall>, id: string)
    ensures forall c :: c in Without(calls, id) <==> c in calls && c.id != id
  {
    if calls != [] {
      var n := |calls| - 1;
      WithoutHas(calls[..n], id);
      assert calls == calls[..n] + [calls[n]];
    }
  }

  lemma WithoutMiddle(before: seq<ToolCall>, c: ToolCall, after: seq<ToolCall>)
    ensures Without((before + [c]) + after, c.id) == Without(before, c.id) + Without(after, c.id)
  {
    WithoutSplit(before + [c], after, c.id);
    WithoutSplit(before, [c], c.id);
    assert Without([c], c.id) == [];
    assert Without(before, c.id) + [] == Without(before, c.id);
  }

  lemma NoneLeftIsAllSame(calls: seq<ToolCall>, id: string)
    requires Without(calls, id) == []
    ensures forall i :: 0 <= i < |calls| ==> calls[i].id == id
  {
    WithoutHas(calls, id);
    forall i | 0 <= i < |calls| ensures calls[i].id == id {
      assert calls[i] in calls;
      assert calls[i] !in Without(calls, id);
    }
  }

  lemma SavedIsRest(calls: seq<ToolCall>, k: nat)
    requires k < |calls| && Without(calls, calls[k].id) == calls[k + 1..]
    ensures forall i :: 0 <= i < k ==> calls[i].id == calls[k].id
    ensures forall i :: k < i < |calls| ==> calls[i].id != calls[k].id
  {
    var id, before, after := calls[k].id, calls[..k], calls[k + 1..];
    WithoutAt(calls, k);
    WithoutHas(calls, id);
    forall c | c in after ensures c.id != id {
      assert c in Without(calls, id);
    }
    WithoutNone(after, id);
    NoneLeftIsAllSame(before, id);
    IdsOfParts(calls, k);
  }

  lemma IdsOfParts(calls: seq<ToolCall>, k: nat)
    requires k < |calls|
    requires forall i :: 0 <= i < k ==> calls[..k][i].id == calls[k].id
    requires forall c :: c in calls[k + 1..] ==> c.id != calls[k].id
    ensures forall i :: 0 <= i < k ==> calls[i].id == calls[k].id
    ensures forall i :: k < i < |calls| ==> calls[i].id != calls[k].id
  {
    forall i | 0 <= i < k ensures calls[i].id == calls[k].id {
      assert calls[i] == calls[..k][i];
    }
    forall i | k < i < |calls| ensures calls[i].id != calls[k].id {
      assert calls[k + 1..][i - k - 1] in calls[k + 1..];
    }
  }

  lemma RestIsSaved(calls: seq<ToolCall>, k: nat)
    requires k < |calls|
    requires forall i :: 0 <= i < k ==> calls[i].id == calls[k].id
    requires forall i :: k < i < |calls| ==> calls[i].id != calls[k].id
    ensures Without(calls, calls[k].id) == calls[k + 1..]
  {
    WithoutAt(calls, k);
    WithoutNone(calls[k + 1..], calls[k].id);
    WithoutAll(calls[..k], calls[k].id);
  }

  /** Every earlier call shares the k-th call's id, and no later one does. */
  predicate GateSeparates(calls: seq<ToolCall>, k: nat)
    requires k < |calls|
  {
    (forall i :: 0 <= i < k ==> calls[i].id == calls[k].id) && forall i :: k < i < |calls| ==> calls[i].id != calls[k].id
  }

  /** The calls saved at a gate on the k-th call are exactly those after it when the gate separates the
      reply. In a reply with distinct ids, that is only when the first call is gated: otherwise calls that
      already ran are saved. */
  lemma GateSavesTheRest(calls: seq<ToolCall>, k: nat)
    requires k < |calls|
    ensures Without(calls, calls[k].id) == calls[k + 1..] <==> GateSeparates(calls, k)
    ensures forall i :: 0 <= i < k && calls[i].id != calls[k].id ==> calls[i] in Without(calls, calls[k].id)
  {
    WithoutHas(calls, calls[k].id);
    if Without(calls, calls[k].id) == calls[k + 1..] {
      SavedIsRest(calls, k);
    }
    if GateSeparates(calls, k) {
      RestIsSaved(calls, k);
    }
  }
}
