/** Which calls a resumption repeats (cognix/core/agent.py:295-306, 780-830). */
module AgentResume {
  import opened Wrappers
  import opened Messages
  import opened Permissions
  import opened Approvals
  import opened AgentTools
  import opened AgentLoop
  import opened AgentEvents

  // ---- which calls are made again ----

  /** The calls that an event list announces. */
  function CallsIn(es: seq<Event>): seq<(string, string)> {
    if es == [] then []
    else
      var last := es[|es| - 1];
      CallsIn(es[..|es| - 1]) + if last.ToolCalled? then [(last.id, last.name)] else []
  }

  function Named(calls: seq<ToolCall>): seq<(string, string)> {
    seq(|calls|, i requires 0 <= i < |calls| => (calls[i].id, calls[i].name))
  }

  lemma {:induction false} CallsConcat(a: seq<Event>, b: seq<Event>)
    ensures CallsIn(a + b) == CallsIn(a) + CallsIn(b)
    decreases |b|
  {
    if b == [] {
      assert a + b == a;
    } else {
      assert (a + b)[..|a + b| - 1] == a + b[..|b| - 1];
      CallsConcat(a, b[..|b| - 1]);
    }
  }

  lemma OneCallCalls(cfg: Config, env: Env, s: Session, call: ToolCall, batch: seq<ToolCall>, message: string)
    ensures var (t, flow) := OneCall(cfg, env, s, call, batch, message);
      && CallsIn(t.events) == CallsIn(s.events) + [(call.id, call.name)]
      && (flow == Halt ==> t.snapshot.Some? && t.snapshot.value.remaining == Without(batch, call.id))
  {
    var (t, flow) := OneCall(cfg, env, s, call, batch, message);
    var id := OneCallEvents(cfg, env, s, call, batch, message);
    var added := t.events[|s.events|..];
    assert t.events == s.events + added;
    CallsConcat(s.events, added);
    OnlyFirstCalls(added, call);
  }

  lemma OnlyFirstCalls(es: seq<Event>, call: ToolCall)
    requires es != [] && es[0] == ToolCalled(call.id, call.name) && forall i :: 1 <= i < |es| ==> !es[i].ToolCalled?
    ensures CallsIn(es) == [(call.id, call.name)]
    decreases |es|
  {
    if |es| > 1 {
      OnlyFirstCalls(es[..|es| - 1], call);
    } else {
      assert es[..0] == [];
    }
  }

  lemma NamedFirst(batch: seq<ToolCall>, i: nat, j: nat)
    requires i < j <= |batch|
    ensures Named(batch[i..j]) == [(batch[i].id, batch[i].name)] + Named(batch[i + 1..j])
  {
  }

  /** Calls i to j of the batch were made after those before, and all of them unless it stopped. */
  predicate Made(t: Session, flow: Flow, before: seq<(string, string)>, batch: seq<ToolCall>, i: nat, j: nat) {
    && i <= j <= |batch|
    && CallsIn(t.events) == before + Named(batch[i..j])
    && (flow == GoOn ==> j == |batch|)
    && (flow == Halt ==> i < j && t.snapshot.Some? && t.snapshot.value.remaining == Without(batch, batch[j - 1].id))
  }

  lemma MadeFirst(t: Session, flow: Flow, before: seq<(string, string)>, batch: seq<ToolCall>, i: nat, j: nat)
    requires i < |batch| && Made(t, flow, before + [(batch[i].id, batch[i].name)], batch, i + 1, j)
    ensures Made(t, flow, before, batch, i, j)
  {
    NamedFirst(batch, i, j);
  }

  lemma MadeOne(t: Session, flow: Flow, before: seq<(string, string)>, batch: seq<ToolCall>, i: nat)
    requires i < |batch| && flow != GoOn && CallsIn(t.events) == before + [(batch[i].id, batch[i].name)]
    requires flow == Halt ==> t.snapshot.Some? && t.snapshot.value.remaining == Without(batch, batch[i].id)
    ensures Made(t, flow, before, batch, i, i + 1)
  {
    NamedFirst(batch, i, i + 1);
    assert Named(batch[i + 1..i + 1]) == [];
  }

  /** A batch calls a run of its calls, up to and including the one it stops at. */
  lemma {:induction false} BatchCalls(cfg: Config, env: Env, s: Session, batch: seq<ToolCall>, i: nat, message: string) returns (j: nat)
    requires i <= |batch|
    ensures Made(Batch(cfg, env, s, batch, i, message).0, Batch(cfg, env, s, batch, i, message).1, CallsIn(s.events), batch, i, j)
    decreases |batch| - i
  {
    j := i;
    if i < |batch| {
      OneCallCalls(cfg, env, s, batch[i], batch, message);
      var (t, flow) := OneCall(cfg, env, s, batch[i], batch, message);
      if flow == GoOn {
        j := BatchCalls(cfg, env, t, batch, i + 1, message);
        var (u, end) := Batch(cfg, env, t, batch, i + 1, message);
        MadeFirst(u, end, CallsIn(s.events), batch, i, j);
      } else {
        j := i + 1;
        MadeOne(t, flow, CallsIn(s.events), batch, i);
      }
    }
  }

  /** Each call of the reply is among first and again exactly as often as in the reply. */
  predicate OnceEach(calls: seq<ToolCall>, first: seq<ToolCall>, again: seq<ToolCall>) {
    multiset(first) + multiset(again) == multiset(calls)
  }

  lemma OnceEachExactlyWhen(calls: seq<ToolCall>, k: nat)
    requires k < |calls|
    ensures OnceEach(calls, calls[..k + 1], Without(calls, calls[k].id)) <==> GateSeparates(calls, k)
  {
    var again, later := Without(calls, calls[k].id), calls[k + 1..];
    GateSavesTheRest(calls, k);
    FirstAndLater(calls, k);
    AddedIsRest(calls, calls[..k + 1], later, again);
    if multiset(again) == multiset(later) {
      WithoutAt(calls, k);
      RestIsKept(calls[..k], later, calls[k].id);
    }
  }

  lemma FirstAndLater(calls: seq<ToolCall>, k: nat)
    requires k < |calls|
    ensures calls == calls[..k + 1] + calls[k + 1..]
  {
  }

  lemma AddedIsRest(calls: seq<ToolCall>, first: seq<ToolCall>, later: seq<ToolCall>, again: seq<ToolCall>)
    requires calls == first + later
    ensures OnceEach(calls, first, again) <==> multiset(again) == multiset(later)
  {
    assert multiset(calls) == multiset(first) + multiset(later);
    if multiset(first) + multiset(again) == multiset(first) + multiset(later) {
      forall c ensures multiset(again)[c] == multiset(later)[c] {
        assert (multiset(first) + multiset(again))[c] == (multiset(first) + multiset(later))[c];
      }
    }
  }

  /** If filtering both parts leaves as many of each call as the later part has, the filter took all of
      the earlier part and none of the later. */
  lemma RestIsKept(earlier: seq<ToolCall>, later: seq<ToolCall>, id: string)
    requires multiset(Without(earlier, id) + Without(later, id)) == multiset(later)
    ensures Without(earlier, id) + Without(later, id) == later
  {
    WithoutHas(earlier, id);
    WithoutHas(later, id);
    forall c | c in later ensures c.id != id {
      assert c in multiset(later);
    }
    WithoutNone(later, id);
    assert |multiset(Without(earlier, id) + later)| == |multiset(later)|;
    assert Without(earlier, id) == [];
  }

  /** A reply gated at its k-th call has made calls 0 to k. When a resumption later works off the saved
      calls, it makes exactly those again, so every call made before the gate under another id is made a
      second time; each call of the reply is made once if and only if the gate separates the reply. In a
      reply with distinct ids that is only when its first call is the gated one. */
  lemma GatedReplyRepeatsCalls(
    cfg: Config, env: Env, s: Session, calls: seq<ToolCall>, message: string, t: Session,
    later: Env, r: Session, saved: Snapshot, u: Session) returns (k: nat)
    requires Batch(cfg, env, s, calls, 0, message) == (t, Halt) && t.snapshot == Some(saved)
    requires Batch(cfg, later, r, saved.remaining, 0, saved.message) == (u, GoOn)
    ensures k < |calls| && CallsIn(t.events) == CallsIn(s.events) + Named(calls[..k + 1])
    ensures CallsIn(u.events) == CallsIn(r.events) + Named(saved.remaining)
    ensures forall i :: 0 <= i < k && calls[i].id != calls[k].id ==> calls[i] in saved.remaining
    ensures OnceEach(calls, calls[..k + 1], saved.remaining) <==> GateSeparates(calls, k)
  {
    k := GatedBatch(cfg, env, s, calls, message, t);
    WholeBatch(cfg, later, r, saved.remaining, saved.message, u);
    OnceEachExactlyWhen(calls, k);
    WithoutHas(calls, calls[k].id);
  }

  lemma GatedBatch(cfg: Config, env: Env, s: Session, calls: seq<ToolCall>, message: string, t: Session) returns (k: nat)
    requires Batch(cfg, env, s, calls, 0, message) == (t, Halt)
    ensures k < |calls| && CallsIn(t.events) == CallsIn(s.events) + Named(calls[..k + 1])
    ensures t.snapshot.Some? && t.snapshot.value.remaining == Without(calls, calls[k].id)
  {
    var j := BatchCalls(cfg, env, s, calls, 0, message);
    k := j - 1;
    assert calls[0..j] == calls[..k + 1];
  }

  lemma WholeBatch(cfg: Config, env: Env, s: Session, calls: seq<ToolCall>, message: string, t: Session)
    requires Batch(cfg, env, s, calls, 0, message) == (t, GoOn)
    ensures CallsIn(t.events) == CallsIn(s.events) + Named(calls)
  {
    var j := BatchCalls(cfg, env, s, calls, 0, message);
    assert calls[0..j] == calls;
  }

  /** Such a gate does occur: a call that may run, followed by one that asks. The first has run when the
      second stops the reply, and it alone is saved. */
  lemma GateAfterRun(cfg: Config, env: Env, s: Session, runs: ToolCall, asks: ToolCall, message: string) returns (t: Session)
    requires runs.name in cfg.tools && IsPermitted(cfg.mode, cfg.tools[runs.name].level)
    requires asks.name in cfg.tools && MustAsk(cfg.mode, cfg.tools[asks.name].level)
    requires !cfg.inWorkspace && runs.id != asks.id && !env.fault(s.toolCalls + 1)
    ensures Batch(cfg, env, s, [runs, asks], 0, message) == (t, Halt)
    ensures t.snapshot.Some? && t.snapshot.value.remaining == [runs]
    ensures t.world.log == s.world.log + [Exec(cfg.agentId, runs.name, runs.args, cfg.tools[runs.name].level, Direct(None))]
  {
    DecidesExactly(cfg.mode, cfg.tools[runs.name].level);
    DecidesExactly(cfg.mode, cfg.tools[asks.name].level);
    var batch := [runs, asks];
    var (u, on) := OneCall(cfg, env, s, runs, batch, message);
    var (end, halt) := OneCall(cfg, env, u, asks, batch, message);
    t := end;
    assert on == GoOn && halt == Halt;
    assert Batch(cfg, env, u, batch, 1, message) == (t, Halt);
    SavesFirst(runs, asks);
  }

  lemma SavesFirst(a: ToolCall, b: ToolCall)
    requires a.id != b.id
    ensures Without([a, b], b.id) == [a]
  {
    assert [a, b][..1] == [a] && [a][..0] == [];
    assert Without([a], b.id) == [] + [a];
  }

  // ---- what a resumed conversation looks like ----

  /** After an assistant message with these calls, tool messages with the ids of the answered ones. */
  ghost predicate AnsweredBy(ms: seq<Message>, calls: seq<ToolCall>, answered: seq<ToolCall>) {
    && |ms| == |answered| + 1 && ms[0].role == "assistant" && ms[0].calls == calls
    && forall j :: 1 <= j < |ms| ==> IsAnswer(ms[j], answered[j - 1])
  }

  predicate IsAnswer(m: Message, call: ToolCall) {
    m.role == "tool" && m.callId == call.id
  }

  /** A batch that goes through appends an answer to each of its calls. */
  lemma {:induction false} BatchMessages(cfg: Config, env: Env, s: Session, batch: seq<ToolCall>, i: nat, message: string)
    requires i <= |batch| && Batch(cfg, env, s, batch, i, message).1 == GoOn
    ensures var t := Batch(cfg, env, s, batch, i, message).0;
      && |t.messages| == |s.messages| + |batch| - i && t.messages[..|s.messages|] == s.messages
      && forall j :: |s.messages| <= j < |t.messages| ==> IsAnswer(t.messages[j], batch[i + j - |s.messages|])
    decreases |batch| - i
  {
    if i < |batch| {
      OneCallAnswers(cfg, env, s, batch[i], batch, message);
      var (u, flow) := OneCall(cfg, env, s, batch[i], batch, message);
      BatchMessages(cfg, env, u, batch, i + 1, message);
      var t := Batch(cfg, env, s, batch, i, message).0;
      assert t.messages[..|s.messages|] == t.messages[..|u.messages|][..|s.messages|];
      assert t.messages[|s.messages|] == t.messages[..|u.messages|][|s.messages|];
    }
  }

  /** Replacing a result changes no role, call or id. */
  lemma ReplaceKeepsBlock(messages: seq<Message>, tool: string, content: string, mark: nat, calls: seq<ToolCall>, k: nat)
    requires mark <= |messages| && IsBlock(messages[mark..], calls, k)
    ensures IsBlock(ReplaceLast(messages, tool, content)[mark..], calls, k)
  {
    var r := ReplaceLast(messages, tool, content);
    forall j | 0 <= j <= k
      ensures r[mark..][j].role == messages[mark..][j].role && r[mark..][j].calls == messages[mark..][j].calls
      ensures r[mark..][j].callId == messages[mark..][j].callId
    {
      assert r[mark..][j] == r[mark + j] && messages[mark..][j] == messages[mark + j];
    }
  }

  lemma AnsweredIsWell(ms: seq<Message>, calls: seq<ToolCall>, answered: seq<ToolCall>)
    requires AnsweredBy(ms, calls, answered)
    ensures WellAnswered(ms, false) <==> SameIds(answered, calls)
  {
    var n := |calls| + 1;
    if n < |ms| {
      assert ms[n..][0] == ms[n] && IsAnswer(ms[n], answered[n - 1]);
    } else if n == |ms| {
      assert ms[..n] == ms && ms[n..] == [];
      forall i | 0 <= i < |calls| ensures ms[i + 1].callId == answered[i].id && ms[i + 1].role == "tool" {
        assert IsAnswer(ms[i + 1], answered[i]);
      }
      assert IsBlock(ms, calls, |calls|) ==> forall i :: 0 <= i < |calls| ==> ms[i + 1].callId == calls[i].id;
    }
  }

  predicate SameIds(a: seq<ToolCall>, b: seq<ToolCall>) {
    |a| == |b| && forall i :: 0 <= i < |a| ==> a[i].id == b[i].id
  }

  lemma SavedGiveLater(calls: seq<ToolCall>, k: nat, again: seq<ToolCall>, later: seq<ToolCall>)
    requires k < |calls| && later == calls[k + 1..]
    requires SameIds(calls[..k + 1] + again, calls) && forall c :: c in again ==> c.id != calls[k].id
    ensures forall i :: 0 <= i < |later| ==> later[i].id != calls[k].id
  {
    forall i | 0 <= i < |later| ensures later[i].id != calls[k].id {
      assert (calls[..k + 1] + again)[k + 1 + i].id == calls[k + 1 + i].id;
      assert again[i] in again;
    }
  }

  lemma SameIdsExactlyWhen(calls: seq<ToolCall>, k: nat)
    requires k < |calls|
    ensures SameIds(calls[..k + 1] + Without(calls, calls[k].id), calls) <==> GateSeparates(calls, k)
  {
    FirstAndLater(calls, k);
    GateSavesTheRest(calls, k);
    if SameIds(calls[..k + 1] + Without(calls, calls[k].id), calls) {
      NoneEarlierIsSaved(calls, k);
    }
  }

  lemma NoneEarlierIsSaved(calls: seq<ToolCall>, k: nat)
    requires k < |calls| && SameIds(calls[..k + 1] + Without(calls, calls[k].id), calls)
    ensures Without(calls, calls[k].id) == calls[k + 1..]
  {
    var id, again, later := calls[k].id, Without(calls, calls[k].id), calls[k + 1..];
    WithoutHas(calls, id);
    SavedGiveLater(calls, k, again, later);
    WithoutNone(later, id);
    WithoutAt(calls, k);
    assert |again| == |later|;
    assert Without(calls[..k], id) == [];
  }

  /** When a resumption has worked off the saved calls, the gated reply is answered call by call, in order and
      once each, if and only if the gate separates the reply; otherwise the conversation handed to the model
      repeats answers. */
  lemma ResumedReplyIsAnsweredExactlyWhen(
    cfg: Config, env: Env, saved: Snapshot, calls: seq<ToolCall>, k: nat, mark: nat, tool: string, result: string, r: Session, u: Session)
    requires k < |calls| && mark <= |saved.messages| && IsBlock(saved.messages[mark..], calls, k + 1)
    requires saved.remaining == Without(calls, calls[k].id)
    requires r.messages == ReplaceLast(saved.messages, tool, result)
    requires Batch(cfg, env, r, saved.remaining, 0, saved.message) == (u, GoOn)
    ensures mark <= |u.messages|
    ensures WellAnswered(u.messages[mark..], false) <==> GateSeparates(calls, k)
  {
    ReplaceKeepsBlock(saved.messages, tool, result, mark, calls, k + 1);
    BatchMessages(cfg, env, r, saved.remaining, 0, saved.message);
    BlockThenAnswers(r.messages, u.messages, calls, k, mark, saved.remaining);
    AnsweredIsWell(u.messages[mark..], calls, calls[..k + 1] + saved.remaining);
    SameIdsExactlyWhen(calls, k);
  }

  lemma BlockThenAnswers(before: seq<Message>, after: seq<Message>, calls: seq<ToolCall>, k: nat, mark: nat, more: seq<ToolCall>)
    requires k < |calls| && mark <= |before| && IsBlock(before[mark..], calls, k + 1)
    requires |after| == |before| + |more| && after[..|before|] == before
    requires forall j :: |before| <= j < |after| ==> IsAnswer(after[j], more[j - |before|])
    ensures AnsweredBy(after[mark..], calls, calls[..k + 1] + more)
  {
    var ms, answered := after[mark..], calls[..k + 1] + more;
    assert ms[0] == before[mark..][0];
    forall j | 1 <= j < |ms| ensures IsAnswer(ms[j], answered[j - 1]) {
      if j <= k + 1 {
        assert ms[j] == before[mark..][j];
      }
    }
  }
}
