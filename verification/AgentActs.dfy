/** Streams and resumptions touch approvals and tools only through the acts of AgentTools, so
    what holds of every run of acts holds of them. */
module AgentActs {
  import opened Wrappers
  import opened Messages
  import opened Approvals
  import opened AgentTools
  import opened AgentLoop

  function AfterActs(w: World, acts: seq<Act>): World {
    if acts == [] then w else Next(AfterActs(w, acts[..|acts| - 1]), acts[|acts| - 1])
  }

  /** What the agent itself may do: no approving, no rejecting, no resuming. */
  predicate ByAgent(act: Act, cfg: Config) {
    (act.Call? && act.cfg == cfg) || (act.RememberExchange? && act.cfg == cfg) || act.KeepSnapshot?
  }

  ghost predicate Explains(w: World, w': World, acts: seq<Act>, cfg: Config) {
    AfterActs(w, acts) == w' && forall a :: a in acts ==> ByAgent(a, cfg)
  }

  lemma {:induction false} AfterAppend(w: World, a: seq<Act>, b: seq<Act>)
    ensures AfterActs(w, a + b) == AfterActs(AfterActs(w, a), b)
    decreases |b|
  {
    if b == [] {
      assert a + b == a;
    } else {
      assert (a + b)[..|a + b| - 1] == a + b[..|b| - 1];
      AfterAppend(w, a, b[..|b| - 1]);
    }
  }

  lemma ExplainsOne(w: World, act: Act, cfg: Config)
    requires ByAgent(act, cfg)
    ensures Explains(w, Next(w, act), [act], cfg)
  {
    assert [act][..0] == [];
    assert AfterActs(w, [act]) == Next(AfterActs(w, []), act);
  }

  lemma ExplainsBoth(w: World, v: World, u: World, a: seq<Act>, b: seq<Act>, cfg: Config)
    requires Explains(w, v, a, cfg) && Explains(v, u, b, cfg)
    ensures Explains(w, u, a + b, cfg)
  {
    AfterAppend(w, a, b);
  }

  lemma OneCallActs(cfg: Config, env: Env, s: Session, call: ToolCall, batch: seq<ToolCall>, message: string) returns (acts: seq<Act>)
    ensures Explains(s.world, OneCall(cfg, env, s, call, batch, message).0.world, acts, cfg)
  {
    var n := s.toolCalls;
    var act := Call(cfg, call, env.policy(n), env.fault(n));
    var (w, r) := ExecuteTool(cfg, s.world, call, env.policy(n), env.fault(n));
    acts := [act];
    ExplainsOne(s.world, act, cfg);
    if r.Gated? {
      var t := OneCall(cfg, env, s, call, batch, message).0;
      var keep := KeepSnapshot(r.approval, t.snapshot.value);
      ExplainsOne(w, keep, cfg);
      ExplainsBoth(s.world, w, t.world, [act], [keep], cfg);
      acts := [act] + [keep];
    }
  }

  lemma {:induction false} BatchActs(cfg: Config, env: Env, s: Session, batch: seq<ToolCall>, i: nat, message: string) returns (acts: seq<Act>)
    requires i <= |batch|
    ensures Explains(s.world, Batch(cfg, env, s, batch, i, message).0.world, acts, cfg)
    decreases |batch| - i
  {
    acts := [];
    if i < |batch| {
      var (t, flow) := OneCall(cfg, env, s, batch[i], batch, message);
      acts := OneCallActs(cfg, env, s, batch[i], batch, message);
      if flow == GoOn {
        var rest := BatchActs(cfg, env, t, batch, i + 1, message);
        ExplainsBoth(s.world, t.world, Batch(cfg, env, t, batch, i + 1, message).0.world, acts, rest, cfg);
        acts := acts + rest;
      }
    }
  }

  lemma {:induction false} IterateActs(cfg: Config, env: Env, s: Session, left: nat, message: string) returns (acts: seq<Act>)
    ensures Explains(s.world, Iterate(cfg, env, s, left, message).world, acts, cfg)
    decreases left
  {
    acts := [];
    if left > 0 {
      var reply := env.reply(s.modelCalls);
      if reply.Reply? {
        if reply.calls == [] {
          ExplainsOne(s.world, RememberExchange(cfg, message), cfg);
          acts := [RememberExchange(cfg, message)];
        } else {
          var replied := s.(modelCalls := s.modelCalls + 1, messages := s.messages + [AssistantMessage(reply)]);
          var (t, flow) := Batch(cfg, env, replied, reply.calls, 0, message);
          acts := BatchActs(cfg, env, replied, reply.calls, 0, message);
          if flow == GoOn {
            var rest := IterateActs(cfg, env, t, left - 1, message);
            ExplainsBoth(s.world, t.world, Iterate(cfg, env, t, left - 1, message).world, acts, rest, cfg);
            acts := acts + rest;
          }
        }
      }
    }
  }

  /** A stream is a sequence of the agent's own acts: it approves and resumes nothing itself. */
  lemma StreamIsActs(cfg: Config, env: Env, s: Session, limit: nat, message: string) returns (acts: seq<Act>)
    ensures Explains(s.world, StreamEvents(cfg, env, s, limit, message).world, acts, cfg)
  {
    if cfg.tools == map[] {
      acts := [];
      if !env.chunksFail {
        ExplainsOne(s.world, RememberExchange(cfg, message), cfg);
        acts := [RememberExchange(cfg, message)];
      }
    } else {
      acts := IterateActs(cfg, env, s.(messages := s.messages + [UserMessage(message)], events := [], state := Running), limit, message);
    }
  }

  /** A resumption is one resume of the named approval and then the agent's own acts. */
  lemma ResumeIsActs(cfg: Config, env: Env, s: Session, id: nat, limit: nat) returns (acts: seq<Act>)
    requires !ResumeAndContinue(cfg, env, s, id, limit).Refused?
    ensures var resumed := Resume(cfg, s.world, id, env.result(s.toolCalls));
      resumed.Success?
      && Explains(resumed.value, ResumeAndContinue(cfg, env, s, id, limit).session.world, acts, cfg)
  {
    var result := env.result(s.toolCalls);
    var resumed := Resume(cfg, s.world, id, result);
    var a := Find(s.world.approvals, id).value;
    acts := AfterResumeActs(cfg, env, AfterTool(s, resumed.value, a.tool), Continued(s, id), a.tool, result, limit);
  }

  lemma AfterResumeActs(cfg: Config, env: Env, done: Session, saved: Option<Snapshot>, tool: string, result: string, limit: nat)
    returns (acts: seq<Act>)
    ensures !AfterResume(cfg, env, done, saved, tool, result, limit).Refused?
    ensures Explains(done.world, AfterResume(cfg, env, done, saved, tool, result, limit).session.world, acts, cfg)
  {
    acts := [];
    if saved.Some? {
      var ready := done.(snapshot := None, messages := ReplaceLast(saved.value.messages, tool, result));
      var (t, flow) := Batch(cfg, env, ready, saved.value.remaining, 0, saved.value.message);
      acts := BatchActs(cfg, env, ready, saved.value.remaining, 0, saved.value.message);
      if flow == GoOn {
        var u := t.(state := Running);
        var rest := IterateActs(cfg, env, u, limit, saved.value.message);
        ExplainsBoth(ready.world, u.world, Iterate(cfg, env, u, limit, saved.value.message).world, acts, rest, cfg);
        acts := acts + rest;
      }
    }
  }

  lemma {:induction false} ReadOnlyActs(w: World, acts: seq<Act>, cfg: Config)
    requires OnlyReads(w, cfg.agentId, cfg.tools) && cfg.mode == "read-only"
    requires forall a :: a in acts ==> ByAgent(a, cfg)
    ensures OnlyReads(AfterActs(w, acts), cfg.agentId, cfg.tools)
    decreases |acts|
  {
    if acts != [] {
      var front := acts[..|acts| - 1];
      assert forall a :: a in front ==> a in acts;
      ReadOnlyActs(w, front, cfg);
      assert acts[|acts| - 1] in acts;
      ReadOnlyStep(AfterActs(w, front), acts[|acts| - 1], cfg.agentId, cfg.tools);
    }
  }

  /** A whole stream of a read-only agent, and a whole resumption, run read-level tools only. */
  lemma ReadOnlyStreams(cfg: Config, env: Env, s: Session, limit: nat, message: string, id: nat)
    requires OnlyReads(s.world, cfg.agentId, cfg.tools) && cfg.mode == "read-only"
    ensures OnlyReads(StreamEvents(cfg, env, s, limit, message).world, cfg.agentId, cfg.tools)
    ensures var r := ResumeAndContinue(cfg, env, s, id, limit);
      !r.Refused? ==> OnlyReads(r.session.world, cfg.agentId, cfg.tools)
  {
    var acts := StreamIsActs(cfg, env, s, limit, message);
    ReadOnlyActs(s.world, acts, cfg);
    if !ResumeAndContinue(cfg, env, s, id, limit).Refused? {
      var result := env.result(s.toolCalls);
      var more := ResumeIsActs(cfg, env, s, id, limit);
      ReadOnlyStep(s.world, ResumeTool(cfg, id, result), cfg.agentId, cfg.tools);
      ReadOnlyActs(Resume(cfg, s.world, id, result).value, more, cfg);
    }
  }
}
