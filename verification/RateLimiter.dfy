/** The sliding-window rate limiter for bot messages (cognix/bots/rate_limiter.py). */
module RateLimiter {

  datatype Limits = Limits(perMinute: int, perHour: int)

  datatype Usage = Usage(perMinuteCount: nat, perHourCount: nat)

  const MINUTE: real := 60.0
  const HOUR: real := 3600.0

  datatype State = State(windows: map<string, seq<real>>, limits: map<string, Limits>)

  function Newer(times: seq<real>, cutoff: real): (r: seq<real>)
    ensures |r| <= |times| && forall i :: 0 <= i < |r| ==> r[i] > cutoff
  {
    if times == [] then []
    else
      var last := times[|times| - 1];
      Newer(times[..|times| - 1], cutoff) + if last > cutoff then [last] else []
  }

  /** The recorded times still kept for a bot; an unknown bot has none. */
  function Window(s: State, bot: string): seq<real> {
    if bot in s.windows then s.windows[bot] else []
  }

  /** Drops what is older than an hour before answering; without limits nothing happens. */
  function Checked(s: State, bot: string, now: real): (State, bool) {
    if bot !in s.limits then (s, true)
    else
      var window := Newer(Window(s, bot), now - HOUR);
      var allowed := |window| < s.limits[bot].perHour && |Newer(window, now - MINUTE)| < s.limits[bot].perMinute;
      (s.(windows := s.windows[bot := window]), allowed)
  }

  function Recorded(s: State, bot: string, now: real): State {
    s.(windows := s.windows[bot := Window(s, bot) + [now]])
  }

  function Configured(s: State, bot: string, limits: Limits): State {
    s.(limits := s.limits[bot := limits])
  }

  /** Which of the times are later than the cutoff. */
  ghost function Later(times: seq<real>, cutoff: real): set<int> {
    set i | 0 <= i < |times| && times[i] > cutoff
  }

  ghost predicate IsUsage(usage: Usage, times: seq<real>, now: real) {
    usage.perMinuteCount == |Later(times, now - MINUTE)| && usage.perHourCount == |Later(times, now - HOUR)|
  }

  class TokenBucketRateLimiter {
    var windows: map<string, seq<real>>
    var limits: map<string, Limits>

    function Current(): State
      reads this
    {
      State(windows, limits)
    }

    constructor ()
      ensures Current() == State(map[], map[])
    {
      windows := map[];
      limits := map[];
    }

    method Configure(bot: string, ratePerMinute: int := 30, ratePerHour: int := 500)
      modifies this
      ensures Current() == Configured(old(Current()), bot, Limits(ratePerMinute, ratePerHour))
    {
      limits := limits[bot := Limits(ratePerMinute, ratePerHour)];
    }

    method Check(bot: string, now: real) returns (allowed: bool)
      modifies this
      ensures (Current(), allowed) == Checked(old(Current()), bot, now)
      ensures bot !in limits ==> allowed && windows == old(windows)
      ensures bot in limits ==> bot in windows && forall i :: 0 <= i < |windows[bot]| ==> windows[bot][i] > now - HOUR
      ensures limits == old(limits) && forall other :: other in windows && other != bot ==> other in old(windows) && windows[other] == old(windows)[other]
    {
      if bot !in limits {
        return true;
      }
      var window := if bot in windows then windows[bot] else [];
      window := Newer(window, now - HOUR);
      windows := windows[bot := window];
      if |window| >= limits[bot].perHour {
        return false;
      }
      if |Newer(window, now - MINUTE)| >= limits[bot].perMinute {
        return false;
      }
      return true;
    }

    method Record(bot: string, now: real)
      modifies this
      ensures Current() == Recorded(old(Current()), bot, now)
    {
      var window := if bot in windows then windows[bot] else [];
      windows := windows[bot := window + [now]];
    }

    method GetUsage(bot: string, now: real) returns (usage: Usage)
      ensures IsUsage(usage, Window(Current(), bot), now)
    {
      var window := if bot in windows then windows[bot] else [];
      var minute, hour := 0, 0;
      for i := 0 to |window|
        invariant minute == |Later(window[..i], now - MINUTE)| && hour == |Later(window[..i], now - HOUR)|
      {
        LaterNext(window, i, now - MINUTE);
        LaterNext(window, i, now - HOUR);
        if window[i] > now - MINUTE {
          minute := minute + 1;
        }
        if window[i] > now - HOUR {
          hour := hour + 1;
        }
      }
      assert window[..|window|] == window;
      usage := Usage(minute, hour);
    }
  }

  lemma LaterNext(times: seq<real>, i: nat, cutoff: real)
    requires i < |times|
    ensures Later(times[..i + 1], cutoff) == Later(times[..i], cutoff) + if times[i] > cutoff then {i as int} else {}
    ensures |Later(times[..i + 1], cutoff)| == |Later(times[..i], cutoff)| + if times[i] > cutoff then 1 else 0
  {
  }

  lemma {:induction false} NewerIsLater(times: seq<real>, cutoff: real)
    ensures |Newer(times, cutoff)| == |Later(times, cutoff)|
  {
    if times != [] {
      var n := |times| - 1;
      NewerIsLater(times[..n], cutoff);
      LaterNext(times, n, cutoff);
      assert times[..n + 1] == times;
    }
  }

  // ---- runs ----

  /** A call on the limiter, with the clock reading it takes. */
  datatype Call =
    | Configure(bot: string, limits: Limits, at: real)
    | Check(bot: string, at: real)
    | Record(bot: string, at: real)

  function Apply(s: State, c: Call): State {
    match c
    case Configure(bot, limits, _) => Configured(s, bot, limits)
    case Check(bot, now) => Checked(s, bot, now).0
    case Record(bot, now) => Recorded(s, bot, now)
  }

  /** The limiter after the calls. */
  function After(calls: seq<Call>): State {
    if calls == [] then State(map[], map[]) else Apply(After(calls[..|calls| - 1]), calls[|calls| - 1])
  }

  /** Every recorded time of the bot, never pruned. */
  function History(calls: seq<Call>, bot: string): seq<real> {
    if calls == [] then [] else HistoryAfter(History(calls[..|calls| - 1], bot), calls[|calls| - 1], bot)
  }

  function HistoryAfter(h: seq<real>, c: Call, bot: string): seq<real> {
    if c.Record? && c.bot == bot then h + [c.at] else h
  }

  ghost predicate ClockNeverGoesBack(calls: seq<Call>) {
    forall i, j :: 0 <= i < j < |calls| ==> calls[i].at <= calls[j].at
  }

  /** What the limits ask for, read off the full history. */
  predicate WithinLimits(times: seq<real>, limits: Limits, now: real) {
    |Newer(times, now - HOUR)| < limits.perHour && |Newer(times, now - MINUTE)| < limits.perMinute
  }

  lemma {:induction false} NewerNewer(times: seq<real>, c: real, d: real)
    requires c <= d
    ensures Newer(Newer(times, c), d) == Newer(times, d)
  {
    if times != [] {
      var front, last := times[..|times| - 1], times[|times| - 1];
      NewerNewer(front, c, d);
      assert Newer(front, c) + [] == Newer(front, c) && Newer(front, d) + [] == Newer(front, d);
      if last > c {
        NewerAppend(Newer(front, c), last, d);
      }
    }
  }

  lemma NewerAppend(times: seq<real>, t: real, c: real)
    ensures Newer(times + [t], c) == Newer(times, c) + if t > c then [t] else []
  {
    assert (times + [t])[..|times|] == times;
  }

  /** The kept window is the full history minus what had left the hour at some earlier check. */
  lemma {:induction false} WindowIsNewer(calls: seq<Call>, bot: string) returns (cutoff: real)
    requires ClockNeverGoesBack(calls) && calls != []
    ensures cutoff <= calls[|calls| - 1].at - HOUR
    ensures Window(After(calls), bot) == Newer(History(calls, bot), cutoff)
  {
    var front, last := calls[..|calls| - 1], calls[|calls| - 1];
    cutoff := last.at - HOUR;
    if front != [] {
      cutoff := WindowIsNewer(front, bot);
      assert front[|front| - 1] == calls[|calls| - 2];
    }
    cutoff := WindowStep(After(front), History(front, bot), last, bot, cutoff);
  }

  lemma WindowStep(s: State, h: seq<real>, c: Call, bot: string, cutoff: real) returns (next: real)
    requires Window(s, bot) == Newer(h, cutoff) && cutoff <= c.at - HOUR
    ensures next <= c.at - HOUR && Window(Apply(s, c), bot) == Newer(HistoryAfter(h, c, bot), next)
  {
    next := cutoff;
    if c.bot == bot && c.Check? && bot in s.limits {
      next := c.at - HOUR;
      NewerNewer(h, cutoff, next);
    }
    if c.bot == bot && c.Record? {
      NewerAppend(h, c.at, cutoff);
    }
  }

  /** Pruning cannot be seen: check and get_usage answer as they would on the full history. */
  lemma PruningIsInvisible(calls: seq<Call>, bot: string, now: real)
    requires ClockNeverGoesBack(calls) && (calls != [] ==> calls[|calls| - 1].at <= now)
    ensures bot in After(calls).limits ==>
      (Checked(After(calls), bot, now).1 <==> WithinLimits(History(calls, bot), After(calls).limits[bot], now))
    ensures forall usage :: IsUsage(usage, Window(After(calls), bot), now) <==> IsUsage(usage, History(calls, bot), now)
  {
    if calls != [] {
      var cutoff := WindowIsNewer(calls, bot);
      NewerNewer(History(calls, bot), cutoff, now - HOUR);
      NewerNewer(History(calls, bot), cutoff, now - MINUTE);
    }
    NewerNewer(Window(After(calls), bot), now - HOUR, now - MINUTE);
    NewerIsLater(Window(After(calls), bot), now - HOUR);
    NewerIsLater(Window(After(calls), bot), now - MINUTE);
    NewerIsLater(History(calls, bot), now - HOUR);
    NewerIsLater(History(calls, bot), now - MINUTE);
  }

  // ---- no window overflows ----

  /** The times in the half-open window (from, to]. */
  function Within(times: seq<real>, from: real, to: real): seq<real> {
    if times == [] then []
    else
      var last := times[|times| - 1];
      Within(times[..|times| - 1], from, to) + if from < last <= to then [last] else []
  }

  /** Calls i and j: a check that said yes, and a record with at most d other records between. */
  ghost predicate Guards(calls: seq<Call>, bot: string, d: nat, j: nat, i: nat) {
    && j < i < |calls| && calls[j].Check? && calls[j].bot == bot
    && Checked(After(calls[..j]), bot, calls[j].at).1
    && |History(calls[j..i], bot)| <= d
  }

  ghost predicate GuardedAt(calls: seq<Call>, bot: string, d: nat, i: nat)
    requires i < |calls|
  {
    calls[i].Record? && calls[i].bot == bot ==> exists j: nat :: Guards(calls, bot, d, j, i)
  }

  ghost predicate Guarded(calls: seq<Call>, bot: string, d: nat) {
    forall i :: 0 <= i < |calls| ==> GuardedAt(calls, bot, d, i)
  }

  ghost predicate LimitsAt(calls: seq<Call>, bot: string, limits: Limits, i: nat)
    requires i < |calls|
  {
    calls[i].Check? && calls[i].bot == bot ==>
      bot in After(calls[..i]).limits && After(calls[..i]).limits[bot] == limits
  }

  /** Whenever the bot is checked, these are its limits. */
  ghost predicate LimitsStay(calls: seq<Call>, bot: string, limits: Limits) {
    forall i :: 0 <= i < |calls| ==> LimitsAt(calls, bot, limits, i)
  }

  lemma {:induction false} HistoryConcat(a: seq<Call>, b: seq<Call>, bot: string)
    ensures History(a + b, bot) == History(a, bot) + History(b, bot)
    decreases |b|
  {
    if b == [] {
      assert a + b == a;
    } else {
      assert (a + b)[..|a + b| - 1] == a + b[..|b| - 1];
      HistoryConcat(a, b[..|b| - 1], bot);
    }
  }

  lemma {:induction false} NewerConcat(a: seq<real>, b: seq<real>, c: real)
    ensures Newer(a + b, c) == Newer(a, c) + Newer(b, c)
    decreases |b|
  {
    if b == [] {
      assert a + b == a;
    } else {
      assert a + b == (a + b[..|b| - 1]) + [b[|b| - 1]];
      NewerConcat(a, b[..|b| - 1], c);
      NewerAppend(a + b[..|b| - 1], b[|b| - 1], c);
    }
  }

  lemma {:induction false} WithinIsNewer(times: seq<real>, from: real, to: real, c: real)
    requires c <= from
    ensures |Within(times, from, to)| <= |Newer(times, c)|
  {
    if times != [] {
      WithinIsNewer(times[..|times| - 1], from, to, c);
    }
  }

  /** A record in call i, guarded by call j, leaves at most limit + d records in the last `width`. */
  lemma GuardedRecordFits(calls: seq<Call>, bot: string, limits: Limits, d: nat, j: nat, i: nat)
    requires ClockNeverGoesBack(calls) && LimitsStay(calls, bot, limits)
    requires Guards(calls, bot, d, j, i) && calls[i].Record? && calls[i].bot == bot
    ensures |Newer(History(calls[..i], bot), calls[i].at - MINUTE)| < limits.perMinute + d
    ensures |Newer(History(calls[..i], bot), calls[i].at - HOUR)| < limits.perHour + d
  {
    var before, between := History(calls[..j], bot), History(calls[j..i], bot);
    GuardSawRoom(calls, bot, limits, d, j, i);
    HistorySplit(calls, bot, j, i);
    LaterCutoff(before, between, calls[j].at - MINUTE, calls[i].at - MINUTE);
    LaterCutoff(before, between, calls[j].at - HOUR, calls[i].at - HOUR);
  }

  lemma GuardSawRoom(calls: seq<Call>, bot: string, limits: Limits, d: nat, j: nat, i: nat)
    requires ClockNeverGoesBack(calls) && LimitsStay(calls, bot, limits) && Guards(calls, bot, d, j, i)
    ensures WithinLimits(History(calls[..j], bot), limits, calls[j].at)
  {
    assert LimitsAt(calls, bot, limits, j);
    PruningIsInvisible(calls[..j], bot, calls[j].at);
  }

  lemma HistorySplit(calls: seq<Call>, bot: string, j: nat, i: nat)
    requires j <= i <= |calls|
    ensures History(calls[..i], bot) == History(calls[..j], bot) + History(calls[j..i], bot)
  {
    assert calls[..i] == calls[..j] + calls[j..i];
    HistoryConcat(calls[..j], calls[j..i], bot);
  }

  lemma LaterCutoff(a: seq<real>, b: seq<real>, c: real, d: real)
    requires c <= d
    ensures |Newer(a + b, d)| <= |Newer(a, c)| + |b|
  {
    NewerConcat(a, b, d);
    NewerNewer(a, c, d);
  }

  /** When every record follows a check that said yes, with at most d other records in between, no
      minute holds more than per_minute + d records and no hour more than per_hour + d, at any
      instant x and counting every record ever made. */
  lemma {:induction false} NoWindowOverflows(calls: seq<Call>, bot: string, limits: Limits, d: nat, x: real)
    requires ClockNeverGoesBack(calls) && LimitsStay(calls, bot, limits) && Guarded(calls, bot, d)
    ensures var minute := Within(History(calls, bot), x - MINUTE, x); minute == [] || |minute| <= limits.perMinute + d
    ensures var hour := Within(History(calls, bot), x - HOUR, x); hour == [] || |hour| <= limits.perHour + d
  {
    if calls != [] {
      GuardedPrefix(calls, bot, limits, d);
      NoWindowOverflows(calls[..|calls| - 1], bot, limits, d, x);
      LastCallFits(calls, bot, limits, d, x);
    }
  }

  lemma LastCallFits(calls: seq<Call>, bot: string, limits: Limits, d: nat, x: real)
    requires calls != []
    requires ClockNeverGoesBack(calls) && LimitsStay(calls, bot, limits) && Guarded(calls, bot, d)
    ensures var minute := Within(History(calls, bot), x - MINUTE, x);
      minute == Within(History(calls[..|calls| - 1], bot), x - MINUTE, x) || |minute| <= limits.perMinute + d
    ensures var hour := Within(History(calls, bot), x - HOUR, x);
      hour == Within(History(calls[..|calls| - 1], bot), x - HOUR, x) || |hour| <= limits.perHour + d
  {
    var n := |calls| - 1;
    if calls[n].Record? && calls[n].bot == bot {
      LastRecordFits(calls, bot, limits, d);
      WithinAppend(History(calls[..n], bot), calls[n].at, MINUTE, x, limits.perMinute + d);
      WithinAppend(History(calls[..n], bot), calls[n].at, HOUR, x, limits.perHour + d);
    }
  }

  lemma LastRecordFits(calls: seq<Call>, bot: string, limits: Limits, d: nat)
    requires calls != [] && calls[|calls| - 1].Record? && calls[|calls| - 1].bot == bot
    requires ClockNeverGoesBack(calls) && LimitsStay(calls, bot, limits) && Guarded(calls, bot, d)
    ensures |Newer(History(calls[..|calls| - 1], bot), calls[|calls| - 1].at - MINUTE)| < limits.perMinute + d
    ensures |Newer(History(calls[..|calls| - 1], bot), calls[|calls| - 1].at - HOUR)| < limits.perHour + d
  {
    var j := GuardOf(calls, bot, d, |calls| - 1);
    GuardedRecordFits(calls, bot, limits, d, j, |calls| - 1);
  }

  lemma GuardOf(calls: seq<Call>, bot: string, d: nat, i: nat) returns (j: nat)
    requires Guarded(calls, bot, d) && i < |calls| && calls[i].Record? && calls[i].bot == bot
    ensures Guards(calls, bot, d, j, i)
  {
    assert GuardedAt(calls, bot, d, i);
    j :| Guards(calls, bot, d, j, i);
  }

  lemma WithinAppend(times: seq<real>, t: real, width: real, x: real, bound: int)
    requires |Newer(times, t - width)| < bound
    ensures var r := Within(times + [t], x - width, x);
      r == Within(times, x - width, x) || |r| <= bound
  {
    assert (times + [t])[..|times|] == times;
    if t <= x {
      WithinIsNewer(times, x - width, x, t - width);
    }
  }

  lemma GuardedPrefix(calls: seq<Call>, bot: string, limits: Limits, d: nat)
    requires calls != [] && LimitsStay(calls, bot, limits) && Guarded(calls, bot, d)
    ensures LimitsStay(calls[..|calls| - 1], bot, limits) && Guarded(calls[..|calls| - 1], bot, d)
  {
    var front := calls[..|calls| - 1];
    forall i | 0 <= i < |front| ensures LimitsAt(front, bot, limits, i) {
      assert LimitsAt(calls, bot, limits, i);
      assert front[..i] == calls[..i];
    }
    forall i | 0 <= i < |front| ensures GuardedAt(front, bot, d, i) {
      assert GuardedAt(calls, bot, d, i);
      if front[i].Record? && front[i].bot == bot {
        var j: nat :| Guards(calls, bot, d, j, i);
        assert front[..j] == calls[..j] && front[j..i] == calls[j..i];
        assert Guards(front, bot, d, j, i);
      }
    }
  }

  lemma AfterAppend(calls: seq<Call>, c: Call)
    ensures After(calls + [c]) == Apply(After(calls), c)
    ensures forall bot :: History(calls + [c], bot) == HistoryAfter(History(calls, bot), c, bot)
  {
    assert (calls + [c])[..|calls|] == calls;
  }
}
