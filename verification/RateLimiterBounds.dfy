/** How close the limiter's windows come to their bounds (cognix/bots/rate_limiter.py:31-65). */
module RateLimiterBounds {
  import opened Wrappers
  import opened RateLimiter

  const BOT := "b"

  /** A run in which the bot's limits stay and every record has a check with at most d others between. */
  ghost predicate Run(calls: seq<Call>, limits: Limits, d: nat, times: seq<real>) {
    && calls != [] && ClockNeverGoesBack(calls)
    && LimitsStay(calls, BOT, limits) && Guarded(calls, BOT, d)
    && History(calls, BOT) == times
    && BOT in After(calls).limits && After(calls).limits[BOT] == limits
  }

  function Last(calls: seq<Call>): real
    requires calls != []
  {
    calls[|calls| - 1].at
  }

  /** Call j is a check that said yes, and e records followed it. */
  ghost predicate Open(calls: seq<Call>, j: nat, e: nat) {
    && j < |calls| && calls[j].Check? && calls[j].bot == BOT
    && Checked(After(calls[..j]), BOT, calls[j].at).1
    && |History(calls[j..], BOT)| == e
  }

  lemma RunStart(limits: Limits, d: nat)
    ensures Run([Configure(BOT, limits, 0.0)], limits, d, [])
  {
    var calls := [Configure(BOT, limits, 0.0)];
    AfterAppend([], calls[0]);
    assert [] + [calls[0]] == calls;
    forall i | 0 <= i < |calls| ensures LimitsAt(calls, BOT, limits, i) && GuardedAt(calls, BOT, d, i) {
    }
  }

  /** A longer run keeps what held of its first calls. */
  lemma RunGrows(calls: seq<Call>, c: Call, limits: Limits, d: nat, times: seq<real>)
    requires Run(calls, limits, d, times) && Last(calls) <= c.at && c.bot == BOT && !c.Configure?
    requires c.Record? ==> exists j: nat :: Guards(calls + [c], BOT, d, j, |calls|)
    ensures Run(calls + [c], limits, d, if c.Record? then times + [c.at] else times)
  {
    var longer := calls + [c];
    AfterAppend(calls, c);
    forall i | 0 <= i < |longer| ensures LimitsAt(longer, BOT, limits, i) {
      if i < |calls| {
        assert LimitsAt(calls, BOT, limits, i);
        assert longer[..i] == calls[..i];
      } else {
        assert longer[..i] == calls;
      }
    }
    forall i | 0 <= i < |longer| ensures GuardedAt(longer, BOT, d, i) {
      if i < |calls| {
        GuardStays(calls, c, d, i);
      }
    }
  }

  lemma GuardStays(calls: seq<Call>, c: Call, d: nat, i: nat)
    requires i < |calls| && Guarded(calls, BOT, d)
    ensures GuardedAt(calls + [c], BOT, d, i)
  {
    var longer := calls + [c];
    assert GuardedAt(calls, BOT, d, i);
    if calls[i].Record? && calls[i].bot == BOT {
      var j: nat :| Guards(calls, BOT, d, j, i);
      assert longer[..j] == calls[..j] && longer[j..i] == calls[j..i];
      assert Guards(longer, BOT, d, j, i);
    }
  }

  /** One more record on the strength of check j. */
  lemma RecordGrows(calls: seq<Call>, now: real, limits: Limits, d: nat, times: seq<real>, j: nat, e: nat)
    requires Run(calls, limits, d, times) && Last(calls) <= now && Open(calls, j, e) && e <= d
    ensures Run(calls + [Record(BOT, now)], limits, d, times + [now])
    ensures Open(calls + [Record(BOT, now)], j, e + 1)
  {
    var longer := calls + [Record(BOT, now)];
    assert longer[..j] == calls[..j] && longer[j..|calls|] == calls[j..];
    assert Guards(longer, BOT, d, j, |calls|);
    RunGrows(calls, Record(BOT, now), limits, d, times);
    assert longer[j..] == calls[j..] + [Record(BOT, now)];
    AfterAppend(calls[j..], Record(BOT, now));
  }

  /** A check that says yes, and its record. */
  lemma PairGrows(calls: seq<Call>, now: real, limits: Limits, d: nat, times: seq<real>) returns (longer: seq<Call>)
    requires Run(calls, limits, d, times) && Last(calls) <= now && WithinLimits(times, limits, now)
    ensures Run(longer, limits, d, times + [now]) && Last(longer) == now && Open(longer, |calls|, 1)
  {
    var checked := calls + [Check(BOT, now)];
    PruningIsInvisible(calls, BOT, now);
    RunGrows(calls, Check(BOT, now), limits, d, times);
    assert checked[..|calls|] == calls && checked[|calls|..] == [Check(BOT, now)];
    AfterAppend([], Check(BOT, now));
    assert [] + [Check(BOT, now)] == [Check(BOT, now)];
    RecordGrows(checked, now, limits, d, times, |calls|, 0);
    longer := checked + [Record(BOT, now)];
  }

  // ---- full minutes, one after the other ----

  /** The minute of the i-th message when m are sent at the start of every minute. */
  function MinuteOf(m: nat, i: nat): nat
    requires m > 0
    decreases i
  {
    if i < m then 0 else 1 + MinuteOf(m, i - m)
  }

  function Slot(m: nat, i: nat): real
    requires m > 0
  {
    60.0 * (MinuteOf(m, i) as real)
  }

  function Slots(m: nat, n: nat): (r: seq<real>)
    requires m > 0
    ensures |r| == n
  {
    if n == 0 then [] else Slots(m, n - 1) + [Slot(m, n - 1)]
  }

  lemma {:induction false} SlotsAt(m: nat, n: nat)
    requires m > 0
    ensures forall i :: 0 <= i < n ==> Slots(m, n)[i] == Slot(m, i)
  {
    if n > 0 {
      SlotsAt(m, n - 1);
    }
  }

  lemma {:induction false} MinutesGrow(m: nat, i: nat, j: nat)
    requires m > 0 && i <= j
    ensures MinuteOf(m, i) <= MinuteOf(m, j)
    decreases j
  {
    if m <= i {
      MinutesGrow(m, i - m, j - m);
    }
  }

  /** The first q minutes hold q * m messages. */
  lemma {:induction false} MinuteBelow(m: nat, i: nat, q: nat)
    requires m > 0 && i < q * m
    ensures MinuteOf(m, i) < q
    decreases i
  {
    if m <= i {
      assert q * m == (q - 1) * m + m;
      MinuteBelow(m, i - m, q - 1);
    }
  }

  /** If the first `stale` times are not newer than the cutoff, at most the others are. */
  lemma {:induction false} NewerThanOld(times: seq<real>, cutoff: real, stale: nat)
    requires stale <= |times| && forall i :: 0 <= i < stale ==> times[i] <= cutoff
    ensures |Newer(times, cutoff)| <= |times| - stale
  {
    if times != [] {
      NewerThanOld(times[..|times| - 1], cutoff, if stale == |times| then stale - 1 else stale);
    }
  }

  /** The messages of the minutes before message n. */
  lemma {:induction false} EarlierMinutes(m: nat, n: nat) returns (stale: nat)
    requires m > 0
    ensures stale <= n < stale + m
    ensures forall i :: 0 <= i < stale ==> MinuteOf(m, i) < MinuteOf(m, n)
    decreases n
  {
    stale := 0;
    if m <= n {
      var before := EarlierMinutes(m, n - m);
      stale := before + m;
      forall i | 0 <= i < stale ensures MinuteOf(m, i) < MinuteOf(m, n) {
        assert i >= m ==> MinuteOf(m, i - m) < MinuteOf(m, n - m);
      }
    }
  }

  /** Room for one more when all but fewer than perMinute are a minute old. */
  lemma HasRoom(times: seq<real>, limits: Limits, now: real, stale: nat)
    requires |times| < limits.perHour && stale <= |times| < stale + limits.perMinute
    requires forall i :: 0 <= i < stale ==> times[i] <= now - MINUTE
    ensures WithinLimits(times, limits, now)
  {
    NewerThanOld(times, now - MINUTE, stale);
  }

  /** The limiter lets each message through while the hour has room. */
  lemma SlotHasRoom(limits: Limits, m: nat, n: nat)
    requires m == limits.perMinute > 0 && n < limits.perHour
    ensures WithinLimits(Slots(m, n), limits, Slot(m, n))
  {
    var stale := EarlierMinutes(m, n);
    SlotsAt(m, n);
    HasRoom(Slots(m, n), limits, Slot(m, n), stale);
  }

  lemma {:induction false} Fill(limits: Limits, d: nat, n: nat) returns (calls: seq<Call>, j: nat)
    requires limits.perMinute > 0 && 0 < n <= limits.perHour
    ensures Run(calls, limits, d, Slots(limits.perMinute, n)) && Last(calls) == Slot(limits.perMinute, n - 1)
    ensures Open(calls, j, 1)
  {
    var front := [Configure(BOT, limits, 0.0)];
    if n == 1 {
      RunStart(limits, d);
    } else {
      front, j := Fill(limits, d, n - 1);
      MinutesGrow(limits.perMinute, n - 2, n - 1);
    }
    SlotHasRoom(limits, limits.perMinute, n - 1);
    j := |front|;
    calls := PairGrows(front, Slot(limits.perMinute, n - 1), limits, d, Slots(limits.perMinute, n - 1));
  }

  function Repeated(t: real, e: nat): (r: seq<real>)
    ensures |r| == e && forall i :: 0 <= i < e ==> r[i] == t
  {
    if e == 0 then [] else Repeated(t, e - 1) + [t]
  }

  /** Then e further records before the next check. */
  lemma {:induction false} Overrun(limits: Limits, d: nat, n: nat, e: nat) returns (calls: seq<Call>, j: nat)
    requires limits.perMinute > 0 && 0 < n <= limits.perHour && e <= d
    ensures Run(calls, limits, d, Slots(limits.perMinute, n) + Repeated(Slot(limits.perMinute, n - 1), e))
    ensures Last(calls) == Slot(limits.perMinute, n - 1) && Open(calls, j, e + 1)
    decreases e
  {
    var m := limits.perMinute;
    var slots, now := Slots(m, n), Slot(m, n - 1);
    if e == 0 {
      calls, j := Fill(limits, d, n);
      assert slots + [] == slots;
    } else {
      calls, j := Overrun(limits, d, n, e - 1);
      RecordGrows(calls, now, limits, d, slots + Repeated(now, e - 1), j, e);
      calls := calls + [Record(BOT, now)];
      assert slots + Repeated(now, e - 1) + [now] == slots + Repeated(now, e);
    }
  }

  lemma {:induction false} AllWithin(times: seq<real>, from: real, to: real)
    requires forall i :: 0 <= i < |times| ==> from < times[i] <= to
    ensures |Within(times, from, to)| == |times|
  {
    if times != [] {
      AllWithin(times[..|times| - 1], from, to);
    }
  }

  /** For every positive limits and every d, a run in which some minute holds as many records as the
      bounds on minute and hour allow. */
  lemma MinuteBoundIsReached(limits: Limits, d: nat) returns (calls: seq<Call>, x: real)
    requires limits.perMinute > 0 && limits.perHour > 0
    ensures ClockNeverGoesBack(calls) && LimitsStay(calls, BOT, limits) && Guarded(calls, BOT, d)
    ensures |Within(History(calls, BOT), x - MINUTE, x)| == Min(limits.perMinute, limits.perHour) + d
  {
    var m, n := limits.perMinute, Min(limits.perMinute, limits.perHour);
    var j;
    calls, j := Overrun(limits, d, n, d);
    x := 0.0;
    SlotsAt(m, n);
    AllWithin(History(calls, BOT), x - MINUTE, x);
  }

  lemma SlotsInHour(m: nat, n: nat)
    requires 0 < n <= 60 * m
    ensures forall i :: 0 <= i < n ==> Slot(m, n - 1) - HOUR < Slot(m, i) <= Slot(m, n - 1)
  {
    MinuteBelow(m, n - 1, 60);
    forall i | 0 <= i < n ensures 0.0 <= Slot(m, i) <= Slot(m, n - 1) {
      MinutesGrow(m, i, n - 1);
    }
  }

  /** And one in which some hour holds per_hour + d, as long as sixty full minutes hold per_hour. */
  lemma HourBoundIsReached(limits: Limits, d: nat) returns (calls: seq<Call>, x: real)
    requires 0 < limits.perHour <= 60 * limits.perMinute
    ensures ClockNeverGoesBack(calls) && LimitsStay(calls, BOT, limits) && Guarded(calls, BOT, d)
    ensures |Within(History(calls, BOT), x - HOUR, x)| == limits.perHour + d
  {
    var m, n := limits.perMinute, limits.perHour;
    var j;
    calls, j := Overrun(limits, d, n, d);
    x := Slot(m, n - 1);
    SlotsAt(m, n);
    SlotsInHour(m, n);
    AllWithin(History(calls, BOT), x - HOUR, x);
  }

  lemma {:induction false} WithinSplit(times: seq<real>, from: real, mid: real, to: real)
    requires from <= mid <= to
    ensures |Within(times, from, to)| == |Within(times, from, mid)| + |Within(times, mid, to)|
  {
    if times != [] {
      WithinSplit(times[..|times| - 1], from, mid, to);
    }
  }

  predicate MinuteFits(times: seq<real>, bound: nat, y: real) {
    |Within(times, y - MINUTE, y)| <= bound
  }

  /** n minutes hold at most n times the bound of one. */
  lemma {:induction false} MinutesBound(times: seq<real>, bound: nat, x: real, n: nat)
    requires forall y :: MinuteFits(times, bound, y)
    ensures |Within(times, x - 60.0 * (n as real), x)| <= n * bound
  {
    if n == 0 {
      WithinSplit(times, x, x, x);
    } else {
      var y := x - 60.0 * ((n - 1) as real);
      MinutesBound(times, bound, x, n - 1);
      assert MinuteFits(times, bound, y);
      WithinSplit(times, y - MINUTE, y, x);
      assert n * bound == (n - 1) * bound + bound;
    }
  }

  /** An hour is sixty minutes, so it never holds more than they do. */
  lemma MinutesBoundHour(calls: seq<Call>, bot: string, limits: Limits, d: nat, x: real)
    requires ClockNeverGoesBack(calls) && LimitsStay(calls, bot, limits) && Guarded(calls, bot, d)
    requires limits.perMinute >= 0
    ensures |Within(History(calls, bot), x - HOUR, x)| <= 60 * (limits.perMinute + d)
  {
    var h, bound: nat := History(calls, bot), limits.perMinute + d;
    forall y: real ensures MinuteFits(h, bound, y) {
      NoWindowOverflows(calls, bot, limits, d, y);
    }
    MinutesBound(h, bound, x, 60);
  }

  ghost predicate HourFills(limits: Limits, calls: seq<Call>, x: real) {
    && ClockNeverGoesBack(calls) && LimitsStay(calls, BOT, limits) && Guarded(calls, BOT, 0)
    && |Within(History(calls, BOT), x - HOUR, x)| == limits.perHour
  }

  /** With a check before every record, the hourly limit can be used up if and only if sixty full
      minutes add up to it. */
  lemma HourFillsExactlyWhen(limits: Limits)
    requires limits.perMinute > 0 && limits.perHour > 0
    ensures (exists calls, x :: HourFills(limits, calls, x)) <==> limits.perHour <= 60 * limits.perMinute
  {
    if limits.perHour <= 60 * limits.perMinute {
      var calls, x := HourBoundIsReached(limits, 0);
      assert HourFills(limits, calls, x);
    } else if exists calls, x :: HourFills(limits, calls, x) {
      var calls, x :| HourFills(limits, calls, x);
      MinutesBoundHour(calls, BOT, limits, 0, x);
    }
  }
}
