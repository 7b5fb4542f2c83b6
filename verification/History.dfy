/** Conversation history under a token limit (cognix/core/context.py, cognix/memory/token_counter.py). */
module History {
  import opened Wrappers
  import opened Messages

  /** Tokens of a text; the encoder is a parameter. */
  type Counter = string -> nat

  predicate IsSystem(m: Message) {
    m.role == "system"
  }

  function PartsCost(parts: seq<Part>, count: Counter): nat {
    if parts == [] then 0
    else PartsCost(parts[..|parts| - 1], count) + if parts[|parts| - 1].TextPart? then count(parts[|parts| - 1].text) else 0
  }

  function MessageCost(m: Message, count: Counter): nat {
    4 + match m.content
        case Plain(text) => count(text)
        case Parts(parts) => PartsCost(parts, count)
        case Absent => 0
  }

  function Cost(history: seq<Message>, count: Counter): nat {
    if history == [] then 0
    else Cost(history[..|history| - 1], count) + MessageCost(history[|history| - 1], count)
  }

  /** The texts that a history is charged for, one after the other. */
  function TextsOf(m: Message): seq<string> {
    match m.content
    case Plain(text) => [text]
    case Parts(parts) => PartTexts(parts)
    case Absent => []
  }

  function PartTexts(parts: seq<Part>): seq<string> {
    if parts == [] then []
    else PartTexts(parts[..|parts| - 1]) + if parts[|parts| - 1].TextPart? then [parts[|parts| - 1].text] else []
  }

  function Texts(history: seq<Message>): seq<string> {
    if history == [] then [] else Texts(history[..|history| - 1]) + TextsOf(history[|history| - 1])
  }

  function TotalCount(texts: seq<string>, count: Counter): nat {
    if texts == [] then 0 else TotalCount(texts[..|texts| - 1], count) + count(texts[|texts| - 1])
  }

  lemma {:induction false} TotalCountConcat(a: seq<string>, b: seq<string>, count: Counter)
    ensures TotalCount(a + b, count) == TotalCount(a, count) + TotalCount(b, count)
  {
    if b == [] {
      assert a + b == a;
    } else {
      var n := |b| - 1;
      TotalCountConcat(a, b[..n], count);
      assert (a + b)[..|a + b| - 1] == a + b[..n];
    }
  }

  lemma {:induction false} PartsCostIs(parts: seq<Part>, count: Counter)
    ensures PartsCost(parts, count) == TotalCount(PartTexts(parts), count)
  {
    if parts != [] {
      var n := |parts| - 1;
      PartsCostIs(parts[..n], count);
      if parts[n].TextPart? {
        TotalCountConcat(PartTexts(parts[..n]), [parts[n].text], count);
        assert [parts[n].text][..0] == [];
      } else {
        assert PartTexts(parts) == PartTexts(parts[..n]);
      }
    }
  }

  lemma MessageCostIs(m: Message, count: Counter)
    ensures MessageCost(m, count) == 4 + TotalCount(TextsOf(m), count)
  {
    match m.content
    case Plain(text) =>
      assert [text][..0] == [];
    case Parts(parts) =>
      PartsCostIs(parts, count);
    case Absent =>
  }

  /** A history costs four tokens a message and the tokens of its texts, and nothing else. */
  lemma {:induction false} CostIsTexts(history: seq<Message>, count: Counter)
    ensures Cost(history, count) == 4 * |history| + TotalCount(Texts(history), count)
  {
    if history != [] {
      var n := |history| - 1;
      CostIsTexts(history[..n], count);
      MessageCostIs(history[n], count);
      TotalCountConcat(Texts(history[..n]), TextsOf(history[n]), count);
    }
  }

  method CountMessageTokens(history: seq<Message>, count: Counter) returns (total: nat)
    ensures total == Cost(history, count)
  {
    total := 0;
    for i := 0 to |history|
      invariant total == Cost(history[..i], count)
    {
      assert history[..i + 1][..i] == history[..i];
      total := total + 4;
      match history[i].content
      case Plain(text) =>
        total := total + count(text);
      case Parts(parts) =>
        for p := 0 to |parts|
          invariant total == Cost(history[..i], count) + 4 + PartsCost(parts[..p], count)
        {
          assert parts[..p + 1][..p] == parts[..p];
          if parts[p].TextPart? {
            total := total + count(parts[p].text);
          }
        }
        assert parts[..|parts|] == parts;
      case Absent =>
    }
    assert history[..|history|] == history;
  }

  /** messages[-limit:], where a missing limit and a limit of 0 keep everything. */
  function Recent(messages: seq<Message>, limit: Option<int>): seq<Message> {
    if limit.None? || limit.value == 0 then messages
    else if limit.value > 0 then messages[if limit.value < |messages| then |messages| - limit.value else 0..]
    else messages[if -limit.value < |messages| then -limit.value else |messages|..]
  }

  /** The newest messages: a positive limit is how many are kept, a negative one how many of the oldest are
      left out, and without a limit, or with 0, all of them are kept. */
  lemma RecentIsNewest(messages: seq<Message>, limit: Option<int>)
    ensures var n, r := |messages|, Recent(messages, limit);
      && |r| <= n && r == messages[n - |r|..]
      && (limit.None? || limit.value == 0 ==> |r| == n)
      && (limit.Some? && limit.value > 0 ==> |r| == Min(limit.value, n))
      && (limit.Some? && limit.value < 0 ==> |r| == Max(n + limit.value, 0))
  {
  }

  /** The history without its k oldest non-system messages. */
  function Dropped(h: seq<Message>, k: nat): seq<Message> {
    if k == 0 || h == [] then h
    else if IsSystem(h[0]) then [h[0]] + Dropped(h[1..], k)
    else Dropped(h[1..], k - 1)
  }

  function Systems(h: seq<Message>): seq<Message> {
    if h == [] then [] else (if IsSystem(h[0]) then [h[0]] else []) + Systems(h[1..])
  }

  function Others(h: seq<Message>): seq<Message> {
    if h == [] then [] else (if IsSystem(h[0]) then [] else [h[0]]) + Others(h[1..])
  }

  /** Dropping k messages is where trimming may stop. */
  predicate Enough(h: seq<Message>, k: nat, maxTokens: int, count: Counter) {
    Cost(Dropped(h, k), count) <= maxTokens || |Dropped(h, k)| <= 1 || k >= |Others(h)|
  }

  ghost predicate IsTrim(r: seq<Message>, h: seq<Message>, k: nat, maxTokens: int, count: Counter) {
    && k <= |Others(h)| && r == Dropped(h, k)
    && Enough(h, k, maxTokens, count)
    && forall j: nat :: j < k ==> !Enough(h, j, maxTokens, count)
  }

  class Context {
    var messages: seq<Message>

    constructor ()
      ensures messages == []
    {
      messages := [];
    }

    method AddMessage(message: Message)
      modifies this
      ensures messages == old(messages) + [message]
    {
      messages := messages + [message];
    }

    method GetHistory(limit: Option<int>, maxTokens: Option<int>, count: Counter) returns (history: seq<Message>)
      ensures maxTokens.None? ==> history == Recent(messages, limit)
      ensures maxTokens.Some? ==> exists k: nat :: IsTrim(history, Recent(messages, limit), k, maxTokens.value, count)
    {
      history := Recent(messages, limit);
      if maxTokens.Some? {
        history := Trim(history, maxTokens.value, count);
      }
    }
  }

  /** Pops the oldest non-system message while the total is over the limit. */
  method Trim(window: seq<Message>, maxTokens: int, count: Counter) returns (history: seq<Message>)
    ensures exists k: nat :: IsTrim(history, window, k, maxTokens, count)
  {
    history := window;
    ghost var k: nat := 0;
    while |history| > 1
      invariant Trimming(history, window, k, maxTokens, count)
      decreases |history|
    {
      var total := CountMessageTokens(history, count);
      if total <= maxTokens {
        break;
      }
      var popped, shorter := PopOldest(history);
      if !popped {
        break;
      }
      TrimmingNext(history, window, k, maxTokens, count);
      history := shorter;
      k := k + 1;
    }
    TrimmingEnds(history, window, k, maxTokens, count);
  }

  /** k messages are dropped, and trimming could not stop before. */
  ghost predicate Trimming(history: seq<Message>, window: seq<Message>, k: nat, maxTokens: int, count: Counter) {
    && k <= |Others(window)| && history == Dropped(window, k)
    && forall j: nat :: j < k ==> !Enough(window, j, maxTokens, count)
  }

  lemma TrimmingNext(history: seq<Message>, window: seq<Message>, k: nat, maxTokens: int, count: Counter)
    requires Trimming(history, window, k, maxTokens, count)
    requires |history| > 1 && Cost(history, count) > maxTokens && Others(history) != []
    ensures Trimming(Dropped(history, 1), window, k + 1, maxTokens, count)
  {
    OthersLeft(window, k);
    DropAgain(window, k);
    NotEnough(window, k, maxTokens, count);
  }

  lemma NotEnough(window: seq<Message>, k: nat, maxTokens: int, count: Counter)
    requires |Dropped(window, k)| > 1 && Cost(Dropped(window, k), count) > maxTokens && k < |Others(window)|
    ensures !Enough(window, k, maxTokens, count)
  {
  }

  lemma TrimmingEnds(history: seq<Message>, window: seq<Message>, k: nat, maxTokens: int, count: Counter)
    requires Trimming(history, window, k, maxTokens, count)
    requires |history| <= 1 || Cost(history, count) <= maxTokens || Others(history) == []
    ensures IsTrim(history, window, k, maxTokens, count)
  {
    OthersLeft(window, k);
  }

  /** Pops the first message that is not a system message, if there is one. */
  method PopOldest(history: seq<Message>) returns (popped: bool, shorter: seq<Message>)
    ensures popped <==> Others(history) != []
    ensures shorter == if popped then Dropped(history, 1) else history
    ensures popped ==> |shorter| < |history|
  {
    for i := 0 to |history|
      invariant forall j :: 0 <= j < i ==> IsSystem(history[j])
    {
      if !IsSystem(history[i]) {
        PopIsDrop(history, i);
        return true, history[..i] + history[i + 1..];
      }
    }
    NoOthers(history);
    return false, history;
  }

  lemma {:induction false} NoOthers(h: seq<Message>)
    requires forall j :: 0 <= j < |h| ==> IsSystem(h[j])
    ensures Others(h) == []
  {
    if h != [] {
      NoOthers(h[1..]);
    }
  }

  lemma {:induction false} PopIsDrop(h: seq<Message>, i: nat)
    requires i < |h| && !IsSystem(h[i]) && forall j :: 0 <= j < i ==> IsSystem(h[j])
    ensures h[..i] + h[i + 1..] == Dropped(h, 1)
    ensures Others(h) != []
  {
    if i > 0 {
      PopIsDrop(h[1..], i - 1);
      assert h[..i] + h[i + 1..] == [h[0]] + (h[1..][..i - 1] + h[1..][i..]);
    }
  }

  lemma {:induction false} DropAgain(h: seq<Message>, k: nat)
    ensures Dropped(Dropped(h, k), 1) == Dropped(h, k + 1)
  {
    if h != [] && k > 0 {
      DropAgain(h[1..], if IsSystem(h[0]) then k else k - 1);
    }
  }

  /** What dropping keeps: every system message, and the newest of the others. */
  lemma OthersLeft(h: seq<Message>, k: nat)
    ensures Systems(Dropped(h, k)) == Systems(h)
    ensures Others(Dropped(h, k)) == if k <= |Others(h)| then Others(h)[k..] else []
    ensures |Dropped(h, k)| == |Systems(h)| + |Others(Dropped(h, k))|
  {
    SystemsStay(h, k);
    OthersDropped(h, k);
    SplitLength(Dropped(h, k));
  }

  lemma {:induction false} SystemsStay(h: seq<Message>, k: nat)
    ensures Systems(Dropped(h, k)) == Systems(h)
  {
    if h != [] && k > 0 {
      if IsSystem(h[0]) {
        SystemsStay(h[1..], k);
        SplitFirst(h[0], Dropped(h[1..], k));
      } else {
        SystemsStay(h[1..], k - 1);
      }
    }
  }

  lemma {:induction false} OthersDropped(h: seq<Message>, k: nat)
    ensures Others(Dropped(h, k)) == if k <= |Others(h)| then Others(h)[k..] else []
  {
    if h != [] && k > 0 {
      if IsSystem(h[0]) {
        OthersDropped(h[1..], k);
        SplitFirst(h[0], Dropped(h[1..], k));
      } else {
        OthersDropped(h[1..], k - 1);
        assert k <= |Others(h)| ==> Others(h)[k..] == Others(h[1..])[k - 1..];
      }
    }
  }

  lemma SplitFirst(m: Message, rest: seq<Message>)
    ensures Systems([m] + rest) == if IsSystem(m) then [m] + Systems(rest) else Systems(rest)
    ensures Others([m] + rest) == if IsSystem(m) then Others(rest) else [m] + Others(rest)
  {
    assert ([m] + rest)[1..] == rest;
  }

  lemma {:induction false} SplitLength(h: seq<Message>)
    ensures |h| == |Systems(h)| + |Others(h)|
  {
    if h != [] {
      SplitLength(h[1..]);
    }
  }

  // ---- what the trimmed history is ----

  lemma {:induction false} CostConcat(a: seq<Message>, b: seq<Message>, count: Counter)
    ensures Cost(a + b, count) == Cost(a, count) + Cost(b, count)
    decreases |b|
  {
    if b == [] {
      assert a + b == a;
    } else {
      assert (a + b)[..|a + b| - 1] == a + b[..|b| - 1];
      CostConcat(a, b[..|b| - 1], count);
    }
  }

  lemma CostFirst(h: seq<Message>, count: Counter)
    requires h != []
    ensures Cost(h, count) == MessageCost(h[0], count) + Cost(h[1..], count)
  {
    assert h == [h[0]] + h[1..];
    CostConcat([h[0]], h[1..], count);
    assert Cost([h[0]], count) == MessageCost(h[0], count) by {
      assert [h[0]][..0] == [];
    }
  }

  /** Every further drop makes the history strictly cheaper. */
  lemma {:induction false} DropCheaper(h: seq<Message>, k: nat, count: Counter)
    requires k < |Others(h)|
    ensures Cost(Dropped(h, k + 1), count) < Cost(Dropped(h, k), count)
  {
    CostFirst(h, count);
    if IsSystem(h[0]) {
      DropCheaper(h[1..], k, count);
      CostConcat([h[0]], Dropped(h[1..], k), count);
      CostConcat([h[0]], Dropped(h[1..], k + 1), count);
      assert k == 0 ==> h == [h[0]] + h[1..];
    } else if k > 0 {
      DropCheaper(h[1..], k - 1, count);
    }
  }

  lemma {:induction false} MoreDropsCheaper(h: seq<Message>, j: nat, k: nat, count: Counter)
    requires j <= k <= |Others(h)|
    ensures Cost(Dropped(h, k), count) <= Cost(Dropped(h, j), count)
    decreases k
  {
    if j < k {
      MoreDropsCheaper(h, j, k - 1, count);
      DropCheaper(h, k - 1, count);
    }
  }

  /** Trimming keeps every system message and drops the shortest run of the oldest others: keeping
      even one more of them would be over the limit. It stops over the limit only with one message
      left or with system messages alone. */
  lemma TrimIsLongestSuffix(r: seq<Message>, h: seq<Message>, k: nat, maxTokens: int, count: Counter)
    requires IsTrim(r, h, k, maxTokens, count)
    ensures Systems(r) == Systems(h) && Others(r) == Others(h)[k..]
    ensures forall j: nat :: j < k ==> Cost(Dropped(h, j), count) > maxTokens
    ensures Cost(r, count) <= maxTokens || |r| <= 1 || Others(r) == []
    ensures forall r', k': nat :: IsTrim(r', h, k', maxTokens, count) ==> r' == r
  {
    OthersLeft(h, k);
    forall j: nat | j < k ensures Cost(Dropped(h, j), count) > maxTokens {
      assert !Enough(h, j, maxTokens, count);
    }
    forall r', k': nat | IsTrim(r', h, k', maxTokens, count) ensures r' == r {
      assert k' < k ==> !Enough(h, k', maxTokens, count);
      assert k < k' ==> !Enough(h, k, maxTokens, count);
    }
  }

  /** The least that trimming can leave. */
  function Least(h: seq<Message>): seq<Message> {
    if Systems(h) != [] || h == [] then Systems(h) else [h[|h| - 1]]
  }

  /** The trimmed history fits exactly when its system messages alone would fit, or, without any, its
      newest message. */
  lemma TrimFitsExactlyWhen(r: seq<Message>, h: seq<Message>, k: nat, maxTokens: int, count: Counter)
    requires IsTrim(r, h, k, maxTokens, count)
    ensures Cost(r, count) <= maxTokens <==> Cost(Least(h), count) <= maxTokens
  {
    var most := MostDrops(h);
    LeastIsDropped(h);
    TrimReachesMost(r, h, k, maxTokens, count);
    MoreDropsCheaper(h, k, most, count);
  }

  function MostDrops(h: seq<Message>): (k: nat)
    ensures k <= |Others(h)|
  {
    if Systems(h) != [] || Others(h) == [] then |Others(h)| else |Others(h)| - 1
  }

  lemma TrimReachesMost(r: seq<Message>, h: seq<Message>, k: nat, maxTokens: int, count: Counter)
    requires IsTrim(r, h, k, maxTokens, count)
    ensures k <= MostDrops(h) && (Cost(r, count) <= maxTokens || k == MostDrops(h))
  {
    var most := MostDrops(h);
    OthersLeft(h, k);
    OthersLeft(h, most);
    assert Enough(h, most, maxTokens, count);
  }

  lemma LeastIsDropped(h: seq<Message>)
    ensures Least(h) == Dropped(h, MostDrops(h))
  {
    SplitLength(h);
    if Systems(h) == [] {
      DropPlain(h, MostDrops(h));
    } else {
      OthersLeft(h, |Others(h)|);
      OnlySystems(Dropped(h, |Others(h)|));
    }
  }

  lemma {:induction false} OnlySystems(h: seq<Message>)
    requires Others(h) == []
    ensures Systems(h) == h
  {
    if h != [] {
      OnlySystems(h[1..]);
    }
  }

  lemma {:induction false} DropPlain(h: seq<Message>, k: nat)
    requires Systems(h) == [] && k <= |h|
    ensures Dropped(h, k) == h[k..]
  {
    if k > 0 {
      DropPlain(h[1..], k - 1);
    }
  }

  // ---- what trimming may cut apart ----

  /** Trimming looks at roles and costs only: it can drop an assistant message and keep the tool results
      that answer its calls. */
  lemma TrimKeepsOrphanedResult(count: Counter)
    ensures var asked := Message("assistant", Absent, "", "", [ToolCall("c", "t", "{}")]);
      var answered := Message("tool", Plain("done"), "t", "c", []);
      IsTrim([answered], [asked, answered], 1, Cost([answered], count), count)
  {
    var asked := Message("assistant", Absent, "", "", [ToolCall("c", "t", "{}")]);
    var answered := Message("tool", Plain("done"), "t", "c", []);
    CostFirst([asked, answered], count);
    assert [asked, answered][1..] == [answered] && [answered][1..] == [];
    assert Dropped([asked, answered], 1) == Dropped([answered], 0);
    assert Others([answered]) == [answered] + Others([]);
    assert Others([asked, answered]) == [asked] + Others([answered]);
  }
}
