/** Requests and replies over the framed pipe (cognix/mcp/client.py). */
module McpClient {
  import opened Wrappers
  import opened Framing

  /** What request looks at in a decoded reply: the integer its id equals, if any, whether its error is
      set, and whether its result is an object. */
  datatype Reply = Reply(id: Option<int>, error: bool, isObject: bool)

  /** JSON decoding is a parameter; None stands for a body that is not a JSON object. */
  type Parser = Bytes -> Option<Reply>

  datatype Outcome =
    | Result(body: Bytes)
    | ServerError(body: Bytes)
    | InvalidResult(body: Bytes)
    | BadJson
    | ReadFailed(error: ReadError)
    | TimedOut

  /** When the timeout strikes: never, or in the read after `whole` complete ones, with `lines` header
      lines of it taken. */
  datatype Patience = Forever | Cut(whole: nat, lines: nat)

  function OneReadLater(p: Patience): Patience
    requires p.Cut? ==> p.whole > 0
  {
    if p.Forever? then p else Cut(p.whole - 1, p.lines)
  }

  function OutcomeOf(body: Bytes, reply: Reply): Outcome {
    if reply.error then ServerError(body) else if !reply.isObject then InvalidResult(body) else Result(body)
  }

  /** How a request ends, and what is left of the server's output. */
  function Answered(s: Bytes, id: int, p: Patience, parse: Parser): (Outcome, Bytes)
    decreases |s|
  {
    if p.Cut? && p.whole == 0 then (TimedOut, AfterLines(s, p.lines))
    else
      var (message, rest) := Read(s);
      if message.Failure? then (ReadFailed(message.error), rest)
      else
        var reply := parse(message.value);
        if reply.None? then (BadJson, rest)
        else if reply.value.id != Some(id) then Answered(rest, id, OneReadLater(p), parse)
        else (OutcomeOf(message.value, reply.value), rest)
  }

  class Client {
    var requestId: nat
    /** Bytes sent to the server. */
    var input: Bytes
    /** Bytes the server has still to be read for. */
    var output: Bytes

    constructor (output: Bytes)
      ensures requestId == 0 && input == [] && this.output == output
    {
      requestId, input := 0, [];
      this.output := output;
    }

    method WriteMessage(body: Bytes)
      modifies this
      ensures input == old(input) + Frame(body) && output == old(output) && requestId == old(requestId)
    {
      input := input + ("Content-Length: " + Text.Decimal(|body|) + "\r\n" + "\r\n" + body);
    }

    method ReadMessage() returns (message: Result<Bytes, ReadError>)
      modifies this
      ensures (message, output) == Read(old(output)) && input == old(input) && requestId == old(requestId)
    {
      var headers: Headers := map[];
      while true
        invariant ReadFrom(output, headers) == Read(old(output)) && input == old(input) && requestId == old(requestId)
        decreases |output|
      {
        var n := LineLength(output);
        var line := output[..n];
        if line == [] {
          output := [];
          return Failure(ClosedStdout);
        }
        output := output[n..];
        if IsBlank(line) {
          break;
        }
        if !IsAscii(line) {
          return Failure(NotAscii);
        }
        headers := WithHeader(headers, line);
      }
      ghost var start := output;
      var length := ParseInt(if "content-length" in headers then headers["content-length"] else "0");
      if length.None? {
        message := Failure(BadLength);
      } else if length.value <= 0 {
        message := Failure(MissingLength);
      } else if |output| < length.value {
        message, output := Failure(IncompleteBody), [];
      } else {
        message, output := Success(output[..length.value]), output[length.value..];
      }
      assert (message, output) == ReadBody(start, headers);
    }

    method Request(payload: nat -> Bytes, patience: Patience, parse: Parser) returns (outcome: Outcome)
      modifies this
      ensures requestId == old(requestId) + 1
      ensures input == old(input) + Frame(payload(requestId))
      ensures (outcome, output) == Answered(old(output), requestId, patience, parse)
    {
      requestId := requestId + 1;
      WriteMessage(payload(requestId));
      var left := patience;
      while true
        invariant requestId == old(requestId) + 1 && input == old(input) + Frame(payload(requestId))
        invariant Answered(output, requestId, left, parse) == Answered(old(output), requestId, patience, parse)
        decreases |output|
      {
        if left.Cut? && left.whole == 0 {
          output := AfterLines(output, left.lines);
          return TimedOut;
        }
        var message := ReadMessage();
        if message.Failure? {
          return ReadFailed(message.error);
        }
        left := OneReadLater(left);
        var reply := parse(message.value);
        if reply.None? {
          return BadJson;
        }
        if reply.value.id == Some(requestId) {
          return OutcomeOf(message.value, reply.value);
        }
      }
    }
  }

  // ---- whose reply is returned ----

  predicate HasBody(o: Outcome) {
    o.Result? || o.ServerError? || o.InvalidResult?
  }

  function BodyOf(o: Outcome): Bytes
    requires HasBody(o)
  {
    o.body
  }

  /** An error in the reply comes before its result, which must be an object. */
  predicate IsOutcome(o: Outcome, body: Bytes, reply: Reply) {
    && (o.ServerError? <==> reply.error) && (o.Result? <==> !reply.error && reply.isObject)
    && (o.InvalidResult? <==> !reply.error && !reply.isObject) && HasBody(o) && o.body == body
  }

  /** Whatever the server writes and wherever timeouts strike, a reply that is returned has the id of
      the request it is returned for, and is a result exactly if it carries no error and an object. */
  lemma {:induction false} OwnReply(s: Bytes, id: int, p: Patience, parse: Parser)
    ensures var o := Answered(s, id, p, parse).0;
      HasBody(o) ==> parse(BodyOf(o)).Some? && parse(BodyOf(o)).value.id == Some(id) && IsOutcome(o, BodyOf(o), parse(BodyOf(o)).value)
    decreases |s|
  {
    if !(p.Cut? && p.whole == 0) {
      var (message, rest) := Read(s);
      if message.Success? && parse(message.value).Some? && parse(message.value).value.id != Some(id) {
        OwnReply(rest, id, OneReadLater(p), parse);
      }
    }
  }

  /** The outcomes of requests made one after the other, with ids first + 1, first + 2, ... */
  function Session(s: Bytes, first: nat, ps: seq<Patience>, parse: Parser): (r: seq<Outcome>)
    ensures |r| == |ps|
    decreases |ps|
  {
    if ps == [] then []
    else
      var (outcome, rest) := Answered(s, first + 1, ps[0], parse);
      [outcome] + Session(rest, first + 1, ps[1..], parse)
  }

  lemma SessionTail(s: Bytes, first: nat, ps: seq<Patience>, parse: Parser, i: nat)
    requires i < |ps|
    ensures var (outcome, rest) := Answered(s, first + 1, ps[0], parse);
      Session(s, first, ps, parse)[i] == if i == 0 then outcome else Session(rest, first + 1, ps[1..], parse)[i - 1]
  {
  }

  /** Over a whole session no reply is returned for any request but its own, so a late reply to an
      earlier request never answers a later one. */
  lemma {:induction false} LateRepliesAreNotReturned(s: Bytes, first: nat, ps: seq<Patience>, parse: Parser, i: nat)
    requires i < |ps| && HasBody(Session(s, first, ps, parse)[i])
    ensures var body := BodyOf(Session(s, first, ps, parse)[i]);
      parse(body).Some? && parse(body).value.id == Some(first + i + 1)
    decreases |ps|
  {
    var (_, rest) := Answered(s, first + 1, ps[0], parse);
    SessionTail(s, first, ps, parse, i);
    if i == 0 {
      OwnReply(s, first + 1, ps[0], parse);
    } else {
      LateRepliesAreNotReturned(rest, first + 1, ps[1..], parse, i - 1);
    }
  }

  // ---- a server that answers every request ----

  /** The server's output, seen from before each of its messages; the messages may carry any headers. */
  ghost predicate Output(tails: seq<Bytes>, replies: seq<Bytes>) {
    |tails| == |replies| + 1 && forall k :: 0 <= k < |replies| ==> ReadsNext(tails, replies, k)
  }

  predicate ReadsNext(tails: seq<Bytes>, replies: seq<Bytes>, k: nat)
    requires k < |replies| < |tails|
  {
    Read(tails[k]) == (Success(replies[k]), tails[k + 1])
  }

  /** Message i is the reply to request i + 1. */
  ghost predicate Answers(replies: seq<Bytes>, parse: Parser) {
    forall i :: 0 <= i < |replies| ==> AnswersAt(replies, parse, i)
  }

  predicate AnswersAt(replies: seq<Bytes>, parse: Parser, i: nat)
    requires i < |replies|
  {
    parse(replies[i]).Some? && parse(replies[i]).value.id == Some(i + 1)
  }

  /** The timeout never strikes inside a message. */
  predicate BetweenMessages(p: Patience) {
    p.Cut? ==> p.lines == 0
  }

  ghost predicate AllBetween(ps: seq<Patience>) {
    forall p :: p in ps ==> BetweenMessages(p)
  }

  predicate IsReplyTo(o: Outcome, replies: seq<Bytes>, parse: Parser, i: nat)
    requires i < |replies|
  {
    parse(replies[i]).Some? && IsOutcome(o, replies[i], parse(replies[i]).value)
  }

  lemma MessageAnswers(s: Bytes, body: Bytes, rest: Bytes, id: int, p: Patience, parse: Parser)
    requires !(p.Cut? && p.whole == 0) && Read(s) == (Success(body), rest) && parse(body).Some?
    ensures Answered(s, id, p, parse) ==
      if parse(body).value.id != Some(id) then Answered(rest, id, OneReadLater(p), parse)
      else (OutcomeOf(body, parse(body).value), rest)
  {
  }

  lemma EarlierIsSkipped(tails: seq<Bytes>, replies: seq<Bytes>, j: nat, id: int, p: Patience, parse: Parser)
    requires Output(tails, replies) && Answers(replies, parse) && j < |replies| && id != j + 1 && !(p.Cut? && p.whole == 0)
    ensures Answered(tails[j], id, p, parse) == Answered(tails[j + 1], id, OneReadLater(p), parse)
  {
    assert AnswersAt(replies, parse, j) && ReadsNext(tails, replies, j);
    MessageAnswers(tails[j], replies[j], tails[j + 1], id, p, parse);
  }

  lemma OwnIsReturned(tails: seq<Bytes>, replies: seq<Bytes>, i: nat, p: Patience, parse: Parser)
    requires Output(tails, replies) && Answers(replies, parse) && i < |replies| && !(p.Cut? && p.whole == 0)
    ensures Answered(tails[i], i + 1, p, parse).1 == tails[i + 1]
    ensures IsReplyTo(Answered(tails[i], i + 1, p, parse).0, replies, parse, i)
  {
    assert AnswersAt(replies, parse, i) && ReadsNext(tails, replies, i);
    MessageAnswers(tails[i], replies[i], tails[i + 1], i + 1, p, parse);
  }

  /** A request that finds the replies from j on in the stream skips to its own or times out. */
  lemma {:induction false} SkipsToOwn(tails: seq<Bytes>, replies: seq<Bytes>, j: nat, i: nat, p: Patience, parse: Parser) returns (next: nat)
    requires Output(tails, replies) && Answers(replies, parse) && j <= i < |replies| && BetweenMessages(p)
    ensures j <= next <= i + 1 && Answered(tails[j], i + 1, p, parse).1 == tails[next]
    ensures var o := Answered(tails[j], i + 1, p, parse).0;
      if p.Cut? && p.whole <= i - j then o == TimedOut else IsReplyTo(o, replies, parse, i)
    decreases i - j
  {
    if p.Cut? && p.whole == 0 {
      next := j;
    } else if j == i {
      OwnIsReturned(tails, replies, i, p, parse);
      next := i + 1;
    } else {
      EarlierIsSkipped(tails, replies, j, i + 1, p, parse);
      next := SkipsToOwn(tails, replies, j + 1, i, OneReadLater(p), parse);
    }
  }

  /** Its own reply, or a timeout. */
  predicate InStep(o: Outcome, p: Patience, replies: seq<Bytes>, parse: Parser, i: nat) {
    (i < |replies| && IsReplyTo(o, replies, parse, i)) || (p.Cut? && o == TimedOut)
  }

  lemma FirstInStep(tails: seq<Bytes>, replies: seq<Bytes>, j: nat, i: nat, p: Patience, parse: Parser) returns (next: nat)
    requires Output(tails, replies) && Answers(replies, parse) && j <= i < |replies| && BetweenMessages(p)
    ensures next <= i + 1 && Answered(tails[j], i + 1, p, parse).1 == tails[next]
    ensures InStep(Answered(tails[j], i + 1, p, parse).0, p, replies, parse, i)
  {
    next := SkipsToOwn(tails, replies, j, i, p, parse);
  }

  /** With such a server and timeouts only between messages, every request of the session either times
      out or gets exactly its own reply, however many earlier ones timed out. */
  lemma {:induction false} SessionStaysInStep(
    tails: seq<Bytes>, replies: seq<Bytes>, j: nat, first: nat, ps: seq<Patience>, parse: Parser, i: nat)
    requires Output(tails, replies) && Answers(replies, parse)
    requires j <= first && first + |ps| <= |replies| && i < |ps|
    requires AllBetween(ps)
    ensures InStep(Session(tails[j], first, ps, parse)[i], ps[i], replies, parse, first + i)
    decreases |ps|
  {
    var next := FirstInStep(tails, replies, j, first, ps[0], parse);
    SessionTail(tails[j], first, ps, parse, i);
    if i > 0 {
      assert forall p :: p in ps[1..] ==> p in ps;
      SessionStaysInStep(tails, replies, next, first + 1, ps[1..], parse, i - 1);
    }
  }

  /** Frames as the client itself writes them are such an output. */
  lemma FramesAreOutput(replies: seq<Bytes>)
    requires forall k :: 0 <= k < |replies| ==> replies[k] != []
    ensures Output(seq(|replies| + 1, k requires 0 <= k <= |replies| => Frames(replies[k..])), replies)
  {
    var tails := seq(|replies| + 1, k requires 0 <= k <= |replies| => Frames(replies[k..]));
    forall k | 0 <= k < |replies| ensures ReadsNext(tails, replies, k) {
      assert replies[k..][1..] == replies[k + 1..];
      ReadUndoesWrite(replies[k], Frames(replies[k + 1..]));
    }
  }
}
