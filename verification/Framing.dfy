/** Content-Length framing on the pipe to an MCP server (cognix/mcp/client.py). */
module Framing {
  import opened Wrappers
  import Text

  /** A byte is written as the character with its code. */
  type Byte = c: char | c < '\U{100}'

  type Bytes = seq<Byte>

  datatype ReadError = ClosedStdout | NotAscii | BadLength | MissingLength | IncompleteBody

  type Headers = map<string, string>

  // ---- decimal numbers ----

  /** int() on a stripped string. */
  function ParseInt(s: string): Option<int> {
    if s != [] && (s[0] == '+' || s[0] == '-') then
      var n := Text.ParseDigits(s[1..]);
      if n.None? then None
      else
        var value: int := n.value;
        Some(if s[0] == '-' then -value else value)
    else Text.ParseDigits(s)
  }

  // ---- writing and reading one frame ----

  function Frame(body: Bytes): Bytes {
    "Content-Length: " + Text.Decimal(|body|) + "\r\n" + "\r\n" + body
  }

  /** Bytes up to and including the first line feed, or all of them. */
  function LineLength(s: Bytes): (n: nat)
    ensures n <= |s| && (s != [] ==> n > 0)
  {
    if s == [] then 0 else if s[0] == '\n' then 1 else 1 + LineLength(s[1..])
  }

  predicate IsBlank(line: Bytes) {
    line == "\r\n" || line == "\n"
  }

  predicate IsAscii(line: Bytes) {
    forall i :: 0 <= i < |line| ==> line[i] < '\U{80}'
  }

  function LowerChar(c: char): char {
    if 'A' <= c <= 'Z' then (c as int + 32) as char else c
  }

  function Lower(s: string): string {
    seq(|s|, i requires 0 <= i < |s| => LowerChar(s[i]))
  }

  /** What stands before the first colon, and after it. */
  function Partition(s: string): (string, string) {
    if s == [] then ([], [])
    else if s[0] == ':' then ([], s[1..])
    else
      var (key, value) := Partition(s[1..]);
      ([s[0]] + key, value)
  }

  function WithHeader(headers: Headers, line: string): Headers {
    var (key, value) := Partition(line);
    headers[Lower(key) := Text.Strip(value)]
  }

  /** The body, and what stays in the stream. */
  function ReadBody(s: Bytes, headers: Headers): (r: (Result<Bytes, ReadError>, Bytes))
    ensures |r.1| <= |s|
  {
    var length := ParseInt(if "content-length" in headers then headers["content-length"] else "0");
    if length.None? then (Failure(BadLength), s)
    else if length.value <= 0 then (Failure(MissingLength), s)
    else if |s| < length.value then (Failure(IncompleteBody), [])
    else (Success(s[..length.value]), s[length.value..])
  }

  function ReadFrom(s: Bytes, headers: Headers): (r: (Result<Bytes, ReadError>, Bytes))
    ensures r.0.Success? ==> |r.1| < |s|
    decreases |s|
  {
    var n := LineLength(s);
    var line, rest := s[..n], s[n..];
    if line == [] then (Failure(ClosedStdout), [])
    else if IsBlank(line) then ReadBody(rest, headers)
    else if !IsAscii(line) then (Failure(NotAscii), rest)
    else ReadFrom(rest, WithHeader(headers, line))
  }

  /** One message read off a stream that then ends. */
  function Read(s: Bytes): (r: (Result<Bytes, ReadError>, Bytes))
    ensures r.0.Success? ==> |r.1| < |s|
  {
    ReadFrom(s, map[])
  }

  // ---- reading undoes writing ----

  lemma {:induction false} LineEnds(line: Bytes, rest: Bytes)
    requires forall i :: 0 <= i < |line| ==> line[i] != '\n'
    ensures LineLength(line + "\n" + rest) == |line| + 1
  {
    var s := line + "\n" + rest;
    if line != [] {
      assert s[1..] == line[1..] + "\n" + rest;
      LineEnds(line[1..], rest);
    }
  }

  lemma {:induction false} PartitionAt(key: string, value: string)
    requires ':' !in key
    ensures Partition(key + ":" + value) == (key, value)
  {
    var s := key + ":" + value;
    if key == [] {
      assert s[1..] == value;
    } else {
      assert s[1..] == key[1..] + ":" + value && key == [key[0]] + key[1..];
      PartitionAt(key[1..], value);
    }
  }

  function LengthLine(n: nat): Bytes {
    "Content-Length: " + Text.Decimal(n) + "\r" + "\n"
  }

  lemma LengthHeader(n: nat)
    ensures WithHeader(map[], LengthLine(n)) == map["content-length" := Text.Decimal(n)]
  {
    LengthLineParts(n);
    Text.StripOf(" ", Text.Decimal(n), "\r\n");
    LowerLength();
  }

  lemma LengthLineParts(n: nat)
    ensures Partition(LengthLine(n)) == ("Content-Length", " " + Text.Decimal(n) + "\r\n")
  {
    var key: string := "Content-Length";
    assert "Content-Length: " == key + ":" + " ";
    assert LengthLine(n) == key + ":" + (" " + Text.Decimal(n) + "\r\n");
    PartitionAt(key, " " + Text.Decimal(n) + "\r\n");
  }

  lemma LowerLength()
    ensures Lower("Content-Length") == "content-length"
  {
  }

  lemma LengthLineReads(n: nat, rest: Bytes)
    ensures LineLength(LengthLine(n) + rest) == |LengthLine(n)|
    ensures IsAscii(LengthLine(n)) && !IsBlank(LengthLine(n))
  {
    var line := "Content-Length: " + Text.Decimal(n) + "\r";
    assert LengthLine(n) + rest == line + "\n" + rest;
    LineEnds(line, rest);
  }

  lemma BlankLineReads(line: Bytes, rest: Bytes, headers: Headers)
    requires IsBlank(line)
    ensures ReadFrom(line + rest, headers) == ReadBody(rest, headers)
  {
    var text := line[..|line| - 1];
    assert line + rest == text + "\n" + rest;
    LineEnds(text, rest);
    TakeBody(line, rest);
  }

  lemma HeaderLineReads(line: Bytes, rest: Bytes, headers: Headers)
    requires LineLength(line + rest) == |line| && line != [] && !IsBlank(line) && IsAscii(line)
    ensures ReadFrom(line + rest, headers) == ReadFrom(rest, WithHeader(headers, line))
  {
    TakeBody(line, rest);
  }

  lemma FrameLines(body: Bytes, rest: Bytes)
    ensures Frame(body) + rest == LengthLine(|body|) + ("\r\n" + (body + rest))
  {
    var start, digits := "Content-Length: ", Text.Decimal(|body|);
    assert LengthLine(|body|) == start + digits + "\r\n" by {
      assert "\r\n" == "\r" + "\n";
    }
  }

  /** A frame reads back as its body, whatever the body looks like, and nothing after it is touched.
      An empty body is the one exception: it is refused. */
  lemma ReadUndoesWrite(body: Bytes, rest: Bytes)
    ensures Read(Frame(body) + rest) == (if body == [] then Failure(MissingLength) else Success(body), rest)
  {
    var n := |body|;
    var tail := "\r\n" + (body + rest);
    FrameLines(body, rest);
    LengthLineReads(n, tail);
    HeaderLineReads(LengthLine(n), tail, map[]);
    LengthHeader(n);
    BlankLineReads("\r\n", body + rest, map["content-length" := Text.Decimal(n)]);
    BodyReads(body, rest);
  }

  /** A whole header line that is not about the length. */
  predicate IsOtherHeader(line: Bytes) {
    && line != [] && line[|line| - 1] == '\n' && (forall i :: 0 <= i < |line| - 1 ==> line[i] != '\n')
    && !IsBlank(line) && IsAscii(line) && Lower(Partition(line).0) != "content-length"
  }

  function Lines(lines: seq<Bytes>): Bytes {
    if lines == [] then [] else lines[0] + Lines(lines[1..])
  }

  lemma OtherHeaderReads(line: Bytes, rest: Bytes, headers: Headers)
    requires IsOtherHeader(line)
    ensures ReadFrom(line + rest, headers) == ReadFrom(rest, WithHeader(headers, line))
  {
    var text := line[..|line| - 1];
    assert line + rest == text + "\n" + rest;
    LineEnds(text, rest);
    HeaderLineReads(line, rest, headers);
  }

  /** Length as far as the headers say so. */
  function LengthIn(headers: Headers): Option<string> {
    if "content-length" in headers then Some(headers["content-length"]) else None
  }

  lemma LengthKept(headers: Headers, line: Bytes)
    requires IsOtherHeader(line)
    ensures LengthIn(WithHeader(headers, line)) == LengthIn(headers)
  {
  }

  lemma {:induction false} OthersRead(lines: seq<Bytes>, rest: Bytes, headers: Headers) returns (after: Headers)
    requires forall i :: 0 <= i < |lines| ==> IsOtherHeader(lines[i])
    ensures ReadFrom(Lines(lines) + rest, headers) == ReadFrom(rest, after) && LengthIn(after) == LengthIn(headers)
  {
    after := headers;
    if lines == [] {
      assert Lines(lines) + rest == rest;
    } else {
      assert Lines(lines) + rest == lines[0] + (Lines(lines[1..]) + rest);
      OtherHeaderReads(lines[0], Lines(lines[1..]) + rest, headers);
      LengthKept(headers, lines[0]);
      after := OthersRead(lines[1..], rest, WithHeader(headers, lines[0]));
    }
  }

  lemma LengthHeaderIn(headers: Headers, n: nat)
    ensures LengthIn(WithHeader(headers, LengthLine(n))) == Some(Text.Decimal(n))
  {
    LengthLineParts(n);
    Text.StripOf(" ", Text.Decimal(n), "\r\n");
    LowerLength();
  }

  lemma BodyDependsOnLength(s: Bytes, a: Headers, b: Headers)
    requires LengthIn(a) == LengthIn(b)
    ensures ReadBody(s, a) == ReadBody(s, b)
  {
  }

  /** From the length line on, whatever headers were read before it. */
  lemma LengthThenOthers(headers: Headers, after: seq<Bytes>, body: Bytes, rest: Bytes)
    requires forall i :: 0 <= i < |after| ==> IsOtherHeader(after[i])
    ensures ReadFrom(LengthLine(|body|) + (Lines(after) + ("\r\n" + (body + rest))), headers)
         == (if body == [] then Failure(MissingLength) else Success(body), rest)
  {
    var n, tail := |body|, Lines(after) + ("\r\n" + (body + rest));
    LengthLineReads(n, tail);
    HeaderLineReads(LengthLine(n), tail, headers);
    LengthHeaderIn(headers, n);
    OthersThenBody(WithHeader(headers, LengthLine(n)), after, body, rest);
  }

  lemma OthersThenBody(headers: Headers, after: seq<Bytes>, body: Bytes, rest: Bytes)
    requires LengthIn(headers) == Some(Text.Decimal(|body|)) && forall i :: 0 <= i < |after| ==> IsOtherHeader(after[i])
    ensures ReadFrom(Lines(after) + ("\r\n" + (body + rest)), headers)
         == (if body == [] then Failure(MissingLength) else Success(body), rest)
  {
    var all := OthersRead(after, "\r\n" + (body + rest), headers);
    BlankLineReads("\r\n", body + rest, all);
    BodyDependsOnLength(body + rest, all, map["content-length" := Text.Decimal(|body|)]);
    BodyReads(body, rest);
  }

  /** Other headers, before or after the length line, make no difference. */
  lemma OtherHeadersDoNotMatter(before: seq<Bytes>, after: seq<Bytes>, body: Bytes, rest: Bytes)
    requires forall i :: 0 <= i < |before| ==> IsOtherHeader(before[i])
    requires forall i :: 0 <= i < |after| ==> IsOtherHeader(after[i])
    ensures Read(Lines(before) + (LengthLine(|body|) + (Lines(after) + ("\r\n" + (body + rest))))) == Read(Frame(body) + rest)
  {
    var headers := OthersRead(before, LengthLine(|body|) + (Lines(after) + ("\r\n" + (body + rest))), map[]);
    LengthThenOthers(headers, after, body, rest);
    ReadUndoesWrite(body, rest);
  }

  /** A frame cut off inside its body is an error that uses up the stream. */
  lemma CutBodyIsRefused(body: Bytes, k: nat)
    requires k < |body|
    ensures Read(LengthLine(|body|) + ("\r\n" + body[..k])) == (Failure(IncompleteBody), [])
  {
    var n, tail := |body|, "\r\n" + body[..k];
    LengthLineReads(n, tail);
    HeaderLineReads(LengthLine(n), tail, map[]);
    LengthHeader(n);
    BlankLineReads("\r\n", body[..k], map["content-length" := Text.Decimal(n)]);
    ParseLength(n);
  }

  /** A read fails at the end of the stream, at a header line that is not ASCII, and at a blank line without
      a length before it. */
  lemma ReadsThatFail(line: Bytes, rest: Bytes, headers: Headers)
    requires LineLength(line + rest) == |line| && line != [] && !IsBlank(line) && !IsAscii(line)
    ensures ReadFrom([], headers) == (Failure(ClosedStdout), [])
    ensures ReadFrom(line + rest, headers) == (Failure(NotAscii), rest)
    ensures LengthIn(headers).None? ==> ReadFrom("\r\n" + rest, headers) == (Failure(MissingLength), rest)
  {
    TakeBody(line, rest);
    BlankLineReads("\r\n", rest, headers);
  }

  /** A length may carry a sign; a negative one counts as missing. */
  lemma SignedLength(n: nat)
    ensures ParseInt("+" + Text.Decimal(n)) == Some(n as int) && ParseInt("-" + Text.Decimal(n)) == Some(-(n as int))
  {
    Text.ParseDecimal(n);
    assert ("+" + Text.Decimal(n))[1..] == Text.Decimal(n) && ("-" + Text.Decimal(n))[1..] == Text.Decimal(n);
  }

  lemma BodyReads(body: Bytes, rest: Bytes)
    ensures ReadBody(body + rest, map["content-length" := Text.Decimal(|body|)])
         == (if body == [] then Failure(MissingLength) else Success(body), rest)
  {
    ParseLength(|body|);
    TakeBody(body, rest);
  }

  lemma ParseLength(n: nat)
    ensures ParseInt(Text.Decimal(n)) == Some(n)
  {
    Text.ParseDecimal(n);
    assert Text.IsDigit(Text.Decimal(n)[0]);
  }

  lemma TakeBody(body: Bytes, rest: Bytes)
    ensures (body + rest)[..|body|] == body && (body + rest)[|body|..] == rest
    ensures body == [] ==> body + rest == rest
  {
  }

  function Frames(bodies: seq<Bytes>): Bytes {
    if bodies == [] then [] else Frame(bodies[0]) + Frames(bodies[1..])
  }

  /** The first n messages and what is left, or None if a read fails. */
  function ReadMany(s: Bytes, n: nat): Option<(seq<Bytes>, Bytes)>
    decreases n
  {
    if n == 0 then Some(([], s))
    else
      var (first, rest) := Read(s);
      if first.Failure? then None
      else
        var more := ReadMany(rest, n - 1);
        if more.None? then None else Some(([first.value] + more.value.0, more.value.1))
  }

  /** Any run of frames with non-empty bodies reads back as the same bodies in the same order. */
  lemma {:induction false} FramesRoundTrip(bodies: seq<Bytes>, rest: Bytes)
    requires forall i :: 0 <= i < |bodies| ==> bodies[i] != []
    ensures ReadMany(Frames(bodies) + rest, |bodies|) == Some((bodies, rest))
  {
    if bodies == [] {
      assert Frames(bodies) + rest == rest;
    } else {
      assert Frames(bodies) + rest == Frame(bodies[0]) + (Frames(bodies[1..]) + rest);
      ReadUndoesWrite(bodies[0], Frames(bodies[1..]) + rest);
      FramesRoundTrip(bodies[1..], rest);
      assert [bodies[0]] + bodies[1..] == bodies;
    }
  }

  /** No two lists of messages share their bytes. */
  lemma FramesAreUnique(a: seq<Bytes>, b: seq<Bytes>)
    requires forall i :: 0 <= i < |a| ==> a[i] != []
    requires forall i :: 0 <= i < |b| ==> b[i] != []
    requires Frames(a) == Frames(b)
    ensures a == b
  {
    if |a| <= |b| {
      FramesPrefix(a, b);
    } else {
      FramesPrefix(b, a);
    }
  }

  lemma {:induction false} FramesPrefix(a: seq<Bytes>, b: seq<Bytes>)
    requires forall i :: 0 <= i < |a| ==> a[i] != []
    requires forall i :: 0 <= i < |b| ==> b[i] != []
    requires |a| <= |b| && Frames(a) == Frames(b)
    ensures a == b
  {
    if a == [] {
      assert b != [] ==> |Frames(b)| > 0;
    } else {
      ReadUndoesWrite(a[0], Frames(a[1..]));
      ReadUndoesWrite(b[0], Frames(b[1..]));
      FramesPrefix(a[1..], b[1..]);
      assert a == [a[0]] + a[1..] && b == [b[0]] + b[1..];
    }
  }

  // ---- any stream, not only written frames ----

  lemma {:induction false} LineStable(s: Bytes, more: Bytes)
    requires LineLength(s) < |s| || (s != [] && s[|s| - 1] == '\n')
    ensures LineLength(s + more) == LineLength(s)
  {
    if s != [] && s[0] != '\n' {
      assert (s + more)[1..] == s[1..] + more;
      LineStable(s[1..], more);
    }
  }

  lemma ReadBodyStable(s: Bytes, headers: Headers, more: Bytes)
    requires ReadBody(s, headers).0.Success?
    ensures var (body, rest) := ReadBody(s, headers);
      body.value != [] && s == body.value + rest && ReadBody(s + more, headers) == (body, rest + more)
  {
    var n := |ReadBody(s, headers).0.value|;
    assert (s + more)[..n] == s[..n] && (s + more)[n..] == s[n..] + more;
  }

  lemma LineHasEnd(s: Bytes, headers: Headers)
    requires ReadFrom(s, headers).0.Success?
    ensures s != [] && (LineLength(s) < |s| || s[|s| - 1] == '\n')
  {
    var n := LineLength(s);
    if n == |s| {
      assert s[..n] == s;
      assert s[n..] == [];
    }
  }

  lemma LineReads(line: Bytes, rest: Bytes, headers: Headers)
    requires LineLength(line + rest) == |line| && line != [] && (IsBlank(line) || IsAscii(line))
    ensures ReadFrom(line + rest, headers) == if IsBlank(line) then ReadBody(rest, headers) else ReadFrom(rest, WithHeader(headers, line))
  {
    TakeBody(line, rest);
  }

  /** Splits the first line off a stream that can be read. */
  lemma FirstLine(s: Bytes, headers: Headers) returns (line: Bytes, rest: Bytes)
    requires ReadFrom(s, headers).0.Success?
    ensures s == line + rest && LineLength(s) == |line| && line != [] && (IsBlank(line) || IsAscii(line))
    ensures ReadFrom(s, headers) == if IsBlank(line) then ReadBody(rest, headers) else ReadFrom(rest, WithHeader(headers, line))
  {
    var n := LineLength(s);
    line, rest := s[..n], s[n..];
  }

  lemma FirstLineStays(s: Bytes, headers: Headers, more: Bytes) returns (line: Bytes, rest: Bytes)
    requires ReadFrom(s, headers).0.Success?
    ensures |rest| < |s|
    ensures ReadFrom(s, headers) == if IsBlank(line) then ReadBody(rest, headers) else ReadFrom(rest, WithHeader(headers, line))
    ensures ReadFrom(s + more, headers)
         == if IsBlank(line) then ReadBody(rest + more, headers) else ReadFrom(rest + more, WithHeader(headers, line))
  {
    line, rest := FirstLine(s, headers);
    LineHasEnd(s, headers);
    LineStable(s, more);
    Assoc(line, rest, more);
    LineReads(line, rest + more, headers);
  }

  /** Bytes that arrive later cannot change a message that can already be read. */
  lemma {:induction false} ReadIsStable(s: Bytes, headers: Headers, more: Bytes)
    requires ReadFrom(s, headers).0.Success?
    ensures ReadFrom(s + more, headers) == (ReadFrom(s, headers).0, ReadFrom(s, headers).1 + more)
    decreases |s|
  {
    var line, rest := FirstLineStays(s, headers, more);
    if IsBlank(line) {
      ReadBodyStable(rest, headers, more);
    } else {
      ReadIsStable(rest, WithHeader(headers, line), more);
    }
  }

  /** A message that can be read is the end of the bytes consumed. */
  lemma {:induction false} ReadConsumes(s: Bytes, headers: Headers) returns (head: Bytes)
    requires ReadFrom(s, headers).0.Success?
    ensures head != [] && ReadFrom(s, headers).0.value != []
    ensures s == head + (ReadFrom(s, headers).0.value + ReadFrom(s, headers).1)
    decreases |s|
  {
    var line, rest := FirstLine(s, headers);
    if IsBlank(line) {
      ReadBodyStable(rest, headers, []);
      head := line;
    } else {
      var h := ReadConsumes(rest, WithHeader(headers, line));
      head := line + h;
      Assoc(line, h, ReadFrom(s, headers).0.value + ReadFrom(s, headers).1);
    }
  }

  lemma Assoc(a: Bytes, b: Bytes, c: Bytes)
    ensures a + b + c == a + (b + c)
  {
  }

  // ---- a read cut off by the timeout ----

  /** What is left when a read is cancelled after it has taken k lines of the header; the body is only
      taken whole. */
  function AfterLines(s: Bytes, k: nat): Bytes
    decreases k
  {
    if k == 0 then s
    else
      var n := LineLength(s);
      if IsBlank(s[..n]) then s[n..] else AfterLines(s[n..], k - 1)
  }

  /** Wherever the timeout cuts a read off: the next read returns the message if and only if no line was
      taken. After the length line it fails and leaves the bare body in the stream; after the blank line
      it takes the body itself for headers. */
  lemma CancelledReads(body: Bytes, rest: Bytes, k: nat)
    requires body != []
    ensures Read(AfterLines(Frame(body) + rest, k)) == (Success(body), rest) <==> k == 0
    ensures k == 1 ==> Read(AfterLines(Frame(body) + rest, k)) == (Failure(MissingLength), body + rest)
    ensures k >= 2 ==> Read(AfterLines(Frame(body) + rest, k)) == Read(body + rest)
  {
    LinesOfFrame(body, rest, k);
    if k == 0 {
      ReadUndoesWrite(body, rest);
    } else if k == 1 {
      BlankLineReads("\r\n", body + rest, map[]);
    } else {
      BodyIsNotItself(body, rest);
    }
  }

  /** No stream reads as the message that all its first bytes spell: a header comes before. */
  lemma BodyIsNotItself(body: Bytes, rest: Bytes)
    ensures Read(body + rest) != (Success(body), rest)
  {
    if Read(body + rest).0.Success? {
      var head := ReadConsumes(body + rest, map[]);
      assert |body + rest| > |Read(body + rest).0.value| + |Read(body + rest).1|;
    }
  }

  lemma LinesOfFrame(body: Bytes, rest: Bytes, k: nat)
    ensures k == 1 ==> AfterLines(Frame(body) + rest, k) == "\r\n" + (body + rest)
    ensures k >= 2 ==> AfterLines(Frame(body) + rest, k) == body + rest
  {
    var line, tail := LengthLine(|body|), "\r\n" + (body + rest);
    FrameLines(body, rest);
    LengthLineReads(|body|, tail);
    if k >= 1 {
      AfterLine(line, tail, k - 1);
    }
    if k >= 2 {
      BlankAfterLine(body + rest, k - 2);
    }
  }

  lemma BlankAfterLine(rest: Bytes, k: nat)
    ensures AfterLines("\r\n" + rest, k + 1) == rest
  {
    assert "\r\n" + rest == "\r" + "\n" + rest;
    LineEnds("\r", rest);
    AfterLine("\r\n", rest, k);
  }

  /** So a body that is itself a frame is then read as the message inside it. */
  lemma CancelledReadTakesInner(inner: Bytes, rest: Bytes)
    requires inner != []
    ensures Read(AfterLines(Frame(Frame(inner)) + rest, 2)) == (Success(inner), rest)
  {
    CancelledReads(Frame(inner), rest, 2);
    ReadUndoesWrite(inner, rest);
  }

  lemma AfterLine(line: Bytes, rest: Bytes, k: nat)
    requires LineLength(line + rest) == |line|
    ensures AfterLines(line + rest, k + 1) == if IsBlank(line) then rest else AfterLines(rest, k)
  {
    TakeBody(line, rest);
  }
}
