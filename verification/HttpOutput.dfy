/** The buffer behind a servlet's output stream: a put area with one spare slot, the commit of the
    response on the first send, and chunked framing when no length was declared. */
module HttpOutput {
  import opened Numerals

  type Headers = map<string, string>

  const LENGTH := "Content-Length"
  const ENCODING := "Transfer-Encoding"
  const CRLF := "\r\n"

  datatype Head = NotSent | Sent(headers: Headers)

  /** The buffer together with the response and the connection that it writes to. */
  datatype Stream = Stream(capacity: nat, pending: string, chunked: bool,
                           headers: Headers, committed: bool,
                           connected: bool, head: Head, body: string)

  /** What a servlet does with its stream and its response; CommitNow is a commit of the response that
      does not go through the buffer, as a redirect does. */
  datatype Op = Put(c: char) | Flush | SetHeader(name: string, value: string) | CommitNow

  // ---- one step ------------------------------------------------------------------------------

  function CommitStream(s: Stream): Stream {
    if s.committed then s
    else
      var chunked := LENGTH !in s.headers;
      var headers := if chunked then s.headers[ENCODING := "chunked"] else s.headers;
      s.(chunked := chunked, headers := headers, committed := true, head := Sent(headers))
  }

  function Frame(chunked: bool, data: string): string {
    if chunked then Numeral(16, |data|) + CRLF + data + CRLF else data
  }

  function Send(s: Stream): Stream {
    if !s.connected then s
    else
      var t := CommitStream(s);
      t.(pending := "", body := s.body + Frame(t.chunked, s.pending))
  }

  function Step(s: Stream, op: Op): Stream {
    match op
    case Put(c) =>
      var t := s.(pending := s.pending + [c]);
      if |s.pending| < s.capacity then t else Send(t)
    case Flush => Send(s)
    case SetHeader(name, value) => s.(headers := s.headers[name := value])
    case CommitNow =>
      if s.committed || !s.connected then s else s.(committed := true, head := Sent(s.headers))
  }

  function Run(s: Stream, ops: seq<Op>): Stream
    decreases |ops|
  {
    if ops == [] then s else Run(Step(s, ops[0]), ops[1..])
  }

  const TERMINATOR := "0\r\n\r\n"

  function WithLength(s: Stream): Stream {
    if !s.committed && LENGTH in s.headers
    then s.(headers := s.headers[LENGTH := Numeral(10, |s.pending|)])
    else s
  }

  /** The end of the stream: what the destructor does. */
  function Close(s: Stream): Stream {
    if !s.connected then s
    else
      var t := Send(WithLength(s));
      if t.chunked then t.(body := t.body + TERMINATOR) else t
  }

  /** A response before anybody has done anything with it. */
  predicate Unused(s: Stream) {
    s.connected && s.pending == "" && s.chunked && !s.committed && s.head == NotSent && s.body == ""
  }

  // ---- the program ---------------------------------------------------------------------------

  class Connection {
    var head: Head
    var body: string

    constructor ()
      ensures head == NotSent && body == ""
    {
      head := NotSent;
      body := "";
    }

    method Write(data: string) returns (n: nat)
      modifies this`body
      ensures body == old(body) + data && n == |data|
    {
      body := body + data;
      n := |data|;
    }

    method WriteHead(headers: Headers)
      modifies this`head
      ensures head == Sent(headers)
    {
      head := Sent(headers);
    }
  }

  class HttpServletResponse {
    var headers: Headers
    var committed: bool
    const connection: Connection?

    constructor (connection: Connection?)
      ensures this.connection == connection && headers == map[] && !committed
    {
      this.connection := connection;
      headers := map[];
      committed := false;
    }

    method Commit() returns (ok: bool)
      requires connection != null
      modifies this`committed, connection`head
      ensures ok && committed
      ensures connection.head == if old(committed) then old(connection.head) else Sent(headers)
    {
      if !committed {
        connection.WriteHead(headers);
        committed := true;
      }
      return true;
    }
  }

  class HttpOutputStreamBuffer {
    const buffer: array<char>
    var next: nat
    var chunkedCoding: bool
    const response: HttpServletResponse

    ghost predicate Valid()
      reads this
    {
      1 <= buffer.Length <= INT_MAX && next <= buffer.Length
    }

    ghost function Footprint(): set<object>
    {
      {this, buffer, response} + if response.connection == null then {} else {response.connection}
    }

    ghost function Value(): Stream
      requires Valid()
      reads this, Footprint()
    {
      Stream(buffer.Length - 1, buffer[..next], chunkedCoding, response.headers, response.committed,
             response.connection != null,
             if response.connection == null then NotSent else response.connection.head,
             if response.connection == null then "" else response.connection.body)
    }

    constructor (response: HttpServletResponse, bufferSize: nat)
      requires bufferSize < INT_MAX
      ensures Valid() && fresh(this) && fresh(buffer) && this.response == response
      ensures Value().pending == "" && Value().chunked && Value().capacity == bufferSize
    {
      buffer := new char[bufferSize + 1];
      next := 0;
      chunkedCoding := true;
      this.response := response;
    }

    method Commit() returns (ok: bool)
      requires Valid() && response.connection != null
      modifies Footprint()
      ensures ok && Valid() && Value() == CommitStream(old(Value()))
      ensures next == old(next) && buffer[..] == old(buffer[..])
    {
      if !response.committed {
        chunkedCoding := LENGTH !in response.headers;
        if chunkedCoding {
          response.headers := response.headers[ENCODING := "chunked"];
        }
        ok := response.Commit();
        return;
      }
      return true;
    }

    method SendBuffer() returns (ok: bool)
      requires Valid()
      modifies Footprint()
      ensures Valid() && Value() == Send(old(Value()))
      ensures ok <==> response.connection != null && (chunkedCoding || old(next) > 0)
    {
      if response.connection == null {
        return false;
      }
      var committed := Commit();
      if !committed {
        return false;
      }
      var n := next;
      next := 0;
      var bytesSend := WriteFrame(n);
      return bytesSend > 0;
    }

    method WriteFrame(n: nat) returns (bytesSend: nat)
      requires Valid() && response.connection != null && n <= buffer.Length
      modifies response.connection`body
      ensures response.connection.body == old(response.connection.body) + Frame(chunkedCoding, buffer[..n])
      ensures bytesSend > 0 <==> chunkedCoding || n > 0
    {
      bytesSend := 0;
      if chunkedCoding {
        var chunkSize := LexicalCastHex(n);
        bytesSend := response.connection.Write(chunkSize + CRLF);
      }
      var k := response.connection.Write(buffer[..n]);
      bytesSend := bytesSend + k;
      if chunkedCoding {
        k := response.connection.Write(CRLF);
        bytesSend := bytesSend + k;
      }
    }

    /** Puts one character; a full put area overflows into the spare slot and is sent at once. */
    method Put(c: char) returns (ok: bool)
      requires Valid() && next < buffer.Length
      modifies Footprint()
      ensures Valid() && Value() == Step(old(Value()), Op.Put(c))
      ensures ok <==> old(next) < buffer.Length - 1 || response.connection != null
    {
      ghost var before := buffer[..next];
      buffer[next] := c;
      next := next + 1;
      assert buffer[..next] == before + [c];
      if next <= buffer.Length - 1 {
        return true;
      }
      ok := SendBuffer();
    }

    method Sync() returns (r: int)
      requires Valid()
      modifies Footprint()
      ensures Valid() && Value() == Step(old(Value()), Flush)
      ensures r == 0 || r == -1
      ensures r == 0 <==> response.connection != null && (chunkedCoding || old(next) > 0)
    {
      var ok := SendBuffer();
      r := if ok then 0 else -1;
    }

    method Destroy()
      requires Valid()
      modifies Footprint()
      ensures Valid() && Value() == Close(old(Value()))
    {
      if response.connection == null {
        return;
      }
      if !response.committed && LENGTH in response.headers {
        var length := LexicalCast(next);
        response.headers := response.headers[LENGTH := length];
      }
      var _ := Sync();
      if chunkedCoding {
        var _ := response.connection.Write(TERMINATOR);
      }
    }
  }

  // ---- what was written, what was sent -------------------------------------------------------

  function WrittenBy(op: Op): string {
    if op.Put? then [op.c] else ""
  }

  function Written(ops: seq<Op>): string {
    if ops == [] then "" else WrittenBy(ops[0]) + Written(ops[1..])
  }

  /** The buffers handed to the connection by one step, at most one. */
  function SentBy(s: Stream, op: Op): seq<string> {
    match op
    case Put(c) => if |s.pending| < s.capacity then [] else [s.pending + [c]]
    case Flush => [s.pending]
    case _ => []
  }

  function Buffers(s: Stream, ops: seq<Op>): seq<string>
    decreases |ops|
  {
    if ops == [] then [] else SentBy(s, ops[0]) + Buffers(Step(s, ops[0]), ops[1..])
  }

  function Concat(parts: seq<string>): string {
    if parts == [] then "" else parts[0] + Concat(parts[1..])
  }

  function Frames(chunked: bool, parts: seq<string>): string {
    if parts == [] then "" else Frame(chunked, parts[0]) + Frames(chunked, parts[1..])
  }

  lemma OneStep(s: Stream, op: Op)
    requires s.connected
    ensures var t := Step(s, op);
            && t.connected && t.capacity == s.capacity
            && (s.committed ==> t.committed && t.chunked == s.chunked && t.head == s.head)
            && (if SentBy(s, op) == []
                then t.pending == s.pending + WrittenBy(op) && t.body == s.body && t.chunked == s.chunked
                else && SentBy(s, op) == [s.pending + WrittenBy(op)] && t.pending == "" && t.committed
                     && t.body == s.body + Frame(t.chunked, s.pending + WrittenBy(op)))
  {
    assert s.pending + "" == s.pending;
  }

  lemma BuffersUnfold(s: Stream, ops: seq<Op>)
    requires ops != [] && s.connected
    ensures var rest := Buffers(Step(s, ops[0]), ops[1..]);
            Buffers(s, ops) ==
            if SentBy(s, ops[0]) == [] then rest else [s.pending + WrittenBy(ops[0])] + rest
  {
    OneStep(s, ops[0]);
  }

  /** The write index stays within the put area exactly while there is a connection, or as long as
      everything fits. */
  lemma {:induction false} IndexExactly(s: Stream, ops: seq<Op>)
    requires |s.pending| <= s.capacity || !s.connected
    ensures var t := Run(s, ops);
            |t.pending| <= s.capacity <==> s.connected || |s.pending| + |Written(ops)| <= s.capacity
    decreases |ops|
  {
    if ops != [] {
      IndexExactly(Step(s, ops[0]), ops[1..]);
    }
  }

  /** Nothing is lost or reordered between the writer and the connection. */
  lemma {:induction false} Conservation(s: Stream, ops: seq<Op>)
    requires s.connected
    ensures Concat(Buffers(s, ops)) + Run(s, ops).pending == s.pending + Written(ops)
    decreases |ops|
  {
    if ops != [] {
      var t, rest := Step(s, ops[0]), Buffers(Step(s, ops[0]), ops[1..]);
      Conservation(t, ops[1..]);
      OneStep(s, ops[0]);
      BuffersUnfold(s, ops);
      ConservationStep(Buffers(s, ops), rest, s.pending, WrittenBy(ops[0]), Written(ops[1..]), t.pending,
                       Run(s, ops).pending);
    }
  }

  lemma ConservationStep(parts: seq<string>, rest: seq<string>, before: string, now: string, later: string,
                         after: string, last: string)
    requires Concat(rest) + last == after + later
    requires (parts == rest && after == before + now) || (parts == [before + now] + rest && after == "")
    ensures Concat(parts) + last == before + (now + later)
  {
    assert before + (now + later) == before + now + later;
    if !(parts == rest && after == before + now) {
      assert ([before + now] + rest)[1..] == rest;
      assert before + now + Concat(rest) + last == before + now + (Concat(rest) + last);
    }
  }

  /** Once the response is committed the framing and the head stay as they are, and what the
      connection has received is the framed buffers. */
  lemma {:induction false} BodyIsFrames(s: Stream, ops: seq<Op>)
    requires s.connected
    ensures var t := Run(s, ops);
            && t.connected && t.capacity == s.capacity
            && t.body == s.body + Frames(t.chunked, Buffers(s, ops))
            && (s.committed ==> t.committed && t.chunked == s.chunked && t.head == s.head)
            && (Buffers(s, ops) != [] ==> t.committed)
    decreases |ops|
  {
    if ops != [] {
      var t := Step(s, ops[0]);
      BodyIsFrames(t, ops[1..]);
      OneStep(s, ops[0]);
      BuffersUnfold(s, ops);
      if SentBy(s, ops[0]) != [] {
        FramesCons(Run(s, ops).chunked, s.body, s.pending + WrittenBy(ops[0]), Buffers(t, ops[1..]));
      }
    }
  }

  lemma FramesCons(chunked: bool, body: string, first: string, rest: seq<string>)
    ensures body + Frames(chunked, [first] + rest) == body + Frame(chunked, first) + Frames(chunked, rest)
  {
    assert ([first] + rest)[1..] == rest;
  }

  function AllBuffers(s: Stream, ops: seq<Op>): seq<string> {
    Buffers(s, ops) + [Run(s, ops).pending]
  }

  function Finished(s: Stream, ops: seq<Op>): Stream {
    Close(Run(s, ops))
  }

  lemma {:induction false} FramesSnoc(chunked: bool, parts: seq<string>, last: string)
    ensures Frames(chunked, parts + [last]) == Frames(chunked, parts) + Frame(chunked, last)
    ensures Concat(parts + [last]) == Concat(parts) + last
  {
    if parts != [] {
      var rest, end := Frames(chunked, parts[1..]), Frame(chunked, last);
      FramesSnoc(chunked, parts[1..], last);
      assert (parts + [last])[1..] == parts[1..] + [last];
      assert Frame(chunked, parts[0]) + (rest + end) == Frame(chunked, parts[0]) + rest + end;
      assert parts[0] + (Concat(parts[1..]) + last) == parts[0] + Concat(parts[1..]) + last;
    } else {
      assert (parts + [last])[1..] == [];
    }
  }

  lemma BodyAtTheEnd(s: Stream, ops: seq<Op>)
    requires Unused(s)
    ensures var t := Finished(s, ops);
            && t.body == Frames(t.chunked, AllBuffers(s, ops)) + (if t.chunked then TERMINATOR else "")
            && Concat(AllBuffers(s, ops)) == Written(ops)
  {
    var u, t := Run(s, ops), Finished(s, ops);
    BodyIsFrames(s, ops);
    Conservation(s, ops);
    FramesSnoc(t.chunked, Buffers(s, ops), u.pending);
    ClosingBody(u);
    assert u.body == Frames(u.chunked, Buffers(s, ops));
    if !u.committed {
      assert Frames(t.chunked, Buffers(s, ops)) == "";
    }
  }

  lemma ClosingBody(u: Stream)
    requires u.connected
    ensures var t := Close(u);
            && t.body == u.body + Frame(t.chunked, u.pending) + (if t.chunked then TERMINATOR else "")
            && (u.committed ==> t.chunked == u.chunked)
  {
  }

  // ---- what the other side decodes -----------------------------------------------------------

  datatype Message = Malformed | Message(data: string, rest: string)

  /** Where the first line ends, or the length of the text when no line does. */
  function LineEnd(w: string): (n: nat)
    ensures n <= |w| && (n < |w| ==> n + 2 <= |w| && w[n..n + 2] == CRLF)
  {
    if |w| < 2 then |w|
    else if w[..2] == CRLF then 0
    else
      var n := LineEnd(w[1..]);
      assert n < |w[1..]| ==> w[n + 1..n + 3] == w[1..][n..n + 2];
      n + 1
  }

  function Prepend(data: string, m: Message): Message {
    if m.Malformed? then m else Message(data + m.data, m.rest)
  }

  /** A chunked body (section 7.1 of RFC 9112) without chunk extensions or trailer fields: chunks up to
      the first of size zero, then an empty line; the rest belongs to whatever comes next. */
  function Decode(w: string): Message
    decreases |w|
  {
    var n := LineEnd(w);
    if n == |w| || !IsNumeral(16, w[..n]) then Malformed
    else
      var size, after := ValueOf(16, w[..n]), w[n + 2..];
      if |after| < size + 2 || after[size..size + 2] != CRLF then Malformed
      else if size == 0 then Message("", after[2..])
      else Prepend(after[..size], Decode(after[size + 2..]))
  }

  lemma {:induction false} LineEndAt(line: string, rest: string)
    requires '\r' !in line
    ensures LineEnd(line + CRLF + rest) == |line|
  {
    var w := line + CRLF + rest;
    if line != "" {
      LineEndAt(line[1..], rest);
      assert w[1..] == line[1..] + CRLF + rest;
      assert w[..2][0] == line[0];
    } else {
      assert w[..2] == CRLF;
    }
  }

  lemma DecodeUnfolds(line: string, data: string, rest: string)
    requires IsNumeral(16, line) && ValueOf(16, line) == |data|
    ensures var w := line + CRLF + (data + CRLF + rest);
            Decode(w) == if data == "" then Message("", rest) else Prepend(data, Decode(rest))
  {
    var after := data + CRLF + rest;
    var w, n := line + CRLF + after, |line|;
    forall i | 0 <= i < n ensures line[i] != '\r' {
      assert IsDigit(16, line[i]);
    }
    LineEndAt(line, after);
    assert w[..n] == line && w[n + 2..] == after;
    assert after[|data|..|data| + 2] == CRLF && after[|data| + 2..] == rest && after[..|data|] == data;
  }

  /** One frame in front of anything. */
  lemma FrameDecodes(data: string, rest: string)
    ensures var w := Frame(true, data) + rest;
            Decode(w) == if data == "" then Message("", rest) else Prepend(data, Decode(rest))
  {
    NumeralReadsBack(16, |data|);
    DecodeUnfolds(Numeral(16, |data|), data, rest);
    FrameSplits(Numeral(16, |data|), data, rest);
  }

  lemma FrameSplits(line: string, data: string, rest: string)
    ensures line + CRLF + data + CRLF + rest == line + CRLF + (data + CRLF + rest)
  {
  }

  /** The data up to the first empty buffer, which on the wire is the chunk that ends the message. */
  function UpToEmpty(parts: seq<string>): string {
    if parts == [] || parts[0] == "" then "" else parts[0] + UpToEmpty(parts[1..])
  }

  function AfterEmpty(parts: seq<string>): string {
    if parts == [] then ""
    else if parts[0] == "" then Frames(true, parts[1..]) + TERMINATOR
    else AfterEmpty(parts[1..])
  }

  lemma {:induction false} FramesDecode(parts: seq<string>)
    ensures Decode(Frames(true, parts) + TERMINATOR) == Message(UpToEmpty(parts), AfterEmpty(parts))
  {
    if parts == [] {
      TerminatorIsAFrame();
      FrameDecodes("", "");
    } else {
      FramesDecode(parts[1..]);
      FrameDecodes(parts[0], Frames(true, parts[1..]) + TERMINATOR);
      FramesUnfold(parts);
    }
  }

  lemma TerminatorIsAFrame()
    ensures Frames(true, []) + TERMINATOR == Frame(true, "") + ""
  {
    assert Numeral(16, 0) == "0";
  }

  lemma FramesUnfold(parts: seq<string>)
    requires parts != []
    ensures Frames(true, parts) + TERMINATOR == Frame(true, parts[0]) + (Frames(true, parts[1..]) + TERMINATOR)
  {
  }

  /** What becomes of a response, over every use of its stream: sent verbatim when the framing is off,
      and otherwise a well-formed chunked body holding what was written before the first empty
      flush. */
  lemma BodyReadsBack(s: Stream, ops: seq<Op>)
    requires Unused(s)
    ensures var t := Finished(s, ops);
            && (!t.chunked ==> t.body == Written(ops))
            && (t.chunked ==> Decode(t.body) == Message(UpToEmpty(AllBuffers(s, ops)), AfterEmpty(AllBuffers(s, ops))))
  {
    BodyAtTheEnd(s, ops);
    FramesDecode(AllBuffers(s, ops));
    VerbatimFrames(AllBuffers(s, ops));
  }

  lemma {:induction false} VerbatimFrames(parts: seq<string>)
    ensures Frames(false, parts) == Concat(parts)
  {
    if parts != [] {
      VerbatimFrames(parts[1..]);
    }
  }

  /** Somebody flushes an empty buffer and writes on. */
  predicate WritesOn(s: Stream, ops: seq<Op>)
    decreases |ops|
  {
    ops != [] &&
    ((ops[0] == Flush && s.pending == "" && Written(ops[1..]) != "") || WritesOn(Step(s, ops[0]), ops[1..]))
  }

  predicate FlushesEmpty(s: Stream, ops: seq<Op>)
    decreases |ops|
  {
    ops != [] && ((ops[0] == Flush && s.pending == "") || FlushesEmpty(Step(s, ops[0]), ops[1..]))
  }

  lemma {:induction false} LostExactly(s: Stream, ops: seq<Op>)
    requires s.connected
    ensures UpToEmpty(AllBuffers(s, ops)) == s.pending + Written(ops) <==> !WritesOn(s, ops)
    decreases |ops|
  {
    if ops == [] {
      assert AllBuffers(s, ops)[1..] == [];
    } else {
      LostExactly(Step(s, ops[0]), ops[1..]);
      LostBefore(s, ops);
    }
  }

  lemma LostBefore(s: Stream, ops: seq<Op>)
    requires s.connected && ops != []
    requires var t, rest := Step(s, ops[0]), ops[1..];
             UpToEmpty(AllBuffers(t, rest)) == t.pending + Written(rest) <==> !WritesOn(t, rest)
    ensures UpToEmpty(AllBuffers(s, ops)) == s.pending + Written(ops) <==> !WritesOn(s, ops)
  {
    var t, rest := Step(s, ops[0]), ops[1..];
    AllBuffersUnfold(s, ops);
    WritesOnUnfold(s, ops);
    LostStep(SentBy(s, ops[0]) != [], AllBuffers(s, ops), AllBuffers(t, rest), s.pending, WrittenBy(ops[0]),
             Written(rest), t.pending, WritesOn(s, ops), WritesOn(t, rest));
  }

  lemma LostStep(sent: bool, all: seq<string>, rest: seq<string>, before: string, now: string, later: string,
                 after: string, lost: bool, lostLater: bool)
    requires UpToEmpty(rest) == after + later <==> !lostLater
    requires all == if sent then [before + now] + rest else rest
    requires after == if sent then "" else before + now
    requires lost <==> (sent && before + now == "" && later != "") || lostLater
    requires later == "" ==> !lostLater
    ensures UpToEmpty(all) == before + (now + later) <==> !lost
  {
    var first := before + now;
    assert first + later == before + (now + later);
    if sent {
      assert after + later == later;
      assert ([first] + rest)[1..] == rest;
      SamePrefix(first, UpToEmpty(rest), later);
    }
  }

  lemma WritesOnUnfold(s: Stream, ops: seq<Op>)
    requires ops != []
    ensures WritesOn(s, ops) <==>
            (SentBy(s, ops[0]) != [] && s.pending + WrittenBy(ops[0]) == "" && Written(ops[1..]) != "") || WritesOn(Step(s, ops[0]), ops[1..])
    ensures Written(ops[1..]) == "" ==> !WritesOn(Step(s, ops[0]), ops[1..])
  {
    if Written(ops[1..]) == "" {
      NothingMoreIsLost(Step(s, ops[0]), ops[1..]);
    }
  }

  lemma AllBuffersUnfold(s: Stream, ops: seq<Op>)
    requires ops != [] && s.connected
    ensures var rest := AllBuffers(Step(s, ops[0]), ops[1..]);
            AllBuffers(s, ops) ==
            if SentBy(s, ops[0]) == [] then rest else [s.pending + WrittenBy(ops[0])] + rest
    ensures Step(s, ops[0]).pending == if SentBy(s, ops[0]) == [] then s.pending + WrittenBy(ops[0]) else ""
  {
    BuffersUnfold(s, ops);
    OneStep(s, ops[0]);
  }

  lemma SamePrefix(a: string, b: string, c: string)
    ensures a + b == a + c <==> b == c
  {
    assert (a + b)[|a|..] == b && (a + c)[|a|..] == c;
  }

  lemma {:induction false} TrailsExactly(s: Stream, ops: seq<Op>)
    requires s.connected
    ensures AfterEmpty(AllBuffers(s, ops)) == "" <==> !FlushesEmpty(s, ops) && Run(s, ops).pending != ""
    decreases |ops|
  {
    if ops == [] {
      assert AllBuffers(s, ops)[1..] == [];
    } else {
      TrailsExactly(Step(s, ops[0]), ops[1..]);
      OneStep(s, ops[0]);
      AllBuffersUnfold(s, ops);
    }
  }

  lemma {:induction false} NothingMoreIsLost(s: Stream, ops: seq<Op>)
    requires Written(ops) == ""
    ensures !WritesOn(s, ops)
    decreases |ops|
  {
    if ops != [] {
      NothingMoreIsLost(Step(s, ops[0]), ops[1..]);
    }
  }

  /** A chunked response arrives whole exactly if nobody writes after flushing an empty buffer, and
      nothing trails behind it exactly if no flush, the closing one included, finds the buffer
      empty. */
  lemma ChunkedExactly(s: Stream, ops: seq<Op>)
    requires Unused(s) && Finished(s, ops).chunked
    ensures var m := Decode(Finished(s, ops).body);
            && m.Message?
            && (m.data == Written(ops) <==> !WritesOn(s, ops))
            && (m.rest == "" <==> !FlushesEmpty(s, ops) && Run(s, ops).pending != "")
  {
    BodyReadsBack(s, ops);
    LostExactly(s, ops);
    TrailsExactly(s, ops);
  }

  // ---- what the head announces ---------------------------------------------------------------

  /** The response is committed other than through the buffer, before the buffer has sent anything. */
  predicate CommittedElsewhere(s: Stream, ops: seq<Op>)
    decreases |ops|
  {
    ops != [] && ((ops[0] == CommitNow && !s.committed) || CommittedElsewhere(Step(s, ops[0]), ops[1..]))
  }

  ghost predicate Announced(t: Stream)
  {
    && t.head.Sent?
    && (t.chunked <==> LENGTH !in t.head.headers)
    && (t.chunked ==> ENCODING in t.head.headers && t.head.headers[ENCODING] == "chunked")
  }

  lemma {:induction false} HeadWhileRunning(s: Stream, ops: seq<Op>)
    requires s.connected
    ensures var t := Run(s, ops);
            && (s.committed ==> t.committed && t.head == s.head && t.chunked == s.chunked && !CommittedElsewhere(s, ops))
            && (!s.committed && !CommittedElsewhere(s, ops) && t.committed ==> Announced(t))
            && (!s.committed && CommittedElsewhere(s, ops) ==> t.committed && t.head.Sent? && t.chunked == s.chunked)
    decreases |ops|
  {
    if ops != [] {
      HeadWhileRunning(Step(s, ops[0]), ops[1..]);
    }
  }

  /** Committed through the buffer, the head declares the framing in use: chunked without a length, or
      a length without chunks.  Committed elsewhere, the body is framed in chunks whatever the head
      says. */
  lemma HeadAgrees(s: Stream, ops: seq<Op>)
    requires Unused(s)
    ensures var t := Finished(s, ops);
            && t.head.Sent?
            && (!CommittedElsewhere(s, ops) ==> Announced(t))
            && (CommittedElsewhere(s, ops) ==> t.chunked)
  {
    BodyIsFrames(s, ops);
    HeadWhileRunning(s, ops);
  }

  /** So after a commit elsewhere a reader who was not told of the chunks never gets what was
      written. */
  lemma UnannouncedChunksSpoil(s: Stream, ops: seq<Op>)
    requires Unused(s) && CommittedElsewhere(s, ops)
    ensures Finished(s, ops).body != Written(ops)
  {
    HeadAgrees(s, ops);
    BodyAtTheEnd(s, ops);
    FramesAreLonger(AllBuffers(s, ops));
  }

  lemma {:induction false} FramesAreLonger(parts: seq<string>)
    ensures |Frames(true, parts)| >= |Concat(parts)|
  {
    if parts != [] {
      FramesAreLonger(parts[1..]);
    }
  }

  /** When a length is declared and the whole content waited in the buffer until the end, the length
      sent is the number of characters written, whatever the servlet had declared. */
  lemma LengthIsTrue(s: Stream, ops: seq<Op>)
    requires Unused(s) && Buffers(s, ops) == [] && !Finished(s, ops).chunked
    ensures var h := Finished(s, ops).head;
            && h.Sent? && LENGTH in h.headers
            && IsNumeral(10, h.headers[LENGTH]) && ValueOf(10, h.headers[LENGTH]) == |Written(ops)|
  {
    HeadAgrees(s, ops);
    HeadWhileRunning(s, ops);
    BodyIsFrames(s, ops);
    Conservation(s, ops);
    NothingSentYet(s, ops);
    var u := Run(s, ops);
    assert u.pending == "" + u.pending == "" + Written(ops) == Written(ops);
    ClosingHead(u);
    NumeralReadsBack(10, |Written(ops)|);
  }

  lemma ClosingHead(u: Stream)
    requires u.connected && !u.committed && !Close(u).chunked
    ensures Close(u).head == Sent(u.headers[LENGTH := Numeral(10, |u.pending|)])
  {
  }

  lemma {:induction false} NothingSentYet(s: Stream, ops: seq<Op>)
    requires Buffers(s, ops) == [] && !s.committed && s.connected && !CommittedElsewhere(s, ops)
    ensures !Run(s, ops).committed
    decreases |ops|
  {
    if ops != [] {
      assert SentBy(s, ops[0]) == [];
      NothingSentYet(Step(s, ops[0]), ops[1..]);
    }
  }
}
