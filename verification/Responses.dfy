/** Responses as their readers see them: which headers the head carries, how large the pieces are, and what
    goes over the connection for a response that fits into the buffer. */
module Responses {
  import opened Numerals
  import opened HttpOutput

  // ---- headers -------------------------------------------------------------------------------

  lemma {:induction false} RunParts(s: Stream, a: seq<Op>, b: seq<Op>)
    ensures Run(s, a + b) == Run(Run(s, a), b)
    decreases |a|
  {
    if a == [] {
      assert a + b == b;
    } else {
      assert (a + b)[0] == a[0] && (a + b)[1..] == a[1..] + b;
      RunParts(Step(s, a[0]), a[1..], b);
    }
  }

  /** Neither of the two headers that the buffer itself sets. */
  predicate Ordinary(name: string) {
    name != "Content-Length" && name != "Transfer-Encoding"
  }

  predicate SameEntry(a: Headers, b: Headers, name: string) {
    (name in a <==> name in b) && (name in a ==> a[name] == b[name])
  }

  lemma ClosingKeepsEntry(s: Stream, name: string)
    requires s.connected && !s.committed && Ordinary(name)
    ensures Close(s).head.Sent? && SameEntry(s.headers, Close(s).head.headers, name)
  {
  }

  lemma StepKeepsEntry(s: Stream, op: Op, name: string)
    requires s.connected && !s.committed && Ordinary(name) && (op.SetHeader? ==> op.name != name)
    ensures var t := Step(s, op);
            && t.connected && SameEntry(s.headers, t.headers, name)
            && (t.committed ==> t.head.Sent? && SameEntry(s.headers, t.head.headers, name))
  {
  }

  /** What an uncommitted response holds under a name that is not set again before the commit is in the
      head. */
  lemma {:induction false} EntryArrives(s: Stream, ops: seq<Op>, name: string)
    requires s.connected && !s.committed && Ordinary(name)
    requires forall j :: 0 <= j < |ops| && ops[j].SetHeader? && ops[j].name == name ==> Run(s, ops[..j]).committed
    ensures var t := Finished(s, ops); t.head.Sent? && SameEntry(s.headers, t.head.headers, name)
    decreases |ops|
  {
    if ops == [] {
      ClosingKeepsEntry(s, name);
    } else {
      assert ops[..0] == [];
      StepKeepsEntry(s, ops[0], name);
      var t := Step(s, ops[0]);
      if t.committed {
        BodyIsFrames(t, ops[1..]);
      } else {
        forall j | 0 <= j < |ops[1..]| && ops[1..][j].SetHeader? && ops[1..][j].name == name ensures Run(t, ops[1..][..j]).committed {
          assert ops[..j + 1][0] == ops[0] && ops[..j + 1][1..] == ops[1..][..j];
        }
        EntryArrives(t, ops[1..], name);
      }
    }
  }

  /** A header other than those two that a servlet sets before the commit, and does not set again before it,
      is in the head with its value. */
  lemma HeaderReachesTheHead(s: Stream, ops: seq<Op>, i: nat, name: string, value: string)
    requires Unused(s) && name != "Content-Length" && name != "Transfer-Encoding"
    requires i < |ops| && ops[i] == SetHeader(name, value) && !Run(s, ops[..i]).committed
    requires forall j :: i < j < |ops| && ops[j].SetHeader? && ops[j].name == name ==> Run(s, ops[..j]).committed
    ensures var t := Finished(s, ops); t.head.Sent? && name in t.head.headers && t.head.headers[name] == value
  {
    hide Run, Step, Finished, Close;
    var before := Run(s, ops[..i]);
    var u, rest := Step(before, ops[i]), ops[i + 1..];
    BodyIsFrames(s, ops[..i]);
    UpTo(s, ops, i);
    forall j | 0 <= j < |rest| && rest[j].SetHeader? && rest[j].name == name ensures Run(u, rest[..j]).committed {
      assert ops[..i + 1 + j] == ops[..i + 1] + rest[..j];
      RunParts(s, ops[..i + 1], rest[..j]);
    }
    JustSet(before, name, value);
    EntryArrives(u, rest, name);
    assert ops == ops[..i + 1] + rest;
    RunParts(s, ops[..i + 1], rest);
    SameFinish(s, ops, u, rest);
  }

  lemma JustSet(s: Stream, name: string, value: string)
    ensures var t := Step(s, SetHeader(name, value));
            t.connected == s.connected && t.committed == s.committed && name in t.headers && t.headers[name] == value
  {
  }

  lemma SameFinish(s: Stream, ops: seq<Op>, t: Stream, rest: seq<Op>)
    requires Run(s, ops) == Run(t, rest)
    ensures Finished(s, ops) == Finished(t, rest)
  {
    hide Run, Close;
  }

  lemma UpTo(s: Stream, ops: seq<Op>, i: nat)
    requires i < |ops|
    ensures Run(s, ops[..i + 1]) == Step(Run(s, ops[..i]), ops[i])
  {
    assert ops[..i + 1] == ops[..i] + [ops[i]];
    RunParts(s, ops[..i], [ops[i]]);
    assert [ops[i]][1..] == [];
  }

  /** And nothing else is: a header in the head was there from the start or has been set before the commit,
      but for the one that announces chunks. */
  lemma {:induction false} HeadHoldsNothingElse(s: Stream, ops: seq<Op>, name: string) returns (i: nat)
    requires s.connected && !s.committed && Finished(s, ops).head.Sent? && name in Finished(s, ops).head.headers
    requires name != "Transfer-Encoding" && name !in s.headers
    ensures i < |ops| && ops[i].SetHeader? && ops[i].name == name && !Run(s, ops[..i]).committed
    decreases |ops|
  {
    hide Step, Close;
    i := 0;
    if ops == [] {
      NoneAtClosing(s, name);
    } else {
      assert ops[..0] == [];
      var t := Step(s, ops[0]);
      if !(ops[0].SetHeader? && ops[0].name == name) {
        NoneByStep(s, ops[0], name);
        if t.committed {
          BodyIsFrames(t, ops[1..]);
          HeadStays(t, ops[1..]);
        } else {
          i := HeadHoldsNothingElse(t, ops[1..], name);
          assert ops[..i + 1][0] == ops[0] && ops[..i + 1][1..] == ops[1..][..i];
          i := i + 1;
        }
      }
    }
  }

  lemma NoneAtClosing(s: Stream, name: string)
    requires s.connected && !s.committed && name != "Transfer-Encoding" && name !in s.headers
    ensures Close(s).head.Sent? && name !in Close(s).head.headers
  {
  }

  lemma NoneByStep(s: Stream, op: Op, name: string)
    requires s.connected && !s.committed && name != "Transfer-Encoding" && name !in s.headers
    requires !(op.SetHeader? && op.name == name)
    ensures var t := Step(s, op);
            t.connected && name !in t.headers && (t.committed ==> t.head.Sent? && name !in t.head.headers)
  {
  }

  lemma HeadStays(s: Stream, ops: seq<Op>)
    requires s.connected && s.committed
    ensures Finished(s, ops).head == s.head
  {
    BodyIsFrames(s, ops);
    hide Run, Frames, Buffers;
  }

  // ---- the pieces ----------------------------------------------------------------------------

  /** A piece that is sent because the buffer is full is one character longer than the put area; all others
      were flushed. */
  lemma {:induction false} PiecesAreFull(s: Stream, ops: seq<Op>)
    requires s.connected && |s.pending| <= s.capacity && Flush !in ops
    ensures forall part :: part in Buffers(s, ops) ==> |part| == s.capacity + 1
    ensures |Run(s, ops).pending| <= s.capacity
    decreases |ops|
  {
    if ops != [] {
      assert ops[0] in ops;
      OneStep(s, ops[0]);
      SentWhenFull(s, ops[0]);
      PiecesAreFull(Step(s, ops[0]), ops[1..]);
      BothFull(SentBy(s, ops[0]), Buffers(Step(s, ops[0]), ops[1..]), s.capacity + 1);
      hide Step, SentBy;
    }
  }

  lemma BothFull(a: seq<string>, b: seq<string>, n: nat)
    requires (a == [] || (|a| == 1 && |a[0]| == n)) && forall part :: part in b ==> |part| == n
    ensures forall part :: part in a + b ==> |part| == n
  {
  }

  lemma SentWhenFull(s: Stream, op: Op)
    requires s.connected && |s.pending| <= s.capacity && op != Flush
    ensures |Step(s, op).pending| <= s.capacity
    ensures SentBy(s, op) == [] || (|SentBy(s, op)| == 1 && |SentBy(s, op)[0]| == s.capacity + 1)
  {
  }

  // ---- small responses -----------------------------------------------------------------------

  function Puts(text: string): seq<Op> {
    seq(|text|, i requires 0 <= i < |text| => Op.Put(text[i]))
  }

  lemma {:induction false} PutsWait(s: Stream, text: string)
    requires |s.pending| + |text| <= s.capacity
    ensures Run(s, Puts(text)) == s.(pending := s.pending + text)
    decreases |text|
  {
    if text == "" {
      assert s.pending + text == s.pending;
    } else {
      assert Puts(text)[1..] == Puts(text[1..]);
      PutsWait(Step(s, Op.Put(text[0])), text[1..]);
      assert s.pending + [text[0]] + text[1..] == s.pending + text;
    }
  }

  /** A response that fits and has no length goes out as one chunk and the end of the chunks; the head is the
      servlet's, with the announcement of chunks. */
  lemma SmallChunkedResponse(s: Stream, text: string)
    requires Unused(s) && |text| <= s.capacity && "Content-Length" !in s.headers
    ensures var t := Finished(s, Puts(text));
            && t.head == Sent(s.headers["Transfer-Encoding" := "chunked"])
            && t.body == Numeral(16, |text|) + "\r\n" + text + "\r\n" + "0\r\n\r\n"
  {
    PutsWait(s, text);
    assert "" + text == text;
    ClosingOneChunk(s.(pending := text), text);
    hide Close, Run;
  }

  lemma ClosingOneChunk(s: Stream, text: string)
    requires Unused(s.(pending := "")) && s.pending == text && "Content-Length" !in s.headers
    ensures var t := Close(s);
            && t.head == Sent(s.headers["Transfer-Encoding" := "chunked"])
            && t.body == Numeral(16, |text|) + "\r\n" + text + "\r\n" + "0\r\n\r\n"
  {
    hide Numeral;
    var frame := Numeral(16, |text|) + "\r\n" + text + "\r\n";
    assert Frame(true, text) == frame;
    assert "" + frame == frame;
    assert Send(s).body == "" + frame;
    hide Frame;
  }

  /** With a length it goes out as it is, and the length is corrected. */
  lemma SmallPlainResponse(s: Stream, text: string)
    requires Unused(s) && |text| <= s.capacity && "Content-Length" in s.headers
    ensures var t := Finished(s, Puts(text));
            t.head == Sent(s.headers["Content-Length" := Numeral(10, |text|)]) && t.body == text
  {
    PutsWait(s, text);
    assert "" + text == text;
    hide Numeral;
  }
}
