/** The stream buffer that finds the tags of a template while it is being written, one character at a
    time, against the segmentation of the whole text. */
module Scanner {
  import opened Segments

  datatype Mode =
    | Nil | Obrace | Mustache | MustacheVar | MustacheVarCbrace
    | MustacheBlockBegin | MustacheBlockBeginCbrace
    | MustacheBlock | MustacheBlockObrace | MustacheBlockMustache
    | MustacheBlockEnd | MustacheBlockEndCbrace

  datatype Scan = Scan(mode: Mode, buffer: string, beginTag: string, endTag: string, out: string)

  /** What a tag is replaced with. */
  type Resolver = string -> string

  function Start(out: string): Scan {
    Scan(Nil, "", "", "", out)
  }

  function Translate(resolve: Resolver, s: Scan): Scan {
    s.(buffer := "", out := s.out + resolve(s.buffer))
  }

  function Step(resolve: Resolver, s: Scan, c: char): Scan {
    var b := s.(buffer := s.buffer + [c]);
    match s.mode
    case Nil => if c == '{' then s.(mode := Obrace) else s.(out := s.out + [c])
    case Obrace =>
      if c == '{' then s.(mode := Mustache, buffer := s.buffer + "{{")
      else s.(mode := Nil, out := s.out + "{" + [c])
    case Mustache => b.(mode := if Sigil(c) then MustacheBlockBegin else MustacheVar)
    case MustacheVar => if c == '}' then b.(mode := MustacheVarCbrace) else b
    case MustacheVarCbrace =>
      if c == '}' then Translate(resolve, b).(mode := Nil) else b.(mode := MustacheVar)
    case MustacheBlockBegin =>
      if c == '}' then b.(mode := MustacheBlockBeginCbrace) else b.(beginTag := b.beginTag + [c])
    case MustacheBlockBeginCbrace =>
      if c == '}' then b.(mode := MustacheBlock)
      else b.(mode := MustacheBlockBegin, beginTag := b.beginTag + "}" + [c])
    case MustacheBlock => if c == '{' then b.(mode := MustacheBlockObrace) else b
    case MustacheBlockObrace => b.(mode := if c == '{' then MustacheBlockMustache else MustacheBlock)
    case MustacheBlockMustache => b.(mode := if c == '/' then MustacheBlockEnd else MustacheBlock)
    case MustacheBlockEnd =>
      if c == '}' then b.(mode := MustacheBlockEndCbrace) else b.(endTag := b.endTag + [c])
    case MustacheBlockEndCbrace =>
      if c != '}' then b.(mode := MustacheBlockEnd, endTag := b.endTag + "}" + [c])
      else if b.beginTag == b.endTag then Translate(resolve, b).(mode := Nil, beginTag := "", endTag := "")
      else b.(mode := MustacheBlock, endTag := "")
  }

  function Feed(resolve: Resolver, s: Scan, text: string): Scan {
    if text == "" then s
    else Step(resolve, Feed(resolve, s, text[..|text| - 1]), text[|text| - 1])
  }

  class VariableResolverStreamBuffer {
    var mode: Mode
    var buffer: string
    var beginTag: string
    var endTag: string
    var out: string
    const resolve: Resolver

    function Value(): Scan
      reads this
    {
      Scan(mode, buffer, beginTag, endTag, out)
    }

    constructor (resolve: Resolver)
      ensures this.resolve == resolve && Value() == Start("")
    {
      this.resolve := resolve;
      mode := Nil;
      buffer, beginTag, endTag, out := "", "", "", "";
    }

    method Flush()
      modifies this`buffer, this`out
      ensures Value() == Translate(resolve, old(Value()))
    {
      var buf := buffer;
      buffer := "";
      out := out + resolve(buf);
    }

    method Parse(c: char)
      modifies this
      ensures Value() == Step(resolve, old(Value()), c)
    {
      match mode
      case Nil =>
        if c == '{' {
          mode := Obrace;
        } else {
          out := out + [c];
        }
      case Obrace =>
        if c == '{' {
          mode := Mustache;
          buffer := buffer + "{{";
        } else {
          mode := Nil;
          out := out + "{";
          out := out + [c];
        }
      case Mustache =>
        buffer := buffer + [c];
        if c == '#' || c == '^' {
          mode := MustacheBlockBegin;
        } else {
          mode := MustacheVar;
        }
      case MustacheVar =>
        buffer := buffer + [c];
        if c == '}' {
          mode := MustacheVarCbrace;
        }
      case MustacheVarCbrace =>
        buffer := buffer + [c];
        if c == '}' {
          Flush();
          mode := Nil;
        } else {
          mode := MustacheVar;
        }
      case MustacheBlockBegin =>
        buffer := buffer + [c];
        if c == '}' {
          mode := MustacheBlockBeginCbrace;
        } else {
          beginTag := beginTag + [c];
        }
      case MustacheBlockBeginCbrace =>
        buffer := buffer + [c];
        if c == '}' {
          mode := MustacheBlock;
        } else {
          beginTag := beginTag + "}";
          beginTag := beginTag + [c];
          mode := MustacheBlockBegin;
        }
      case MustacheBlock =>
        buffer := buffer + [c];
        if c == '{' {
          mode := MustacheBlockObrace;
        }
      case MustacheBlockObrace =>
        buffer := buffer + [c];
        if c == '{' {
          mode := MustacheBlockMustache;
        } else {
          mode := MustacheBlock;
        }
      case MustacheBlockMustache =>
        buffer := buffer + [c];
        if c == '/' {
          mode := MustacheBlockEnd;
        } else {
          mode := MustacheBlock;
        }
      case MustacheBlockEnd =>
        buffer := buffer + [c];
        if c == '}' {
          mode := MustacheBlockEndCbrace;
        } else {
          endTag := endTag + [c];
        }
      case MustacheBlockEndCbrace =>
        buffer := buffer + [c];
        if c == '}' {
          if beginTag == endTag {
            Flush();
            beginTag := "";
            mode := Nil;
          } else {
            mode := MustacheBlock;
          }
          endTag := "";
        } else {
          endTag := endTag + "}";
          endTag := endTag + [c];
          mode := MustacheBlockEnd;
        }
    }

    /** The buffer has no put area, so every character written overflows into Parse. */
    method Write(text: string)
      modifies this
      ensures Value() == Feed(resolve, old(Value()), text)
    {
      for i := 0 to |text|
        invariant Value() == Feed(resolve, old(Value()), text[..i])
      {
        Parse(text[i]);
        assert text[..i + 1][..i] == text[..i];
      }
      assert text[..|text|] == text;
    }
  }

  // ---- feeding a piece at a time -------------------------------------------------------------

  lemma {:induction false} FeedConcat(resolve: Resolver, s: Scan, a: string, b: string)
    ensures Feed(resolve, s, a + b) == Feed(resolve, Feed(resolve, s, a), b)
  {
    if b == "" {
      assert a + b == a;
    } else {
      var n := |b| - 1;
      FeedConcat(resolve, s, a, b[..n]);
      assert (a + b)[..|a + b| - 1] == a + b[..n];
    }
  }

  lemma FeedOne(resolve: Resolver, s: Scan, c: char)
    ensures Feed(resolve, s, [c]) == Step(resolve, s, c)
  {
    assert [c][..0] == "";
  }

  lemma FeedPair(resolve: Resolver, s: Scan, c: char, d: char)
    ensures Feed(resolve, s, [c, d]) == Step(resolve, Step(resolve, s, c), d)
  {
    assert [c, d][..1] == [c];
    FeedOne(resolve, s, c);
  }

  lemma FeedThenPair(resolve: Resolver, s: Scan, t: string, c: char, d: char)
    ensures Feed(resolve, s, t + [c, d]) == Step(resolve, Step(resolve, Feed(resolve, s, t), c), d)
    ensures s.buffer + t + [c] + [d] == s.buffer + (t + [c, d])
  {
    hide Step;
    FeedConcat(resolve, s, t, [c, d]);
    FeedPair(resolve, Feed(resolve, s, t), c, d);
  }

  predicate NoPair(t: string, c: char) {
    forall i :: 0 <= i < |t| - 1 ==> !(t[i] == c && t[i + 1] == c)
  }

  predicate EndsWith(t: string, c: char) {
    t != "" && t[|t| - 1] == c
  }

  /** Text without a double brace passes, but for a single brace at its end. */
  lemma {:induction false} PassLiteral(resolve: Resolver, s: Scan, t: string)
    requires s.mode == Nil && NoPair(t, '{')
    ensures Feed(resolve, s, t) == if EndsWith(t, '{') then s.(mode := Obrace, out := s.out + t[..|t| - 1])
                                   else s.(out := s.out + t)
  {
    if t != "" {
      var front := t[..|t| - 1];
      PassLiteral(resolve, s, front);
      assert t == front + [t[|t| - 1]];
      if EndsWith(front, '{') {
        assert front == front[..|front| - 1] + "{";
      }
    }
  }

  lemma {:induction false} PassVariable(resolve: Resolver, s: Scan, t: string)
    requires s.mode == MustacheVar && NoPair(t, '}')
    ensures Feed(resolve, s, t) ==
            s.(mode := if EndsWith(t, '}') then MustacheVarCbrace else MustacheVar, buffer := s.buffer + t)
  {
    if t != "" {
      PassVariable(resolve, s, t[..|t| - 1]);
      assert t == t[..|t| - 1] + [t[|t| - 1]];
    }
  }

  function WithoutEnd(t: string, c: char): string {
    if EndsWith(t, c) then t[..|t| - 1] else t
  }

  /** One character more, for the buffer and for a tag that a single closing brace has held up. */
  lemma LastOne(buffer: string, tag: string, t: string)
    requires t != ""
    ensures var front, c := t[..|t| - 1], t[|t| - 1];
            && buffer + front + [c] == buffer + t
            && (c != '}' ==> tag + t == if EndsWith(front, '}') then tag + WithoutEnd(front, '}') + "}" + [c]
                                        else tag + front + [c])
  {
    var front, c := t[..|t| - 1], t[|t| - 1];
    assert t == front + [c];
    if EndsWith(front, '}') {
      assert front == WithoutEnd(front, '}') + "}";
    }
  }

  lemma {:induction false} PassBeginTag(resolve: Resolver, s: Scan, t: string)
    requires s.mode == MustacheBlockBegin && NoPair(t, '}')
    ensures Feed(resolve, s, t) ==
            s.(mode := if EndsWith(t, '}') then MustacheBlockBeginCbrace else MustacheBlockBegin,
               buffer := s.buffer + t, beginTag := s.beginTag + WithoutEnd(t, '}'))
  {
    if t != "" {
      PassBeginTag(resolve, s, t[..|t| - 1]);
      LastOne(s.buffer, s.beginTag, t);
    }
  }

  lemma {:induction false} PassEndTag(resolve: Resolver, s: Scan, t: string)
    requires s.mode == MustacheBlockEnd && NoPair(t, '}')
    ensures Feed(resolve, s, t) ==
            s.(mode := if EndsWith(t, '}') then MustacheBlockEndCbrace else MustacheBlockEnd,
               buffer := s.buffer + t, endTag := s.endTag + WithoutEnd(t, '}'))
  {
    if t != "" {
      PassEndTag(resolve, s, t[..|t| - 1]);
      LastOne(s.buffer, s.endTag, t);
    }
  }

  lemma {:induction false} PassBlock(resolve: Resolver, s: Scan, t: string)
    requires s.mode == MustacheBlock && NoPair(t, '{')
    ensures Feed(resolve, s, t) ==
            s.(mode := if EndsWith(t, '{') then MustacheBlockObrace else MustacheBlock, buffer := s.buffer + t)
  {
    if t != "" {
      PassBlock(resolve, s, t[..|t| - 1]);
      assert t == t[..|t| - 1] + [t[|t| - 1]];
    }
  }

  // ---- the searches of the segmentation, as stretches of text ---------------------------------

  /** The stretch before the pair that was found, and the whole rest when there is none, hold no pair;
      the stretch does not run into the pair either. */
  predicate Stretched(text: string, c: char, from: nat, p: Place)
    requires from <= |text|
  {
    match p
    case Nowhere => NoPair(text[from..], c)
    case At(i) =>
      && from <= i <= i + 2 <= |text|
      && NoPair(text[from..i], c) && !EndsWith(text[from..i], c)
      && text[from..i + 2] == text[from..i] + [c, c]
  }

  lemma Stretch(text: string, c: char, from: nat)
    requires from <= |text|
    ensures Stretched(text, c, from, Find(text, c, from))
  {
    FindIsFirst(text, c, from);
    var p := Find(text, c, from);
    var end := if p.At? then p.index else |text|;
    var t := text[from..end];
    forall i | 0 <= i < |t| - 1 ensures !(t[i] == c && t[i + 1] == c) {
      assert !PairAt(text, c, from + i);
    }
    if p.At? && t != "" {
      assert !PairAt(text, c, end - 1);
    }
  }

  /** The scanner is in the middle of a tag. */
  predicate Holding(s: Scan) {
    s.mode != Nil && s.mode != Obrace
  }

  predicate StillHolding(s: Scan, f: Scan, t: string) {
    Holding(f) && f.buffer == s.buffer + t && f.out == s.out
  }

  lemma BlockPair(resolve: Resolver, s: Scan, t: string)
    requires s.mode == MustacheBlock && NoPair(t, '{') && !EndsWith(t, '{')
    ensures Feed(resolve, s, t + ['{', '{']) == s.(mode := MustacheBlockMustache, buffer := s.buffer + (t + ['{', '{']))
  {
    hide Feed;
    PassBlock(resolve, s, t);
    FeedThenPair(resolve, s, t, '{', '{');
  }

  /** In a block: text, the next `{{` and the character after it. */
  lemma BlockBrace(resolve: Resolver, s: Scan, t: string, c: char)
    requires s.mode == MustacheBlock && NoPair(t, '{') && !EndsWith(t, '{')
    ensures Feed(resolve, s, t + ['{', '{'] + [c]) ==
            s.(mode := if c == '/' then MustacheBlockEnd else MustacheBlock, buffer := s.buffer + (t + ['{', '{'] + [c]))
  {
    hide Feed;
    BlockPair(resolve, s, t);
    Both(resolve, s, t + ['{', '{'], [c]);
    FeedOne(resolve, Feed(resolve, s, t + ['{', '{']), c);
  }

  lemma BlockHolds(resolve: Resolver, s: Scan, t: string)
    requires s.mode == MustacheBlock && NoPair(t, '{')
    ensures StillHolding(s, Feed(resolve, s, t), t)
    ensures !EndsWith(t, '{') ==> StillHolding(s, Feed(resolve, s, t + ['{', '{']), t + ['{', '{'])
  {
    hide Feed;
    PassBlock(resolve, s, t);
    if !EndsWith(t, '{') {
      BlockPair(resolve, s, t);
    }
  }

  lemma BlockAtBrace(resolve: Resolver, s: Scan, text: string, r: nat, q: nat)
    requires s.mode == MustacheBlock && r <= |text| && Stretched(text, '{', r, At(q))
    ensures if q + 2 == |text| then StillHolding(s, Feed(resolve, s, text[r..]), text[r..])
            else
              Feed(resolve, s, text[r..q + 3]) ==
              s.(mode := if text[q + 2] == '/' then MustacheBlockEnd else MustacheBlock,
                 buffer := s.buffer + text[r..q + 3])
  {
    hide Feed, NoPair, EndsWith;
    if q + 2 == |text| {
      assert text[r..] == text[r..q + 2];
      BlockHolds(resolve, s, text[r..q]);
    } else {
      assert text[r..q + 3] == text[r..q + 2] + [text[q + 2]];
      BlockBrace(resolve, s, text[r..q], text[q + 2]);
    }
  }

  lemma EndTagCloses(resolve: Resolver, s: Scan, t: string)
    requires s.mode == MustacheBlockEnd && s.endTag == "" && NoPair(t, '}') && !EndsWith(t, '}')
    ensures Feed(resolve, s, t + ['}', '}']) ==
            if t == s.beginTag then Start(s.out + resolve(s.buffer + (t + ['}', '}'])))
            else s.(mode := MustacheBlock, buffer := s.buffer + (t + ['}', '}']))
  {
    hide Feed;
    PassEndTag(resolve, s, t);
    FeedThenPair(resolve, s, t, '}', '}');
  }

  /** The closing tag, from the character after its slash to its double brace. */
  lemma EndTagToBrace(resolve: Resolver, s: Scan, text: string, r: nat, p: Place)
    requires s.mode == MustacheBlockEnd && s.endTag == "" && r <= |text| && Stretched(text, '}', r, p)
    ensures match p
            case Nowhere => StillHolding(s, Feed(resolve, s, text[r..]), text[r..])
            case At(e) =>
              Feed(resolve, s, text[r..e + 2]) ==
              if text[r..e] == s.beginTag then Start(s.out + resolve(s.buffer + text[r..e + 2]))
              else s.(mode := MustacheBlock, buffer := s.buffer + text[r..e + 2])
  {
    hide Feed, NoPair, EndsWith;
    match p
    case Nowhere => PassEndTag(resolve, s, text[r..]);
    case At(e) => EndTagCloses(resolve, s, text[r..e]);
  }

  /** What there is to show about the text from r on: that it is held back, or that the scanner comes
      to the end of the tag at e and hands over all that it has held. */
  ghost predicate Outcome(resolve: Resolver, s: Scan, text: string, r: nat, end: Place)
    requires r <= |text|
  {
    match end
    case Nowhere => StillHolding(s, Feed(resolve, s, text[r..]), text[r..])
    case At(e) => r <= e <= |text| && Feed(resolve, s, text[r..e]) == Start(s.out + resolve(s.buffer + text[r..e]))
  }

  /** Inside a block the scanner stops where the search for the block's end does. */
  lemma {:induction false} BlockRun(resolve: Resolver, s: Scan, text: string, r: nat)
    requires s.mode == MustacheBlock && s.endTag == "" && r <= |text|
    ensures Outcome(resolve, s, text, r, BlockEnd(text, s.beginTag, r))
    decreases |text| - r
  {
    hide Feed, Find, Stretched;
    Stretch(text, '{', r);
    match Find(text, '{', r)
    case Nowhere =>
      BlockHoldsOn(resolve, s, text, r);
    case At(q) =>
      BlockAtBrace(resolve, s, text, r, q);
      if q + 2 < |text| {
        var k := q + 3;
        var m := Feed(resolve, s, text[r..k]);
        if text[q + 2] != '/' {
          BlockRun(resolve, m, text, k);
        } else {
          ClosingTagRun(resolve, m, text, k);
          if Find(text, '}', k).At? && text[k..Find(text, '}', k).index] != s.beginTag {
            var j := Find(text, '}', k).index + 2;
            var f := Feed(resolve, m, text[k..j]);
            BlockRun(resolve, f, text, j);
            Continue(resolve, m, f, text, k, j, BlockEnd(text, s.beginTag, j));
          }
        }
        Continue(resolve, s, m, text, r, k, BlockEnd(text, s.beginTag, r));
      }
  }

  lemma BlockHoldsOn(resolve: Resolver, s: Scan, text: string, r: nat)
    requires s.mode == MustacheBlock && r <= |text| && Stretched(text, '{', r, Nowhere)
    ensures Outcome(resolve, s, text, r, Nowhere)
  {
    hide Feed, NoPair, EndsWith;
    BlockHolds(resolve, s, text[r..]);
  }

  lemma ClosingTagRun(resolve: Resolver, s: Scan, text: string, r: nat)
    requires s.mode == MustacheBlockEnd && s.endTag == "" && r <= |text|
    ensures match Find(text, '}', r)
            case Nowhere => Outcome(resolve, s, text, r, Nowhere)
            case At(e) =>
              if text[r..e] == s.beginTag then Outcome(resolve, s, text, r, At(e + 2))
              else Feed(resolve, s, text[r..e + 2]) == s.(mode := MustacheBlock, buffer := s.buffer + text[r..e + 2])
  {
    hide Feed, Find, Stretched;
    Stretch(text, '}', r);
    EndTagToBrace(resolve, s, text, r, Find(text, '}', r));
  }

  /** A result about the text from k on, carried back to r. */
  lemma Continue(resolve: Resolver, s: Scan, m: Scan, text: string, r: nat, k: nat, end: Place)
    requires r <= k <= |text| && m == Feed(resolve, s, text[r..k])
    requires m.buffer == s.buffer + text[r..k] && m.out == s.out
    requires Outcome(resolve, m, text, k, end)
    ensures Outcome(resolve, s, text, r, end)
  {
    hide Feed;
    match end
    case Nowhere =>
      assert text[r..] == text[r..k] + text[k..];
      Both(resolve, s, text[r..k], text[k..]);
    case At(e) =>
      assert text[r..e] == text[r..k] + text[k..e];
      Both(resolve, s, text[r..k], text[k..e]);
  }

  lemma Both(resolve: Resolver, s: Scan, a: string, b: string)
    ensures Feed(resolve, s, a + b) == Feed(resolve, Feed(resolve, s, a), b)
    ensures s.buffer + a + b == s.buffer + (a + b)
  {
    FeedConcat(resolve, s, a, b);
  }

  /** From the double brace that opens a tag: the scanner holds the text back until the tag is over,
      then hands exactly the tag to the resolver. */
  lemma TagRun(resolve: Resolver, out: string, text: string, o: nat)
    requires PairAt(text, '{', o)
    ensures Outcome(resolve, Start(out), text, o, TagEnd(text, o))
  {
    hide Feed, Find, BlockEnd;
    var s := Start(out);
    FeedPair(resolve, s, '{', '{');
    assert text[o..o + 2] == ['{', '{'];
    var m := Feed(resolve, s, text[o..o + 2]);
    if o + 2 == |text| {
      assert text[o..] == text[o..o + 2];
    } else {
      OpenedTagRun(resolve, m, text, o + 2);
      Continue(resolve, s, m, text, o, o + 2, TagEnd(text, o));
    }
  }

  lemma OpenedTagRun(resolve: Resolver, s: Scan, text: string, k: nat)
    requires 2 <= k < |text|
    requires s.mode == Mustache && s.beginTag == "" && s.endTag == ""
    ensures Outcome(resolve, s, text, k, TagEnd(text, k - 2))
  {
    hide Feed, Find, BlockEnd;
    var c := text[k];
    assert text[k..k + 1] == [c];
    FeedOne(resolve, s, c);
    var m := Feed(resolve, s, text[k..k + 1]);
    if Sigil(c) {
      BeginTagRun(resolve, m, text, k + 1);
    } else {
      VariableRun(resolve, m, text, k + 1);
    }
    Continue(resolve, s, m, text, k, k + 1, TagEnd(text, k - 2));
  }

  lemma VariableCloses(resolve: Resolver, s: Scan, t: string)
    requires s.mode == MustacheVar && s.beginTag == "" && s.endTag == "" && NoPair(t, '}') && !EndsWith(t, '}')
    ensures Feed(resolve, s, t + ['}', '}']) == Start(s.out + resolve(s.buffer + (t + ['}', '}'])))
  {
    hide Feed;
    PassVariable(resolve, s, t);
    FeedThenPair(resolve, s, t, '}', '}');
  }

  function Past(p: Place): Place {
    if p.At? then At(p.index + 2) else Nowhere
  }

  lemma VariableRun(resolve: Resolver, s: Scan, text: string, r: nat)
    requires s.mode == MustacheVar && s.beginTag == "" && s.endTag == "" && r <= |text|
    ensures Outcome(resolve, s, text, r, Past(Find(text, '}', r)))
  {
    hide Feed, Find, NoPair, EndsWith;
    Stretch(text, '}', r);
    match Find(text, '}', r)
    case Nowhere => PassVariable(resolve, s, text[r..]);
    case At(e) => VariableCloses(resolve, s, text[r..e]);
  }

  lemma BeginTagCloses(resolve: Resolver, s: Scan, t: string)
    requires s.mode == MustacheBlockBegin && s.beginTag == "" && NoPair(t, '}') && !EndsWith(t, '}')
    ensures Feed(resolve, s, t + ['}', '}']) ==
            s.(mode := MustacheBlock, beginTag := t, buffer := s.buffer + (t + ['}', '}']))
  {
    hide Feed;
    PassBeginTag(resolve, s, t);
    FeedThenPair(resolve, s, t, '}', '}');
  }

  lemma BeginTagRun(resolve: Resolver, s: Scan, text: string, r: nat)
    requires s.mode == MustacheBlockBegin && s.beginTag == "" && s.endTag == "" && r <= |text|
    ensures match Find(text, '}', r)
            case Nowhere => Outcome(resolve, s, text, r, Nowhere)
            case At(first) => Outcome(resolve, s, text, r, BlockEnd(text, text[r..first], first + 2))
  {
    hide Feed, Find, BlockEnd, NoPair, EndsWith;
    Stretch(text, '}', r);
    match Find(text, '}', r)
    case Nowhere => PassBeginTag(resolve, s, text[r..]);
    case At(first) =>
      BeginTagCloses(resolve, s, text[r..first]);
      var m := Feed(resolve, s, text[r..first + 2]);
      BlockRun(resolve, m, text, first + 2);
      Continue(resolve, s, m, text, r, first + 2, BlockEnd(text, text[r..first], first + 2));
  }

  // ---- the scanner refines the segmentation ---------------------------------------------------

  function Render(resolve: Resolver, pieces: seq<Piece>): string {
    if pieces == [] then ""
    else (if pieces[0].Tag? then resolve(pieces[0].text) else pieces[0].text) + Render(resolve, pieces[1..])
  }

  /** The text that has been taken in and not been passed on. */
  function HeldBack(s: Scan): string {
    if s.mode == Nil then "" else if s.mode == Obrace then "{" else s.buffer
  }

  predicate Refines(f: Scan, out: string, tail: string) {
    f.out == out && HeldBack(f) == tail
  }

  /** For every text and every resolver: what has been written is the literal pieces as they are and
      the tags resolved, and what is held back is the tail. */
  lemma {:induction false} ScannerRefinesSegments(resolve: Resolver, out: string, text: string)
    ensures var g := Segment(text); Refines(Feed(resolve, Start(out), text), out + Render(resolve, g.pieces), g.tail)
    decreases |text|
  {
    hide Feed, Find, TagEnd, Refines, Render, Outcome;
    match Find(text, '{', 0)
    case Nowhere =>
      PlainText(resolve, out, text);
    case At(o) =>
      UpToTag(resolve, out, text);
      TagRun(resolve, out + text[..o], text, o);
      match TagEnd(text, o)
      case Nowhere =>
        BeforeTail(resolve, out, text, o);
      case At(e) =>
        ScannerRefinesSegments(resolve, out + text[..o] + resolve(text[o..e]), text[e..]);
        TagIsHandedOver(resolve, out + text[..o], text, o, e);
        AfterTag(resolve, out, text[..o], text[o..e], text[e..], Segment(text[e..]));
        assert text == text[..o] + (text[o..e] + text[e..]);
  }

  lemma TagIsHandedOver(resolve: Resolver, out: string, text: string, o: nat, e: nat)
    requires o <= |text| && Outcome(resolve, Start(out), text, o, At(e))
    ensures e <= |text| && o <= e && Feed(resolve, Start(out), text[o..e]) == Start(out + resolve(text[o..e]))
  {
    hide Feed;
    assert "" + text[o..e] == text[o..e];
  }

  lemma PlainText(resolve: Resolver, out: string, text: string)
    requires Find(text, '{', 0).Nowhere?
    ensures var g := Segment(text); Refines(Feed(resolve, Start(out), text), out + Render(resolve, g.pieces), g.tail)
  {
    hide Feed, Find;
    Stretch(text, '{', 0);
    assert text[0..] == text;
    PassLiteral(resolve, Start(out), text);
    RenderOne(resolve, Segment(text).pieces);
  }

  lemma UpToTag(resolve: Resolver, out: string, text: string)
    requires Find(text, '{', 0).At?
    ensures var o := Find(text, '{', 0).index;
            PairAt(text, '{', o) && Feed(resolve, Start(out), text[..o]) == Start(out + text[..o])
  {
    hide Feed, Find;
    Stretch(text, '{', 0);
    FindIsFirst(text, '{', 0);
    var o := Find(text, '{', 0).index;
    assert text[0..o] == text[..o];
    PassLiteral(resolve, Start(out), text[..o]);
  }

  lemma BeforeTail(resolve: Resolver, out: string, text: string, o: nat)
    requires o <= |text| && Feed(resolve, Start(out), text[..o]) == Start(out + text[..o])
    requires Outcome(resolve, Start(out + text[..o]), text, o, Nowhere)
    ensures Refines(Feed(resolve, Start(out), text), out + Render(resolve, [Literal(text[..o])]), text[o..])
  {
    hide Feed;
    assert text == text[..o] + text[o..];
    FeedConcat(resolve, Start(out), text[..o], text[o..]);
    RenderOne(resolve, [Literal(text[..o])]);
  }

  lemma AfterTag(resolve: Resolver, out: string, literal: string, tag: string, rest: string, g: Segmentation)
    requires Feed(resolve, Start(out), literal) == Start(out + literal)
    requires Feed(resolve, Start(out + literal), tag) == Start(out + literal + resolve(tag))
    requires var done := out + literal + resolve(tag);
             Refines(Feed(resolve, Start(done), rest), done + Render(resolve, g.pieces), g.tail)
    ensures Refines(Feed(resolve, Start(out), literal + (tag + rest)),
                    out + Render(resolve, [Literal(literal), Tag(tag)] + g.pieces), g.tail)
  {
    hide Feed;
    FeedTwo(resolve, out, literal, tag, rest);
    RenderTwo(resolve, literal, tag, g.pieces);
    Regroup(out, literal, resolve(tag), Render(resolve, g.pieces));
  }

  lemma FeedTwo(resolve: Resolver, out: string, literal: string, tag: string, rest: string)
    requires Feed(resolve, Start(out), literal) == Start(out + literal)
    requires Feed(resolve, Start(out + literal), tag) == Start(out + literal + resolve(tag))
    ensures Feed(resolve, Start(out), literal + (tag + rest)) == Feed(resolve, Start(out + literal + resolve(tag)), rest)
  {
    hide Feed;
    FeedConcat(resolve, Start(out), literal, tag + rest);
    FeedConcat(resolve, Start(out + literal), tag, rest);
  }

  lemma Regroup(a: string, b: string, c: string, d: string)
    ensures a + b + c + d == a + (b + (c + d))
  {
  }

  lemma RenderOne(resolve: Resolver, pieces: seq<Piece>)
    requires |pieces| == 1 && pieces[0].Literal?
    ensures Render(resolve, pieces) == pieces[0].text
  {
    assert pieces[1..] == [];
  }

  lemma RenderTwo(resolve: Resolver, literal: string, tag: string, rest: seq<Piece>)
    ensures Render(resolve, [Literal(literal), Tag(tag)] + rest) == literal + (resolve(tag) + Render(resolve, rest))
  {
    var all := [Literal(literal), Tag(tag)] + rest;
    assert all[1..] == [Tag(tag)] + rest;
    assert all[1..][1..] == rest;
  }

  /** With a resolver that leaves the tags as they are, the whole template comes out but for what is held
      back. */
  lemma NothingIsLost(resolve: Resolver, text: string)
    requires forall p :: p in Segment(text).pieces && p.Tag? ==> resolve(p.text) == p.text
    ensures var f := Feed(resolve, Start(""), text); f.out + HeldBack(f) == text
  {
    ScannerRefinesSegments(resolve, "", text);
    RenderUnchanged(resolve, Segment(text).pieces);
    SegmentSpells(text);
    var f, g := Feed(resolve, Start(""), text), Segment(text);
    assert f.out == "" + Spell(g.pieces) == Spell(g.pieces);
  }

  lemma {:induction false} RenderUnchanged(resolve: Resolver, pieces: seq<Piece>)
    requires forall p :: p in pieces && p.Tag? ==> resolve(p.text) == p.text
    ensures Render(resolve, pieces) == Spell(pieces)
  {
    if pieces != [] {
      RenderUnchanged(resolve, pieces[1..]);
    }
  }

  predicate InBlock(m: Mode) {
    m.MustacheBlockBegin? || m.MustacheBlockBeginCbrace? || m.MustacheBlock? || m.MustacheBlockObrace?
    || m.MustacheBlockMustache? || m.MustacheBlockEnd? || m.MustacheBlockEndCbrace?
  }

  /** Between tags all three buffers are empty; the closing tag is collected only while it is read. */
  lemma {:induction false} BuffersAreClean(resolve: Resolver, out: string, text: string)
    ensures var f := Feed(resolve, Start(out), text);
            && (f.mode == Nil || f.mode == Obrace ==> f.buffer == "")
            && (!InBlock(f.mode) ==> f.beginTag == "")
            && (f.mode != MustacheBlockEnd && f.mode != MustacheBlockEndCbrace ==> f.endTag == "")
            && (f.mode == Nil <==> HeldBack(f) == "")
  {
    if text != "" {
      BuffersAreClean(resolve, out, text[..|text| - 1]);
    }
  }

  /** A single brace in front of a closing tag hides it: `{{{/T}}` does not end a block, whatever T. */
  lemma BraceHidesClosingTag(resolve: Resolver, s: Scan, tag: string)
    requires s.mode == MustacheBlock && '{' !in tag
    ensures var f := Feed(resolve, s, "{{{/" + tag + "}}"); f.mode == MustacheBlock && f.out == s.out
  {
    var first, rest := "" + ['{', '{'] + ['{'], "/" + tag + "}}";
    assert "{{{/" + tag + "}}" == first + rest;
    BlockBrace(resolve, s, "", '{');
    FeedConcat(resolve, s, first, rest);
    PassBlock(resolve, Feed(resolve, s, first), rest);
  }
}
