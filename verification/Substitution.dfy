/** Filling in the numbered placeholders of a code template, one argument after the other. */
module Substitution {
  import opened Numerals

  // ---- one pass ------------------------------------------------------------------------------

  predicate StartsWith(s: string, prefix: string) {
    prefix <= s
  }

  /** Every occurrence of the anchor from left to right; what is put in is not looked at again. */
  function ReplaceAll(s: string, anchor: string, with: string): string
    requires anchor != ""
  {
    if s == "" then ""
    else if StartsWith(s, anchor) then with + ReplaceAll(s[|anchor|..], anchor, with)
    else [s[0]] + ReplaceAll(s[1..], anchor, with)
  }

  datatype Found = Missing | Position(pos: nat)

  predicate OccursAt(s: string, anchor: string, i: nat) {
    i + |anchor| <= |s| && s[i..i + |anchor|] == anchor
  }

  /** The library's search: the first occurrence from pos on. */
  method FindFrom(s: string, anchor: string, pos: nat) returns (f: Found)
    requires pos <= |s|
    ensures f.Position? ==> pos <= f.pos && OccursAt(s, anchor, f.pos)
    ensures forall i :: pos <= i && (f.Position? ==> i < f.pos) ==> !OccursAt(s, anchor, i)
  {
    var i := pos;
    while i <= |s|
      invariant pos <= i <= |s| + 1
      invariant forall j :: pos <= j < i ==> !OccursAt(s, anchor, j)
    {
      if i + |anchor| <= |s| && s[i..i + |anchor|] == anchor {
        return Position(i);
      }
      i := i + 1;
    }
    return Missing;
  }

  lemma OccursInRest(s: string, anchor: string, pos: nat, i: nat)
    requires pos <= |s|
    ensures OccursAt(s[pos..], anchor, i) <==> OccursAt(s, anchor, pos + i)
  {
    if pos + i + |anchor| <= |s| {
      assert s[pos..][i..i + |anchor|] == s[pos + i..pos + i + |anchor|];
    }
  }

  lemma {:induction false} NothingToReplace(s: string, anchor: string, with: string)
    requires anchor != "" && forall i :: 0 <= i ==> !OccursAt(s, anchor, i)
    ensures ReplaceAll(s, anchor, with) == s
  {
    if s != "" {
      assert !OccursAt(s, anchor, 0);
      forall i | 0 <= i ensures !OccursAt(s[1..], anchor, i) {
        OccursInRest(s, anchor, 1, i);
      }
      NothingToReplace(s[1..], anchor, with);
    }
  }

  lemma Shift(s: string, p: nat, q: nat, with: string, end: string)
    requires 1 <= p <= q <= |s|
    ensures s[1..][q - 1..] == s[q..] && [s[0]] + (s[1..][..p - 1] + with + end) == s[..p] + with + end
  {
    assert [s[0]] + s[1..][..p - 1] == s[..p];
  }

  lemma {:induction false} FirstReplacement(s: string, anchor: string, with: string, p: nat)
    requires anchor != "" && OccursAt(s, anchor, p) && forall i :: 0 <= i < p ==> !OccursAt(s, anchor, i)
    ensures ReplaceAll(s, anchor, with) == s[..p] + with + ReplaceAll(s[p + |anchor|..], anchor, with)
  {
    if p == 0 {
      assert s[..0] + with == with;
    } else {
      assert !OccursAt(s, anchor, 0);
      OccursInRest(s, anchor, 1, p - 1);
      forall i | 0 <= i < p - 1 ensures !OccursAt(s[1..], anchor, i) {
        OccursInRest(s, anchor, 1, i);
      }
      FirstReplacement(s[1..], anchor, with, p - 1);
      Shift(s, p, p + |anchor|, with, ReplaceAll(s[p + |anchor|..], anchor, with));
    }
  }

  /** The loop of one pass.  It ends whatever the argument holds, the anchor included, because the
      search goes on behind what was put in. */
  method Replace(fmtstr: string, index: nat, s: string) returns (r: string)
    ensures r == ReplaceAll(fmtstr, Anchor(index), s)
  {
    var anchor := Anchor(index);
    r := fmtstr;
    var pos: nat := 0;
    while true
      invariant pos <= |r|
      invariant ReplaceAll(fmtstr, anchor, s) == r[..pos] + ReplaceAll(r[pos..], anchor, s)
      decreases |r| - pos
    {
      var f := FindFrom(r, anchor, pos);
      match f
      case Missing =>
        LastPart(r, anchor, s, pos);
        return;
      case Position(p) =>
        NextPart(r, anchor, s, pos, p);
        r := r[..p] + s + r[p + |anchor|..];
        pos := p + |s|;
    }
  }

  lemma LastPart(r: string, anchor: string, with: string, pos: nat)
    requires pos <= |r| && anchor != "" && forall i :: pos <= i ==> !OccursAt(r, anchor, i)
    ensures r[..pos] + ReplaceAll(r[pos..], anchor, with) == r
  {
    forall i: nat ensures !OccursAt(r[pos..], anchor, i) {
      OccursInRest(r, anchor, pos, i);
    }
    NothingToReplace(r[pos..], anchor, with);
  }

  lemma NextPart(r: string, anchor: string, with: string, pos: nat, p: nat)
    requires pos <= p && anchor != "" && OccursAt(r, anchor, p) && forall i :: pos <= i < p ==> !OccursAt(r, anchor, i)
    ensures var r', pos' := r[..p] + with + r[p + |anchor|..], p + |with|;
            r[..pos] + ReplaceAll(r[pos..], anchor, with) == r'[..pos'] + ReplaceAll(r'[pos'..], anchor, with)
  {
    forall i: nat ensures OccursAt(r[pos..], anchor, i) <==> OccursAt(r, anchor, pos + i) {
      OccursInRest(r, anchor, pos, i);
    }
    FirstReplacement(r[pos..], anchor, with, p - pos);
    var rest := r[p + |anchor|..];
    assert r[pos..][p - pos + |anchor|..] == rest;
    Splice(r, with, rest, pos, p, ReplaceAll(rest, anchor, with));
  }

  lemma Splice(r: string, with: string, rest: string, pos: nat, p: nat, end: string)
    requires pos <= p <= |r|
    ensures var r' := r[..p] + with + rest;
            r'[p + |with|..] == rest && r[..pos] + (r[pos..][..p - pos] + with + end) == r'[..p + |with|] + end
  {
    assert r[..pos] + r[pos..][..p - pos] == r[..p];
    assert (r[..p] + with + rest)[..p + |with|] == r[..p] + with;
  }

  // ---- all the passes ------------------------------------------------------------------------

  function Anchor(i: nat): (a: string)
    ensures a != ""
  {
    "{" + Numeral(10, i) + "}"
  }

  function Passes(src: string, index: nat, args: seq<string>): string
    decreases |args| - index
  {
    if index >= |args| then src else Passes(ReplaceAll(src, Anchor(index), args[index]), index + 1, args)
  }

  method SubstituteFrom(src: string, index: nat, args: seq<string>) returns (r: string)
    requires index <= |args|
    ensures r == Passes(src, index, args)
    decreases |args| - index
  {
    if index == |args| {
      return src;
    }
    r := Replace(src, index, args[index]);
    r := SubstituteFrom(r, index + 1, args);
  }

  method Substitute(src: string, args: seq<string>) returns (r: string)
    ensures r == Passes(src, 0, args)
  {
    r := SubstituteFrom(src, 0, args);
  }

  // ---- templates -----------------------------------------------------------------------------

  /** A template: text without an opening brace, and placeholders. */
  datatype Token = Text(text: string) | Slot(index: nat)

  predicate Plain(ts: seq<Token>) {
    forall t :: t in ts && t.Text? ==> '{' !in t.text
  }

  function Show(t: Token): string {
    match t
    case Text(text) => text
    case Slot(i) => Anchor(i)
  }

  function Flatten(ts: seq<Token>): string {
    if ts == [] then "" else Show(ts[0]) + Flatten(ts[1..])
  }

  function FlattenAll(args: seq<seq<Token>>): (r: seq<string>)
    ensures |r| == |args| && forall i :: 0 <= i < |r| ==> r[i] == Flatten(args[i])
  {
    if args == [] then [] else [Flatten(args[0])] + FlattenAll(args[1..])
  }

  /** The arguments put in for their slots, all at once. */
  function Instantiate(ts: seq<Token>, args: seq<string>): string {
    if ts == [] then ""
    else (if ts[0].Slot? && ts[0].index < |args| then args[ts[0].index] else Show(ts[0])) + Instantiate(ts[1..], args)
  }

  /** The arguments put in for their slots, where an argument's own slots are filled in as well, but
      only by later arguments. */
  function Expand(ts: seq<Token>, k: nat, args: seq<seq<Token>>): string
    decreases if k < |args| then |args| - k else 0, |ts| + 1
  {
    if ts == [] then "" else ExpandToken(ts[0], k, args) + Expand(ts[1..], k, args)
  }

  function ExpandToken(t: Token, k: nat, args: seq<seq<Token>>): string
    decreases if k < |args| then |args| - k else 0, 0
  {
    if t.Slot? && k <= t.index < |args| then Expand(args[t.index], t.index + 1, args) else Show(t)
  }

  function Inline(ts: seq<Token>, k: nat, with: seq<Token>): seq<Token> {
    if ts == [] then [] else (if ts[0] == Slot(k) then with else [ts[0]]) + Inline(ts[1..], k, with)
  }

  lemma {:induction false} SkipText(t: string, s: string, anchor: string, with: string)
    requires '{' !in t && anchor != "" && anchor[0] == '{'
    ensures ReplaceAll(t + s, anchor, with) == t + ReplaceAll(s, anchor, with)
  {
    if t == "" {
      assert t + s == s;
    } else {
      assert (t + s)[0] == t[0] && (t + s)[1..] == t[1..] + s;
      SkipText(t[1..], s, anchor, with);
    }
  }

  lemma NumeralHasNoBraces(i: nat)
    ensures '{' !in Numeral(10, i) && '}' !in Numeral(10, i)
  {
    var n := Numeral(10, i);
    NumeralReadsBack(10, i);
    forall c | c in n ensures IsDigit(10, c) {
      var j :| 0 <= j < |n| && n[j] == c;
      assert IsDigit(10, n[j]);
    }
  }

  /** An anchor in front of anything is recognised as itself and as no other. */
  lemma AnchorsDiffer(i: nat, k: nat, s: string)
    ensures StartsWith(Anchor(i) + s, Anchor(k)) <==> i == k
  {
    var a, b := Numeral(10, i), Numeral(10, k);
    NumeralHasNoBraces(i);
    NumeralHasNoBraces(k);
    if StartsWith(Anchor(i) + s, Anchor(k)) {
      Delimited(a, b, s);
      NumeralReadsBack(10, i);
      NumeralReadsBack(10, k);
    }
  }

  lemma Delimited(a: string, b: string, s: string)
    requires '}' !in a && '}' !in b && "{" + b + "}" <= "{" + a + "}" + s
    ensures a == b
  {
    var t, u := "{" + a + "}" + s, "{" + b + "}";
    assert t[|a| + 1] == '}' && u[|b| + 1] == '}';
    if |a| == |b| {
      forall j | 0 <= j < |a| ensures a[j] == b[j] {
        assert t[j + 1] == a[j] && u[j + 1] == b[j];
      }
    }
  }

  /** One pass over a template fills in one slot and disturbs nothing else. */
  lemma {:induction false} PassInlines(ts: seq<Token>, k: nat, with: seq<Token>)
    requires Plain(ts)
    ensures ReplaceAll(Flatten(ts), Anchor(k), Flatten(with)) == Flatten(Inline(ts, k, with))
  {
    if ts != [] {
      var rest := Flatten(ts[1..]);
      PassInlines(ts[1..], k, with);
      match ts[0]
      case Text(text) =>
        SkipText(text, rest, Anchor(k), Flatten(with));
        FlattenConcat([ts[0]], Inline(ts[1..], k, with));
        FlattenOne(ts[0]);
      case Slot(i) =>
        PassOverSlot(i, k, rest, Flatten(with));
        FlattenConcat(if i == k then with else [ts[0]], Inline(ts[1..], k, with));
        FlattenOne(ts[0]);
    }
  }

  lemma PassOverSlot(i: nat, k: nat, rest: string, with: string)
    ensures ReplaceAll(Anchor(i) + rest, Anchor(k), with) ==
            (if i == k then with else Anchor(i)) + ReplaceAll(rest, Anchor(k), with)
  {
    hide Numeral;
    AnchorsDiffer(i, k, rest);
    var s := Anchor(i) + rest;
    if i == k {
      assert s[|Anchor(k)|..] == rest;
    } else {
      var tail := Numeral(10, i) + "}";
      NumeralHasNoBraces(i);
      assert s[0] == '{' && s[1..] == tail + rest;
      SkipText(tail, rest, Anchor(k), with);
      assert Anchor(i) == ['{'] + tail;
    }
  }

  lemma FlattenOne(t: Token)
    ensures Flatten([t]) == Show(t)
  {
    assert [t][1..] == [];
  }

  lemma {:induction false} FlattenConcat(a: seq<Token>, b: seq<Token>)
    ensures Flatten(a + b) == Flatten(a) + Flatten(b)
  {
    if a == [] {
      assert a + b == b;
    } else {
      assert (a + b)[1..] == a[1..] + b;
      FlattenConcat(a[1..], b);
    }
  }

  lemma {:induction false} ExpandConcat(a: seq<Token>, b: seq<Token>, k: nat, args: seq<seq<Token>>)
    ensures Expand(a + b, k, args) == Expand(a, k, args) + Expand(b, k, args)
    decreases |a|
  {
    if a == [] {
      assert a + b == b;
    } else {
      assert (a + b)[1..] == a[1..] + b;
      ExpandConcat(a[1..], b, k, args);
      var first := ExpandToken(a[0], k, args);
      assert first + (Expand(a[1..], k, args) + Expand(b, k, args))
          == first + Expand(a[1..], k, args) + Expand(b, k, args);
    }
  }

  lemma {:induction false} ExpandInline(ts: seq<Token>, k: nat, args: seq<seq<Token>>)
    requires k < |args|
    ensures Expand(Inline(ts, k, args[k]), k + 1, args) == Expand(ts, k, args)
    decreases |ts|
  {
    if ts != [] {
      ExpandInline(ts[1..], k, args);
      var first := if ts[0] == Slot(k) then args[k] else [ts[0]];
      ExpandConcat(first, Inline(ts[1..], k, args[k]), k + 1, args);
      ExpandSingle(ts[0], k + 1, args);
    }
  }

  lemma ExpandSingle(t: Token, k: nat, args: seq<seq<Token>>)
    ensures Expand([t], k, args) == ExpandToken(t, k, args)
  {
    assert [t][1..] == [];
  }

  lemma {:induction false} InlinePlain(ts: seq<Token>, k: nat, with: seq<Token>)
    requires Plain(ts) && Plain(with)
    ensures Plain(Inline(ts, k, with))
  {
    if ts != [] {
      InlinePlain(ts[1..], k, with);
    }
  }

  lemma {:induction false} NoPassesLeft(ts: seq<Token>, k: nat, args: seq<seq<Token>>)
    requires k >= |args|
    ensures Expand(ts, k, args) == Flatten(ts)
    decreases |ts|
  {
    if ts != [] {
      NoPassesLeft(ts[1..], k, args);
    }
  }

  /** For every template and all arguments that are templates themselves: the passes expand the slots,
      each argument being expanded by the arguments that come after it. */
  lemma {:induction false} PassesExpand(ts: seq<Token>, k: nat, args: seq<seq<Token>>)
    requires Plain(ts) && forall a :: a in args ==> Plain(a)
    ensures Passes(Flatten(ts), k, FlattenAll(args)) == Expand(ts, k, args)
    decreases |args| - k
  {
    if k >= |args| {
      NoPassesLeft(ts, k, args);
    } else {
      assert args[k] in args;
      PassInlines(ts, k, args[k]);
      InlinePlain(ts, k, args[k]);
      PassesExpand(Inline(ts, k, args[k]), k + 1, args);
      ExpandInline(ts, k, args);
    }
  }

  /** Later arguments leave every argument as it is. */
  predicate Settled(args: seq<seq<Token>>) {
    forall i :: 0 <= i < |args| ==> Expand(args[i], i + 1, args) == Flatten(args[i])
  }

  lemma {:induction false} ExpandOnce(ts: seq<Token>, args: seq<seq<Token>>)
    requires Settled(args)
    ensures Expand(ts, 0, args) == Instantiate(ts, FlattenAll(args))
    decreases |ts|
  {
    if ts != [] {
      ExpandOnce(ts[1..], args);
    }
  }

  /** The passes one after the other are one simultaneous substitution, for every template, if and only
      if no argument is changed by the arguments that come after it. */
  lemma PassesAreSimultaneousExactly(args: seq<seq<Token>>)
    requires forall a :: a in args ==> Plain(a)
    ensures (forall ts :: Plain(ts) ==> Passes(Flatten(ts), 0, FlattenAll(args)) == Instantiate(ts, FlattenAll(args)))
            <==> Settled(args)
  {
    forall ts | Plain(ts) ensures Passes(Flatten(ts), 0, FlattenAll(args)) == Expand(ts, 0, args) {
      PassesExpand(ts, 0, args);
    }
    if Settled(args) {
      forall ts | Plain(ts) ensures Expand(ts, 0, args) == Instantiate(ts, FlattenAll(args)) {
        ExpandOnce(ts, args);
      }
    } else {
      var i :| 0 <= i < |args| && Expand(args[i], i + 1, args) != Flatten(args[i]);
      OneSlot(i, args);
      assert Plain([Slot(i)]);
    }
  }

  /** The template that is one slot shows what becomes of that argument. */
  lemma OneSlot(i: nat, args: seq<seq<Token>>)
    requires i < |args|
    ensures Expand([Slot(i)], 0, args) == Expand(args[i], i + 1, args)
    ensures Instantiate([Slot(i)], FlattenAll(args)) == Flatten(args[i])
  {
    ExpandSingle(Slot(i), 0, args);
    assert [Slot(i)][1..] == [];
  }

  /** No argument has a slot for an argument that comes after it. */
  predicate NoneForward(args: seq<seq<Token>>) {
    forall i, t :: 0 <= i < |args| && t in args[i] && t.Slot? ==> t.index <= i || t.index >= |args|
  }

  lemma {:induction false} ExpandClosed(ts: seq<Token>, k: nat, args: seq<seq<Token>>)
    requires forall t :: t in ts && t.Slot? ==> t.index < k || t.index >= |args|
    ensures Expand(ts, k, args) == Flatten(ts)
    decreases |ts|
  {
    if ts != [] {
      ExpandClosed(ts[1..], k, args);
    }
  }

  /** That can be read off the arguments when none has a slot for a later one. */
  lemma NoneForwardIsSettled(args: seq<seq<Token>>)
    requires NoneForward(args)
    ensures Settled(args)
  {
    forall i | 0 <= i < |args| ensures Expand(args[i], i + 1, args) == Flatten(args[i]) {
      ExpandClosed(args[i], i + 1, args);
    }
  }

  function AsTokens(args: seq<string>): (r: seq<seq<Token>>)
    ensures |r| == |args| && forall i :: 0 <= i < |r| ==> r[i] == [Text(args[i])]
  {
    if args == [] then [] else [[Text(args[0])]] + AsTokens(args[1..])
  }

  /** In particular for any arguments without an opening brace. */
  lemma PlainArguments(ts: seq<Token>, args: seq<string>)
    requires Plain(ts) && forall a :: a in args ==> '{' !in a
    ensures Passes(Flatten(ts), 0, args) == Instantiate(ts, args)
  {
    var tokens := AsTokens(args);
    forall i | 0 <= i < |args| ensures FlattenAll(tokens)[i] == args[i] {
      FlattenOne(Text(args[i]));
    }
    assert FlattenAll(tokens) == args;
    forall a | a in tokens ensures Plain(a) {
      var i :| 0 <= i < |tokens| && tokens[i] == a;
      assert args[i] in args;
    }
    NoneForwardIsSettled(tokens);
    PassesAreSimultaneousExactly(tokens);
  }

  /** An argument that names the next slot is filled in by the next argument. */
  lemma ForwardSlotIsRefilled(x: string)
    requires '{' !in x && x != "{1}"
    ensures Passes("{0}", 0, ["{1}", x]) == x != Instantiate([Slot(0)], ["{1}", x])
  {
    var args := [[Slot(1)], [Text(x)]];
    FlattenOne(Slot(0));
    FlattenOne(Slot(1));
    FlattenOne(Text(x));
    assert Numeral(10, 0) == "0" && Numeral(10, 1) == "1";
    assert Anchor(0) == "{0}" && Anchor(1) == "{1}";
    assert FlattenAll(args)[0] == "{1}" && FlattenAll(args)[1] == x;
    assert FlattenAll(args) == ["{1}", x];
    PassesExpand([Slot(0)], 0, args);
    ExpandSingle(Text(x), 2, args);
    ExpandSingle(Slot(1), 1, args);
    ExpandSingle(Slot(0), 0, args);
    assert [Slot(0)][1..] == [];
  }

  /** A placeholder is a number in braces, written as usual: the argument of that number takes its place, and
      the text around it stays. */
  lemma PlaceholderIsFilled(before: string, digits: string, after: string, args: seq<string>, i: nat)
    requires '{' !in before && '{' !in after && forall a :: a in args ==> '{' !in a
    requires IsNumeral(10, digits) && (|digits| > 1 ==> digits[0] != '0') && ValueOf(10, digits) == i
    ensures Passes(before + "{" + digits + "}" + after, 0, args)
         == if i < |args| then before + args[i] + after else before + "{" + digits + "}" + after
  {
    hide Passes, Numeral, Instantiate, Flatten, IsNumeral, ValueOf;
    var ts, slot := [Text(before), Slot(i), Text(after)], "{" + digits + "}";
    NumeralIsUnique(10, digits);
    assert Anchor(i) == slot;
    ThreeTokens(Text(before), Slot(i), Text(after), args);
    PlainArguments(ts, args);
    ThreeTexts(before, digits, after);
    if i < |args| {
      assert before + (args[i] + after) == before + args[i] + after;
    }
  }

  lemma ThreeTexts(before: string, digits: string, after: string)
    ensures before + (("{" + digits + "}") + after) == before + "{" + digits + "}" + after
  {
  }

  lemma OneToken(t: Token, args: seq<string>)
    ensures Flatten([t]) == Show(t)
    ensures Instantiate([t], args) == if t.Slot? && t.index < |args| then args[t.index] else Show(t)
  {
    hide Numeral;
    assert [t][1..] == [];
  }

  lemma OneMoreToken(t: Token, ts: seq<Token>, args: seq<string>)
    ensures Flatten([t] + ts) == Show(t) + Flatten(ts)
    ensures Instantiate([t] + ts, args) == (if t.Slot? && t.index < |args| then args[t.index] else Show(t)) + Instantiate(ts, args)
  {
    hide Numeral;
    assert ([t] + ts)[0] == t && ([t] + ts)[1..] == ts;
  }

  lemma ThreeTokens(a: Token, b: Token, c: Token, args: seq<string>)
    requires a.Text? && c.Text?
    ensures Flatten([a, b, c]) == Show(a) + (Show(b) + Show(c))
    ensures var filled := if b.Slot? && b.index < |args| then args[b.index] else Show(b);
            Instantiate([a, b, c], args) == Show(a) + (filled + Show(c))
  {
    hide Flatten, Instantiate, Show;
    OneToken(c, args);
    OneMoreToken(b, [c], args);
    OneMoreToken(a, [b] + [c], args);
    assert [a, b, c] == [a] + ([b] + [c]);
  }
}
