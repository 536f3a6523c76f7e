/** The web console's templates read as a whole: literal text and mustache tags, found by searching for
    double braces.  Nothing here works character by character. */
module Segments {

  datatype Piece = Literal(text: string) | Tag(text: string)

  /** The pieces that are complete, and the end of the text that may still become a tag. */
  datatype Segmentation = Segmentation(pieces: seq<Piece>, tail: string)

  datatype Place = Nowhere | At(index: nat)

  predicate PairAt(text: string, c: char, i: nat) {
    i + 1 < |text| && text[i] == c && text[i + 1] == c
  }

  /** The first pair of c from a position on. */
  function Find(text: string, c: char, from: nat): (p: Place)
    requires from <= |text|
    ensures p.At? ==> from <= p.index && p.index + 2 <= |text|
    decreases |text| - from
  {
    if PairAt(text, c, from) then At(from)
    else if from == |text| then Nowhere
    else Find(text, c, from + 1)
  }

  lemma {:induction false} FindIsFirst(text: string, c: char, from: nat)
    requires from <= |text|
    ensures var p := Find(text, c, from);
            && (p.At? ==> PairAt(text, c, p.index))
            && forall i :: from <= i && (p.At? ==> i < p.index) ==> !PairAt(text, c, i)
    decreases |text| - from
  {
    if !PairAt(text, c, from) && from < |text| {
      FindIsFirst(text, c, from + 1);
    }
  }

  lemma {:induction false} FirstIsFound(text: string, c: char, from: nat, i: nat)
    requires from <= i <= |text| && (i == |text| || PairAt(text, c, i))
    requires forall j :: from <= j < i ==> !PairAt(text, c, j)
    ensures Find(text, c, from) == if i == |text| then Nowhere else At(i)
    decreases i - from
  {
    if from < i {
      FirstIsFound(text, c, from + 1, i);
    }
  }

  predicate Sigil(c: char) {
    c == '#' || c == '^'
  }

  /** Where the block with the given tag ends, searching from r: at the first `{{/` whose tag is the
      same; the character after any other `{{` is skipped. */
  function BlockEnd(text: string, tag: string, r: nat): (p: Place)
    requires r <= |text|
    ensures p.At? ==> r + |tag| + 5 <= p.index <= |text|
    decreases |text| - r
  {
    match Find(text, '{', r)
    case Nowhere => Nowhere
    case At(q) =>
      if q + 2 == |text| then Nowhere
      else if text[q + 2] != '/' then BlockEnd(text, tag, q + 3)
      else match Find(text, '}', q + 3)
        case Nowhere => Nowhere
        case At(e) =>
          if text[q + 3..e] == tag then At(e + 2) else BlockEnd(text, tag, e + 2)
  }

  lemma {:induction false} BlockEndsWithTag(text: string, tag: string, r: nat)
    requires r <= |text| && BlockEnd(text, tag, r).At?
    ensures var e := BlockEnd(text, tag, r).index; text[e - |tag| - 5..e] == "{{/" + tag + "}}"
    decreases |text| - r
  {
    hide Find;
    var q := Find(text, '{', r).index;
    FindIsFirst(text, '{', r);
    if text[q + 2] != '/' {
      BlockEndsWithTag(text, tag, q + 3);
    } else {
      var e := Find(text, '}', q + 3).index;
      FindIsFirst(text, '}', q + 3);
      if text[q + 3..e] == tag {
        ClosingTag(text, tag, q, e);
      } else {
        BlockEndsWithTag(text, tag, e + 2);
      }
    }
  }

  lemma ClosingTag(text: string, tag: string, q: nat, e: nat)
    requires q + 3 <= e <= |text| && PairAt(text, '{', q) && text[q + 2] == '/' && PairAt(text, '}', e) && text[q + 3..e] == tag
    ensures q == e + 2 - |tag| - 5 && text[q..e + 2] == "{{/" + tag + "}}"
  {
    assert text[q..e + 2] == text[q..q + 3] + text[q + 3..e] + text[e..e + 2];
  }

  /** Where the tag that opens at o ends. */
  function TagEnd(text: string, o: nat): (p: Place)
    requires o + 2 <= |text|
    ensures p.At? ==> o + 5 <= p.index <= |text|
  {
    if o + 2 == |text| then Nowhere
    else match Find(text, '}', o + 3)
      case Nowhere => Nowhere
      case At(e) => if Sigil(text[o + 2]) then BlockEnd(text, text[o + 3..e], e + 2) else At(e + 2)
  }

  function Segment(text: string): Segmentation
    decreases |text|
  {
    match Find(text, '{', 0)
    case Nowhere =>
      var n := |text|;
      if n > 0 && text[n - 1] == '{' then Segmentation([Literal(text[..n - 1])], "{")
      else Segmentation([Literal(text)], "")
    case At(o) =>
      match TagEnd(text, o)
      case Nowhere => Segmentation([Literal(text[..o])], text[o..])
      case At(e) =>
        var rest := Segment(text[e..]);
        Segmentation([Literal(text[..o]), Tag(text[o..e])] + rest.pieces, rest.tail)
  }

  // ---- what a segmentation is worth ----------------------------------------------------------

  function Spell(pieces: seq<Piece>): string {
    if pieces == [] then "" else pieces[0].text + Spell(pieces[1..])
  }

  /** The pieces and the tail spell the text, character for character. */
  lemma {:induction false} SegmentSpells(text: string)
    ensures Spell(Segment(text).pieces) + Segment(text).tail == text
    decreases |text|
  {
    match Find(text, '{', 0)
    case Nowhere =>
      SpellOne(text);
      SpellOne(text[..if |text| > 0 then |text| - 1 else 0]);
    case At(o) =>
      SpellOne(text[..o]);
      match TagEnd(text, o)
      case Nowhere =>
      case At(e) =>
        SegmentSpells(text[e..]);
        SpellTwo(text[..o], text[o..e], Segment(text[e..]).pieces);
        Join(text, o, e, Spell(Segment(text[e..]).pieces), Segment(text[e..]).tail);
  }

  lemma SpellOne(literal: string)
    ensures Spell([Literal(literal)]) == literal
  {
    assert [Literal(literal)][1..] == [];
  }

  lemma SpellTwo(literal: string, tag: string, rest: seq<Piece>)
    ensures Spell([Literal(literal), Tag(tag)] + rest) == literal + (tag + Spell(rest))
  {
    var all := [Literal(literal), Tag(tag)] + rest;
    assert all[1..] == [Tag(tag)] + rest;
    assert all[1..][1..] == rest;
  }

  lemma Join(text: string, o: nat, e: nat, spelt: string, tail: string)
    requires o <= e <= |text| && spelt + tail == text[e..]
    ensures text[..o] + (text[o..e] + spelt) + tail == text
  {
    assert text[..o] + (text[o..e] + spelt) + tail == text[..o] + (text[o..e] + (spelt + tail));
  }

  /** `{{v}}`, where v does not begin like a block and ends at the first `}}` that does not take in its
      first character. */
  predicate IsVariable(t: string) {
    && |t| >= 5 && PairAt(t, '{', 0) && !Sigil(t[2])
    && Find(t, '}', 3) == At(|t| - 2)
  }

  /** `{{#T}}...{{/T}}` or `{{^T}}...{{/T}}` with one and the same T. */
  predicate IsBlock(t: string, tag: string) {
    && |t| >= 2 * |tag| + 10 && PairAt(t, '{', 0) && Sigil(t[2])
    && t[3..|tag| + 3] == tag && Find(t, '}', 3) == At(|tag| + 3)
    && t[|t| - |tag| - 5..] == "{{/" + tag + "}}"
  }

  ghost predicate IsTag(t: string) {
    IsVariable(t) || exists tag :: IsBlock(t, tag)
  }

  lemma FindWithin(text: string, c: char, from: nat, o: nat, e: nat)
    requires o <= from <= e <= |text|
    requires var p := Find(text, c, from); p.At? && p.index + 2 <= e
    ensures Find(text[o..e], c, from - o) == At(Find(text, c, from).index - o)
  {
    var t, i := text[o..e], Find(text, c, from).index;
    FindIsFirst(text, c, from);
    forall j | from - o <= j < i - o ensures !PairAt(t, c, j) {
      assert !PairAt(text, c, j + o);
    }
    FirstIsFound(t, c, from - o, i - o);
  }

  lemma TagIsWellFormed(text: string, o: nat)
    requires PairAt(text, '{', o) && TagEnd(text, o).At?
    ensures IsTag(text[o..TagEnd(text, o).index])
  {
    var e, first := TagEnd(text, o).index, Find(text, '}', o + 3).index;
    FindWithin(text, '}', o + 3, o, e);
    if Sigil(text[o + 2]) {
      BlockEndsWithTag(text, text[o + 3..first], first + 2);
      BlockIsWellFormed(text, o, first, e);
    }
  }

  lemma SliceOfSlice(text: string, o: nat, e: nat, i: nat, j: nat)
    requires o <= e <= |text| && i <= j <= e - o
    ensures text[o..e][i..j] == text[o + i..o + j]
  {
    forall k | 0 <= k < j - i ensures text[o..e][i..j][k] == text[o + i..o + j][k] {
      assert text[o..e][i..j][k] == text[o..e][i + k] == text[o + i + k];
    }
  }

  lemma BlockIsWellFormed(text: string, o: nat, first: nat, e: nat)
    requires PairAt(text, '{', o) && o + 3 <= first <= first + 2 <= e <= |text| && Sigil(text[o + 2])
    requires Find(text[o..e], '}', 3) == At(first - o)
    requires var tag := text[o + 3..first];
             first + |tag| + 7 <= e && text[e - |tag| - 5..e] == "{{/" + tag + "}}"
    ensures IsTag(text[o..e])
  {
    var t, tag := text[o..e], text[o + 3..first];
    var n := e - o;
    SliceOfSlice(text, o, e, 3, |tag| + 3);
    SliceOfSlice(text, o, e, n - |tag| - 5, n);
    assert t[n - |tag| - 5..] == t[n - |tag| - 5..n];
    assert t[0] == text[o] && t[1] == text[o + 1] && t[2] == text[o + 2];
    assert IsBlock(t, tag);
  }

  predicate WellFormed(p: Piece) {
    p.Literal? ==> Find(p.text, '{', 0) == Nowhere
  }

  /** Whatever is taken for a tag is one, and no literal piece holds a double brace. */
  lemma {:induction false} PiecesAreWellFormed(text: string)
    ensures forall p :: p in Segment(text).pieces ==> WellFormed(p) && (p.Tag? ==> IsTag(p.text))
    decreases |text|
  {
    var n := |text|;
    FindIsFirst(text, '{', 0);
    match Find(text, '{', 0)
    case Nowhere =>
      assert text[..n] == text;
      NoPairBefore(text, '{', n);
      NoPairBefore(text, '{', if n > 0 then n - 1 else 0);
    case At(o) =>
      NoPairBefore(text, '{', o);
      if TagEnd(text, o).At? {
        TagIsWellFormed(text, o);
        PiecesAreWellFormed(text[TagEnd(text, o).index..]);
      }
  }

  lemma NoPairBefore(text: string, c: char, n: nat)
    requires n <= |text| && forall i: nat :: i < n ==> !PairAt(text, c, i)
    ensures Find(text[..n], c, 0) == Nowhere
  {
    forall i: nat | i < n ensures !PairAt(text[..n], c, i) {
      assert !PairAt(text, c, i);
    }
    FirstIsFound(text[..n], c, 0, n);
  }
}
