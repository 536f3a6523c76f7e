/** What the scanner makes of templates as their authors write them: which characters open a section, where
    variables and sections end, and what comes out. */
module Templates {
  import opened Segments
  import opened Scanner

  // ---- where a tag ends ----------------------------------------------------------------------

  lemma FoundAfter(text: string, c: char, from: nat, i: nat)
    requires from <= i && PairAt(text, c, i) && forall j :: from <= j < i ==> text[j] != c
    ensures Find(text, c, from) == At(i)
  {
    FirstIsFound(text, c, from, i);
  }

  /** The closing tag comes first. */
  lemma EndsHere(text: string, tag: string, r: nat, q: nat)
    requires '}' !in tag && r <= q && q + |tag| + 5 <= |text| && text[q..q + |tag| + 5] == "{{/" + tag + "}}"
    requires forall j :: r <= j < q ==> text[j] != '{'
    ensures BlockEnd(text, tag, r) == At(q + |tag| + 5)
  {
    var n := |tag|;
    SpellsClosing(text, tag, q);
    FoundAfter(text, '{', r, q);
    FoundAfter(text, '}', q + 3, q + 3 + n);
  }

  lemma SpellsClosing(text: string, tag: string, q: nat)
    requires q + |tag| + 5 <= |text| && text[q..q + |tag| + 5] == "{{/" + tag + "}}"
    ensures PairAt(text, '{', q) && text[q + 2] == '/' && text[q + 3..q + 3 + |tag|] == tag && PairAt(text, '}', q + 3 + |tag|)
  {
    var n, part := |tag|, text[q..q + |tag| + 5];
    forall i | 0 <= i < n + 5 ensures text[q + i] == ("{{/" + tag + "}}")[i] {
      assert part[i] == text[q + i];
    }
    assert forall i :: 0 <= i < n ==> text[q + 3 + i] == tag[i];
    assert text[q + 3..q + 3 + n] == tag;
  }

  function Opening(c: char, tag: string): string {
    "{{" + [c] + tag + "}}"
  }

  function Section(c: char, tag: string, body: string): string {
    Opening(c, tag) + body + "{{/" + tag + "}}"
  }

  lemma SpellsOpening(before: string, c: char, tag: string, rest: string)
    ensures var text, o, n := before + Opening(c, tag) + rest, |before|, |tag|;
            && |text| == o + n + 5 + |rest| && PairAt(text, '{', o) && text[o + 2] == c
            && text[o + 3..o + 3 + n] == tag && PairAt(text, '}', o + 3 + n) && text[o + n + 5..] == rest
            && (forall j :: 0 <= j < n ==> text[o + 3 + j] == tag[j])
  {
    var text, o, n := before + Opening(c, tag) + rest, |before|, |tag|;
    assert forall j :: 0 <= j < n + 5 ==> text[o + j] == Opening(c, tag)[j];
    assert forall j :: 0 <= j < n ==> text[o + 3 + j] == tag[j];
  }

  /** What follows a prefix stands behind it. */
  lemma Behind(prefix: string, body: string, closing: string, rest: string)
    ensures var text, r := prefix + body + closing + rest, |prefix|;
            && (forall j :: r <= j < r + |body| ==> text[j] == body[j - r])
            && text[r + |body|..r + |body| + |closing|] == closing
  {
    assert (prefix + body + closing + rest)[..|prefix| + |body| + |closing|] == prefix + body + closing;
  }

  /** A tag that opens with `#` or `^` and whose body has no brace ends behind its closing tag, whatever
      stands around it. */
  lemma SectionEnds(before: string, c: char, tag: string, body: string, rest: string)
    requires (c == '#' || c == '^') && '}' !in tag && '{' !in body
    ensures TagEnd(before + ("{{" + [c] + tag + "}}" + body + "{{/" + tag + "}}") + rest, |before|)
         == At(|before| + |tag| + |body| + |tag| + 10)
  {
    var closing, opening := "{{/" + tag + "}}", Opening(c, tag);
    var text := before + opening + body + closing + rest;
    Reassociated(before, opening, body, closing, rest);
    SectionIn(text, before, c, tag, body, rest);
    ClosingApart(opening + body, tag);
    hide TagEnd;
  }

  lemma SectionIn(text: string, before: string, c: char, tag: string, body: string, rest: string)
    requires (c == '#' || c == '^') && '}' !in tag && '{' !in body
    requires text == before + Opening(c, tag) + body + ("{{/" + tag + "}}") + rest
    requires text == before + Opening(c, tag) + (body + ("{{/" + tag + "}}") + rest)
    ensures TagEnd(text, |before|) == At(|before| + |tag| + |body| + |tag| + 10)
  {
    hide TagEnd, BlockEnd, Find, Opening;
    SpellsOpening(before, c, tag, body + ("{{/" + tag + "}}") + rest);
    Behind(before + Opening(c, tag), body, "{{/" + tag + "}}", rest);
    OpeningLength(c, tag);
    NoBrace(text, body, |before| + |tag| + 5);
    SectionFound(text, |before|, tag, |before| + |tag| + 5, |before| + |tag| + 5 + |body|);
  }

  lemma OpeningLength(c: char, tag: string)
    ensures |Opening(c, tag)| == |tag| + 5
  {
  }

  lemma NoBrace(text: string, body: string, r: nat)
    requires '{' !in body && r + |body| <= |text| && forall j :: r <= j < r + |body| ==> text[j] == body[j - r]
    ensures forall j :: r <= j < r + |body| ==> text[j] != '{'
  {
  }

  lemma ClosingApart(a: string, tag: string)
    ensures a + "{{/" + tag + "}}" == a + ("{{/" + tag + "}}")
  {
  }

  lemma Reassociated(before: string, opening: string, body: string, closing: string, rest: string)
    ensures before + (opening + body + closing) + rest == before + opening + body + closing + rest
    ensures before + opening + (body + closing + rest) == before + opening + body + closing + rest
  {
  }

  lemma SectionFound(text: string, o: nat, tag: string, r: nat, q: nat)
    requires '}' !in tag && r == o + |tag| + 5 <= q && q + |tag| + 5 <= |text| && PairAt(text, '{', o)
    requires (text[o + 2] == '#' || text[o + 2] == '^') && text[o + 3..o + 3 + |tag|] == tag && PairAt(text, '}', o + 3 + |tag|)
    requires forall j :: 0 <= j < |tag| ==> text[o + 3 + j] == tag[j]
    requires text[q..q + |tag| + 5] == "{{/" + tag + "}}" && forall j :: r <= j < q ==> text[j] != '{'
    ensures TagEnd(text, o) == At(q + |tag| + 5)
  {
    forall j | o + 3 <= j < o + 3 + |tag| ensures text[j] != '}' {
      assert text[j] == tag[j - o - 3];
    }
    FoundAfter(text, '}', o + 3, o + 3 + |tag|);
    EndsHere(text, tag, r, q);
  }

  /** Any other first character gives a variable; it ends at the first double brace behind that character. */
  lemma VariableEnds(before: string, c: char, name: string, rest: string)
    requires c != '#' && c != '^' && '}' !in name
    ensures TagEnd(before + ("{{" + [c] + name + "}}") + rest, |before|) == At(|before| + |name| + 5)
  {
    var text, o := before + Opening(c, name) + rest, |before|;
    SpellsOpening(before, c, name, rest);
    FoundAfter(text, '}', o + 3, o + 3 + |name|);
  }

  /** Without a character in between there is no tag yet. */
  lemma NothingBetweenBraces()
    ensures TagEnd("{{}}", 0) == Nowhere && TagEnd("{{}}}", 0) == At(5)
  {
    FirstIsFound("{{}}", '}', 3, 4);
    FoundAfter("{{}}}", '}', 3, 3);
  }

  /** A tag inside a section does not end it, unless it closes the same name. */
  lemma InnerTagsAreSkipped(text: string, tag: string, r: nat, q: nat, inner: string, p: nat)
    requires '}' !in tag && '{' !in inner && '}' !in inner && inner != "/" + tag
    requires r <= q && q + |inner| + 4 <= p && p + |tag| + 5 <= |text|
    requires text[q..q + |inner| + 4] == "{{" + inner + "}}" && text[p..p + |tag| + 5] == "{{/" + tag + "}}"
    requires forall j :: r <= j < q || q + |inner| + 4 <= j < p ==> text[j] != '{'
    ensures BlockEnd(text, tag, r) == At(p + |tag| + 5)
  {
    var n := |inner|;
    InnerSpelt(text, q, inner);
    hide BlockEnd, Find;
    if n > 0 && inner[0] == '/' {
      assert inner == "/" + inner[1..];
      EndsHere(text, tag, q + n + 4, p);
      OtherClosing(text, tag, r, q, q + 2 + n);
    } else {
      EndsHere(text, tag, q + 3, p);
      NoClosing(text, tag, r, q);
    }
  }

  lemma OtherClosing(text: string, tag: string, r: nat, q: nat, e: nat)
    requires r <= q && q + 3 <= e <= |text| && PairAt(text, '{', q) && text[q + 2] == '/' && PairAt(text, '}', e) && text[q + 3..e] != tag
    requires (forall j :: r <= j < q ==> text[j] != '{') && (forall j :: q + 3 <= j < e ==> text[j] != '}')
    ensures BlockEnd(text, tag, r) == BlockEnd(text, tag, e + 2)
  {
    FoundAfter(text, '{', r, q);
    FoundAfter(text, '}', q + 3, e);
    hide Find;
  }

  lemma NoClosing(text: string, tag: string, r: nat, q: nat)
    requires r <= q && q + 2 < |text| && PairAt(text, '{', q) && text[q + 2] != '/'
    requires forall j :: r <= j < q ==> text[j] != '{'
    ensures BlockEnd(text, tag, r) == BlockEnd(text, tag, q + 3)
  {
    FoundAfter(text, '{', r, q);
    hide Find;
  }

  lemma InnerSpelt(text: string, q: nat, inner: string)
    requires q + |inner| + 4 <= |text| && text[q..q + |inner| + 4] == "{{" + inner + "}}"
    ensures PairAt(text, '{', q) && PairAt(text, '}', q + 2 + |inner|)
    ensures forall i :: 0 <= i < |inner| ==> text[q + 2 + i] == inner[i]
    ensures inner != "" ==> text[q + 3..q + 2 + |inner|] == inner[1..]
    ensures text[q + 2] == if inner == "" then '}' else inner[0]
  {
    var n, part := |inner|, text[q..q + |inner| + 4];
    forall i | 0 <= i < n + 4 ensures text[q + i] == ("{{" + inner + "}}")[i] {
      assert part[i] == text[q + i];
    }
    assert forall i :: 0 <= i < n ==> text[q + 2 + i] == inner[i];
  }

  // ---- what comes out ------------------------------------------------------------------------

  lemma OneTag(before: string, tag: string, after: string)
    requires '{' !in before && '{' !in after && |tag| >= 2 && tag[0] == '{' && tag[1] == '{'
    requires TagEnd(before + tag + after, |before|) == At(|before| + |tag|)
    ensures Segment(before + tag + after) == Segmentation([Literal(before), Tag(tag), Literal(after)], "")
  {
    var text, o := before + tag + after, |before|;
    assert forall j :: 0 <= j < o ==> text[j] == before[j];
    assert text[o] == tag[0] && text[o + 1] == tag[1];
    FoundAfter(text, '{', 0, o);
    assert text[..o] == before && text[o..o + |tag|] == tag && text[o + |tag|..] == after;
    FirstIsFound(after, '{', 0, |after|);
    assert after[..|after|] == after;
  }

  lemma OneTagIsResolved(resolve: Resolver, before: string, tag: string, after: string)
    requires '{' !in before && '{' !in after && |tag| >= 2 && tag[0] == '{' && tag[1] == '{'
    requires TagEnd(before + tag + after, |before|) == At(|before| + |tag|)
    ensures var f := Feed(resolve, Start(""), before + tag + after);
            f.out == before + resolve(tag) + after && f.mode == Nil && f.buffer == ""
  {
    hide Feed, TagEnd, Segment;
    var pieces := [Literal(before), Tag(tag)] + [Literal(after)];
    OneTag(before, tag, after);
    assert [Literal(before), Tag(tag), Literal(after)] == pieces;
    ScannerRefinesSegments(resolve, "", before + tag + after);
    RenderTwo(resolve, before, tag, [Literal(after)]);
    RenderOne(resolve, [Literal(after)]);
    BuffersAreClean(resolve, "", before + tag + after);
    assert before + (resolve(tag) + after) == before + resolve(tag) + after;
  }

  /** A section among literal text is handed over whole, once, and the text around it passes as it is. */
  lemma SectionIsResolvedWhole(resolve: Resolver, before: string, c: char, tag: string, body: string, after: string)
    requires (c == '#' || c == '^') && '}' !in tag && '{' !in body && '{' !in before && '{' !in after
    ensures var section := "{{" + [c] + tag + "}}" + body + "{{/" + tag + "}}";
            var f := Feed(resolve, Start(""), before + section + after);
            f.out == before + resolve(section) + after && f.mode == Nil && f.buffer == ""
  {
    SectionEnds(before, c, tag, body, after);
    OneTagIsResolved(resolve, before, Section(c, tag, body), after);
    hide Feed;
  }

  /** And so is a variable. */
  lemma VariableIsResolved(resolve: Resolver, before: string, c: char, name: string, after: string)
    requires c != '#' && c != '^' && '}' !in name && '{' !in before && '{' !in after
    ensures var variable := "{{" + [c] + name + "}}";
            var f := Feed(resolve, Start(""), before + variable + after);
            f.out == before + resolve(variable) + after && f.mode == Nil && f.buffer == ""
  {
    VariableEnds(before, c, name, after);
    OneTagIsResolved(resolve, before, Opening(c, name), after);
    hide Feed;
  }

  /** Text without a double brace passes at once, but for a brace at its end. */
  lemma LiteralPasses(resolve: Resolver, text: string)
    requires forall i :: 0 <= i < |text| - 1 ==> !(text[i] == '{' && text[i + 1] == '{')
    ensures var f := Feed(resolve, Start(""), text);
            if text != "" && text[|text| - 1] == '{' then f.out == text[..|text| - 1] else f.out == text
  {
    PassLiteral(resolve, Start(""), text);
  }
}
