/** The parser of the lightweight inline tags in Office text. */
module InlineParser {
  import opened Options
  import opened Concat
  import opened Strings
  import opened Entities

  datatype InlineSpan =
    | Text(content: string, styles: seq<string>)
    | InlineEquation(content: string)
    | Hyperlink(content: string, url: string, styles: seq<string>)

  datatype InlineTag = EquationTag | TextTag | HyperlinkTag

  function Tagged(at: Option<nat>, tag: InlineTag): Option<(nat, InlineTag)> {
    match at
    case None => None
    case Some(i) => Some((i, tag))
  }

  function Earlier(a: Option<(nat, InlineTag)>, b: Option<(nat, InlineTag)>): Option<(nat, InlineTag)> {
    if a.None? then b else if b.None? then a else if b.value.0 < a.value.0 then b else a
  }

  function FindNextTag(s: string): (r: Option<(nat, InlineTag)>)
    ensures r.Some? ==> r.value.0 < |s|
  {
    Earlier(Earlier(Tagged(Find(s, "<eq>"), EquationTag), Tagged(Find(s, "<hyperlink>"), HyperlinkTag)),
            Tagged(Find(s, "<text"), TextTag))
  }

  /** The text between the tags, and how much was consumed. */
  function ParseWrappedTag(s: string, opening: string, closing: string): (r: Option<(string, nat)>)
    requires opening != [] && closing != []
    ensures r.Some? ==> 0 < r.value.1 <= |s|
  {
    if !(opening <= s) then None
    else
      match Find(s[|opening|..], closing)
      case None => None
      case Some(i) => Some((s[|opening|..|opening| + i], |opening| + i + |closing|))
  }

  function ParseTextTag(s: string): (r: Option<(string, seq<string>, nat)>)
    ensures r.Some? ==> 0 < r.value.2 <= |s|
  {
    if !("<text" <= s) then None
    else
      match Find(s, ">")
      case None => None
      case Some(i) =>
        match Find(s[i + 1..], "</text>")
        case None => None
        case Some(j) => Some((s[i + 1..i + 1 + j], ParseStyleAttr(s[..i + 1]), i + 1 + j + 7))
  }

  /** The text tag and the first URL inside a hyperlink. */
  function ParseLinkBody(inner: string): Option<(string, string, seq<string>)> {
    match ParseTextTag(inner)
    case None => None
    case Some((text, styles, _)) =>
      match Find(inner, "<url>")
      case None => None
      case Some(i) =>
        match ParseWrappedTag(inner[i..], "<url>", "</url>")
        case None => None
        case Some((url, _)) => Some((text, url, styles))
  }

  function ParseHyperlinkTag(s: string): (r: Option<(string, string, seq<string>, nat)>)
    ensures r.Some? ==> 0 < r.value.3 <= |s|
  {
    match ParseWrappedTag(s, "<hyperlink>", "</hyperlink>")
    case None => None
    case Some((inner, next)) =>
      match ParseLinkBody(inner)
      case None => None
      case Some((text, url, styles)) => Some((text, url, styles, next))
  }

  function Split(s: string, c: char): seq<string> {
    if s == [] then [[]]
    else
      var rest := Split(s[1..], c);
      if s[0] == c then [[]] + rest
      else if rest == [] then [[s[0]]] else [[s[0]] + rest[0]] + rest[1..]
  }

  /** Trimmed names, empty ones dropped. */
  function CleanNames(names: seq<string>): seq<string> {
    if names == [] then []
    else (if Trim(names[0]) == [] then [] else [Trim(names[0])]) + CleanNames(names[1..])
  }

  function ParseStyleAttr(opening: string): seq<string> {
    match Find(opening, "style=\"")
    case None => []
    case Some(i) =>
      match Find(opening[i + 7..], "\"")
      case None => []
      case Some(j) => CleanNames(Split(opening[i + 7..i + 7 + j], ','))
  }

  function PlainText(s: string): seq<InlineSpan> {
    if s == [] then [] else [Text(DecodeBasicEntities(s), [])]
  }

  /** The tag at the start of `s`: the spans it gives and the length consumed.
      A malformed tag turns the rest into plain text. */
  function ParseTag(s: string, tag: InlineTag): (r: (seq<InlineSpan>, nat))
    requires s != []
    ensures 0 < r.1 <= |s|
  {
    match tag
    case EquationTag => (
      match ParseWrappedTag(s, "<eq>", "</eq>")
      case None => (PlainText(s), |s|)
      case Some((formula, n)) => ([InlineEquation(DecodeBasicEntities(Trim(formula)))], n))
    case TextTag => (
      match ParseTextTag(s)
      case None => (PlainText(s), |s|)
      case Some((text, styles, n)) => ([Text(DecodeBasicEntities(text), styles)], n))
    case HyperlinkTag => (
      match ParseHyperlinkTag(s)
      case None => (PlainText(s), |s|)
      case Some((text, url, styles, n)) =>
        ([Hyperlink(DecodeBasicEntities(text), DecodeBasicEntities(url), styles)], n))
  }

  /** The spans up to the end of the next tag, and the length consumed. */
  function ParseStep(s: string): (r: (seq<InlineSpan>, nat))
    requires s != []
    ensures 0 < r.1 <= |s|
  {
    match FindNextTag(s)
    case None => (PlainText(s), |s|)
    case Some((start, tag)) =>
      var (spans, n) := ParseTag(s[start..], tag);
      (PlainText(s[..start]) + spans, start + n)
  }

  /** The spans of `s` before merging. */
  function ParseFrom(s: string): seq<InlineSpan> {
    if s == [] then [] else ParseStep(s).0 + ParseFrom(s[ParseStep(s).1..])
  }

  /** Appends one span, joining it to the last one when both are text in the same styles. */
  function PushSpan(merged: seq<InlineSpan>, span: InlineSpan): seq<InlineSpan> {
    var n := |merged|;
    if n > 0 && merged[n - 1].Text? && span.Text? && merged[n - 1].styles == span.styles
    then merged[..n - 1] + [Text(merged[n - 1].content + span.content, span.styles)]
    else merged + [span]
  }

  function PushAll(merged: seq<InlineSpan>, spans: seq<InlineSpan>): seq<InlineSpan> {
    if spans == [] then merged
    else PushSpan(PushAll(merged, spans[..|spans| - 1]), spans[|spans| - 1])
  }

  function Merge(spans: seq<InlineSpan>): seq<InlineSpan> {
    PushAll([], spans)
  }

  method MergeAdjacentTextSpans(spans: seq<InlineSpan>) returns (merged: seq<InlineSpan>)
    ensures merged == Merge(spans)
  {
    merged := [];
    for i := 0 to |spans|
      invariant merged == Merge(spans[..i])
    {
      var last := |merged| - 1;
      if last >= 0 && merged[last].Text? && spans[i].Text? && merged[last].styles == spans[i].styles {
        merged := merged[last := Text(merged[last].content + spans[i].content, merged[last].styles)];
      } else {
        merged := merged + [spans[i]];
      }
      assert spans[..i + 1][..i] == spans[..i];
    }
    assert spans[..|spans|] == spans;
  }

  method ParseInlineSpans(content: string) returns (spans: seq<InlineSpan>)
    ensures spans == Merge(ParseFrom(content))
  {
    hide FindNextTag, ParseTag, Merge, ParseFrom;
    var raw: seq<InlineSpan> := [];
    var position := 0;
    assert content[0..] == content;
    while position < |content|
      invariant position <= |content|
      invariant raw + ParseFrom(content[position..]) == ParseFrom(content)
    {
      ghost var before, from := raw, position;
      var rest := content[position..];
      match FindNextTag(rest) {
        case None =>
          raw := raw + PlainText(rest);
          position := |content|;
        case Some((start, tag)) =>
          if start > 0 {
            raw := raw + PlainText(rest[..start]);
          }
          var (found, n) := ParseTag(rest[start..], tag);
          AppendAssoc(before, PlainText(rest[..start]), found);
          raw := raw + found;
          position := position + start + n;
      }
      StepForward(content, from, position, before, raw);
    }
    assert content[position..] == [];
    NothingLeft(raw);
    spans := MergeAdjacentTextSpans(raw);
  }

  lemma NothingLeft(raw: seq<InlineSpan>)
    ensures raw + ParseFrom([]) == raw
  {
  }

  lemma StepForward(content: string, from: nat, next: nat, before: seq<InlineSpan>, after: seq<InlineSpan>)
    requires from < |content| && next == from + ParseStep(content[from..]).1
    requires after == before + ParseStep(content[from..]).0
    ensures next <= |content|
    ensures after + ParseFrom(content[next..]) == before + ParseFrom(content[from..])
  {
    hide ParseStep;
    var rest := content[from..];
    assert rest[ParseStep(rest).1..] == content[next..];
    AppendAssoc(before, ParseStep(rest).0, ParseFrom(content[next..]));
  }

  // ------------------------------------------------------- merging by pieces

  lemma {:induction false} PushAllAppend(acc: seq<InlineSpan>, a: seq<InlineSpan>, b: seq<InlineSpan>)
    ensures PushAll(acc, a + b) == PushAll(PushAll(acc, a), b)
  {
    if b == [] {
      assert a + b == a;
    } else {
      var ab := a + b;
      assert ab[..|ab| - 1] == a + b[..|b| - 1];
      PushAllAppend(acc, a, b[..|b| - 1]);
    }
  }

  /** Pushing two texts of one style is pushing their concatenation. */
  lemma PushTwoTexts(acc: seq<InlineSpan>, x: string, y: string, styles: seq<string>)
    ensures PushSpan(PushSpan(acc, Text(x, styles)), Text(y, styles)) == PushSpan(acc, Text(x + y, styles))
  {
    var n := |acc|;
    if n > 0 && acc[n - 1].Text? && acc[n - 1].styles == styles {
      assert acc[n - 1].content + x + y == acc[n - 1].content + (x + y);
    }
  }

  /** Spans already merged can be pushed instead of the spans they came from. */
  lemma {:induction false} PushMerged(acc: seq<InlineSpan>, b: seq<InlineSpan>)
    ensures PushAll(acc, Merge(b)) == PushAll(acc, b)
  {
    if b != [] {
      var m, x := Merge(b[..|b| - 1]), b[|b| - 1];
      PushMerged(acc, b[..|b| - 1]);
      var n := |m|;
      if n > 0 && m[n - 1].Text? && x.Text? && m[n - 1].styles == x.styles {
        var joined := Text(m[n - 1].content + x.content, x.styles);
        PushAllSnoc(acc, m[..n - 1], joined);
        PushAllSnoc(acc, m[..n - 1], m[n - 1]);
        assert m == m[..n - 1] + [m[n - 1]];
        PushTwoTexts(PushAll(acc, m[..n - 1]), m[n - 1].content, x.content, x.styles);
      } else {
        PushAllSnoc(acc, m, x);
      }
    }
  }

  lemma PushAllSnoc(acc: seq<InlineSpan>, a: seq<InlineSpan>, x: InlineSpan)
    ensures PushAll(acc, a + [x]) == PushSpan(PushAll(acc, a), x)
  {
    assert (a + [x])[..|a|] == a;
  }

  lemma MergeAppend(a: seq<InlineSpan>, b: seq<InlineSpan>)
    ensures Merge(a + b) == PushAll(Merge(a), b)
  {
    PushAllAppend([], a, b);
  }

  /** Only the merged form of a tail matters. */
  lemma MergeTail(a: seq<InlineSpan>, b: seq<InlineSpan>, c: seq<InlineSpan>)
    requires Merge(b) == Merge(c)
    ensures Merge(a + b) == Merge(a + c)
  {
    MergeAppend(a, b);
    MergeAppend(a, c);
    PushMerged(Merge(a), b);
    PushMerged(Merge(a), c);
  }
}
