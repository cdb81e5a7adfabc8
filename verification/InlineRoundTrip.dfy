/** The inline parser undoes the DOCX writer. */
module InlineRoundTrip {
  import opened Options
  import opened Concat
  import opened Strings
  import opened Entities
  import opened InlineParser
  import opened InlineMarkup

  // ------------------------------------------------------------- style names

  /** A style name survives the style attribute. */
  ghost predicate PlainName(name: string) {
    && name != [] && Trimmed(name)
    && ',' !in name && '"' !in name && '<' !in name && '>' !in name && '=' !in name
  }

  ghost predicate PlainNames(names: seq<string>) {
    forall i :: 0 <= i < |names| ==> PlainName(names[i])
  }

  lemma LettersArePlain(name: string)
    requires name != [] && forall i :: 0 <= i < |name| ==> 'a' <= name[i] <= 'z'
    ensures PlainName(name)
  {
  }

  lemma KnownNames()
    ensures PlainName("bold") && PlainName("italic") && PlainName("underline") && PlainName("strikethrough")
  {
    hide PlainName;
    LettersArePlain("bold");
    LettersArePlain("italic");
    LettersArePlain("underline");
    LettersArePlain("strikethrough");
  }

  lemma StylesArePlain(style: RunStyle)
    ensures PlainNames(style.Styles())
  {
    KnownNames();
    hide PlainName;
  }

  lemma {:induction false} SplitName(name: string)
    requires ',' !in name
    ensures Split(name, ',') == [name]
  {
    if name != [] {
      SplitName(name[1..]);
      assert [name[0]] + name[1..] == name;
      assert [name] + [name[1..]][1..] == [name];
    }
  }

  lemma {:induction false} SplitFirst(name: string, rest: string)
    requires ',' !in name
    ensures Split(name + "," + rest, ',') == [name] + Split(rest, ',')
  {
    var s := name + "," + rest;
    if name == [] {
      assert s[1..] == rest;
    } else {
      assert s[1..] == name[1..] + "," + rest;
      SplitFirst(name[1..], rest);
      assert ([name[1..]] + Split(rest, ','))[1..] == Split(rest, ',');
      assert [name[0]] + name[1..] == name;
    }
  }

  lemma {:induction false} SplitJoined(names: seq<string>)
    requires names != [] && PlainNames(names)
    ensures Split(JoinNames(names), ',') == names
  {
    assert PlainName(names[0]);
    if |names| == 1 {
      SplitName(names[0]);
    } else {
      assert PlainNames(names[1..]);
      SplitJoined(names[1..]);
      SplitFirst(names[0], JoinNames(names[1..]));
    }
  }

  lemma {:induction false} CleanPlainNames(names: seq<string>)
    requires PlainNames(names)
    ensures CleanNames(names) == names
  {
    if names != [] {
      assert PlainName(names[0]);
      TrimOfTrimmed(names[0]);
      assert PlainNames(names[1..]);
      CleanPlainNames(names[1..]);
    }
  }

  lemma {:induction false} JoinedChars(names: seq<string>)
    requires PlainNames(names)
    ensures var j := JoinNames(names); '"' !in j && '<' !in j && '>' !in j && '=' !in j
  {
    if names != [] {
      assert PlainName(names[0]);
      assert PlainNames(names[1..]);
      JoinedChars(names[1..]);
    }
  }

  // ---------------------------------------------------------- the text tag

  function Opening(styles: seq<string>): string {
    if styles == [] then "<text>" else "<text style=\"" + JoinNames(styles) + "\">"
  }

  lemma {:induction false} ParseStyleValue(j: string)
    requires '"' !in j
    ensures ParseStyleAttr("<text style=\"" + j + "\">") == CleanNames(Split(j, ','))
  {
    hide CleanNames, Split, Find, Dead;
    var o := "<text style=\"" + j + "\">";
    DeadByFirst("<text ", "style=\"");
    FindAfter("<text ", "style=\"", j + "\">");
    assert o == "<text " + "style=\"" + (j + "\">");
    assert o[13..] == j + "\"" + ">";
    DeadByFirst(j, "\"");
    FindAfter(j, "\"", ">");
    assert o[13..13 + |j|] == j;
  }

  lemma ParseNoStyle()
    ensures ParseStyleAttr("<text>") == []
  {
    DeadByFirst("<text>", "style=\"");
    FindNone("<text>", "style=\"");
  }

  lemma ParseOpening(styles: seq<string>)
    requires PlainNames(styles)
    ensures ParseStyleAttr(Opening(styles)) == styles
  {
    hide PlainNames, ParseStyleAttr, JoinNames;
    ParseNoStyle();
    if styles != [] {
      JoinedChars(styles);
      ParseStyleValue(JoinNames(styles));
      SplitJoined(styles);
      CleanPlainNames(styles);
    }
  }

  /** A tag opens with `<text`, ends with its only `>` and holds no other `<`. */
  ghost predicate TextOpening(o: string) {
    |o| >= 6 && "<text" <= o && o[|o| - 1] == '>' && '>' !in o[..|o| - 1] && '<' !in o[1..]
  }

  lemma OpeningParts(pre: string, j: string)
    requires "<text" <= pre && '>' !in pre && '<' !in pre[1..]
    requires '<' !in j && '>' !in j
    ensures TextOpening(pre + j + "\">")
  {
    var o := pre + j + "\">";
    assert o[..|o| - 1] == pre + j + "\"";
    assert o[1..] == pre[1..] + j + "\">";
    assert "<text" <= o;
  }

  lemma OpeningShape(styles: seq<string>)
    requires PlainNames(styles)
    ensures TextOpening(Opening(styles))
  {
    if styles != [] {
      JoinedChars(styles);
      var pre := "<text style=\"";
      assert "<text" <= pre && '>' !in pre && '<' !in pre[1..];
      OpeningParts(pre, JoinNames(styles));
    }
  }

  /** A tag whose only `<` is its first character is dead for a pattern that
      starts with `<` and differs from it later on. */
  lemma DeadTag(w: string, pat: string, k: nat)
    requires |pat| > 0 && |w| > 0 && pat[0] == '<' && '<' !in w[1..]
    requires 0 < k < |pat| && k < |w| && w[k] != pat[k]
    ensures Dead(w, pat)
  {
    forall i | 0 <= i < |w|
      ensures DeadAt(w, pat, i)
    {
      if i == 0 {
        assert w[0 + k] != pat[k];
      } else {
        assert w[i] == w[1..][i - 1];
        assert w[i + 0] != pat[0];
      }
    }
  }

  lemma ParseTextAt(styles: seq<string>, text: string, rest: string)
    requires PlainNames(styles) && '<' !in text
    ensures var o := Opening(styles);
            ParseTextTag(o + text + "</text>" + rest) == Some((text, styles, |o| + |text| + 7))
  {
    hide Opening, PlainNames, TextOpening, ParseTextTag, ParseStyleAttr;
    OpeningShape(styles);
    ParseOpening(styles);
    ParseTextParts(Opening(styles), text, rest);
  }

  lemma TextSlices(o: string, text: string, close: string, rest: string)
    ensures var s := o + text + close + rest;
            && s == o + (text + close + rest) && s[|o|..] == text + close + rest && s[..|o|] == o
            && s[|o|..|o| + |text|] == text && o <= s
  {
  }

  lemma OpeningSplit(o: string)
    requires TextOpening(o)
    ensures |o| > 0 && o == o[..|o| - 1] + ">" && '>' !in o[..|o| - 1]
  {
  }

  lemma TagEndFound(o: string, after: string)
    requires TextOpening(o)
    ensures |o| > 0 && Find(o + after, ">") == Some(|o| - 1)
  {
    hide Find, TextOpening;
    OpeningSplit(o);
    FindClosing(o[..|o| - 1], ">", after);
  }

  lemma PrefixOfPrefix(a: string, b: string, c: string)
    requires a <= b && b <= c
    ensures a <= c
  {
  }

  lemma ParseTextParts(o: string, text: string, rest: string)
    requires TextOpening(o) && '<' !in text
    ensures ParseTextTag(o + text + "</text>" + rest) == Some((text, ParseStyleAttr(o), |o| + |text| + 7))
  {
    hide ParseStyleAttr, Find;
    TextSlices(o, text, "</text>", rest);
    TagEndFound(o, text + "</text>" + rest);
    FindClosing(text, "</text>", rest);
    PrefixOfPrefix("<text", o, o + text + "</text>" + rest);
  }

  // -------------------------------------------------- the other two tags

  lemma ParseWrappedAt(opening: string, text: string, closing: string, rest: string)
    requires opening != [] && closing != [] && Dead(text, closing)
    ensures ParseWrappedTag(opening + text + closing + rest, opening, closing)
            == Some((text, |opening| + |text| + |closing|))
  {
    var s := opening + text + closing + rest;
    assert s[|opening|..] == text + closing + rest;
    FindAfter(text, closing, rest);
    assert s[|opening|..|opening| + |text|] == text;
  }

  lemma TextDead(styles: seq<string>, text: string)
    requires PlainNames(styles) && '<' !in text
    ensures Dead(Opening(styles) + text + "</text>", "</hyperlink>")
    ensures Dead(Opening(styles) + text + "</text>", "<url>")
  {
    OpeningShape(styles);
    var o := Opening(styles);
    hide Dead;
    DeadTag(o, "</hyperlink>", 1);
    DeadByFirst(text, "</hyperlink>");
    DeadTag("</text>", "</hyperlink>", 2);
    DeadAppend(o, text, "</hyperlink>");
    DeadAppend(o + text, "</text>", "</hyperlink>");
    DeadTag(o, "<url>", 1);
    DeadByFirst(text, "<url>");
    DeadTag("</text>", "<url>", 1);
    DeadAppend(o, text, "<url>");
    DeadAppend(o + text, "</text>", "<url>");
  }

  lemma UrlDead(url: string)
    requires '<' !in url
    ensures Dead("<url>" + url + "</url>", "</hyperlink>")
  {
    DeadTag("<url>", "</hyperlink>", 1);
    DeadByFirst(url, "</hyperlink>");
    DeadTag("</url>", "</hyperlink>", 2);
    DeadAppend("<url>", url, "</hyperlink>");
    DeadAppend("<url>" + url, "</url>", "</hyperlink>");
  }

  lemma ParseLinkBodyAt(tt: string, styles: seq<string>, text: string, url: string)
    requires Dead(tt, "<url>") && '<' !in url
    requires ParseTextTag(tt + ("<url>" + url + "</url>")) == Some((text, styles, |tt|))
    ensures ParseLinkBody(tt + ("<url>" + url + "</url>")) == Some((text, url, styles))
  {
    hide ParseTextTag, ParseWrappedTag, Find;
    var uu := "<url>" + url + "</url>";
    assert tt + uu == tt + "<url>" + (url + "</url>");
    FindAfter(tt, "<url>", url + "</url>");
    assert (tt + uu)[|tt|..] == "<url>" + url + "</url>" + [];
    DeadByFirst(url, "</url>");
    ParseWrappedAt("<url>", url, "</url>", []);
  }

  lemma ParseHyperlinkParts(tt: string, styles: seq<string>, text: string, url: string, rest: string)
    requires Dead(tt, "</hyperlink>") && '<' !in url
    requires ParseLinkBody(tt + ("<url>" + url + "</url>")) == Some((text, url, styles))
    ensures ParseHyperlinkTag("<hyperlink>" + (tt + ("<url>" + url + "</url>")) + "</hyperlink>" + rest)
            == Some((text, url, styles, 11 + |tt| + 5 + |url| + 6 + 12))
  {
    hide ParseLinkBody, ParseWrappedTag, Dead;
    var uu := "<url>" + url + "</url>";
    UrlDead(url);
    DeadAppend(tt, uu, "</hyperlink>");
    ParseWrappedAt("<hyperlink>", tt + uu, "</hyperlink>", rest);
  }

  lemma ParseHyperlinkAt(styles: seq<string>, text: string, url: string, rest: string)
    requires PlainNames(styles) && '<' !in text && '<' !in url
    ensures var tt := Opening(styles) + text + "</text>";
            ParseHyperlinkTag("<hyperlink>" + (tt + ("<url>" + url + "</url>")) + "</hyperlink>" + rest)
            == Some((text, url, styles, 11 + |tt| + 5 + |url| + 6 + 12))
  {
    hide ParseTextTag, ParseLinkBody, ParseHyperlinkTag, Opening;
    var tt := Opening(styles) + text + "</text>";
    TextDead(styles, text);
    ParseTextAt(styles, text, "<url>" + url + "</url>");
    ParseLinkBodyAt(tt, styles, text, url);
    ParseHyperlinkParts(tt, styles, text, url, rest);
  }

  // ------------------------------------------------------- finding the tag

  /** Which tag a piece of markup opens. */
  predicate Opens(w: string, tag: InlineTag) {
    match tag
    case EquationTag => "<eq>" <= w
    case HyperlinkTag => "<hyperlink>" <= w
    case TextTag => "<text" <= w
  }

  /** The next tag is the earliest opening of any tag. */
  lemma NextTagIsEarliest(s: string)
    ensures match FindNextTag(s)
            case Some((i, tag)) => i < |s| && Opens(s[i..], tag)
                                   && forall k, other :: 0 <= k < i ==> !Opens(s[k..], other)
            case None => forall k, other :: 0 <= k <= |s| ==> !Opens(s[k..], other)
  {
    hide Find;
    FindIsFirst(s, "<eq>");
    FindIsFirst(s, "<hyperlink>");
    FindIsFirst(s, "<text");
  }

  lemma FindHere(w: string, pat: string)
    requires pat != []
    ensures pat <= w ==> Find(w, pat) == Some(0)
    ensures !(pat <= w) ==> Find(w, pat) != Some(0)
  {
  }

  lemma OpensOnlyOne(w: string, tag: InlineTag)
    requires Opens(w, tag)
    ensures "<eq>" <= w <==> tag.EquationTag?
    ensures "<hyperlink>" <= w <==> tag.HyperlinkTag?
    ensures "<text" <= w <==> tag.TextTag?
  {
    assert w[1] == (if tag.EquationTag? then 'e' else if tag.HyperlinkTag? then 'h' else 't');
  }

  lemma NextTagAfter(u: string, w: string, tag: InlineTag)
    requires '<' !in u && Opens(w, tag)
    ensures FindNextTag(u + w) == Some((|u|, tag))
  {
    hide Find, Dead;
    OpensOnlyOne(w, tag);
    DeadByFirst(u, "<eq>");
    DeadByFirst(u, "<hyperlink>");
    DeadByFirst(u, "<text");
    FindSkip(u, w, "<eq>");
    FindSkip(u, w, "<hyperlink>");
    FindSkip(u, w, "<text");
    FindHere(w, "<eq>");
    FindHere(w, "<hyperlink>");
    FindHere(w, "<text");
  }

  lemma NoTag(u: string)
    requires '<' !in u
    ensures FindNextTag(u) == None
  {
    DeadByFirst(u, "<eq>");
    DeadByFirst(u, "<hyperlink>");
    DeadByFirst(u, "<text");
    FindNone(u, "<eq>");
    FindNone(u, "<hyperlink>");
    FindNone(u, "<text");
  }

  lemma OpensLonger(w: string, rest: string, tag: InlineTag)
    requires Opens(w, tag)
    ensures Opens(w + rest, tag)
  {
  }

  /** Parsing plain text, then one tag, then the rest. */
  lemma {:induction false} ParseOver(u: string, w: string, rest: string, tag: InlineTag, span: InlineSpan)
    requires '<' !in u && w != [] && Opens(w, tag)
    requires ParseTag(w + rest, tag) == ([span], |w|)
    ensures ParseFrom(u + (w + rest)) == PlainText(u) + [span] + ParseFrom(rest)
  {
    hide FindNextTag, ParseTag, PlainText, Opens;
    var s := u + (w + rest);
    OpensLonger(w, rest, tag);
    NextTagAfter(u, w + rest, tag);
    assert s[|u|..] == w + rest && s[..|u|] == u;
    assert s[|u| + |w|..] == rest;
  }

  // -------------------------------------------------------------- round trip

  /** Text with no style and no link is written without a tag. */
  predicate IsPlain(p: Push) {
    && p.TextPush? && p.value != [] && p.style.Styles() == []
    && !(p.hyperlink.Some? && p.hyperlink.value.Some?)
  }

  lemma TextMarkup(p: Push)
    requires p.TextPush? && p.value != [] && !IsPlain(p) && !(p.hyperlink.Some? && p.hyperlink.value.Some?)
    ensures PartOf(p) == Opening(p.style.Styles()) + HtmlEscape(p.value) + "</text>"
  {
    hide HtmlEscape, RunStyle.Styles;
  }

  lemma ParseTextPush(p: Push, rest: string)
    requires p.TextPush? && p.value != [] && !IsPlain(p) && !(p.hyperlink.Some? && p.hyperlink.value.Some?)
    ensures Opens(PartOf(p), TextTag)
    ensures ParseTag(PartOf(p) + rest, TextTag) == (SpanOf(p), |PartOf(p)|)
  {
    hide HtmlEscape, DecodeBasicEntities, ParseTextTag, PartOf, Opening, RunStyle.Styles, PlainNames;
    var names, text := p.style.Styles(), HtmlEscape(p.value);
    StylesArePlain(p.style);
    EscapeLeavesNoMarkup(p.value);
    DecodeUndoesEscape(p.value);
    TextMarkup(p);
    ParseTextAt(names, text, rest);
    OpeningShape(names);
  }

  lemma LinkMarkup(p: Push)
    requires p.TextPush? && p.value != [] && p.hyperlink.Some? && p.hyperlink.value.Some?
    ensures var url := HtmlEscape(p.hyperlink.value.value);
            PartOf(p) == "<hyperlink>"
              + (Opening(p.style.Styles()) + HtmlEscape(p.value) + "</text>" + ("<url>" + url + "</url>")) + "</hyperlink>"
  {
    hide HtmlEscape;
    var names, text, url := p.style.Styles(), HtmlEscape(p.value), HtmlEscape(p.hyperlink.value.value);
    assert p.style.WrapTextTag(text) == Opening(names) + text + "</text>";
    assert "</url></hyperlink>" == "</url>" + "</hyperlink>";
  }

  lemma {:induction false} ParseLinkPush(p: Push, rest: string)
    requires p.TextPush? && p.value != [] && p.hyperlink.Some? && p.hyperlink.value.Some?
    ensures Opens(PartOf(p), HyperlinkTag)
    ensures ParseTag(PartOf(p) + rest, HyperlinkTag) == (SpanOf(p), |PartOf(p)|)
  {
    hide HtmlEscape, DecodeBasicEntities, ParseHyperlinkTag, PartOf, Opening, RunStyle.Styles, PlainNames;
    var names, text, url := p.style.Styles(), HtmlEscape(p.value), HtmlEscape(p.hyperlink.value.value);
    StylesArePlain(p.style);
    EscapeLeavesNoMarkup(p.value);
    EscapeLeavesNoMarkup(p.hyperlink.value.value);
    DecodeUndoesEscape(p.value);
    DecodeUndoesEscape(p.hyperlink.value.value);
    LinkMarkup(p);
    ParseHyperlinkAt(names, text, url, rest);
  }

  lemma ParseEquationPush(p: Push, rest: string)
    requires p.EquationPush? && Trim(p.value) != []
    ensures Opens(PartOf(p), EquationTag)
    ensures ParseTag(PartOf(p) + rest, EquationTag) == (SpanOf(p), |PartOf(p)|)
  {
    var text := HtmlEscape(Trim(p.value));
    EscapeLeavesNoMarkup(Trim(p.value));
    DecodeUndoesEscape(Trim(p.value));
    TrimTrims(p.value);
    EscapeTrimmed(Trim(p.value));
    TrimOfTrimmed(text);
    DeadByFirst(text, "</eq>");
    ParseWrappedAt("<eq>", text, "</eq>", rest);
    assert PartOf(p) + rest == "<eq>" + text + "</eq>" + rest;
  }

  /** Every push that writes a tag parses back to its own span. */
  lemma {:induction false} ParsePush(u: string, p: Push, rest: string)
    requires '<' !in u && !IsEmpty(p) && !IsPlain(p)
    ensures ParseFrom(u + (PartOf(p) + rest)) == PlainText(u) + SpanOf(p) + ParseFrom(rest)
  {
    var tag: InlineTag;
    if p.EquationPush? {
      tag := EquationTag;
      ParseEquationPush(p, rest);
    } else if p.hyperlink.Some? && p.hyperlink.value.Some? {
      tag := HyperlinkTag;
      ParseLinkPush(p, rest);
    } else {
      tag := TextTag;
      ParseTextPush(p, rest);
    }
    var span :| SpanOf(p) == [span];
    hide PartOf, SpanOf, ParseTag, ParseFrom;
    ParseOver(u, PartOf(p), rest, tag, span);
  }

  function RenderFrom(pushes: seq<Push>): string {
    if pushes == [] then [] else PartOf(pushes[0]) + RenderFrom(pushes[1..])
  }

  lemma {:induction false} RenderFromSnoc(pushes: seq<Push>, p: Push)
    ensures RenderFrom(pushes + [p]) == RenderFrom(pushes) + PartOf(p)
  {
    hide PartOf;
    if pushes == [] {
      assert RenderFrom([p]) == PartOf(p) + RenderFrom([]);
    } else {
      assert (pushes + [p])[1..] == pushes[1..] + [p];
      RenderFromSnoc(pushes[1..], p);
    }
  }

  lemma {:induction false} RenderIsRenderFrom(pushes: seq<Push>)
    ensures Render(pushes) == RenderFrom(pushes)
  {
    hide PartOf, IsEmpty;
    if pushes != [] {
      var n := |pushes| - 1;
      RenderIsRenderFrom(pushes[..n]);
      RenderFromSnoc(pushes[..n], pushes[n]);
      assert pushes == pushes[..n] + [pushes[n]];
      EmptyPart(pushes[n]);
      JoinSnoc(Parts(pushes[..n]), PartOf(pushes[n]));
      assert Parts(pushes[..n]) + [] == Parts(pushes[..n]);
    }
  }

  lemma EmptyPart(p: Push)
    ensures IsEmpty(p) ==> PartOf(p) == [] && SpanOf(p) == []
  {
  }

  function PlainSpan(x: string): seq<InlineSpan> {
    if x == [] then [] else [Text(x, [])]
  }

  lemma PlainTextOfEscape(x: string)
    ensures PlainText(HtmlEscape(x)) == PlainSpan(x)
  {
    DecodeUndoesEscape(x);
    EscapeLeavesNoMarkup(x);
  }

  lemma PlainTwice(x: string, y: string)
    requires y != []
    ensures Merge(PlainSpan(x) + [Text(y, [])]) == Merge(PlainSpan(x + y))
  {
    PushAllSnoc([], PlainSpan(x), Text(y, []));
    MergeOne(Text(x, []));
    MergeOne(Text(x + y, []));
    assert x == [] ==> x + y == y;
  }

  lemma MergePlain(x: string, y: string, rest: seq<InlineSpan>)
    requires y != []
    ensures Merge(PlainSpan(x) + ([Text(y, [])] + rest)) == Merge(PlainSpan(x + y) + rest)
  {
    hide *;
    PlainTwice(x, y);
    MergeAppend(PlainSpan(x) + [Text(y, [])], rest);
    MergeAppend(PlainSpan(x + y), rest);
    AppendAssoc(PlainSpan(x), [Text(y, [])], rest);
  }

  lemma MergeOne(span: InlineSpan)
    ensures Merge([]) == [] && Merge([span]) == [span]
  {
    PushAllSnoc([], [], span);
    assert [] + [span] == [span];
  }

  /** Parsing after some plain text already written. */
  lemma {:induction false} RoundTripFrom(x: string, pushes: seq<Push>)
    ensures Merge(ParseFrom(HtmlEscape(x) + RenderFrom(pushes))) == Merge(PlainSpan(x) + SpansOf(pushes))
    decreases |pushes|, 1
  {
    var u := HtmlEscape(x);
    EscapeLeavesNoMarkup(x);
    PlainTextOfEscape(x);
    if pushes == [] {
      NoTag(u);
      assert u + [] == u && PlainSpan(x) + [] == PlainSpan(x);
    } else {
      var p := pushes[0];
      if IsEmpty(p) {
        RoundTripEmpty(x, pushes);
      } else if IsPlain(p) {
        RoundTripPlain(x, pushes);
      } else {
        RoundTripTag(x, pushes);
      }
    }
  }

  lemma FirstPush(pushes: seq<Push>)
    requires pushes != []
    ensures RenderFrom(pushes) == PartOf(pushes[0]) + RenderFrom(pushes[1..])
    ensures SpansOf(pushes) == SpanOf(pushes[0]) + SpansOf(pushes[1..])
  {
  }

  lemma {:induction false} RoundTripEmpty(x: string, pushes: seq<Push>)
    requires pushes != [] && IsEmpty(pushes[0])
    ensures Merge(ParseFrom(HtmlEscape(x) + RenderFrom(pushes))) == Merge(PlainSpan(x) + SpansOf(pushes))
    decreases |pushes|, 0
  {
    EmptyPart(pushes[0]);
    hide PartOf, SpanOf, HtmlEscape, PlainSpan;
    RoundTripFrom(x, pushes[1..]);
    assert [] + RenderFrom(pushes[1..]) == RenderFrom(pushes[1..]) && [] + SpansOf(pushes[1..]) == SpansOf(pushes[1..]);
  }

  lemma PlainPush(p: Push)
    requires IsPlain(p)
    ensures p.value != [] && PartOf(p) == HtmlEscape(p.value) && SpanOf(p) == [Text(p.value, [])]
  {
    hide HtmlEscape;
  }

  lemma NothingYet()
    ensures HtmlEscape([]) == [] && PlainSpan([]) == []
  {
  }

  lemma {:induction false} RoundTripPlain(x: string, pushes: seq<Push>)
    requires pushes != [] && IsPlain(pushes[0])
    ensures Merge(ParseFrom(HtmlEscape(x) + RenderFrom(pushes))) == Merge(PlainSpan(x) + SpansOf(pushes))
    decreases |pushes|, 0
  {
    hide *;
    var v, rest := pushes[0].value, RenderFrom(pushes[1..]);
    PlainPush(pushes[0]);
    FirstPush(pushes);
    RoundTripFrom(x + v, pushes[1..]);
    EscapeAppend(x, v);
    assert HtmlEscape(x) + (HtmlEscape(v) + rest) == HtmlEscape(x + v) + rest;
    MergePlain(x, v, SpansOf(pushes[1..]));
  }

  lemma {:induction false} RoundTripTag(x: string, pushes: seq<Push>)
    requires pushes != [] && !IsEmpty(pushes[0]) && !IsPlain(pushes[0])
    ensures Merge(ParseFrom(HtmlEscape(x) + RenderFrom(pushes))) == Merge(PlainSpan(x) + SpansOf(pushes))
    decreases |pushes|, 0
  {
    hide *;
    var p, rest := pushes[0], pushes[1..];
    EscapeLeavesNoMarkup(x);
    PlainTextOfEscape(x);
    RoundTripFrom([], rest);
    NothingYet();
    FirstPush(pushes);
    assert [] + RenderFrom(rest) == RenderFrom(rest) && [] + SpansOf(rest) == SpansOf(rest);
    ParsePush(HtmlEscape(x), p, RenderFrom(rest));
    MergeTail(PlainSpan(x) + SpanOf(p), ParseFrom(RenderFrom(rest)), SpansOf(rest));
    assert PlainSpan(x) + (SpanOf(p) + SpansOf(rest)) == PlainSpan(x) + SpanOf(p) + SpansOf(rest);
  }

  /** The round trip: for every sequence of pushes, with any styles, links and
      characters, parsing what was rendered gives the pushed runs, adjacent text
      of one style merged, equations trimmed and empty pushes gone. */
  lemma {:induction false} RoundTrip(pushes: seq<Push>)
    ensures Merge(ParseFrom(Render(pushes))) == Merge(SpansOf(pushes))
  {
    RenderIsRenderFrom(pushes);
    RoundTripFrom([], pushes);
    assert HtmlEscape([]) + RenderFrom(pushes) == RenderFrom(pushes);
    assert PlainSpan([]) + SpansOf(pushes) == SpansOf(pushes);
  }
}
