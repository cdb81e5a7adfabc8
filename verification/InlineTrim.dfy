/** What trimming the rendered paragraph does to its runs. */
module InlineTrim {
  import opened Concat
  import opened Strings
  import opened Entities
  import opened InlineParser
  import opened InlineMarkup
  import opened InlineRoundTrip

  ghost predicate White(s: string) {
    forall i :: 0 <= i < |s| ==> IsWhitespace(s[i])
  }

  lemma {:induction false} StartSplit(s: string) returns (w: string)
    ensures White(w) && s == w + TrimStart(s)
  {
    hide IsWhitespace;
    if s != [] && IsWhitespace(s[0]) {
      var v := StartSplit(s[1..]);
      w := [s[0]] + v;
    } else {
      w := [];
    }
  }

  lemma {:induction false} EndSplit(s: string) returns (w: string)
    ensures White(w) && s == TrimEnd(s) + w
  {
    hide IsWhitespace;
    if s != [] && IsWhitespace(s[|s| - 1]) {
      var v := EndSplit(s[..|s| - 1]);
      w := v + [s[|s| - 1]];
      assert s == TrimEnd(s) + v + [s[|s| - 1]];
    } else {
      w := [];
    }
  }

  lemma {:induction false} TrimWhiteStart(w: string, s: string)
    requires White(w)
    ensures TrimStart(w + s) == TrimStart(s)
  {
    hide IsWhitespace;
    if w == [] {
      assert w + s == s;
    } else {
      TrimWhiteStart(w[1..], s);
      assert (w + s)[1..] == w[1..] + s;
    }
  }

  lemma {:induction false} TrimWhiteEnd(s: string, w: string)
    requires White(w)
    ensures TrimEnd(s + w) == TrimEnd(s)
  {
    hide IsWhitespace;
    if w == [] {
      assert s + w == s;
    } else {
      var n := |w| - 1;
      TrimWhiteEnd(s, w[..n]);
      assert (s + w)[..|s + w| - 1] == s + w[..n];
    }
  }

  lemma {:induction false} EncAllWhite(s: string)
    requires White(s)
    ensures EncAll(0, s) == s
  {
    if s != [] {
      EncAllWhite(s[1..]);
    }
  }

  lemma EscapeWhite(s: string)
    requires White(s)
    ensures HtmlEscape(s) == s
  {
    hide HtmlEscape, EncAll;
    EscapeIsCharwise(s);
    EncAllWhite(s);
  }

  /** Escaping keeps a first or last character that is not white space one. */
  lemma EscapeKeepsEnds(s: string)
    requires s != []
    ensures HtmlEscape(s) != []
    ensures !IsWhitespace(s[0]) ==> !IsWhitespace(HtmlEscape(s)[0])
    ensures !IsWhitespace(s[|s| - 1]) ==> !IsWhitespace(HtmlEscape(s)[|HtmlEscape(s)| - 1])
  {
    hide HtmlEscape, Enc, IsWhitespace;
    EscapeLeavesNoMarkup(s);
    EscapeIsCharwise(s);
    var n := |s| - 1;
    assert s == s[..n] + [s[n]];
    EncAllAppend(0, s[..n], [s[n]]);
    assert EncAll(0, [s[n]]) == Enc(0, s[n]) + [];
    if !IsWhitespace(s[0]) {
      EncEnds(s[0]);
    }
    if !IsWhitespace(s[n]) {
      EncEnds(s[n]);
    }
  }

  // --------------------------------------------------- trimming what is pushed

  /** The pushes whose rendering is the rendering trimmed at its start. */
  function WithoutStart(pushes: seq<Push>): seq<Push> {
    if pushes == [] then []
    else if IsEmpty(pushes[0]) then WithoutStart(pushes[1..])
    else if !IsPlain(pushes[0]) then pushes
    else if TrimStart(pushes[0].value) == [] then WithoutStart(pushes[1..])
    else [pushes[0].(value := TrimStart(pushes[0].value))] + pushes[1..]
  }

  function WithoutEnd(pushes: seq<Push>): seq<Push> {
    if pushes == [] then []
    else
      var before, last := pushes[..|pushes| - 1], pushes[|pushes| - 1];
      if IsEmpty(last) then WithoutEnd(before)
      else if !IsPlain(last) then pushes
      else if TrimEnd(last.value) == [] then WithoutEnd(before)
      else before + [last.(value := TrimEnd(last.value))]
  }

  lemma TagEndsText(p: Push)
    requires p.TextPush? && p.value != [] && !IsPlain(p) && !(p.hyperlink.Some? && p.hyperlink.value.Some?)
    ensures var s := PartOf(p); s != [] && s[0] == '<' && s[|s| - 1] == '>'
  {
    hide HtmlEscape, Opening, PartOf, RunStyle.Styles, IsPlain, PlainNames;
    TextMarkup(p);
    StylesArePlain(p.style);
    OpeningShape(p.style.Styles());
  }

  lemma TagEndsLink(p: Push)
    requires p.TextPush? && p.value != [] && p.hyperlink.Some? && p.hyperlink.value.Some?
    ensures var s := PartOf(p); s != [] && s[0] == '<' && s[|s| - 1] == '>'
  {
    hide HtmlEscape, RunStyle.WrapTextTag;
  }

  /** The markup of a run that is not plain begins and ends with a bracket. */
  lemma TagEnds(p: Push)
    requires !IsEmpty(p) && !IsPlain(p)
    ensures var s := PartOf(p); s != [] && s[0] == '<' && s[|s| - 1] == '>'
  {
    hide HtmlEscape, RunStyle.WrapTextTag, RunStyle.Wrap, RunStyle.Styles, Trim;
    if p.EquationPush? {
    } else if p.hyperlink.Some? && p.hyperlink.value.Some? {
      TagEndsLink(p);
    } else {
      TagEndsText(p);
    }
  }

  lemma TrimStartOf(s: string)
    requires s != [] && !IsWhitespace(s[0])
    ensures TrimStart(s) == s
  {
  }

  lemma TrimEndOf(s: string)
    requires s != [] && !IsWhitespace(s[|s| - 1])
    ensures TrimEnd(s) == s
  {
  }

  lemma PlainStart(v: string, rest: string)
    ensures TrimStart(HtmlEscape(v) + rest)
         == if TrimStart(v) == [] then TrimStart(rest) else HtmlEscape(TrimStart(v)) + rest
  {
    hide HtmlEscape, IsWhitespace, TrimStart;
    var w := StartSplit(v);
    var t := TrimStart(v);
    EscapeAppend(w, t);
    EscapeWhite(w);
    AppendAssoc(w, HtmlEscape(t), rest);
    TrimWhiteStart(w, HtmlEscape(t) + rest);
    if t == [] {
      EscapeLeavesNoMarkup(t);
      assert [] + rest == rest;
    } else {
      TrimStartTrims(v);
      EscapeKeepsEnds(t);
      TrimStartOf(HtmlEscape(t) + rest);
    }
  }

  lemma {:induction false} RenderStart(pushes: seq<Push>)
    ensures TrimStart(RenderFrom(pushes)) == RenderFrom(WithoutStart(pushes))
  {
    hide HtmlEscape, PartOf, IsWhitespace, TrimStart, IsEmpty, IsPlain;
    if pushes == [] {
      NothingToTrim();
    } else {
      var p, rest := pushes[0], RenderFrom(pushes[1..]);
      if IsEmpty(p) {
        EmptyPart(p);
        assert [] + rest == rest;
        RenderStart(pushes[1..]);
      } else if IsPlain(p) {
        PlainPush(p);
        PlainStart(p.value, rest);
        if TrimStart(p.value) == [] {
          RenderStart(pushes[1..]);
        } else {
          var t := p.(value := TrimStart(p.value));
          TrimmedPlain(p, TrimStart(p.value));
          PlainPush(t);
          assert ([t] + pushes[1..])[1..] == pushes[1..];
        }
      } else {
        TagEnds(p);
        BracketIsNotSpace();
        TrimStartOf(PartOf(p) + rest);
      }
    }
  }

  lemma NothingToTrim()
    ensures TrimStart([]) == [] && TrimEnd([]) == []
  {
  }

  lemma BracketIsNotSpace()
    ensures !IsWhitespace('<') && !IsWhitespace('>')
  {
  }

  lemma TrimmedPlain(p: Push, t: string)
    requires IsPlain(p) && t != []
    ensures IsPlain(p.(value := t)) && !IsEmpty(p.(value := t))
  {
  }

  lemma PlainEnd(before: string, v: string)
    ensures TrimEnd(before + HtmlEscape(v))
         == if TrimEnd(v) == [] then TrimEnd(before) else before + HtmlEscape(TrimEnd(v))
  {
    hide HtmlEscape, IsWhitespace, TrimEnd;
    var w := EndSplit(v);
    var t := TrimEnd(v);
    EscapeAppend(t, w);
    EscapeWhite(w);
    AppendAssoc(before, HtmlEscape(t), w);
    TrimWhiteEnd(before + HtmlEscape(t), w);
    if t == [] {
      EscapeLeavesNoMarkup(t);
      assert before + [] == before;
    } else {
      TrimEndTrims(v);
      EscapeKeepsEnds(t);
      TrimEndOf(before + HtmlEscape(t));
    }
  }

  lemma {:induction false} RenderEnd(pushes: seq<Push>)
    ensures TrimEnd(RenderFrom(pushes)) == RenderFrom(WithoutEnd(pushes))
  {
    hide HtmlEscape, PartOf, IsWhitespace, TrimEnd, IsEmpty, IsPlain, RenderFrom;
    if pushes == [] {
      NothingToTrim();
      NothingRendered();
    } else {
      var before, p := pushes[..|pushes| - 1], pushes[|pushes| - 1];
      assert pushes == before + [p];
      RenderFromSnoc(before, p);
      if IsEmpty(p) {
        EmptyPart(p);
        assert RenderFrom(before) + [] == RenderFrom(before);
        RenderEnd(before);
      } else if IsPlain(p) {
        PlainPush(p);
        PlainEnd(RenderFrom(before), p.value);
        if TrimEnd(p.value) == [] {
          RenderEnd(before);
        } else {
          var t := p.(value := TrimEnd(p.value));
          TrimmedPlain(p, TrimEnd(p.value));
          PlainPush(t);
          RenderFromSnoc(before, t);
        }
      } else {
        TagEnds(p);
        BracketIsNotSpace();
        TrimEndOf(RenderFrom(before) + PartOf(p));
      }
    }
  }

  lemma NothingRendered()
    ensures RenderFrom([]) == []
  {
  }

  // ---------------------------------------------------- trimming the merged runs

  predicate PlainRun(span: InlineSpan) {
    span.Text? && span.styles == []
  }

  /** The runs with white space cut from a leading plain run. */
  function CutFirst(spans: seq<InlineSpan>): seq<InlineSpan> {
    if spans != [] && PlainRun(spans[0]) then PlainSpan(TrimStart(spans[0].content)) + spans[1..] else spans
  }

  function CutLast(spans: seq<InlineSpan>): seq<InlineSpan> {
    var n := |spans| - 1;
    if spans != [] && PlainRun(spans[n]) then spans[..n] + PlainSpan(TrimEnd(spans[n].content)) else spans
  }

  /** Merged runs merge to themselves. */
  lemma MergeMerged(b: seq<InlineSpan>)
    ensures Merge(Merge(b)) == Merge(b)
  {
    PushMerged([], b);
  }

  /** The first run keeps its kind and grows at its end only. */
  ghost predicate GrownFrom(first: InlineSpan, merged: seq<InlineSpan>) {
    && merged != []
    && if first.Text? then merged[0].Text? && merged[0].styles == first.styles && first.content <= merged[0].content
       else merged[0] == first
  }

  lemma {:induction false} FirstGrows(acc: seq<InlineSpan>, first: InlineSpan, b: seq<InlineSpan>)
    requires GrownFrom(first, acc)
    ensures GrownFrom(first, PushAll(acc, b))
  {
    if b != [] {
      FirstGrows(acc, first, b[..|b| - 1]);
    }
  }

  lemma InFrontSpan(x: InlineSpan, m: seq<InlineSpan>, y: InlineSpan)
    requires m != []
    ensures PushSpan([x] + m, y) == [x] + PushSpan(m, y)
  {
    assert ([x] + m)[..|m|] == [x] + m[..|m| - 1];
  }

  /** A first run that does not take the second in stays in front. */
  lemma {:induction false} InFront(x: InlineSpan, acc: seq<InlineSpan>, b: seq<InlineSpan>)
    requires acc != []
    ensures PushAll([x] + acc, b) == [x] + PushAll(acc, b) && PushAll(acc, b) != []
  {
    hide PushSpan;
    if b != [] {
      var n := |b| - 1;
      InFront(x, acc, b[..n]);
      InFrontSpan(x, PushAll(acc, b[..n]), b[n]);
      SpanPushed(PushAll(acc, b[..n]), b[n]);
    }
  }

  lemma SpanPushed(m: seq<InlineSpan>, y: InlineSpan)
    ensures PushSpan(m, y) != []
  {
  }

  /** Text in front of the first run. */
  function Prefixed(w: string, spans: seq<InlineSpan>): seq<InlineSpan>
    requires spans != [] && spans[0].Text?
  {
    [Text(w + spans[0].content, spans[0].styles)] + spans[1..]
  }

  lemma {:induction false} PrefixedPush(w: string, acc: seq<InlineSpan>, b: seq<InlineSpan>)
    requires acc != [] && acc[0].Text?
    ensures PushAll(acc, b) != [] && PushAll(acc, b)[0].Text?
    ensures PushAll(Prefixed(w, acc), b) == Prefixed(w, PushAll(acc, b))
  {
    if b != [] {
      var n := |b| - 1;
      PrefixedPush(w, acc, b[..n]);
      PrefixedSpan(w, PushAll(acc, b[..n]), b[n]);
    }
  }

  lemma PrefixedSpan(w: string, m: seq<InlineSpan>, x: InlineSpan)
    requires m != [] && m[0].Text?
    ensures PushSpan(m, x) != [] && PushSpan(m, x)[0].Text?
    ensures PushSpan(Prefixed(w, m), x) == Prefixed(w, PushSpan(m, x))
  {
    hide PushSpan;
    var h, r := m[0], m[1..];
    var g := Text(w + h.content, h.styles);
    if r == [] {
      assert m == [h] && Prefixed(w, m) == [g];
      OnOne(h, x);
      OnOne(g, x);
      if x.Text? && x.styles == h.styles {
        AppendAssoc(w, h.content, x.content);
      }
    } else {
      assert m == [h] + r;
      InFrontSpan(h, r, x);
      InFrontSpan(g, r, x);
    }
  }

  lemma PushAllFirst(acc: seq<InlineSpan>, x: InlineSpan, b: seq<InlineSpan>)
    ensures PushAll(acc, [x] + b) == PushAll(PushSpan(acc, x), b)
  {
    PushAllAppend(acc, [x], b);
    PushAllSnoc(acc, [], x);
    assert [] + [x] == [x];
  }

  lemma OnOne(x: InlineSpan, y: InlineSpan)
    ensures PushSpan([], x) == [x]
    ensures !(x.Text? && y.Text? && x.styles == y.styles) ==> PushSpan([x], y) == [x] + [y]
    ensures x.Text? && y.Text? && x.styles == y.styles ==> PushSpan([x], y) == [Text(x.content + y.content, y.styles)]
  {
    assert [x][..0] == [];
  }

  lemma PrefixedOne(w: string, x: InlineSpan)
    requires x.Text?
    ensures Prefixed(w, [x]) == [Text(w + x.content, x.styles)]
  {
  }

  /** Pushing merged runs onto white text puts it in front of them or into the first. */
  lemma WhiteInFront(w: string, m: seq<InlineSpan>)
    requires m != [] && Merge(m) == m
    ensures PushAll([Text(w, [])], m) == if PlainRun(m[0]) then Prefixed(w, m) else [Text(w, [])] + m
  {
    hide Merge, PushAll, PushSpan, Prefixed;
    MergeIsPushAllOf(m);
    assert m == [m[0]] + m[1..];
    PushAllFirst([Text(w, [])], m[0], m[1..]);
    PushAllFirst([], m[0], m[1..]);
    OnOne(m[0], m[0]);
    OnOne(Text(w, []), m[0]);
    if PlainRun(m[0]) {
      PrefixedOne(w, m[0]);
      PrefixedPush(w, [m[0]], m[1..]);
    } else {
      InFront(Text(w, []), [m[0]], m[1..]);
    }
  }

  /** White text in front of any runs is cut away. */
  lemma DropWhiteFirst(w: string, b: seq<InlineSpan>)
    requires White(w)
    ensures CutFirst(Merge([Text(w, [])] + b)) == CutFirst(Merge(b))
  {
    hide TrimStart, Merge, IsWhitespace, PushAll;
    var m := Merge(b);
    MergeIsPushAll([Text(w, [])], b);
    TrimWhite(w);
    if m == [] {
      PushNothing([Text(w, [])]);
      assert [Text(w, [])][1..] == [];
    } else {
      MergeMerged(b);
      WhiteInFront(w, m);
      if PlainRun(m[0]) {
        TrimWhiteStart(w, m[0].content);
      } else {
        assert ([Text(w, [])] + m)[1..] == m;
      }
    }
  }

  lemma PushNothing(acc: seq<InlineSpan>)
    ensures PushAll(acc, []) == acc
  {
  }

  lemma TrimWhite(w: string)
    requires White(w)
    ensures TrimStart(w) == [] && TrimEnd(w) == []
  {
    TrimWhiteStart(w, []);
    TrimWhiteEnd([], w);
    assert w + [] == w && [] + w == w;
  }

  lemma MergeIsPushAll(a: seq<InlineSpan>, b: seq<InlineSpan>)
    requires |a| == 1
    ensures Merge(a + b) == PushAll(a, Merge(b))
  {
    MergeAppend(a, b);
    MergeOne(a[0]);
    assert a == [a[0]];
    PushMerged(a, b);
  }

  lemma MergeIsPushAllOf(m: seq<InlineSpan>)
    ensures Merge(m) == PushAll([], m)
  {
  }

  // ------------------------------------------------------------ the round trip

  lemma PlainSpans(p: Push, rest: seq<InlineSpan>)
    requires IsPlain(p)
    ensures SpanOf(p) == [Text(p.value, [])]
  {
    hide HtmlEscape;
    PlainPush(p);
  }

  /** A first run that is not plain, or begins with no white space, stays whole. */
  lemma FirstStays(x: InlineSpan, b: seq<InlineSpan>)
    requires PlainRun(x) ==> x.content != [] && !IsWhitespace(x.content[0])
    ensures CutFirst(Merge([x] + b)) == Merge([x] + b)
  {
    hide IsWhitespace, TrimStart, PushAll;
    MergeAppend([x], b);
    MergeOne(x);
    FirstGrows([x], x, b);
    var m := Merge([x] + b);
    if PlainRun(m[0]) {
      TrimStartOf(m[0].content);
      assert m == [m[0]] + m[1..];
    }
  }

  /** Cutting white space from a first plain run. */
  lemma CutPlainFirst(v: string, b: seq<InlineSpan>)
    ensures CutFirst(Merge([Text(v, [])] + b))
         == if TrimStart(v) == [] then CutFirst(Merge(b)) else Merge([Text(TrimStart(v), [])] + b)
  {
    hide Merge, CutFirst, TrimStart, IsWhitespace;
    var w := StartSplit(v);
    var t := TrimStart(v);
    if t == [] {
      assert w + [] == w;
      DropWhiteFirst(w, b);
    } else {
      TwoFirst(w, t, b);
      DropWhiteFirst(w, [Text(t, [])] + b);
      TrimStartTrims(v);
      FirstStays(Text(t, []), b);
    }
  }

  lemma TwoFirst(w: string, t: string, b: seq<InlineSpan>)
    ensures Merge([Text(w, [])] + ([Text(t, [])] + b)) == Merge([Text(w + t, [])] + b)
  {
    MergeAppend([Text(w, [])] + [Text(t, [])], b);
    MergeAppend([Text(w + t, [])], b);
    PushAllFirst([], Text(w, []), [Text(t, [])]);
    PushAllSnoc([Text(w, [])], [], Text(t, []));
    MergeOne(Text(w + t, []));
    OnOne(Text(w, []), Text(t, []));
    assert [] + [Text(t, [])] == [Text(t, [])];
    assert [Text(w, [])] + [Text(t, [])] + b == [Text(w, [])] + ([Text(t, [])] + b);
  }

  lemma TagRun(p: Push)
    requires !IsEmpty(p) && !IsPlain(p)
    ensures |SpanOf(p)| == 1 && !PlainRun(SpanOf(p)[0])
  {
  }

  lemma {:induction false} RunsStart(pushes: seq<Push>)
    ensures CutFirst(Merge(SpansOf(pushes))) == Merge(SpansOf(WithoutStart(pushes)))
  {
    hide Merge, CutFirst, TrimStart, IsEmpty, IsPlain, SpanOf;
    if pushes == [] {
      NoRuns();
    } else {
      var p, rest := pushes[0], SpansOf(pushes[1..]);
      if IsEmpty(p) {
        EmptyPart(p);
        assert [] + rest == rest;
        RunsStart(pushes[1..]);
      } else if IsPlain(p) {
        PlainSpans(p, rest);
        CutPlainFirst(p.value, rest);
        if TrimStart(p.value) == [] {
          RunsStart(pushes[1..]);
        } else {
          var t := p.(value := TrimStart(p.value));
          TrimmedPlain(p, TrimStart(p.value));
          PlainSpans(t, rest);
          assert ([t] + pushes[1..])[1..] == pushes[1..];
        }
      } else {
        TagRun(p);
        assert SpanOf(p) == [SpanOf(p)[0]];
        FirstStays(SpanOf(p)[0], rest);
      }
    }
  }

  lemma NoRuns()
    ensures Merge([]) == [] && CutFirst([]) == [] && CutLast([]) == []
  {
  }

  lemma {:induction false} SpansSnoc(pushes: seq<Push>, p: Push)
    ensures SpansOf(pushes + [p]) == SpansOf(pushes) + SpanOf(p)
  {
    hide SpanOf;
    if pushes == [] {
      assert SpansOf([p]) == SpanOf(p) + SpansOf([]);
    } else {
      assert (pushes + [p])[1..] == pushes[1..] + [p];
      SpansSnoc(pushes[1..], p);
    }
  }

  lemma CutLastOf(a: seq<InlineSpan>, c: string)
    ensures CutLast(a + [Text(c, [])]) == a + PlainSpan(TrimEnd(c))
  {
    hide TrimEnd;
    assert (a + [Text(c, [])])[..|a|] == a;
  }

  lemma PushPlain(a: seq<InlineSpan>, c: string, v: string)
    ensures PushSpan(a + [Text(c, [])], Text(v, [])) == a + [Text(c + v, [])]
  {
    assert (a + [Text(c, [])])[..|a|] == a;
  }

  lemma TrimEndJoined(c: string, v: string)
    ensures TrimEnd(c + v) == if TrimEnd(v) == [] then TrimEnd(c) else c + TrimEnd(v)
  {
    hide TrimEnd, IsWhitespace;
    var w := EndSplit(v);
    AppendAssoc(c, TrimEnd(v), w);
    TrimWhiteEnd(c + TrimEnd(v), w);
    if TrimEnd(v) == [] {
      assert c + [] == c;
    } else {
      TrimEndTrims(v);
      TrimEndOf(c + TrimEnd(v));
    }
  }

  /** Cutting white space from a last plain run. */
  lemma CutPlainLast(m: seq<InlineSpan>, v: string)
    ensures CutLast(PushSpan(m, Text(v, [])))
         == if TrimEnd(v) == [] then CutLast(m) else PushSpan(m, Text(TrimEnd(v), []))
  {
    hide TrimEnd, CutLast, PushSpan;
    var n := |m| - 1;
    if m != [] && PlainRun(m[n]) {
      var a, c := m[..n], m[n].content;
      assert m == a + [Text(c, [])];
      PushPlain(a, c, v);
      PushPlain(a, c, TrimEnd(v));
      CutLastOf(a, c + v);
      CutLastOf(a, c);
      TrimEndJoined(c, v);
    } else {
      AfterOther(m, Text(v, []));
      AfterOther(m, Text(TrimEnd(v), []));
      CutLastOf(m, v);
      assert m + [] == m;
    }
  }

  lemma AfterOther(m: seq<InlineSpan>, x: InlineSpan)
    requires PlainRun(x) && (m == [] || !PlainRun(m[|m| - 1]))
    ensures PushSpan(m, x) == m + [x] && CutLast(m) == m
  {
  }

  lemma TagLast(m: seq<InlineSpan>, x: InlineSpan)
    requires !PlainRun(x)
    ensures CutLast(PushSpan(m, x)) == PushSpan(m, x)
  {
  }

  lemma {:induction false} RunsEnd(pushes: seq<Push>)
    ensures CutLast(Merge(SpansOf(pushes))) == Merge(SpansOf(WithoutEnd(pushes)))
  {
    hide CutLast, TrimEnd, IsEmpty, IsPlain, SpanOf, SpansOf, PushSpan;
    if pushes == [] {
      NoRuns();
      NoSpans();
    } else {
      var before, p := pushes[..|pushes| - 1], pushes[|pushes| - 1];
      assert pushes == before + [p];
      SpansSnoc(before, p);
      if IsEmpty(p) {
        EmptyPart(p);
        assert SpansOf(before) + [] == SpansOf(before);
        RunsEnd(before);
      } else if IsPlain(p) {
        PlainSpans(p, []);
        PushAllSnoc([], SpansOf(before), Text(p.value, []));
        CutPlainLast(Merge(SpansOf(before)), p.value);
        if TrimEnd(p.value) == [] {
          RunsEnd(before);
        } else {
          var t := p.(value := TrimEnd(p.value));
          TrimmedPlain(p, TrimEnd(p.value));
          PlainSpans(t, []);
          SpansSnoc(before, t);
          PushAllSnoc([], SpansOf(before), Text(t.value, []));
        }
      } else {
        TagRun(p);
        assert SpanOf(p) == [SpanOf(p)[0]];
        PushAllSnoc([], SpansOf(before), SpanOf(p)[0]);
        TagLast(Merge(SpansOf(before)), SpanOf(p)[0]);
      }
    }
  }

  lemma NoSpans()
    ensures SpansOf([]) == []
  {
  }

  /** The pushes whose rendering is the trimmed one; their runs are the cut ones. */
  function TrimmedPushes(pushes: seq<Push>): seq<Push> {
    WithoutEnd(WithoutStart(pushes))
  }

  /** The runs a trimmed rendering stands for. */
  function RunsLeft(pushes: seq<Push>): seq<InlineSpan> {
    CutLast(CutFirst(Merge(SpansOf(pushes))))
  }

  lemma TrimAsPushes(pushes: seq<Push>)
    ensures Trim(Render(pushes)) == RenderFrom(TrimmedPushes(pushes))
    ensures RunsLeft(pushes) == Merge(SpansOf(TrimmedPushes(pushes)))
  {
    hide Merge, Render, RenderFrom, SpansOf, CutFirst, CutLast, TrimStart, TrimEnd, WithoutStart, WithoutEnd;
    RenderIsRenderFrom(pushes);
    RenderStart(pushes);
    RenderEnd(WithoutStart(pushes));
    RunsStart(pushes);
    RunsEnd(WithoutStart(pushes));
  }

  /** The round trip through the trim: parsing the trimmed rendering gives the
      merged runs with white space cut from a leading and a trailing plain run,
      and such a run gone when it was all white space. */
  lemma TrimmedRoundTrip(pushes: seq<Push>)
    ensures Merge(ParseFrom(Trim(Render(pushes)))) == RunsLeft(pushes)
  {
    hide Merge, ParseFrom, Render, RenderFrom, SpansOf, RunsLeft, Trim, TrimmedPushes;
    TrimAsPushes(pushes);
    RenderIsRenderFrom(TrimmedPushes(pushes));
    RoundTrip(TrimmedPushes(pushes));
  }

  lemma StepGives(s: string)
    requires s != []
    ensures ParseStep(s).0 != []
  {
    hide DecodeBasicEntities, FindNextTag, ParseWrappedTag, ParseTextTag, ParseHyperlinkTag, Trim;
  }

  /** Text that is not empty has at least one run. */
  lemma SomethingParsed(s: string)
    requires s != []
    ensures Merge(ParseFrom(s)) != []
  {
    hide ParseStep, PushAll;
    StepGives(s);
    var b := ParseFrom(s);
    assert b == [b[0]] + b[1..];
    MergeAppend([b[0]], b[1..]);
    MergeOne(b[0]);
    FirstGrows([b[0]], b[0], b[1..]);
  }

  /** The trimmed rendering is empty exactly when no run is left. */
  lemma NothingLeftToStore(pushes: seq<Push>)
    ensures Trim(Render(pushes)) == [] <==> RunsLeft(pushes) == []
  {
    hide Merge, Render, RunsLeft, Trim, ParseStep;
    TrimmedRoundTrip(pushes);
    if Trim(Render(pushes)) != [] {
      SomethingParsed(Trim(Render(pushes)));
    } else {
      NoRuns();
    }
  }
}
