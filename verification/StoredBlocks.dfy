/** What kind of block a paragraph is stored as, and what its block keeps of the
    runs: an equation loses its tags but not its escape. */
module StoredBlocks {
  import opened Options
  import opened Sums
  import opened Strings
  import opened Entities
  import opened InlineParser
  import opened InlineMarkup
  import opened InlineRoundTrip
  import opened InlineTrim
  import opened OfficeBlocks

  predicate EndsWith(s: string, pat: string) {
    |s| >= |pat| && s[|s| - |pat|..] == pat
  }

  /** `str::trim_start_matches`: the pattern is cut as often as it is there. */
  function TrimStartMatches(s: string, pat: string): string
    requires pat != []
  {
    if pat <= s then TrimStartMatches(s[|pat|..], pat) else s
  }

  function TrimEndMatches(s: string, pat: string): string
    requires pat != []
  {
    if EndsWith(s, pat) then TrimEndMatches(s[..|s| - |pat|], pat) else s
  }

  predicate IsEquationOnly(content: string) {
    "<eq>" <= content && EndsWith(content, "</eq>")
  }

  /** What is left of an equation's markup without its tags. */
  function Latex(content: string): string {
    TrimEndMatches(TrimStartMatches(content, "<eq>"), "</eq>")
  }

  function BlockOf(level: Option<nat>, isList: bool, content: string): OfficeBlock {
    if level.Some? then Title(content, level.value)
    else if isList then List([content])
    else if IsEquationOnly(content) then Equation(Latex(content))
    else OfficeBlock.Text(content)
  }

  predicate EquationEnds(runs: seq<InlineSpan>) {
    runs != [] && runs[0].InlineEquation? && runs[|runs| - 1].InlineEquation?
  }

  /** The runs are one run that the escape leaves alone. */
  predicate OneQuietRun(runs: seq<InlineSpan>) {
    |runs| == 1 && Quiet(runs[0].content)
  }

  predicate Quiet(s: string) {
    '&' !in s && '<' !in s && '>' !in s && '"' !in s
  }

  /** The text of all runs, in order. */
  function Texts(runs: seq<InlineSpan>): string {
    if runs == [] then [] else Texts(runs[..|runs| - 1]) + runs[|runs| - 1].content
  }

  /** What a stored block keeps of the runs. The LaTeX of an equation is a
      formula of the paragraph, or all its text, only for one quiet run. */
  ghost predicate Keeps(block: OfficeBlock, level: Option<nat>, isList: bool, runs: seq<InlineSpan>) {
    match block
    case Title(content, n) => level == Some(n) && Merge(ParseFrom(content)) == runs
    case List(items) => level == None && isList && |items| == 1 && Merge(ParseFrom(items[0])) == runs
    case Text(content) => level == None && !isList && !EquationEnds(runs) && Merge(ParseFrom(content)) == runs
    case Equation(latex) =>
      && level == None && !isList && EquationEnds(runs)
      && Merge(ParseFrom("<eq>" + latex + "</eq>")) == runs
      && (InlineEquation(latex) in runs <==> OneQuietRun(runs))
      && (latex == Texts(runs) <==> OneQuietRun(runs))
    case Table(_) => false
  }

  // ---------------------------------------------------------- the escape's cost

  lemma {:induction false} EncGrows(s: string)
    ensures |EncAll(0, s)| >= |s|
    ensures |EncAll(0, s)| == |s| ==> Quiet(s)
    ensures Quiet(s) ==> EncAll(0, s) == s
  {
    if s != [] {
      EncGrows(s[1..]);
      assert s == [s[0]] + s[1..];
    }
  }

  /** The escape changes a text exactly when it holds one of the four characters. */
  lemma EscapeKeeps(s: string)
    ensures HtmlEscape(s) == s <==> Quiet(s)
    ensures |HtmlEscape(s)| >= |s|
  {
    hide HtmlEscape, EncAll, Quiet;
    EscapeIsCharwise(s);
    EncGrows(s);
  }

  // ------------------------------------------------------- where equations stand

  function EquationText(formula: string): string {
    "<eq>" + HtmlEscape(formula) + "</eq>"
  }

  lemma EquationPart(p: Push)
    requires p.EquationPush? && !IsEmpty(p)
    ensures SpanOf(p) == [InlineEquation(Trim(p.value))] && PartOf(p) == EquationText(Trim(p.value))
    ensures Trim(p.value) != []
  {
    hide HtmlEscape, Trim;
  }

  /** The markup of a formula: its first and last character are not those of a tag. */
  lemma EquationShape(formula: string)
    requires formula != []
    ensures var s := EquationText(formula);
            && |s| >= 10 && "<eq>" <= s && s[4] != '<' && EndsWith(s, "</eq>") && s[|s| - 6] != '>'
  {
    hide HtmlEscape;
    EscapeLeavesNoMarkup(formula);
    var e := HtmlEscape(formula);
    assert EquationText(formula) == "<eq>" + (e + "</eq>");
    assert EquationText(formula)[4] == e[0];
    assert EquationText(formula)[|e| + 3] == e[|e| - 1];
  }

  /** Markup opens an equation exactly when an equation was pushed. */
  lemma PartOpens(p: Push, rest: string)
    requires !IsEmpty(p)
    ensures "<eq>" <= PartOf(p) + rest <==> p.EquationPush?
  {
    hide PartOf, SpanOf, ParseTag, HtmlEscape, Opens;
    if p.EquationPush? {
      ParseEquationPush(p, rest);
      PartOpensTag(PartOf(p), rest, EquationTag);
    } else if IsPlain(p) {
      PlainPush(p);
      EscapeLeavesNoMarkup(p.value);
      assert (PartOf(p) + rest)[0] == HtmlEscape(p.value)[0];
    } else if p.hyperlink.Some? && p.hyperlink.value.Some? {
      ParseLinkPush(p, rest);
      PartOpensTag(PartOf(p), rest, HyperlinkTag);
    } else {
      ParseTextPush(p, rest);
      PartOpensTag(PartOf(p), rest, TextTag);
    }
  }

  lemma PartOpensTag(part: string, rest: string, tag: InlineTag)
    requires Opens(part, tag)
    ensures "<eq>" <= part + rest <==> tag.EquationTag?
  {
    hide Opens;
    OpensLonger(part, rest, tag);
    OpensOnlyOne(part + rest, tag);
  }

  lemma EndChars(s: string)
    requires EndsWith(s, "</eq>")
    ensures |s| >= 5 && s[|s| - 2] == 'q' && s[|s| - 1] == '>'
  {
    assert s[|s| - 5..][3] == 'q' && s[|s| - 5..][4] == '>';
  }

  lemma OtherEnd(x: string, c: char)
    requires c != 'q'
    ensures !EndsWith(x + [c] + ">", "</eq>")
  {
    hide EndsWith;
    var s := x + [c] + ">";
    assert s[|s| - 2] == c;
    if EndsWith(s, "</eq>") {
      EndChars(s);
    }
  }

  lemma LinkEnd(before: string, p: Push)
    requires p.TextPush? && p.value != [] && p.hyperlink.Some? && p.hyperlink.value.Some?
    ensures !EndsWith(before + PartOf(p), "</eq>")
  {
    hide HtmlEscape, EndsWith, PartOf, Opening;
    LinkMarkup(p);
    var url := HtmlEscape(p.hyperlink.value.value);
    var body := Opening(p.style.Styles()) + HtmlEscape(p.value) + "</text>" + ("<url>" + url + "</url>");
    assert "</hyperlink>" == "</hyperlin" + ['k'] + ">";
    assert before + PartOf(p) == before + ("<hyperlink>" + body) + "</hyperlin" + ['k'] + ">";
    OtherEnd(before + ("<hyperlink>" + body) + "</hyperlin", 'k');
  }

  lemma TextEnd(before: string, p: Push)
    requires p.TextPush? && p.value != [] && !IsPlain(p) && !(p.hyperlink.Some? && p.hyperlink.value.Some?)
    ensures !EndsWith(before + PartOf(p), "</eq>")
  {
    hide HtmlEscape, EndsWith, PartOf, Opening, IsPlain, RunStyle.Styles;
    TextMarkup(p);
    var body := Opening(p.style.Styles()) + HtmlEscape(p.value);
    assert "</text>" == "</tex" + ['t'] + ">";
    assert before + PartOf(p) == before + body + "</tex" + ['t'] + ">";
    OtherEnd(before + body + "</tex", 't');
  }

  lemma PlainEndOf(before: string, p: Push)
    requires IsPlain(p)
    ensures !EndsWith(before + PartOf(p), "</eq>")
  {
    hide HtmlEscape, PartOf, IsPlain, EndsWith;
    PlainPush(p);
    EscapeLeavesNoMarkup(p.value);
    var s, e := before + PartOf(p), HtmlEscape(p.value);
    assert s[|s| - 1] == e[|e| - 1];
    if EndsWith(s, "</eq>") {
      EndChars(s);
    }
  }

  lemma EndsLater(before: string, s: string, pat: string)
    requires EndsWith(s, pat)
    ensures EndsWith(before + s, pat)
  {
  }

  /** Markup closes an equation exactly when an equation was pushed. */
  lemma PartCloses(before: string, p: Push)
    requires !IsEmpty(p)
    ensures EndsWith(before + PartOf(p), "</eq>") <==> p.EquationPush?
  {
    hide PartOf, HtmlEscape, EndsWith, IsPlain, EquationText;
    if p.EquationPush? {
      EquationPart(p);
      EquationShape(Trim(p.value));
      EndsLater(before, PartOf(p), "</eq>");
    } else if IsPlain(p) {
      PlainEndOf(before, p);
    } else if p.hyperlink.Some? && p.hyperlink.value.Some? {
      LinkEnd(before, p);
    } else {
      TextEnd(before, p);
    }
  }

  lemma FirstKind(x: InlineSpan, b: seq<InlineSpan>)
    ensures var m := Merge([x] + b); m != [] && (m[0].InlineEquation? <==> x.InlineEquation?)
  {
    hide PushSpan;
    MergeAppend([x], b);
    MergeOne(x);
    FirstGrows([x], x, b);
  }

  lemma LastKind(m: seq<InlineSpan>, x: InlineSpan)
    ensures var n := PushSpan(m, x); n != [] && (n[|n| - 1].InlineEquation? <==> x.InlineEquation?)
  {
  }

  /** The run of a push that leaves one. */
  lemma RunOf(p: Push)
    requires !IsEmpty(p)
    ensures |SpanOf(p)| == 1 && (SpanOf(p)[0].InlineEquation? <==> p.EquationPush?)
  {
    hide Trim;
  }

  /** A rendering opens with an equation exactly when its first run is one. */
  lemma {:induction false} OpensWithEquation(pushes: seq<Push>)
    ensures var s, runs := RenderFrom(pushes), Merge(SpansOf(pushes));
            && ("<eq>" <= s <==> runs != [] && runs[0].InlineEquation?)
            && ("<eq>" <= s ==> |s| >= 10 && s[4] != '<')
  {
    hide PartOf, SpanOf, Merge, IsEmpty, EndsWith, EquationText;
    if pushes == [] {
      NoRuns();
    } else {
      var p, rest := pushes[0], RenderFrom(pushes[1..]);
      if IsEmpty(p) {
        EmptyPart(p);
        assert [] + rest == rest && [] + SpansOf(pushes[1..]) == SpansOf(pushes[1..]);
        OpensWithEquation(pushes[1..]);
      } else {
        PartOpens(p, rest);
        RunOf(p);
        assert SpanOf(p) == [SpanOf(p)[0]];
        FirstKind(SpanOf(p)[0], SpansOf(pushes[1..]));
        if p.EquationPush? {
          EquationPart(p);
          EquationShape(Trim(p.value));
        }
      }
    }
  }

  /** A rendering closes with an equation exactly when its last run is one. */
  lemma {:induction false} ClosesWithEquation(pushes: seq<Push>)
    ensures var s, runs := RenderFrom(pushes), Merge(SpansOf(pushes));
            && (EndsWith(s, "</eq>") <==> runs != [] && runs[|runs| - 1].InlineEquation?)
            && (EndsWith(s, "</eq>") ==> |s| >= 10 && s[|s| - 6] != '>')
  {
    hide PartOf, SpanOf, SpansOf, RenderFrom, PushSpan, IsEmpty, EndsWith, EquationText;
    if pushes == [] {
      NoRuns();
      NoSpans();
      NothingRendered();
      NothingEnds();
    } else {
      var before, p := pushes[..|pushes| - 1], pushes[|pushes| - 1];
      assert pushes == before + [p];
      RenderFromSnoc(before, p);
      SpansSnoc(before, p);
      if IsEmpty(p) {
        EmptyPart(p);
        assert RenderFrom(before) + [] == RenderFrom(before) && SpansOf(before) + [] == SpansOf(before);
        ClosesWithEquation(before);
      } else {
        PartCloses(RenderFrom(before), p);
        RunOf(p);
        assert SpanOf(p) == [SpanOf(p)[0]];
        PushAllSnoc([], SpansOf(before), SpanOf(p)[0]);
        LastKind(Merge(SpansOf(before)), SpanOf(p)[0]);
        if p.EquationPush? {
          EquationPart(p);
          EquationShape(Trim(p.value));
        }
      }
    }
  }

  lemma NothingEnds()
    ensures !EndsWith([], "</eq>")
  {
  }

  /** A paragraph is stored as an equation exactly when it has no level, is no
      list, and its first and last run are equations. */
  lemma EquationBranch(pushes: seq<Push>, level: Option<nat>, isList: bool)
    ensures BlockOf(level, isList, Trim(Render(pushes))).Equation?
       <==> level.None? && !isList && EquationEnds(RunsLeft(pushes))
  {
    hide Trim, Render, RenderFrom, SpansOf, Merge, RunsLeft, TrimmedPushes, EndsWith, Latex;
    TrimAsPushes(pushes);
    OpensWithEquation(TrimmedPushes(pushes));
    ClosesWithEquation(TrimmedPushes(pushes));
  }

  // ------------------------------------------------------------ what is stored

  /** One tag is cut at each end and no more. */
  lemma TagsCut(content: string)
    requires IsEquationOnly(content) && |content| >= 10 && content[4] != '<' && content[|content| - 6] != '>'
    ensures content == "<eq>" + Latex(content) + "</eq>"
  {
    var rest := content[4..];
    assert rest[0] == content[4] && TrimStartMatches(content, "<eq>") == rest;
    assert EndsWith(rest, "</eq>");
    var latex := rest[..|rest| - 5];
    assert latex[|latex| - 1] == content[|content| - 6];
    assert TrimEndMatches(latex, "</eq>") == latex;
    assert TrimEndMatches(rest, "</eq>") == latex;
    assert content == "<eq>" + latex + "</eq>";
  }

  /** The equation's content is its LaTeX between the two tags. */
  lemma EquationContent(pushes: seq<Push>)
    requires EquationEnds(RunsLeft(pushes))
    ensures var content := Trim(Render(pushes));
            content == "<eq>" + Latex(content) + "</eq>"
  {
    hide Trim, Render, RenderFrom, SpansOf, Merge, RunsLeft, TrimmedPushes, EndsWith, Latex;
    TrimAsPushes(pushes);
    OpensWithEquation(TrimmedPushes(pushes));
    ClosesWithEquation(TrimmedPushes(pushes));
    TagsCut(Trim(Render(pushes)));
  }

  lemma {:induction false} NoSpansNoText(pushes: seq<Push>)
    requires SpansOf(pushes) == []
    ensures RenderFrom(pushes) == []
  {
    hide PartOf, SpanOf, IsEmpty;
    if pushes != [] {
      if !IsEmpty(pushes[0]) {
        RunOf(pushes[0]);
      }
      EmptyPart(pushes[0]);
      NoSpansNoText(pushes[1..]);
    }
  }

  /** Anything behind a run that takes no text is another run. */
  lemma MoreRuns(x: InlineSpan, b: seq<InlineSpan>)
    requires !x.Text? && b != []
    ensures |Merge([x] + b)| >= 2
  {
    hide PushAll, PushSpan;
    MergeAppend([x], b);
    MergeOne(x);
    OnOne(x, b[0]);
    assert b == [b[0]] + b[1..];
    PushAllFirst([x], b[0], b[1..]);
    InFront(x, [b[0]], b[1..]);
  }

  /** A paragraph whose only run is an equation renders as its markup. */
  lemma {:induction false} OneEquation(pushes: seq<Push>, formula: string)
    requires Merge(SpansOf(pushes)) == [InlineEquation(formula)]
    ensures RenderFrom(pushes) == EquationText(formula)
  {
    hide PartOf, SpanOf, Merge, IsEmpty, EquationText;
    if pushes == [] {
      NoRuns();
    } else {
      var p, b := pushes[0], SpansOf(pushes[1..]);
      if IsEmpty(p) {
        EmptyPart(p);
        assert [] + b == b && [] + RenderFrom(pushes[1..]) == RenderFrom(pushes[1..]);
        OneEquation(pushes[1..], formula);
      } else {
        RunOf(p);
        var x := SpanOf(p)[0];
        assert SpanOf(p) == [x];
        FirstKind(x, b);
        EquationPart(p);
        if b != [] {
          MoreRuns(x, b);
        }
        MergeOne(x);
        assert [x] + [] == [x] && PartOf(p) + [] == PartOf(p);
        NoSpansNoText(pushes[1..]);
      }
    }
  }

  // ----------------------------------------------------------- several runs

  function ContentSize(run: InlineSpan): nat {
    |run.content|
  }

  function TagSize(run: InlineSpan): nat {
    if run.InlineEquation? then 9 else 0
  }

  lemma {:induction false} TextsSize(runs: seq<InlineSpan>)
    ensures |Texts(runs)| == Sum(runs, ContentSize)
  {
    if runs != [] {
      TextsSize(runs[..|runs| - 1]);
    }
  }

  lemma PushSizes(m: seq<InlineSpan>, x: InlineSpan)
    ensures Sum(PushSpan(m, x), ContentSize) == Sum(m, ContentSize) + ContentSize(x)
    ensures Sum(PushSpan(m, x), TagSize) == Sum(m, TagSize) + TagSize(x)
  {
    var n := |m| - 1;
    SumSnoc(m, x, ContentSize);
    SumSnoc(m, x, TagSize);
    if n >= 0 && m[n].Text? && x.Text? && m[n].styles == x.styles {
      var joined := InlineSpan.Text(m[n].content + x.content, x.styles);
      SumSnoc(m[..n], joined, ContentSize);
      SumSnoc(m[..n], joined, TagSize);
    }
  }

  lemma PartSize(p: Push)
    requires !IsEmpty(p)
    ensures |SpanOf(p)| == 1 && |PartOf(p)| >= ContentSize(SpanOf(p)[0]) + TagSize(SpanOf(p)[0])
  {
    hide HtmlEscape, Trim;
    if p.EquationPush? {
      EscapeKeeps(Trim(p.value));
    } else {
      EscapeKeeps(p.value);
    }
  }

  /** A rendering has room for the texts of its runs and the tags of its equations. */
  lemma {:induction false} RenderingSize(pushes: seq<Push>)
    ensures var runs := Merge(SpansOf(pushes));
            |RenderFrom(pushes)| >= Sum(runs, ContentSize) + Sum(runs, TagSize)
  {
    hide PartOf, SpanOf, SpansOf, RenderFrom, PushSpan, IsEmpty, ContentSize, TagSize;
    if pushes == [] {
      NoRuns();
      NoSpans();
    } else {
      var before, p := pushes[..|pushes| - 1], pushes[|pushes| - 1];
      assert pushes == before + [p];
      RenderFromSnoc(before, p);
      SpansSnoc(before, p);
      RenderingSize(before);
      if IsEmpty(p) {
        EmptyPart(p);
        assert SpansOf(before) + [] == SpansOf(before);
      } else {
        PartSize(p);
        assert SpanOf(p) == [SpanOf(p)[0]];
        PushAllSnoc([], SpansOf(before), SpanOf(p)[0]);
        PushSizes(Merge(SpansOf(before)), SpanOf(p)[0]);
      }
    }
  }

  lemma TwoTags(runs: seq<InlineSpan>)
    requires |runs| >= 2 && EquationEnds(runs)
    ensures Sum(runs, TagSize) >= 18
  {
    var n := |runs| - 1;
    SumAt(runs[..n], 0, TagSize);
  }

  /** With several runs the LaTeX is longer than all their text. */
  lemma LatexTooLong(pushes: seq<Push>)
    requires var runs := RunsLeft(pushes); |runs| >= 2 && EquationEnds(runs)
    ensures var runs := RunsLeft(pushes);
            |Latex(Trim(Render(pushes)))| > |Texts(runs)|
            && forall i :: 0 <= i < |runs| ==> |Texts(runs)| >= |runs[i].content|
  {
    hide Trim, Render, RenderFrom, SpansOf, Merge, RunsLeft, TrimmedPushes, Latex, Texts, EquationEnds;
    var runs := RunsLeft(pushes);
    EquationContent(pushes);
    TrimAsPushes(pushes);
    RenderingSize(TrimmedPushes(pushes));
    TwoTags(runs);
    TextsSize(runs);
    forall i | 0 <= i < |runs|
      ensures |Texts(runs)| >= |runs[i].content|
    {
      SumAt(runs, i, ContentSize);
    }
  }

  /** A paragraph that is one formula is stored escaped. */
  lemma LatexOfOne(pushes: seq<Push>, formula: string)
    requires RunsLeft(pushes) == [InlineEquation(formula)]
    ensures Latex(Trim(Render(pushes))) == HtmlEscape(formula)
  {
    hide Trim, Render, RenderFrom, SpansOf, Merge, RunsLeft, TrimmedPushes, Latex, HtmlEscape;
    EquationContent(pushes);
    TrimAsPushes(pushes);
    OneEquation(TrimmedPushes(pushes), formula);
    var latex := Latex(Trim(Render(pushes)));
    assert EquationText(formula)[4..|EquationText(formula)| - 5] == HtmlEscape(formula);
    assert ("<eq>" + latex + "</eq>")[4..|latex| + 4] == latex;
  }

  lemma TextsOfOne(run: InlineSpan)
    ensures Texts([run]) == run.content
  {
    assert [run][..0] == [];
  }

  /** The stored LaTeX is a formula of the paragraph, or all of its text, exactly
      when one run is left and its formula holds none of the escaped characters. */
  lemma LatexIsFormula(pushes: seq<Push>)
    requires EquationEnds(RunsLeft(pushes))
    ensures var runs, latex := RunsLeft(pushes), Latex(Trim(Render(pushes)));
            && (InlineEquation(latex) in runs <==> OneQuietRun(runs))
            && (latex == Texts(runs) <==> OneQuietRun(runs))
  {
    hide Trim, Render, RunsLeft, Latex, Texts, HtmlEscape, Quiet;
    var runs := RunsLeft(pushes);
    if |runs| == 1 {
      assert runs == [InlineEquation(runs[0].content)];
      LatexOfOne(pushes, runs[0].content);
      EscapeKeeps(runs[0].content);
      TextsOfOne(runs[0]);
    } else {
      LatexTooLong(pushes);
    }
  }

  /** Whatever the kind of block, what was pushed can be read back from it. */
  lemma BlockKeeps(pushes: seq<Push>, level: Option<nat>, isList: bool)
    ensures Keeps(BlockOf(level, isList, Trim(Render(pushes))), level, isList, RunsLeft(pushes))
  {
    hide Trim, Render, RunsLeft, Latex, Texts, EquationEnds, OneQuietRun, Merge, ParseFrom, IsEquationOnly;
    EquationBranch(pushes, level, isList);
    TrimmedRoundTrip(pushes);
    if EquationEnds(RunsLeft(pushes)) {
      EquationContent(pushes);
      LatexIsFormula(pushes);
    }
  }

  // ------------------------------------------------------------- two examples

  predicate Formula(p: Push) {
    p.EquationPush? && p.value != [] && Trim(p.value) == p.value
  }

  /** Nothing is trimmed from a paragraph that begins and ends with a formula. */
  lemma FormulasStay(pushes: seq<Push>)
    requires pushes != [] && Formula(pushes[0]) && Formula(pushes[|pushes| - 1])
    ensures Trim(Render(pushes)) == RenderFrom(pushes) && RunsLeft(pushes) == Merge(SpansOf(pushes))
  {
    hide Trim, Render, RenderFrom, SpansOf, Merge, RunsLeft;
    TrimAsPushes(pushes);
  }

  lemma OneFormula(f: string)
    requires Formula(EquationPush(f))
    ensures RunsLeft([EquationPush(f)]) == [InlineEquation(f)]
    ensures BlockOf(None, false, Trim(Render([EquationPush(f)]))) == Equation(HtmlEscape(f))
  {
    hide Trim, Render, Merge, RunsLeft, Latex, HtmlEscape, IsEquationOnly;
    var pushes := [EquationPush(f)];
    FormulasStay(pushes);
    MergeOne(InlineEquation(f));
    assert SpansOf(pushes) == [InlineEquation(f)];
    LatexOfOne(pushes, f);
    EquationBranch(pushes, None, false);
  }

  lemma TwoTexts(f: string, g: string)
    requires Formula(EquationPush(f)) && Formula(EquationPush(g))
    ensures var pushes := [EquationPush(f), EquationPush(g)];
            && RenderFrom(pushes) == EquationText(f) + EquationText(g)
            && SpansOf(pushes) == [InlineEquation(f), InlineEquation(g)]
  {
    hide Trim, EquationText, PartOf, SpanOf, RenderFrom, SpansOf;
    var pushes := [EquationPush(f), EquationPush(g)];
    EquationPart(pushes[0]);
    EquationPart(pushes[1]);
    assert pushes[1..] == [EquationPush(g)] && pushes[1..][1..] == [];
    FirstPush(pushes);
    FirstPush(pushes[1..]);
    NothingRendered();
    NoSpans();
    assert EquationText(g) + [] == EquationText(g);
  }

  lemma MergeTwo(x: InlineSpan, y: InlineSpan)
    requires !x.Text?
    ensures Merge([x, y]) == [x, y]
  {
    MergeOne(x);
    PushAllSnoc([], [x], y);
    assert [x] + [y] == [x, y];
  }

  lemma InnerTags(latex: string, e: string, d: string)
    requires "<eq>" + latex + "</eq>" == ("<eq>" + e + "</eq>") + ("<eq>" + d + "</eq>")
    ensures latex == e + "</eq><eq>" + d
  {
    var s := "<eq>" + latex + "</eq>";
    assert s == "<eq>" + (e + ("</eq>" + "<eq>") + d) + "</eq>";
    assert s[4..|s| - 5] == latex;
    assert s[4..|s| - 5] == e + ("</eq>" + "<eq>") + d;
  }

  /** Two formulas are stored with the tags between them in the LaTeX. */
  lemma TwoFormulas(f: string, g: string)
    requires Formula(EquationPush(f)) && Formula(EquationPush(g))
    ensures var pushes := [EquationPush(f), EquationPush(g)];
            && RunsLeft(pushes) == [InlineEquation(f), InlineEquation(g)]
            && BlockOf(None, false, Trim(Render(pushes))) == Equation(HtmlEscape(f) + "</eq><eq>" + HtmlEscape(g))
  {
    hide Trim, Render, RenderFrom, SpansOf, Merge, RunsLeft, Latex, HtmlEscape, IsEquationOnly;
    var pushes := [EquationPush(f), EquationPush(g)];
    FormulasStay(pushes);
    TwoTexts(f, g);
    MergeTwo(InlineEquation(f), InlineEquation(g));
    EquationBranch(pushes, None, false);
    EquationContent(pushes);
    InnerTags(Latex(Trim(Render(pushes))), HtmlEscape(f), HtmlEscape(g));
  }

  lemma EscapedLess()
    ensures HtmlEscape("a<b") == "a&lt;b"
  {
    hide HtmlEscape;
    EscapeIsCharwise("a<b");
    assert "a<b"[1..] == "<b" && "<b"[1..] == "b" && "b"[1..] == "";
    assert EncAll(0, "b") == "b" + [];
    assert EncAll(0, "<b") == "&lt;" + "b";
    assert EncAll(0, "a<b") == "a" + ("&lt;" + "b");
  }

  lemma InkIsFormula(s: string)
    requires s != [] && !IsWhitespace(s[0]) && !IsWhitespace(s[|s| - 1])
    ensures Formula(EquationPush(s))
  {
    TrimOfTrimmed(s);
  }

  lemma LettersAreInk()
    ensures !IsWhitespace('a') && !IsWhitespace('b') && !IsWhitespace('x') && !IsWhitespace('y')
  {
  }

  lemma LettersAreQuiet()
    ensures HtmlEscape("x") == "x" && HtmlEscape("y") == "y"
  {
    hide HtmlEscape;
    EscapeKeeps("x");
    EscapeKeeps("y");
  }

  /** The formula `a<b` is stored with an entity in its LaTeX, and two formulas
      `x` and `y` with tags between them. */
  lemma LatexFails()
    ensures RunsLeft([EquationPush("a<b")]) == [InlineEquation("a<b")]
    ensures BlockOf(None, false, Trim(Render([EquationPush("a<b")]))) == Equation("a&lt;b")
    ensures RunsLeft([EquationPush("x"), EquationPush("y")]) == [InlineEquation("x"), InlineEquation("y")]
    ensures BlockOf(None, false, Trim(Render([EquationPush("x"), EquationPush("y")]))) == Equation("x</eq><eq>y")
  {
    hide *;
    LettersAreInk();
    InkIsFormula("a<b");
    InkIsFormula("x");
    InkIsFormula("y");
    EscapedLess();
    LettersAreQuiet();
    OneFormula("a<b");
    TwoFormulas("x", "y");
    assert "x" + "</eq><eq>" + "y" == "x</eq><eq>y";
  }
}
