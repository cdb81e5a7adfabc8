/** What a run read from the markup says about the push it came from, in terms of
    the style names as they are written. */
module RunMeaning {
  import opened Options
  import opened Strings
  import opened InlineParser
  import opened InlineMarkup
  import opened InlineRoundTrip

  /** The place of a name in a style list. */
  function Rank(name: string): nat {
    if name == "bold" then 0
    else if name == "italic" then 1
    else if name == "underline" then 2
    else if name == "strikethrough" then 3
    else 4
  }

  /** The list names exactly the styles that are on, each once and in order. */
  ghost predicate NamesOf(names: seq<string>, style: RunStyle) {
    && ("bold" in names <==> style.bold) && ("italic" in names <==> style.italic)
    && ("underline" in names <==> style.underline) && ("strikethrough" in names <==> style.strikethrough)
    && InOrder(names)
  }

  ghost predicate InOrder(names: seq<string>) {
    && (forall i :: 0 <= i < |names| ==> Rank(names[i]) < 4)
    && (forall i, j :: 0 <= i < j < |names| ==> Rank(names[i]) < Rank(names[j]))
  }

  /** The run is the pushed text in the pushed styles, with its link, or the formula. */
  ghost predicate StandsFor(p: Push, span: InlineSpan) {
    match p
    case TextPush(value, style, hyperlink) => (
      match span
      case Text(content, styles) =>
        !(hyperlink.Some? && hyperlink.value.Some?) && content == value && NamesOf(styles, style)
      case Hyperlink(content, url, styles) =>
        hyperlink == Some(Some(url)) && content == value && NamesOf(styles, style)
      case InlineEquation(_) => false)
    case EquationPush(value) => span == InlineEquation(Trim(value))
  }

  /** Empty text and blank equations stand for nothing, every other push for one run. */
  ghost predicate StandFor(pushes: seq<Push>, spans: seq<InlineSpan>) {
    if pushes == [] then spans == []
    else if (pushes[0].TextPush? && pushes[0].value == []) || (pushes[0].EquationPush? && Trim(pushes[0].value) == [])
    then StandFor(pushes[1..], spans)
    else spans != [] && StandsFor(pushes[0], spans[0]) && StandFor(pushes[1..], spans[1..])
  }

  lemma Ranks()
    ensures Rank("bold") == 0 && Rank("italic") == 1 && Rank("underline") == 2 && Rank("strikethrough") == 3
  {
  }

  function Add(names: seq<string>, name: string, on: bool): seq<string> {
    if on then names + [name] else names
  }

  lemma AddName(names: seq<string>, name: string, on: bool)
    requires InOrder(names) && Rank(name) < 4 && forall n :: n in names ==> Rank(n) < Rank(name)
    ensures InOrder(Add(names, name, on))
    ensures forall n :: n in Add(names, name, on) <==> n in names || (on && n == name)
  {
    hide Rank;
    assert forall i :: 0 <= i < |names| ==> names[i] in names;
  }

  lemma StylesAdd(style: RunStyle)
    ensures style.Styles() == Add(Add(Add(Add([], "bold", style.bold), "italic", style.italic),
                                      "underline", style.underline), "strikethrough", style.strikethrough)
  {
    var none: seq<string> := [];
    Plus(none, "bold", style.bold);
    var b := Add(none, "bold", style.bold);
    Plus(b, "italic", style.italic);
    var i := Add(b, "italic", style.italic);
    Plus(i, "underline", style.underline);
    Plus(Add(i, "underline", style.underline), "strikethrough", style.strikethrough);
    hide Add;
    assert none + (if style.bold then ["bold"] else []) == if style.bold then ["bold"] else [];
  }

  lemma Plus(names: seq<string>, name: string, on: bool)
    ensures names + (if on then [name] else []) == Add(names, name, on)
  {
  }

  /** The names written are those of the styles. */
  lemma StylesName(style: RunStyle)
    ensures NamesOf(style.Styles(), style)
  {
    hide Rank, Add, InOrder;
    Ranks();
    NoNames();
    StylesAdd(style);
    var b := Add([], "bold", style.bold);
    AddName([], "bold", style.bold);
    var i := Add(b, "italic", style.italic);
    AddName(b, "italic", style.italic);
    var u := Add(i, "underline", style.underline);
    AddName(i, "underline", style.underline);
    AddName(u, "strikethrough", style.strikethrough);
  }

  lemma NoNames()
    ensures InOrder([])
  {
  }

  lemma SpanStands(p: Push)
    requires !IsEmpty(p)
    ensures |SpanOf(p)| == 1 && StandsFor(p, SpanOf(p)[0])
  {
    hide NamesOf, RunStyle.Styles, Trim;
    if p.TextPush? {
      StylesName(p.style);
    }
  }

  /** The runs of the pushes stand for them. */
  lemma {:induction false} SpansStand(pushes: seq<Push>)
    ensures StandFor(pushes, SpansOf(pushes))
  {
    hide StandsFor, SpanOf, Trim;
    if pushes != [] {
      SpansStand(pushes[1..]);
      EmptyPart(pushes[0]);
      if IsEmpty(pushes[0]) {
        assert [] + SpansOf(pushes[1..]) == SpansOf(pushes[1..]);
      } else {
        SpanStands(pushes[0]);
        assert SpansOf(pushes)[1..] == SpansOf(pushes[1..]);
      }
    }
  }

  // ----------------------------------------------------- there is only one reading

  lemma RankNames(a: string, b: string)
    requires Rank(a) == Rank(b) < 4
    ensures a == b
  {
  }

  lemma OrderTail(names: seq<string>)
    requires InOrder(names) && names != []
    ensures InOrder(names[1..]) && Rank(names[0]) < 4
    ensures forall n :: n in names[1..] <==> n in names && n != names[0]
    ensures forall n :: n in names ==> Rank(names[0]) <= Rank(n)
  {
    hide Rank;
    assert names == [names[0]] + names[1..];
    forall n | n in names[1..]
      ensures Rank(names[0]) < Rank(n)
    {
      var i :| 0 <= i < |names[1..]| && names[1..][i] == n;
      assert names[i + 1] == n;
    }
  }

  lemma {:induction false} SameNames(a: seq<string>, b: seq<string>)
    requires InOrder(a) && InOrder(b) && forall n :: n in a <==> n in b
    ensures a == b
  {
    hide Rank, InOrder;
    assert (a != [] ==> a[0] in a) && (b != [] ==> b[0] in b);
    if a != [] && b != [] {
      assert a[0] in b && b[0] in a;
      OrderTail(a);
      OrderTail(b);
      RankNames(a[0], b[0]);
      SameNames(a[1..], b[1..]);
      assert a == [a[0]] + a[1..] && b == [b[0]] + b[1..];
    }
  }

  lemma KnownName(names: seq<string>, name: string)
    requires InOrder(names) && name in names
    ensures name == "bold" || name == "italic" || name == "underline" || name == "strikethrough"
  {
  }

  lemma {:induction false} NamesOnce(a: seq<string>, b: seq<string>, style: RunStyle)
    requires NamesOf(a, style) && NamesOf(b, style)
    ensures a == b
  {
    hide InOrder;
    forall n
      ensures n in a <==> n in b
    {
      if n in a {
        KnownName(a, n);
      }
      if n in b {
        KnownName(b, n);
      }
    }
    SameNames(a, b);
  }

  lemma StandsOnce(p: Push, a: InlineSpan, b: InlineSpan)
    requires StandsFor(p, a) && StandsFor(p, b)
    ensures a == b
  {
    hide NamesOf, Trim;
    if p.TextPush? {
      NamesOnce(a.styles, b.styles, p.style);
    }
  }

  lemma {:induction false} StandOnce(pushes: seq<Push>, a: seq<InlineSpan>, b: seq<InlineSpan>)
    requires StandFor(pushes, a) && StandFor(pushes, b)
    ensures a == b
  {
    hide StandsFor, Trim;
    if pushes != [] {
      if (pushes[0].TextPush? && pushes[0].value == []) || (pushes[0].EquationPush? && Trim(pushes[0].value) == []) {
        StandOnce(pushes[1..], a, b);
      } else {
        StandsOnce(pushes[0], a[0], b[0]);
        StandOnce(pushes[1..], a[1..], b[1..]);
        assert a == [a[0]] + a[1..] && b == [b[0]] + b[1..];
      }
    }
  }

  // --------------------------------------------------------------- the round trip

  /** Parsing a rendering gives, merged, the runs that stand for the pushes. */
  lemma ReadsBack(pushes: seq<Push>, spans: seq<InlineSpan>)
    requires StandFor(pushes, spans)
    ensures Merge(ParseFrom(Render(pushes))) == Merge(spans)
  {
    hide StandFor, Merge, ParseFrom, Render, SpansOf;
    SpansStand(pushes);
    StandOnce(pushes, spans, SpansOf(pushes));
    RoundTrip(pushes);
  }

  /** The markup of one text push gives one run: its text, in exactly its styles. */
  lemma OneRunReads(p: Push)
    requires p.TextPush? && p.value != []
    ensures var runs := Merge(ParseFrom(Render([p]))); |runs| == 1 && StandsFor(p, runs[0])
  {
    hide StandsFor, Merge, ParseFrom, Render, SpanOf;
    SpanStands(p);
    RoundTrip([p]);
    MergeOne(SpanOf(p)[0]);
    assert [p][1..] == [] && SpansOf([p]) == SpanOf(p) + [];
    assert SpanOf(p) + [] == [SpanOf(p)[0]];
  }
}
