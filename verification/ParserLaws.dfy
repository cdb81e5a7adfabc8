/** What the inline parser makes of any text, whoever wrote it: tags that are
    complete, tags that are not, and style lists with stray spaces and commas. */
module ParserLaws {
  import opened Options
  import opened Strings
  import opened Entities
  import opened InlineParser
  import opened InlineRoundTrip

  /** The first closing tag ends the text. */
  ghost predicate Closed(text: string, closing: string, rest: string)
    requires closing != []
  {
    Find(text + closing + rest, closing) == Some(|text|)
  }

  lemma WrappedParts(opening: string, text: string, closing: string, rest: string)
    requires opening != [] && closing != [] && Closed(text, closing, rest)
    ensures ParseWrappedTag(opening + text + closing + rest, opening, closing)
         == Some((text, |opening| + |text| + |closing|))
  {
    hide Find;
    var s := opening + text + closing + rest;
    assert s[|opening|..] == text + closing + rest;
    assert s[|opening|..|opening| + |text|] == text;
  }

  /** A complete equation is its formula, trimmed and decoded. */
  lemma {:induction false} EquationReads(u: string, text: string, rest: string)
    requires '<' !in u && Closed(text, "</eq>", rest)
    ensures ParseFrom(u + ("<eq>" + text + "</eq>" + rest))
         == PlainText(u) + [InlineEquation(DecodeBasicEntities(Trim(text)))] + ParseFrom(rest)
  {
    hide Closed, ParseFrom, PlainText, Trim, DecodeBasicEntities, ParseWrappedTag;
    WrappedParts("<eq>", text, "</eq>", rest);
    var w := "<eq>" + text + "</eq>";
    assert Opens(w, EquationTag);
    ParseOver(u, w, rest, EquationTag, InlineEquation(DecodeBasicEntities(Trim(text))));
  }

  /** A complete text tag is its text, decoded, in the styles of its opening. */
  lemma {:induction false} TextReads(u: string, attributes: string, text: string, rest: string)
    requires '<' !in u && '>' !in attributes && Closed(text, "</text>", rest)
    ensures ParseFrom(u + ("<text" + attributes + ">" + text + "</text>" + rest))
         == PlainText(u) + [Text(DecodeBasicEntities(text), ParseStyleAttr("<text" + attributes + ">"))]
            + ParseFrom(rest)
  {
    hide ParseFrom, PlainText, DecodeBasicEntities, ParseTextTag, ParseStyleAttr;
    var o := "<text" + attributes + ">";
    TextTagParts(attributes, text, rest);
    assert Opens(o + text + "</text>", TextTag);
    ParseOver(u, o + text + "</text>", rest, TextTag, Text(DecodeBasicEntities(text), ParseStyleAttr(o)));
  }

  lemma TagEnd(attributes: string, after: string)
    requires '>' !in attributes
    ensures Find("<text" + attributes + ">" + after, ">") == Some(5 + |attributes|)
  {
    hide Find;
    FindClosing("<text" + attributes, ">", after);
  }

  lemma TextTagParts(attributes: string, text: string, rest: string)
    requires '>' !in attributes && Closed(text, "</text>", rest)
    ensures var o := "<text" + attributes + ">";
            ParseTextTag(o + text + "</text>" + rest) == Some((text, ParseStyleAttr(o), |o| + |text| + 7))
  {
    hide Find, ParseStyleAttr;
    var o := "<text" + attributes + ">";
    TextSlices(o, text, "</text>", rest);
    TagEnd(attributes, text + "</text>" + rest);
    assert o + text + "</text>" + rest == o + (text + "</text>" + rest);
    assert "<text" <= o;
    PrefixOfPrefix("<text", o, o + text + "</text>" + rest);
  }

  // ------------------------------------------------------------- incomplete tags

  /** When the tag at the end of plain text is none, all that follows is plain text. */
  lemma {:induction false} BadTag(u: string, w: string, tag: InlineTag)
    requires '<' !in u && w != [] && Opens(w, tag) && ParseTag(w, tag) == (PlainText(w), |w|)
    ensures ParseFrom(u + w) == PlainText(u) + [Text(DecodeBasicEntities(w), [])]
  {
    hide FindNextTag, ParseTag, Opens, DecodeBasicEntities;
    var s := u + w;
    NextTagAfter(u, w, tag);
    assert s[|u|..] == w && s[..|u|] == u;
    assert s[|s|..] == [];
  }

  /** An equation, text or link without its closing tag, a text tag that never ends,
      and a link without text or address are plain text to the end. */
  lemma {:induction false} IncompleteReads(u: string, r: string)
    requires '<' !in u
    ensures Find(r, "</eq>") == None ==>
              ParseFrom(u + ("<eq>" + r)) == PlainText(u) + [Text(DecodeBasicEntities("<eq>" + r), [])]
    ensures '>' !in r ==> ParseFrom(u + ("<text" + r)) == PlainText(u) + [Text(DecodeBasicEntities("<text" + r), [])]
    ensures Find(r, "</hyperlink>") == None ==>
              ParseFrom(u + ("<hyperlink>" + r)) == PlainText(u) + [Text(DecodeBasicEntities("<hyperlink>" + r), [])]
  {
    hide ParseFrom, Find, DecodeBasicEntities;
    if Find(r, "</eq>") == None {
      assert ("<eq>" + r)[4..] == r;
      BadTag(u, "<eq>" + r, EquationTag);
    }
    if '>' !in r {
      TextNeverEnds(r);
      BadTag(u, "<text" + r, TextTag);
    }
    if Find(r, "</hyperlink>") == None {
      assert ("<hyperlink>" + r)[11..] == r;
      BadTag(u, "<hyperlink>" + r, HyperlinkTag);
    }
  }

  lemma TextNeverEnds(r: string)
    requires '>' !in r
    ensures Find("<text" + r, ">") == None
  {
    hide Find;
    DeadByFirst("<text" + r, ">");
    FindNone("<text" + r, ">");
  }

  lemma {:induction false} UnclosedTextReads(u: string, attributes: string, r: string)
    requires '<' !in u && '>' !in attributes && Find(r, "</text>") == None
    ensures var w := "<text" + attributes + ">" + r;
            ParseFrom(u + w) == PlainText(u) + [Text(DecodeBasicEntities(w), [])]
  {
    hide ParseFrom, Find, DecodeBasicEntities;
    var w := "<text" + attributes + ">" + r;
    TagEnd(attributes, r);
    assert w[5 + |attributes| + 1..] == r;
    assert "<text" <= w;
    BadTag(u, w, TextTag);
  }

  /** A complete link is its text tag and its first address, or plain text to the end
      when its inside has no text tag at its start or no address. */
  lemma {:induction false} LinkReads(u: string, inner: string, rest: string)
    requires '<' !in u && Closed(inner, "</hyperlink>", rest)
    ensures var w := "<hyperlink>" + inner + "</hyperlink>";
            match ParseLinkBody(inner)
            case Some((text, url, styles)) =>
              ParseFrom(u + (w + rest))
              == PlainText(u) + [Hyperlink(DecodeBasicEntities(text), DecodeBasicEntities(url), styles)]
                 + ParseFrom(rest)
            case None => ParseFrom(u + (w + rest)) == PlainText(u) + [Text(DecodeBasicEntities(w + rest), [])]
  {
    hide Closed, ParseFrom, PlainText, DecodeBasicEntities, ParseWrappedTag, ParseLinkBody;
    WrappedParts("<hyperlink>", inner, "</hyperlink>", rest);
    var w := "<hyperlink>" + inner + "</hyperlink>";
    assert Opens(w, HyperlinkTag);
    OpensLonger(w, rest, HyperlinkTag);
    match ParseLinkBody(inner)
    case Some((text, url, styles)) =>
      ParseOver(u, w, rest, HyperlinkTag, Hyperlink(DecodeBasicEntities(text), DecodeBasicEntities(url), styles));
    case None =>
      LinkIsPlain(w + rest);
      BadTag(u, w + rest, HyperlinkTag);
  }

  lemma LinkIsPlain(w: string)
    requires w != [] && ParseHyperlinkTag(w) == None
    ensures ParseTag(w, HyperlinkTag) == (PlainText(w), |w|)
  {
    hide ParseHyperlinkTag, PlainText;
  }

  // ----------------------------------------------------------------- style lists

  /** The names of a style list. */
  function NamesIn(list: string): seq<string> {
    CleanNames(Split(list, ','))
  }

  /** Between commas a name is what is left after trimming, and nothing when nothing is. */
  lemma NamesBetweenCommas(name: string, rest: string)
    requires ',' !in name
    ensures NamesIn(name) == if Trim(name) == "" then [] else [Trim(name)]
    ensures NamesIn(name + "," + rest) == NamesIn(name) + NamesIn(rest)
  {
    hide Split, Trim;
    SplitName(name);
    SplitFirst(name, rest);
    CleanFirst(name, []);
    CleanFirst(name, Split(rest, ','));
    assert [name] + [] == [name];
  }

  lemma CleanFirst(name: string, rest: seq<string>)
    ensures CleanNames([name] + rest) == (if Trim(name) == "" then [] else [Trim(name)]) + CleanNames(rest)
    ensures CleanNames([]) == []
  {
    hide Trim;
    assert ([name] + rest)[1..] == rest;
  }

  /** The list is what stands between the quotes of the first style attribute, wherever
      it is in the tag; a tag without one, or with one left open, has no styles. */
  lemma StyleListIs(before: string, list: string, after: string)
    requires Closed(before, "style=\"", list + "\"" + after) && '"' !in list
    ensures ParseStyleAttr(before + "style=\"" + (list + "\"" + after)) == NamesIn(list)
  {
    hide Find, CleanNames, Split;
    var o := before + "style=\"" + (list + "\"" + after);
    FindClosing(list, "\"", after);
    assert o[|before| + 7..] == list + "\"" + after;
    assert o[|before| + 7..|before| + 7 + |list|] == list;
  }

  lemma NoStyleList(opening: string)
    ensures Find(opening, "style=\"") == None ==> ParseStyleAttr(opening) == []
    ensures match Find(opening, "style=\"")
            case Some(i) => '"' !in opening[i + 7..] ==> ParseStyleAttr(opening) == []
            case None => true
  {
    hide Find, CleanNames, Split;
    match Find(opening, "style=\"")
    case Some(i) =>
      if '"' !in opening[i + 7..] {
        DeadByFirst(opening[i + 7..], "\"");
        FindNone(opening[i + 7..], "\"");
      }
    case None =>
  }

  /** The inside of a link: a text tag first, and the first address anywhere in it. */
  lemma LinkBodyIs(attributes: string, text: string, between: string, url: string, after: string)
    requires '>' !in attributes && Closed(text, "</text>", between + "<url>" + url + "</url>" + after)
    requires Closed("<text" + attributes + ">" + text + "</text>" + between, "<url>", url + "</url>" + after)
    requires Closed(url, "</url>", after)
    ensures ParseLinkBody("<text" + attributes + ">" + text + "</text>" + (between + "<url>" + url + "</url>" + after))
         == Some((text, url, ParseStyleAttr("<text" + attributes + ">")))
  {
    hide Find, ParseStyleAttr, ParseTextTag, ParseWrappedTag;
    var tt := "<text" + attributes + ">" + text + "</text>";
    var inner := tt + (between + "<url>" + url + "</url>" + after);
    TextTagParts(attributes, text, between + "<url>" + url + "</url>" + after);
    assert inner == tt + between + "<url>" + (url + "</url>" + after);
    assert inner[|tt + between|..] == "<url>" + url + "</url>" + after;
    WrappedParts("<url>", url, "</url>", after);
  }
}
