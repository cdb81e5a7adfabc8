/** The DOCX writer of inline markup: runs and equations pushed onto a paragraph. */
module DocxRuns {
  import opened Options
  import opened Concat
  import opened Strings
  import opened Entities
  import opened InlineParser
  import opened InlineMarkup
  import InlineRoundTrip
  import opened RunMeaning
  import opened InlineTrim
  import opened OfficeBlocks
  import opened StoredBlocks

  class ParagraphState {
    var parts: seq<string>
    var isList: bool
    var level: Option<nat>
    ghost var pushes: seq<Push>

    constructor ()
      ensures Valid() && pushes == [] && !isList && level == None
    {
      parts, isList, level, pushes := [], false, None, [];
    }

    ghost predicate Valid()
      reads this
    {
      parts == Parts(pushes)
    }

    method PushText(value: string, style: RunStyle, hyperlink: Option<Option<string>>)
      requires Valid()
      modifies `parts, `pushes
      ensures Valid() && pushes == old(pushes) + [TextPush(value, style, hyperlink)]
    {
      pushes := pushes + [TextPush(value, style, hyperlink)];
      assert pushes[..|pushes| - 1] == old(pushes);
      if value == [] {
        return;
      }
      if hyperlink.Some? && hyperlink.value.Some? {
        parts := parts + ["<hyperlink>" + style.WrapTextTag(HtmlEscape(value))
                          + "<url>" + HtmlEscape(hyperlink.value.value) + "</url></hyperlink>"];
        return;
      }
      var rendered := style.Wrap(HtmlEscape(value));
      parts := parts + [rendered];
    }

    method PushEquation(value: string)
      requires Valid()
      modifies `parts, `pushes
      ensures Valid() && pushes == old(pushes) + [EquationPush(value)]
    {
      pushes := pushes + [EquationPush(value)];
      assert pushes[..|pushes| - 1] == old(pushes);
      var trimmed := Trim(value);
      if trimmed != [] {
        parts := parts + ["<eq>" + HtmlEscape(trimmed) + "</eq>"];
      }
    }

    /** What the paragraph renders parses back to the runs that stand for the
        pushes: equal adjacent styles merged, equations trimmed, empty pushes gone. */
    method RenderPlain() returns (content: string)
      requires Valid()
      ensures content == Render(pushes)
      ensures StandFor(pushes, SpansOf(pushes)) && Merge(ParseFrom(content)) == Merge(SpansOf(pushes))
    {
      content := [];
      for i := 0 to |parts|
        invariant content == Join(parts[..i])
      {
        content := content + parts[i];
        assert parts[..i + 1][..i] == parts[..i];
      }
      assert parts[..|parts|] == parts;
      SpansStand(pushes);
      InlineRoundTrip.RoundTrip(pushes);
    }

    /** Ends the paragraph: a paragraph with nothing left after trimming is kept
        open and stores nothing, any other is stored and cleared. The block stored
        keeps the pushed runs, merged, with white space cut from a leading and a
        trailing plain run; its kind is that of the level, the list mark and the
        first and last run. */
    method FlushAsBlock() returns (stored: Option<OfficeBlock>)
      requires Valid()
      modifies `parts, `pushes
      ensures Valid()
      ensures StandFor(old(pushes), SpansOf(old(pushes)))
      ensures RunsLeft(old(pushes)) == CutLast(CutFirst(Merge(SpansOf(old(pushes)))))
      ensures var runs, content := RunsLeft(old(pushes)), Trim(Render(old(pushes)));
              match stored
              case None => runs == [] && pushes == old(pushes)
              case Some(block) =>
                && runs != [] && pushes == []
                && block == BlockOf(level, isList, content) && Keeps(block, level, isList, runs)
    {
      hide Keeps, Trim, Render, Merge, ParseFrom, Valid, StandFor, SpansOf, CutFirst, CutLast;
      var rendered := RenderPlain();
      var content := Trim(rendered);
      NothingLeftToStore(pushes);
      BlockKeeps(pushes, level, isList);
      if content == [] {
        return None;
      }
      if level.Some? {
        stored := Some(Title(content, level.value));
      } else if isList {
        stored := Some(List([content]));
      } else if IsEquationOnly(content) {
        stored := Some(Equation(TrimEndMatches(TrimStartMatches(content, "<eq>"), "</eq>")));
      } else {
        stored := Some(OfficeBlock.Text(content));
      }
      Clear();
    }

    method Clear()
      modifies `parts, `pushes
      ensures Valid() && pushes == []
    {
      parts, pushes := [], [];
    }
  }
}
