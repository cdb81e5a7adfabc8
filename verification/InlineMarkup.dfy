/** The inline markup the DOCX writer emits, as functions of what was pushed. */
module InlineMarkup {
  import opened Options
  import opened Concat
  import opened Strings
  import opened Entities
  import opened InlineParser

  datatype RunStyle = RunStyle(bold: bool, italic: bool, underline: bool, strikethrough: bool) {
    function Styles(): seq<string> {
      (if bold then ["bold"] else []) + (if italic then ["italic"] else [])
      + (if underline then ["underline"] else []) + (if strikethrough then ["strikethrough"] else [])
    }

    function Wrap(content: string): string {
      if Styles() == [] then content
      else "<text style=\"" + JoinNames(Styles()) + "\">" + content + "</text>"
    }

    function WrapTextTag(content: string): string {
      if Styles() == [] then "<text>" + content + "</text>"
      else "<text style=\"" + JoinNames(Styles()) + "\">" + content + "</text>"
    }
  }

  /** The names joined by commas. */
  function JoinNames(names: seq<string>): string {
    if names == [] then [] else if |names| == 1 then names[0] else names[0] + "," + JoinNames(names[1..])
  }

  datatype Push =
    | TextPush(value: string, style: RunStyle, hyperlink: Option<Option<string>>)
    | EquationPush(value: string)

  /** The markup of one push; empty pushes leave no part. */
  function PartOf(p: Push): string {
    match p
    case TextPush(value, style, hyperlink) =>
      if value == [] then []
      else if hyperlink.Some? && hyperlink.value.Some? then
        "<hyperlink>" + style.WrapTextTag(HtmlEscape(value))
        + "<url>" + HtmlEscape(hyperlink.value.value) + "</url></hyperlink>"
      else style.Wrap(HtmlEscape(value))
    case EquationPush(value) =>
      if Trim(value) == [] then [] else "<eq>" + HtmlEscape(Trim(value)) + "</eq>"
  }

  predicate IsEmpty(p: Push) {
    match p
    case TextPush(value, _, _) => value == []
    case EquationPush(value) => Trim(value) == []
  }

  function Parts(pushes: seq<Push>): seq<string> {
    if pushes == [] then []
    else
      var n := |pushes| - 1;
      Parts(pushes[..n]) + if IsEmpty(pushes[n]) then [] else [PartOf(pushes[n])]
  }

  function Render(pushes: seq<Push>): string {
    Join(Parts(pushes))
  }

  /** The span a push stands for; an empty push stands for none. */
  function SpanOf(p: Push): seq<InlineSpan> {
    match p
    case TextPush(value, style, hyperlink) =>
      if value == [] then []
      else if hyperlink.Some? && hyperlink.value.Some? then [Hyperlink(value, hyperlink.value.value, style.Styles())]
      else [Text(value, style.Styles())]
    case EquationPush(value) =>
      if Trim(value) == [] then [] else [InlineEquation(Trim(value))]
  }

  function SpansOf(pushes: seq<Push>): seq<InlineSpan> {
    if pushes == [] then [] else SpanOf(pushes[0]) + SpansOf(pushes[1..])
  }
}
