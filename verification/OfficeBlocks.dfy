/** The blocks that the Office readers store. */
module OfficeBlocks {
  datatype OfficeBlock =
    | Text(content: string)
    | Title(content: string, level: nat)
    | Table(html: string)
    | Equation(latex: string)
    | List(items: seq<string>)
}
