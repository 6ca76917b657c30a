/** The part of a presentation resource returned by the Slides API's
    `presentations.get` that the translation endpoint reads.

    A list the source guards with a truthiness test before iterating
    (`slide.pageElements`, `shape.text.textElements`, `table.tableRows`,
    `cell.text.textElements`) behaves the same whether it is missing or empty,
    so it is an (possibly empty) sequence here. A field the source dereferences
    WITHOUT a guard (`row.tableCells`, `textRun.content`) is an `Option`: its
    absence makes the source throw a `TypeError`. */
module Slides {
  import opened Wrappers

  /** A run of uniformly styled text. */
  datatype TextRun = TextRun(content: Option<string>)

  /** One entry of a text body: a text run, or another kind of entry
      (a paragraph marker, an auto-text) when `textRun` is absent. */
  datatype TextElement = TextElement(
    startIndex: Option<int>,
    endIndex: Option<int>,
    textRun: Option<TextRun>)

  /** A table cell's text body. */
  datatype TableCell = TableCell(textElements: seq<TextElement>)

  datatype TableRow = TableRow(tableCells: Option<seq<TableCell>>)

  /** A shape and/or a table on a slide: `shapeText` holds the shape's
      `text.textElements`, `tableRows` the table's `tableRows`. */
  datatype PageElement = PageElement(
    objectId: string,
    shapeText: seq<TextElement>,
    tableRows: seq<TableRow>)

  datatype Slide = Slide(objectId: string, pageElements: seq<PageElement>)

  /** `presentation.data`; `slides` may be absent from the resource. */
  datatype Presentation = Presentation(slides: Option<seq<Slide>>)
}
