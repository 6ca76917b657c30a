/** `extractTextElements` in pages/api/translate.js: the walk over one slide's
    page elements that collects every non-blank text run, trimmed, together
    with its position. */
module TextExtraction {
  import opened Wrappers
  import opened JsString
  import opened Slides

  /** Where a run sits: in a shape (no table fields in the source's object) or
      in a table cell (`isTable: true` with the row and cell indices). */
  datatype Position = InShape | InTable(rowIndex: nat, cellIndex: nat)

  /** One object pushed onto the source's `textElements` array. */
  datatype Extracted = Extracted(
    objectId: string,
    text: string,
    startIndex: Option<int>,
    endIndex: Option<int>,
    position: Position)

  /** The two `TypeError`s the walk can throw: a table row without
      `tableCells` (`row.tableCells.forEach`) and a text run without `content`
      (`textRun.content.trim()`). */
  datatype ExtractError = RowWithoutCells | RunWithoutContent

  /** The error's `message`, worded as the V8 engine words these errors. */
  function ErrorMessage(e: ExtractError): string {
    match e
    case RowWithoutCells => "Cannot read properties of undefined (reading 'forEach')"
    case RunWithoutContent => "Cannot read properties of undefined (reading 'trim')"
  }

  /** The outcome of (part of) the walk: the pushed entries, or the error
      that aborted it. */
  type Extraction = Result<seq<Extracted>, ExtractError>

  /** Two consecutive stretches of the walk: the first error aborts everything
      after it, otherwise the pushes accumulate in order. */
  function Then(a: Extraction, b: Extraction): Extraction {
    if a.Failure? then a
    else if b.Failure? then b
    else Success(a.value + b.value)
  }

  // ---------------------------------------------------------------------
  // The walk, structured as the source's nested `forEach` loops.
  // ---------------------------------------------------------------------

  /** What one text element contributes: nothing when it has no `textRun` or
      its content trims to the empty string, otherwise one trimmed entry. */
  function RunEntry(objectId: string, te: TextElement, pos: Position): Extraction {
    match te.textRun
    case None => Success([])
    case Some(run) =>
      match run.content
      case None => Failure(RunWithoutContent)
      case Some(content) =>
        var text := Trim(content);
        if text == [] then Success([])
        else Success([Extracted(objectId, text, te.startIndex, te.endIndex, pos)])
  }

  /** The runs of one text body, in order. */
  function RunsEntries(objectId: string, tes: seq<TextElement>, pos: Position): Extraction
    decreases |tes|
  {
    if |tes| == 0 then Success([])
    else Then(RunEntry(objectId, tes[0], pos), RunsEntries(objectId, tes[1..], pos))
  }

  /** The cells of row `row`, the first of them having index `cell`. */
  function CellsEntries(objectId: string, cells: seq<TableCell>, row: nat, cell: nat): Extraction
    decreases |cells|
  {
    if |cells| == 0 then Success([])
    else Then(RunsEntries(objectId, cells[0].textElements, InTable(row, cell)),
              CellsEntries(objectId, cells[1..], row, cell + 1))
  }

  /** The rows of a table, the first of them having index `row`. */
  function RowsEntries(objectId: string, rows: seq<TableRow>, row: nat): Extraction
    decreases |rows|
  {
    if |rows| == 0 then Success([])
    else
      match rows[0].tableCells
      case None => Failure(RowWithoutCells)
      case Some(cells) =>
        Then(CellsEntries(objectId, cells, row, 0), RowsEntries(objectId, rows[1..], row + 1))
  }

  /** One page element: its shape's runs, then its table's. */
  function ElementEntries(pe: PageElement): Extraction {
    Then(RunsEntries(pe.objectId, pe.shapeText, InShape), RowsEntries(pe.objectId, pe.tableRows, 0))
  }

  function ElementsEntries(pes: seq<PageElement>): Extraction
    decreases |pes|
  {
    if |pes| == 0 then Success([])
    else Then(ElementEntries(pes[0]), ElementsEntries(pes[1..]))
  }

  /** `extractTextElements(slide)`; a `Failure` is the exception it throws. */
  function ExtractTextElements(slide: Slide): (r: Extraction)
    ensures slide.pageElements == [] ==> r == Success([])
  {
    ElementsEntries(slide.pageElements)
  }

  // ---------------------------------------------------------------------
  // Reference: list every text element in document order, then filter.
  // ---------------------------------------------------------------------

  /** A text element at its position, or a row the walk cannot enter. */
  datatype Item = Run(objectId: string, position: Position, element: TextElement) | CellsMissing

  function RunItems(objectId: string, tes: seq<TextElement>, pos: Position): seq<Item>
    decreases |tes|
  {
    if |tes| == 0 then [] else [Run(objectId, pos, tes[0])] + RunItems(objectId, tes[1..], pos)
  }

  function CellItems(objectId: string, cells: seq<TableCell>, row: nat, cell: nat): seq<Item>
    decreases |cells|
  {
    if |cells| == 0 then []
    else RunItems(objectId, cells[0].textElements, InTable(row, cell))
         + CellItems(objectId, cells[1..], row, cell + 1)
  }

  function RowItems(objectId: string, rows: seq<TableRow>, row: nat): seq<Item>
    decreases |rows|
  {
    if |rows| == 0 then []
    else
      var here := match rows[0].tableCells
                  case None => [CellsMissing]
                  case Some(cells) => CellItems(objectId, cells, row, 0);
      here + RowItems(objectId, rows[1..], row + 1)
  }

  function ElementItems(pe: PageElement): seq<Item> {
    RunItems(pe.objectId, pe.shapeText, InShape) + RowItems(pe.objectId, pe.tableRows, 0)
  }

  function ElementsItems(pes: seq<PageElement>): seq<Item>
    decreases |pes|
  {
    if |pes| == 0 then [] else ElementItems(pes[0]) + ElementsItems(pes[1..])
  }

  /** Every text element of the slide in document order: page elements in
      order; within one, the shape's runs, then the table's runs row by row,
      cell by cell. */
  function Items(slide: Slide): seq<Item> {
    ElementsItems(slide.pageElements)
  }

  /** The item makes the walk throw. */
  predicate Throws(item: Item) {
    || item.CellsMissing?
    || (item.element.textRun.Some? && item.element.textRun.value.content.None?)
  }

  function ItemError(item: Item): ExtractError
    requires Throws(item)
  {
    if item.CellsMissing? then RowWithoutCells else RunWithoutContent
  }

  /** The item is a text run whose content is not blank. */
  predicate Kept(item: Item) {
    && item.Run?
    && item.element.textRun.Some?
    && item.element.textRun.value.content.Some?
    && Trim(item.element.textRun.value.content.value) != []
  }

  /** The entry a kept item produces. Its text is the trimmed content: never
      empty, and neither starting nor ending with whitespace. */
  function Emit(item: Item): (e: Extracted)
    requires Kept(item)
    ensures e.text == Trim(item.element.textRun.value.content.value)
    ensures e.text != [] && !IsWhitespace(e.text[0]) && !IsWhitespace(e.text[|e.text| - 1])
    ensures e.objectId == item.objectId && e.position == item.position
    ensures e.startIndex == item.element.startIndex && e.endIndex == item.element.endIndex
  {
    var te := item.element;
    Extracted(item.objectId, Trim(te.textRun.value.content.value), te.startIndex, te.endIndex, item.position)
  }

  function ItemEntry(item: Item): Extraction {
    match item
    case CellsMissing => Failure(RowWithoutCells)
    case Run(objectId, pos, te) => RunEntry(objectId, te, pos)
  }

  /** Filter a flat item list, stopping at the first item that throws. */
  function Scan(items: seq<Item>): Extraction
    decreases |items|
  {
    if |items| == 0 then Success([]) else Then(ItemEntry(items[0]), Scan(items[1..]))
  }

  /** Number of kept items. */
  function CountKept(items: seq<Item>): nat
    decreases |items|
  {
    if |items| == 0 then 0 else (if Kept(items[0]) then 1 else 0) + CountKept(items[1..])
  }

  /** Index of the entry item `i` produces: how many kept items precede it. */
  function Rank(items: seq<Item>, i: nat): nat
    requires i <= |items|
  {
    CountKept(items[..i])
  }

  // ---------------------------------------------------------------------
  // The walk is the reference: filter of the document-order item list.
  // ---------------------------------------------------------------------

  lemma ThenAssociative(a: Extraction, b: Extraction, c: Extraction)
    ensures Then(Then(a, b), c) == Then(a, Then(b, c))
  {
    if a.Success? && b.Success? && c.Success? {
      assert (a.value + b.value) + c.value == a.value + (b.value + c.value);
    }
  }

  /** Filtering a concatenation is the sequential composition of filtering
      each part. */
  lemma {:induction false} ScanAppend(a: seq<Item>, b: seq<Item>)
    ensures Scan(a + b) == Then(Scan(a), Scan(b))
    decreases |a|
  {
    if |a| == 0 {
      assert a + b == b;
      if Scan(b).Success? {
        assert [] + Scan(b).value == Scan(b).value;
      }
    } else {
      assert (a + b)[0] == a[0];
      assert (a + b)[1..] == a[1..] + b;
      ScanAppend(a[1..], b);
      ThenAssociative(ItemEntry(a[0]), Scan(a[1..]), Scan(b));
    }
  }

  lemma {:induction false} RunsEntriesIsScan(objectId: string, tes: seq<TextElement>, pos: Position)
    ensures RunsEntries(objectId, tes, pos) == Scan(RunItems(objectId, tes, pos))
    decreases |tes|
  {
    if |tes| > 0 {
      var items := RunItems(objectId, tes, pos);
      assert items[0] == Run(objectId, pos, tes[0]);
      assert items[1..] == RunItems(objectId, tes[1..], pos);
      RunsEntriesIsScan(objectId, tes[1..], pos);
    }
  }

  lemma {:induction false} CellsEntriesIsScan(objectId: string, cells: seq<TableCell>, row: nat, cell: nat)
    ensures CellsEntries(objectId, cells, row, cell) == Scan(CellItems(objectId, cells, row, cell))
    decreases |cells|
  {
    if |cells| > 0 {
      RunsEntriesIsScan(objectId, cells[0].textElements, InTable(row, cell));
      CellsEntriesIsScan(objectId, cells[1..], row, cell + 1);
      ScanAppend(RunItems(objectId, cells[0].textElements, InTable(row, cell)),
                 CellItems(objectId, cells[1..], row, cell + 1));
    }
  }

  lemma {:induction false} RowsEntriesIsScan(objectId: string, rows: seq<TableRow>, row: nat)
    ensures RowsEntries(objectId, rows, row) == Scan(RowItems(objectId, rows, row))
    decreases |rows|
  {
    if |rows| > 0 {
      RowsEntriesIsScan(objectId, rows[1..], row + 1);
      var rest := RowItems(objectId, rows[1..], row + 1);
      match rows[0].tableCells
      case None =>
        assert ([CellsMissing] + rest)[0] == CellsMissing;
      case Some(cells) =>
        CellsEntriesIsScan(objectId, cells, row, 0);
        ScanAppend(CellItems(objectId, cells, row, 0), rest);
    }
  }

  lemma {:induction false} ElementsEntriesIsScan(pes: seq<PageElement>)
    ensures ElementsEntries(pes) == Scan(ElementsItems(pes))
    decreases |pes|
  {
    if |pes| > 0 {
      var pe := pes[0];
      RunsEntriesIsScan(pe.objectId, pe.shapeText, InShape);
      RowsEntriesIsScan(pe.objectId, pe.tableRows, 0);
      ScanAppend(RunItems(pe.objectId, pe.shapeText, InShape), RowItems(pe.objectId, pe.tableRows, 0));
      ElementsEntriesIsScan(pes[1..]);
      ScanAppend(ElementItems(pe), ElementsItems(pes[1..]));
    }
  }

  /** The nested walk of the source is exactly "list the slide's text
      elements in document order, then filter them". */
  lemma ExtractIsScanOfItems(slide: Slide)
    ensures ExtractTextElements(slide) == Scan(Items(slide))
  {
    ElementsEntriesIsScan(slide.pageElements);
  }

  // ---------------------------------------------------------------------
  // What the filter keeps, drops and throws on.
  // ---------------------------------------------------------------------

  /** `i` is the first item that throws. */
  predicate IsFirstThrow(items: seq<Item>, i: int) {
    && 0 <= i < |items|
    && Throws(items[i])
    && forall k :: 0 <= k < i ==> !Throws(items[k])
  }

  lemma ItemEntryCases(item: Item)
    ensures ItemEntry(item).Failure? <==> Throws(item)
    ensures ItemEntry(item).Failure? ==> ItemEntry(item).error == ItemError(item)
    ensures ItemEntry(item).Success? && Kept(item) ==> ItemEntry(item).value == [Emit(item)]
    ensures ItemEntry(item).Success? && !Kept(item) ==> ItemEntry(item).value == []
  {
  }

  /** The walk fails exactly when some item throws, and with the error of the
      first such item. */
  lemma {:induction false} ScanFailure(items: seq<Item>)
    ensures Scan(items).Failure? <==> exists i :: 0 <= i < |items| && Throws(items[i])
    ensures Scan(items).Failure? ==>
              exists i :: IsFirstThrow(items, i) && Scan(items).error == ItemError(items[i])
    decreases |items|
  {
    if |items| > 0 {
      ItemEntryCases(items[0]);
      ScanFailure(items[1..]);
      if !Throws(items[0]) && Scan(items[1..]).Failure? {
        var i :| IsFirstThrow(items[1..], i) && Scan(items[1..]).error == ItemError(items[1..][i]);
        assert IsFirstThrow(items, i + 1);
      }
      if Scan(items).Success? {
        forall i | 0 <= i < |items|
          ensures !Throws(items[i])
        {
          if i > 0 {
            assert items[i] == items[1..][i - 1];
          }
        }
      }
    }
  }

  lemma {:induction false} RankStep(items: seq<Item>, i: nat)
    requires 0 < i <= |items|
    ensures Rank(items, i) == (if Kept(items[0]) then 1 else 0) + Rank(items[1..], i - 1)
  {
    assert items[..i][0] == items[0];
    assert items[..i][1..] == items[1..][..i - 1];
  }

  lemma {:induction false} ScanStep(items: seq<Item>)
    requires |items| > 0 && Scan(items).Success?
    ensures ItemEntry(items[0]).Success? && Scan(items[1..]).Success?
    ensures Scan(items).value == ItemEntry(items[0]).value + Scan(items[1..]).value
  {
  }

  /** When the walk succeeds, kept item `i` becomes entry number
      `Rank(items, i)`, and there are as many entries as kept items. */
  lemma {:induction false} ScanPlacesKept(items: seq<Item>)
    requires Scan(items).Success?
    ensures |Scan(items).value| == CountKept(items)
    ensures forall i :: 0 <= i < |items| && Kept(items[i]) ==>
              Rank(items, i) < |Scan(items).value| && Scan(items).value[Rank(items, i)] == Emit(items[i])
    decreases |items|
  {
    if |items| > 0 {
      ScanStep(items);
      ItemEntryCases(items[0]);
      ScanPlacesKept(items[1..]);
      forall i | 0 <= i < |items| && Kept(items[i])
        ensures Rank(items, i) < |Scan(items).value| && Scan(items).value[Rank(items, i)] == Emit(items[i])
      {
        KeptPlaced(items, i);
      }
    }
  }

  lemma {:induction false} KeptPlaced(items: seq<Item>, i: nat)
    requires 0 <= i < |items| && Kept(items[i])
    requires |items| > 0 && Scan(items).Success?
    requires ItemEntry(items[0]).Success? && Scan(items[1..]).Success?
    requires Scan(items).value == ItemEntry(items[0]).value + Scan(items[1..]).value
    requires Kept(items[0]) ==> ItemEntry(items[0]).value == [Emit(items[0])]
    requires !Kept(items[0]) ==> ItemEntry(items[0]).value == []
    requires forall j :: 0 <= j < |items[1..]| && Kept(items[1..][j]) ==>
               Rank(items[1..], j) < |Scan(items[1..]).value|
               && Scan(items[1..]).value[Rank(items[1..], j)] == Emit(items[1..][j])
    ensures Rank(items, i) < |Scan(items).value| && Scan(items).value[Rank(items, i)] == Emit(items[i])
  {
    if i == 0 {
      assert Rank(items, 0) == 0;
    } else {
      RankStep(items, i);
      assert items[i] == items[1..][i - 1];
    }
  }

  /** Entry `k` of `out` is the image of kept item `i`, which has rank `k`. */
  ghost predicate IsSourceOf(items: seq<Item>, out: seq<Extracted>, k: int, i: int) {
    && 0 <= k < |out|
    && 0 <= i < |items|
    && Kept(items[i])
    && Rank(items, i) == k
    && out[k] == Emit(items[i])
  }

  /** Entry `k` of `out` is the image of some kept item of rank `k`. */
  ghost predicate HasSource(items: seq<Item>, out: seq<Extracted>, k: int) {
    exists i :: IsSourceOf(items, out, k, i)
  }

  /** When the walk succeeds, entry `k` is the image of the kept item of
      rank `k`, which this lemma finds. */
  lemma {:induction false} EntrySource(items: seq<Item>, k: int) returns (i: int)
    requires Scan(items).Success? && 0 <= k < |Scan(items).value|
    ensures IsSourceOf(items, Scan(items).value, k, i)
    decreases |items|
  {
    ScanStep(items);
    ItemEntryCases(items[0]);
    var head := ItemEntry(items[0]).value;
    var tail := Scan(items[1..]).value;
    if k < |head| {
      assert Rank(items, 0) == 0;
      assert Scan(items).value[k] == head[k];
      i := 0;
    } else {
      var j := EntrySource(items[1..], k - |head|);
      RankStep(items, j + 1);
      assert items[j + 1] == items[1..][j];
      assert Scan(items).value[k] == tail[k - |head|];
      i := j + 1;
    }
  }

  /** When the walk succeeds, every entry is the image of a kept item. */
  lemma ScanEntriesAreKept(items: seq<Item>)
    requires Scan(items).Success?
    ensures forall k :: 0 <= k < |Scan(items).value| ==> HasSource(items, Scan(items).value, k)
  {
    forall k | 0 <= k < |Scan(items).value|
      ensures HasSource(items, Scan(items).value, k)
    {
      var i := EntrySource(items, k);
    }
  }

  /** `out` is exactly the kept items' entries, each once, in order: kept
      item `i` is entry number `Rank(items, i)` and every entry is such an
      image. */
  ghost predicate SelectsKept(items: seq<Item>, out: seq<Extracted>) {
    && |out| == CountKept(items)
    && (forall i :: 0 <= i < |items| && Kept(items[i]) ==>
          Rank(items, i) < |out| && out[Rank(items, i)] == Emit(items[i]))
    && (forall k :: 0 <= k < |out| ==> HasSource(items, out, k))
  }

  /** `e` is the error of the first item that throws. */
  ghost predicate FailsAtFirstThrow(items: seq<Item>, e: ExtractError) {
    exists i :: IsFirstThrow(items, i) && e == ItemError(items[i])
  }

  lemma ScanSpec(items: seq<Item>)
    ensures Scan(items).Failure? <==> exists i :: 0 <= i < |items| && Throws(items[i])
    ensures Scan(items).Failure? ==> FailsAtFirstThrow(items, Scan(items).error)
    ensures Scan(items).Success? ==> SelectsKept(items, Scan(items).value)
  {
    ScanFailure(items);
    if Scan(items).Success? {
      ScanPlacesKept(items);
      ScanEntriesAreKept(items);
    }
  }

  /** The source's contract for `extractTextElements`, on the model: the
      call throws exactly when some text element in document order throws,
      with the first such error; otherwise it returns the kept runs, each once
      and in document order. */
  lemma ExtractTextElementsSpec(slide: Slide)
    ensures ExtractTextElements(slide).Failure? <==>
              exists i :: 0 <= i < |Items(slide)| && Throws(Items(slide)[i])
    ensures ExtractTextElements(slide).Failure? ==>
              FailsAtFirstThrow(Items(slide), ExtractTextElements(slide).error)
    ensures ExtractTextElements(slide).Success? ==>
              SelectsKept(Items(slide), ExtractTextElements(slide).value)
  {
    ExtractIsScanOfItems(slide);
    ScanSpec(Items(slide));
  }

  // ---------------------------------------------------------------------
  // Every listed run really is on the slide, at the position it carries.
  // ---------------------------------------------------------------------

  /** `item` is a text element of page element `pe`, and its position names
      the body that holds it: the shape, or cell `cellIndex` of row
      `rowIndex` of the table. */
  predicate OnElement(pe: PageElement, item: Item) {
    && item.Run?
    && item.objectId == pe.objectId
    && match item.position
       case InShape => item.element in pe.shapeText
       case InTable(r, c) =>
         && r < |pe.tableRows|
         && pe.tableRows[r].tableCells.Some?
         && c < |pe.tableRows[r].tableCells.value|
         && item.element in pe.tableRows[r].tableCells.value[c].textElements
  }

  ghost predicate OnSlide(slide: Slide, item: Item) {
    exists p :: 0 <= p < |slide.pageElements| && OnElement(slide.pageElements[p], item)
  }

  lemma {:induction false} RunItemsLocated(objectId: string, tes: seq<TextElement>, pos: Position)
    ensures forall x :: x in RunItems(objectId, tes, pos) ==>
              x.Run? && x.objectId == objectId && x.position == pos && x.element in tes
    decreases |tes|
  {
    if |tes| > 0 {
      RunItemsLocated(objectId, tes[1..], pos);
    }
  }

  lemma {:induction false} CellItemsLocated(objectId: string, cells: seq<TableCell>, row: nat, cell: nat)
    ensures forall x :: x in CellItems(objectId, cells, row, cell) ==>
              && x.Run? && x.objectId == objectId
              && exists c :: 0 <= c < |cells| && x.position == InTable(row, cell + c)
                             && x.element in cells[c].textElements
    decreases |cells|
  {
    if |cells| > 0 {
      RunItemsLocated(objectId, cells[0].textElements, InTable(row, cell));
      CellItemsLocated(objectId, cells[1..], row, cell + 1);
      forall x | x in CellItems(objectId, cells[1..], row, cell + 1)
        ensures exists c :: 0 <= c < |cells| && x.position == InTable(row, cell + c)
                            && x.element in cells[c].textElements
      {
        var c :| 0 <= c < |cells[1..]| && x.position == InTable(row, cell + 1 + c)
                 && x.element in cells[1..][c].textElements;
        assert cells[1..][c] == cells[c + 1];
      }
    }
  }

  lemma {:induction false} RowItemsLocated(objectId: string, rows: seq<TableRow>, row: nat)
    ensures forall x :: x in RowItems(objectId, rows, row) && x.Run? ==>
              && x.objectId == objectId
              && exists r, c :: 0 <= r < |rows| && rows[r].tableCells.Some?
                                && 0 <= c < |rows[r].tableCells.value|
                                && x.position == InTable(row + r, c)
                                && x.element in rows[r].tableCells.value[c].textElements
    decreases |rows|
  {
    if |rows| > 0 {
      RowItemsLocated(objectId, rows[1..], row + 1);
      if rows[0].tableCells.Some? {
        CellItemsLocated(objectId, rows[0].tableCells.value, row, 0);
      }
      forall x | x in RowItems(objectId, rows[1..], row + 1) && x.Run?
        ensures exists r, c :: 0 <= r < |rows| && rows[r].tableCells.Some?
                               && 0 <= c < |rows[r].tableCells.value|
                               && x.position == InTable(row + r, c)
                               && x.element in rows[r].tableCells.value[c].textElements
      {
        var r, c :| 0 <= r < |rows[1..]| && rows[1..][r].tableCells.Some?
                    && 0 <= c < |rows[1..][r].tableCells.value|
                    && x.position == InTable(row + 1 + r, c)
                    && x.element in rows[1..][r].tableCells.value[c].textElements;
        assert rows[1..][r] == rows[r + 1];
      }
    }
  }

  lemma ElementItemsLocated(pe: PageElement)
    ensures forall x :: x in ElementItems(pe) && x.Run? ==> OnElement(pe, x)
  {
    RunItemsLocated(pe.objectId, pe.shapeText, InShape);
    RowItemsLocated(pe.objectId, pe.tableRows, 0);
  }

  lemma {:induction false} ElementsItemsLocated(pes: seq<PageElement>)
    ensures forall x :: x in ElementsItems(pes) && x.Run? ==>
              exists p :: 0 <= p < |pes| && OnElement(pes[p], x)
    decreases |pes|
  {
    if |pes| > 0 {
      ElementItemsLocated(pes[0]);
      ElementsItemsLocated(pes[1..]);
      forall x | x in ElementsItems(pes[1..]) && x.Run?
        ensures exists p :: 0 <= p < |pes| && OnElement(pes[p], x)
      {
        var p :| 0 <= p < |pes[1..]| && OnElement(pes[1..][p], x);
        assert pes[1..][p] == pes[p + 1];
      }
    }
  }

  /** `e` is the entry of a non-blank run that sits on the slide at the
      position `e` records. */
  ghost predicate EmittedFromSlide(slide: Slide, e: Extracted) {
    exists item :: OnSlide(slide, item) && Kept(item) && e == Emit(item)
  }

  /** Every entry the walk emits is a trimmed, non-blank run of the slide:
      an entry marked as a shape run comes from that page element's shape, an
      entry marked with row and cell indices comes from exactly that cell of
      that page element's table. */
  lemma ExtractedEntriesAreOnSlide(slide: Slide)
    requires ExtractTextElements(slide).Success?
    ensures forall k :: 0 <= k < |ExtractTextElements(slide).value| ==>
              EmittedFromSlide(slide, ExtractTextElements(slide).value[k])
  {
    ExtractTextElementsSpec(slide);
    SelectedAreOnSlide(slide, ExtractTextElements(slide).value);
  }

  lemma SelectedAreOnSlide(slide: Slide, out: seq<Extracted>)
    requires SelectsKept(Items(slide), out)
    ensures forall k :: 0 <= k < |out| ==> EmittedFromSlide(slide, out[k])
  {
    var items := Items(slide);
    forall k | 0 <= k < |out|
      ensures EmittedFromSlide(slide, out[k])
    {
      assert HasSource(items, out, k);
      var i :| IsSourceOf(items, out, k, i);
      ItemIsOnSlide(slide, i);
    }
  }

  /** Every text element the reference lists sits on the slide. */
  lemma ItemIsOnSlide(slide: Slide, i: int)
    requires 0 <= i < |Items(slide)| && Items(slide)[i].Run?
    ensures OnSlide(slide, Items(slide)[i])
  {
    ElementsItemsLocated(slide.pageElements);
    assert Items(slide)[i] in ElementsItems(slide.pageElements);
  }
}
