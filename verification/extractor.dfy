/**
 * The content extractor that runs inside each visited page: choose the main
 * content element by a fixed list of selectors, then turn it into Markdown in
 * five passes (headings, paragraphs, lists, tables, code blocks), falling back
 * to the whitespace-collapsed text when the passes produce nothing.
 */
module Extractor {
  import opened Wrappers
  import opened Strings
  import opened Dom

  const HeadingTags: set<string> := {"h1", "h2", "h3", "h4", "h5", "h6"}
  const ListTags: set<string> := {"ul", "ol"}

  /** The page content reported when no main-content element exists ("İçerik bulunamadı"). */
  const NoContent: string := "\U{0130}\U{00E7}erik bulunamad\U{0131}"

  /** The main-content selectors, tried in this order. */
  const MainSelectors: seq<Selector> := [
    ClassSelector("page-inner"),
    TagSelector("main"),
    TagSelector("article"),
    ClassSelector("markdown-section"),
    ClassSelector("markdown-body"),
    ClassSelector("theme-default-content")
  ]

  // ---------------------------------------------------------------------
  // Rendering of one element

  /** `parseInt(tagName.charAt(1))`; a non-digit gives NaN, which `repeat` treats as 0. */
  function HeadingLevel(n: Node): nat {
    if n.Element? && |n.tag| >= 2 && IsDigit(n.tag[1]) then DigitValue(n.tag[1]) else 0
  }

  /** The trimmed `textContent` of `n`. */
  function TrimmedText(n: Node): string {
    Trim(TextContent(n))
  }

  function HeadingLine(h: Node): string {
    Repeat("#", HeadingLevel(h)) + " " + TrimmedText(h) + "\n\n"
  }

  function ParagraphBlock(p: Node): string {
    TrimmedText(p) + "\n\n"
  }

  /** The line of the item at position `index` of a list. */
  function ItemLine(ordered: bool, index: nat, item: Node): string {
    (if ordered then NatToString(index + 1) + ". " else "* ") + TrimmedText(item) + "\n"
  }

  predicate IsOrdered(list: Node) {
    list.Element? && list.tag == "ol"
  }

  /** The lines of `items`, numbered by their position when `ordered`. */
  function ItemsText(ordered: bool, items: seq<Node>): string {
    if items == [] then ""
    else ItemsText(ordered, items[..|items| - 1]) + ItemLine(ordered, |items| - 1, items[|items| - 1])
  }

  /** The item lines grow by one line per item. */
  lemma ItemsTextStep(ordered: bool, items: seq<Node>, i: nat)
    requires i < |items|
    ensures ItemsText(ordered, items[..i + 1]) == ItemsText(ordered, items[..i]) + ItemLine(ordered, i, items[i])
  {
    PrefixStep(items, i);
  }

  /** One line per `li` anywhere below the list, numbered from 1 in an `ol`, then a blank line. */
  function ListBlock(list: Node): string {
    ItemsText(IsOrdered(list), QueryAll(list, {"li"})) + "\n"
  }

  /** One table cell: its trimmed text and a closing bar. */
  function CellEntry(cell: Node): string {
    TrimmedText(cell) + " | "
  }

  /** One separator column, written once per header cell. */
  function SeparatorEntry(cell: Node): string {
    "--- | "
  }

  function HeaderLine(row: Node): string {
    "| " + ConcatMap(QueryAll(row, {"th"}), CellEntry)
  }

  function SeparatorLine(row: Node): string {
    "| " + ConcatMap(QueryAll(row, {"th"}), SeparatorEntry)
  }

  function RowLine(row: Node): string {
    "| " + ConcatMap(QueryAll(row, {"td"}), CellEntry) + "\n"
  }

  /** A table: nothing without rows, else the header, the separator, the other rows and a blank line. */
  function TableBlock(table: Node): string {
    var rows := QueryAll(table, {"tr"});
    if rows == [] then ""
    else HeaderLine(rows[0]) + "\n" + SeparatorLine(rows[0]) + "\n" + ConcatMap(rows[1..], RowLine) + "\n"
  }

  function CodeFence(block: Node): string {
    "```\n" + TrimmedText(block) + "\n" + "```\n\n"
  }

  // ---------------------------------------------------------------------
  // The five passes and the fallback

  datatype Kind = Heading | Paragraph | List | Table | Code

  /** The order of the passes. */
  const KindOrder: seq<Kind> := [Heading, Paragraph, List, Table, Code]

  /** The elements a pass visits, in document order. */
  function Targets(e: Node, kind: Kind): seq<Node> {
    match kind
    case Heading => QueryAll(e, HeadingTags)
    case Paragraph => QueryAll(e, {"p"})
    case List => QueryAll(e, ListTags)
    case Table => QueryAll(e, {"table"})
    case Code => PreCodeBlocks(e)
  }

  /** The block a pass appends for one element it visits. */
  function Render(kind: Kind): Node -> string {
    match kind
    case Heading => HeadingLine
    case Paragraph => ParagraphBlock
    case List => ListBlock
    case Table => TableBlock
    case Code => CodeFence
  }

  /** The text one pass appends. */
  function PassText(e: Node, kind: Kind): string {
    ConcatMap(Targets(e, kind), Render(kind))
  }

  /** The pass texts of `e`, by kind. */
  function PassOf(e: Node): Kind -> string {
    kind => PassText(e, kind)
  }

  /** The text of all five passes, in pass order. */
  function Body(e: Node): string {
    ConcatMap(KindOrder, PassOf(e))
  }

  /** `textContent.replace(/\s+/g, ' ').trim()`. */
  function Fallback(e: Node): string {
    Trim(Collapse(TextContent(e)))
  }

  /** What `getTextContent` returns for `e`. */
  function Markdown(e: Node): string {
    var body := Body(e);
    if body == "" then Fallback(e) else body
  }

  /** The `||` chain of `document.querySelector` calls. */
  function FirstSelected(doc: Node, sels: seq<Selector>): Option<Node> {
    if sels == [] then None
    else match QuerySelector(doc, sels[0])
      case Some(m) => Some(m)
      case None => FirstSelected(doc, sels[1..])
  }

  function MainContent(doc: Node): Option<Node> {
    FirstSelected(doc, MainSelectors)
  }

  /** What the content callback returns for the page whose root element is `doc`. */
  function PageContent(doc: Node): string {
    match MainContent(doc)
    case None => NoContent
    case Some(m) => Markdown(m)
  }

  /** Joining per-kind texts in pass order, for any per-kind text `f`. */
  lemma KindsInOrder(f: Kind -> string)
    ensures ConcatMap(KindOrder, f) == f(Heading) + f(Paragraph) + f(List) + f(Table) + f(Code)
  {
    ConcatMapSnoc([], Heading, f);
    assert [] + [Heading] == [Heading];
    ConcatMapSnoc([Heading], Paragraph, f);
    assert [Heading] + [Paragraph] == [Heading, Paragraph];
    ConcatMapSnoc([Heading, Paragraph], List, f);
    assert [Heading, Paragraph] + [List] == [Heading, Paragraph, List];
    ConcatMapSnoc([Heading, Paragraph, List], Table, f);
    assert [Heading, Paragraph, List] + [Table] == [Heading, Paragraph, List, Table];
    ConcatMapSnoc([Heading, Paragraph, List, Table], Code, f);
    assert [Heading, Paragraph, List, Table] + [Code] == KindOrder;
  }

  /** The five passes one after the other. */
  lemma BodyInPassOrder(e: Node)
    ensures Body(e) == PassText(e, Heading) + PassText(e, Paragraph) + PassText(e, List)
                       + PassText(e, Table) + PassText(e, Code)
  {
    KindsInOrder(PassOf(e));
  }

  // ---------------------------------------------------------------------
  // The imperative extractor

  /** A `forEach` whose callback appends `render(x)` to the buffer. */
  method AppendEach(text: string, nodes: seq<Node>, render: Node -> string) returns (out: string)
    ensures out == text + ConcatMap(nodes, render)
  {
    out := text;
    var i := 0;
    while i < |nodes|
      invariant 0 <= i <= |nodes|
      invariant out == text + ConcatMap(nodes[..i], render)
    {
      PrefixSnoc(nodes, i);
      AppendPiece(text, nodes[..i], nodes[i], render);
      out := out + render(nodes[i]);
      i := i + 1;
    }
    PrefixAll(nodes);
  }

  /** The callback of the list pass: the item lines, then a blank line. */
  method RenderList(list: Node) returns (block: string)
    ensures block == ListBlock(list)
  {
    var isOrdered := list.Element? && list.tag == "ol";
    var items := QueryAll(list, {"li"});
    block := "";
    var i := 0;
    while i < |items|
      invariant 0 <= i <= |items|
      invariant block == ItemsText(isOrdered, items[..i])
    {
      ItemsTextStep(isOrdered, items, i);
      if isOrdered {
        block := block + (NatToString(i + 1) + ". " + TrimmedText(items[i]) + "\n");
      } else {
        block := block + ("* " + TrimmedText(items[i]) + "\n");
      }
      i := i + 1;
    }
    PrefixAll(items);
    block := block + "\n";
  }

  /** The bar-separated cells of a data row: `'| '` then one entry per cell. */
  method RenderCells(cells: seq<Node>) returns (line: string)
    ensures line == "| " + ConcatMap(cells, CellEntry)
  {
    line := "| ";
    var j := 0;
    while j < |cells|
      invariant 0 <= j <= |cells|
      invariant line == "| " + ConcatMap(cells[..j], CellEntry)
    {
      PrefixSnoc(cells, j);
      AppendPiece("| ", cells[..j], cells[j], CellEntry);
      line := line + (TrimmedText(cells[j]) + " | ");
      j := j + 1;
    }
    PrefixAll(cells);
  }

  /** The header-cell loop of the table pass: the header line and the separator line, built cell by cell. */
  method RenderHeader(headerCells: seq<Node>) returns (header: string, separator: string)
    ensures header == "| " + ConcatMap(headerCells, CellEntry)
    ensures separator == "| " + ConcatMap(headerCells, SeparatorEntry)
  {
    header, separator := "| ", "| ";
    var j := 0;
    while j < |headerCells|
      invariant 0 <= j <= |headerCells|
      invariant header == "| " + ConcatMap(headerCells[..j], CellEntry)
      invariant separator == "| " + ConcatMap(headerCells[..j], SeparatorEntry)
    {
      PrefixSnoc(headerCells, j);
      AppendPiece("| ", headerCells[..j], headerCells[j], CellEntry);
      AppendPiece("| ", headerCells[..j], headerCells[j], SeparatorEntry);
      header := header + (TrimmedText(headerCells[j]) + " | ");
      separator := separator + "--- | ";
      j := j + 1;
    }
    PrefixAll(headerCells);
  }

  /** The data-row loop of the table pass: one line per row after the first. */
  method AppendRows(text: string, rows: seq<Node>) returns (out: string)
    requires |rows| > 0
    ensures out == text + ConcatMap(rows[1..], RowLine)
  {
    out := text;
    var i := 1;
    while i < |rows|
      invariant 1 <= i <= |rows|
      invariant out == text + ConcatMap(rows[1..i], RowLine)
    {
      var row := RenderCells(QueryAll(rows[i], {"td"}));
      SliceSnoc(rows, 1, i);
      AppendPiece(text, rows[1..i], rows[i], RowLine);
      out := out + (row + "\n");
      i := i + 1;
    }
    assert rows[1..i] == rows[1..];
  }

  /** The callback of the table pass: nothing unless the table has a first row. */
  method RenderTable(table: Node) returns (block: string)
    ensures block == TableBlock(table)
  {
    block := "";
    var rows := QueryAll(table, {"tr"});
    if |rows| > 0 {
      var header, separator := RenderHeader(QueryAll(rows[0], {"th"}));
      block := AppendRows(header + "\n" + separator + "\n", rows);
      block := block + "\n";
    }
  }

  /** The list pass: the callback's block for every list, in document order. */
  method AppendLists(text: string, lists: seq<Node>) returns (out: string)
    ensures out == text + ConcatMap(lists, ListBlock)
  {
    out := text;
    var i := 0;
    while i < |lists|
      invariant 0 <= i <= |lists|
      invariant out == text + ConcatMap(lists[..i], ListBlock)
    {
      var block := RenderList(lists[i]);
      PrefixSnoc(lists, i);
      AppendPiece(text, lists[..i], lists[i], ListBlock);
      out := out + block;
      i := i + 1;
    }
    PrefixAll(lists);
  }

  /** The table pass: the callback's block for every table, in document order. */
  method AppendTables(text: string, tables: seq<Node>) returns (out: string)
    ensures out == text + ConcatMap(tables, TableBlock)
  {
    out := text;
    var i := 0;
    while i < |tables|
      invariant 0 <= i <= |tables|
      invariant out == text + ConcatMap(tables[..i], TableBlock)
    {
      var block := RenderTable(tables[i]);
      PrefixSnoc(tables, i);
      AppendPiece(text, tables[..i], tables[i], TableBlock);
      out := out + block;
      i := i + 1;
    }
    PrefixAll(tables);
  }

  /** `getTextContent`: the five passes in their fixed order, then the fallback. */
  method GetTextContent(element: Node) returns (text: string)
    ensures text == Markdown(element)
  {
    text := "";
    text := AppendEach(text, QueryAll(element, HeadingTags), HeadingLine);
    EmptyPrefix(PassText(element, Heading));
    text := AppendEach(text, QueryAll(element, {"p"}), ParagraphBlock);
    text := AppendLists(text, QueryAll(element, ListTags));
    text := AppendTables(text, QueryAll(element, {"table"}));
    text := AppendEach(text, PreCodeBlocks(element), CodeFence);
    BodyInPassOrder(element);
    if text == "" {
      text := Trim(Collapse(TextContent(element)));
    }
  }

  /** The content callback: pick the main element, or report that there is none. */
  method EvaluatePage(doc: Node) returns (content: string)
    ensures content == PageContent(doc)
  {
    var mainContent := MainContent(doc);
    if mainContent.None? {
      return NoContent;
    }
    content := GetTextContent(mainContent.value);
  }
}
