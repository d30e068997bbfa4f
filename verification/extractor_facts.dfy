/**
 * What `getTextContent` and the main-content selection promise: the line
 * format of each kind of block, the numbering of list items, the shape of
 * tables, the grouping of blocks by pass and document order, when the
 * fallback is used and what it looks like, and the priority of the selectors.
 */
module ExtractorFacts {
  import opened Wrappers
  import opened Strings
  import opened Dom
  import opened Extractor

  // ---------------------------------------------------------------------
  // Headings and code fences

  predicate IsHash(c: char) {
    c == '#'
  }

  /** Reads a heading line back: the number of leading `#`, and the text between the space and the blank line. */
  function ParseHeading(line: string): Option<(nat, string)> {
    var n := CountLeading(line, IsHash);
    if n + 3 <= |line| && line[n] == ' ' && line[|line| - 2..] == "\n\n" then Some((n, line[n + 1..|line| - 2]))
    else None
  }

  /** An `hK` element renders as K hashes, a space, its trimmed text and a blank line. */
  lemma HeadingRoundTrip(h: Node)
    requires HasTag(h, HeadingTags)
    ensures 1 <= HeadingLevel(h) <= 6
    ensures h.tag == "h" + NatToString(HeadingLevel(h))
    ensures ParseHeading(HeadingLine(h)) == Some((HeadingLevel(h), TrimmedText(h)))
  {
    var level := HeadingLevel(h);
    var hashes := Repeat("#", level);
    var line := HeadingLine(h);
    assert line == hashes + " " + TrimmedText(h) + "\n\n";
    assert forall k :: 0 <= k < level ==> line[k] == hashes[k];
    assert line[level] == ' ';
    assert CountLeading(line, IsHash) == level;
    assert line[level + 1..|line| - 2] == TrimmedText(h);
  }

  /** Reads a code fence back: the text between the opening and the closing fence. */
  function FenceBody(block: string): Option<string> {
    if |block| >= 10 && block[..4] == "```\n" && block[|block| - 6..] == "\n```\n\n" then Some(block[4..|block| - 6])
    else None
  }

  lemma CodeFenceRoundTrip(block: Node)
    ensures FenceBody(CodeFence(block)) == Some(TrimmedText(block))
  {
    var fence := CodeFence(block);
    assert fence == "```\n" + TrimmedText(block) + "\n```\n\n";
    assert fence[4..|fence| - 6] == TrimmedText(block);
  }

  // ---------------------------------------------------------------------
  // Lists

  /** Reads the number in front of an ordered item line: the leading digits, which a `.` must follow. */
  function ItemNumber(line: string): Option<nat> {
    var n := CountLeading(line, IsDigit);
    if 0 < n < |line| && line[n] == '.' then Some(DecimalValue(line[..n])) else None
  }

  /** Item `k` of an ordered list is numbered `k + 1`. */
  lemma OrderedItemNumber(k: nat, item: Node)
    ensures ItemNumber(ItemLine(true, k, item)) == Some(k + 1)
  {
    var digits := NatToString(k + 1);
    var line := ItemLine(true, k, item);
    assert line == digits + ". " + TrimmedText(item) + "\n";
    assert forall j :: 0 <= j < |digits| ==> line[j] == digits[j];
    assert line[|digits|] == '.';
    assert CountLeading(line, IsDigit) == |digits|;
    assert line[..|digits|] == digits;
    NatToStringRoundTrip(k + 1);
  }

  /** The item lines of a prefix of the items are a prefix of the item lines of all of them. */
  lemma {:induction false} ItemsTextPrefix(ordered: bool, items: seq<Node>, j: nat)
    requires j <= |items|
    ensures ItemsText(ordered, items[..j]) <= ItemsText(ordered, items)
    decreases |items| - j
  {
    if j < |items| {
      ItemsTextStep(ordered, items, j);
      ItemsTextPrefix(ordered, items, j + 1);
    } else {
      PrefixAll(items);
    }
  }

  /**
   * Every `li` below a list, in document order, gets the line numbered by its
   * position (from 1 in an `ol`, `* ` in a `ul`) right after the lines of the
   * items before it.
   */
  lemma ListItemPlacement(list: Node, k: nat)
    requires k < |QueryAll(list, {"li"})|
    ensures var items := QueryAll(list, {"li"});
            var line := ItemLine(IsOrdered(list), k, items[k]);
            ItemsText(IsOrdered(list), items[..k]) + line <= ListBlock(list)
            && (IsOrdered(list) ==> ItemNumber(line) == Some(k + 1))
            && (!IsOrdered(list) ==> line[..2] == "* ")
  {
    var items := QueryAll(list, {"li"});
    var ordered := IsOrdered(list);
    ItemsTextStep(ordered, items, k);
    ItemsTextPrefix(ordered, items, k + 1);
    if ordered {
      OrderedItemNumber(k, items[k]);
    }
  }

  lemma EmptyListBlock(list: Node)
    requires QueryAll(list, {"li"}) == []
    ensures ListBlock(list) == "\n"
  {
    assert ItemsText(IsOrdered(list), []) == "";
  }

  // ---------------------------------------------------------------------
  // Tables

  /** A table produces text exactly when it has at least one row. */
  lemma TableBlockEmpty(table: Node)
    ensures TableBlock(table) == "" <==> QueryAll(table, {"tr"}) == []
  {
    if QueryAll(table, {"tr"}) != [] {
      assert |TableBlock(table)| > 0;
    }
  }

  lemma {:induction false} SeparatorEntries(cells: seq<Node>)
    ensures ConcatMap(cells, SeparatorEntry) == Repeat("--- | ", |cells|)
  {
    if cells != [] {
      SeparatorEntries(cells[..|cells| - 1]);
    }
  }

  /** The separator line has one `--- | ` column per header cell of the first row. */
  lemma SeparatorPerHeaderCell(row: Node)
    ensures SeparatorLine(row) == "| " + Repeat("--- | ", |QueryAll(row, {"th"})|)
  {
    SeparatorEntries(QueryAll(row, {"th"}));
  }

  /**
   * After the header and separator lines, row `k` of the table (for `k >= 1`)
   * gets its line right after the lines of rows `1..k` and before the later ones.
   */
  lemma DataRowPlacement(table: Node, k: nat)
    requires 1 <= k < |QueryAll(table, {"tr"})|
    ensures var rows := QueryAll(table, {"tr"});
            TableBlock(table)
            == HeaderLine(rows[0]) + "\n" + SeparatorLine(rows[0]) + "\n"
               + (ConcatMap(rows[1..k], RowLine) + RowLine(rows[k]) + ConcatMap(rows[k + 1..], RowLine)) + "\n"
  {
    ConcatMapTailAt(QueryAll(table, {"tr"}), RowLine, k);
  }

  // ---------------------------------------------------------------------
  // Block separation

  predicate EndsWithBlankLine(s: string) {
    |s| >= 2 && s[|s| - 2] == '\n' && s[|s| - 1] == '\n'
  }

  /** `s` ends with a newline character. */
  predicate EndsWithNewline(s: string) {
    |s| >= 1 && s[|s| - 1] == '\n'
  }

  /** A fact about the last character, stated once so that the proofs that use it stay cheap. */
  lemma NewlineSuffix(a: string, b: string)
    requires EndsWithNewline(b)
    ensures EndsWithNewline(a + b)
  {
  }

  /** A fact about the last characters, stated once so that the proofs that use it stay cheap. */
  lemma BlankAfterLine(s: string)
    requires EndsWithNewline(s)
    ensures EndsWithBlankLine(s + "\n")
  {
  }

  /** The item lines of a list with at least one item end with a newline. */
  lemma ItemsEndWithNewline(ordered: bool, items: seq<Node>)
    requires items != []
    ensures EndsWithNewline(ItemsText(ordered, items))
  {
    NewlineSuffix(ItemsText(ordered, items[..|items| - 1]), ItemLine(ordered, |items| - 1, items[|items| - 1]));
  }

  /** The lines of a table with at least one row end with a newline. */
  lemma TableLinesEndWithNewline(rows: seq<Node>)
    requires rows != []
    ensures EndsWithNewline(HeaderLine(rows[0]) + "\n" + SeparatorLine(rows[0]) + "\n" + ConcatMap(rows[1..], RowLine))
  {
    var head := HeaderLine(rows[0]) + "\n" + SeparatorLine(rows[0]) + "\n";
    var tail := rows[1..];
    if tail == [] {
      assert head + ConcatMap(tail, RowLine) == head;
    } else {
      NewlineSuffix(ConcatMap(tail[..|tail| - 1], RowLine), RowLine(tail[|tail| - 1]));
      NewlineSuffix(head, ConcatMap(tail, RowLine));
    }
  }

  /**
   * Every block ends with a blank line, so consecutive blocks stay apart in
   * the Markdown; a list needs an item and a table a row for this (a list
   * with no item is the single newline `EmptyListBlock` gives).
   */
  lemma BlockEndsWithBlankLine(kind: Kind, n: Node)
    requires kind == List ==> QueryAll(n, {"li"}) != []
    requires kind == Table ==> QueryAll(n, {"tr"}) != []
    ensures EndsWithBlankLine(Render(kind)(n))
  {
    match kind
    case List =>
      ItemsEndWithNewline(IsOrdered(n), QueryAll(n, {"li"}));
      BlankAfterLine(ItemsText(IsOrdered(n), QueryAll(n, {"li"})));
    case Table =>
      var rows := QueryAll(n, {"tr"});
      TableLinesEndWithNewline(rows);
      BlankAfterLine(HeaderLine(rows[0]) + "\n" + SeparatorLine(rows[0]) + "\n" + ConcatMap(rows[1..], RowLine));
    case _ =>
  }

  // ---------------------------------------------------------------------
  // Grouping by pass and document order

  function KindIndex(kind: Kind): (i: nat)
    ensures i < |KindOrder| && KindOrder[i] == kind
  {
    match kind
    case Heading => 0
    case Paragraph => 1
    case List => 2
    case Table => 3
    case Code => 4
  }

  /** Every pass visits its elements in document order, each at most once. */
  lemma TargetsInOrder(e: Node, kind: Kind)
    ensures Subseq(Targets(e, kind), Descendants(e))
  {
    if kind == Code {
      PreCodeBlocksInOrder(e);
    } else {
      QueryAllInOrder(e, match kind
        case Heading => HeadingTags
        case Paragraph => {"p"}
        case List => ListTags
        case _ => {"table"});
    }
  }

  /**
   * The block of the `k`-th element a pass visits comes after the text of every
   * earlier pass and the blocks of the elements before it in document order, and
   * before the blocks of the later elements and the text of every later pass.
   */
  lemma BlockPosition(e: Node, kind: Kind, k: nat)
    requires k < |Targets(e, kind)|
    ensures var ts := Targets(e, kind);
            var i := KindIndex(kind);
            Body(e)
            == ConcatMap(KindOrder[..i], PassOf(e))
               + (ConcatMap(ts[..k], Render(kind)) + Render(kind)(ts[k]) + ConcatMap(ts[k + 1..], Render(kind)))
               + ConcatMap(KindOrder[i + 1..], PassOf(e))
  {
    ConcatMapNestedAt(KindOrder, PassOf(e), KindIndex(kind), Targets(e, kind), Render(kind), k);
  }

  // ---------------------------------------------------------------------
  // The fallback

  /** A pass produces no text exactly when it has nothing to render. */
  predicate PassRendersNothing(e: Node, kind: Kind) {
    if kind == Table then forall t :: t in Targets(e, Table) ==> QueryAll(t, {"tr"}) == []
    else Targets(e, kind) == []
  }

  lemma PassEmptyExactly(e: Node, kind: Kind)
    ensures PassText(e, kind) == "" <==> PassRendersNothing(e, kind)
  {
    var ts := Targets(e, kind);
    ConcatMapEmpty(ts, Render(kind));
    if kind == Table {
      forall t | t in ts
        ensures TableBlock(t) == "" <==> QueryAll(t, {"tr"}) == []
      {
        TableBlockEmpty(t);
      }
    } else if ts != [] {
      assert |Render(kind)(ts[0])| > 0;
    }
  }

  /** Nothing among the five passes has anything to render. */
  predicate NothingToRender(e: Node) {
    && PassRendersNothing(e, Heading) && PassRendersNothing(e, Paragraph) && PassRendersNothing(e, List)
    && PassRendersNothing(e, Table) && PassRendersNothing(e, Code)
  }

  /** The fallback text is used exactly when the five passes have nothing to render. */
  lemma FallbackExactlyWhenNothingRendered(e: Node)
    ensures Body(e) == "" <==> NothingToRender(e)
    ensures Markdown(e) == (if NothingToRender(e) then Fallback(e) else Body(e))
  {
    BodyInPassOrder(e);
    PassEmptyExactly(e, Heading);
    PassEmptyExactly(e, Paragraph);
    PassEmptyExactly(e, List);
    PassEmptyExactly(e, Table);
    PassEmptyExactly(e, Code);
  }

  /**
   * The fallback text has no whitespace at either end, no two whitespace
   * characters in a row, no whitespace other than plain spaces, and every
   * visible character of the element's text, in order.
   */
  lemma FallbackShape(e: Node)
    ensures var r := Fallback(e);
            && (r == [] || (!IsWhitespace(r[0]) && !IsWhitespace(r[|r| - 1])))
            && NoWhitespaceRun(r)
            && OnlySpaces(r)
            && Visible(r) == Visible(TextContent(e))
  {
    CollapseTrimShape(TextContent(e));
  }

  /** Two words of the element's text, separated by any whitespace, come out of the fallback one space apart. */
  lemma FallbackKeepsWordsApart(e: Node, a: string, w: string, b: string)
    requires TextContent(e) == a + w + b
    requires a != [] && forall k :: 0 <= k < |a| ==> !IsWhitespace(a[k])
    requires w != [] && AllWhitespace(w)
    requires b != [] && forall k :: 0 <= k < |b| ==> !IsWhitespace(b[k])
    ensures Fallback(e) == a + " " + b
  {
    CollapseTrimWords(a, w, b);
  }

  // ---------------------------------------------------------------------
  // Main-content selection

  /** The chain stops at the first selector that finds an element. */
  lemma {:induction false} FirstSelectedSource(doc: Node, sels: seq<Selector>) returns (i: nat)
    requires FirstSelected(doc, sels).Some?
    ensures i < |sels| && FirstSelected(doc, sels) == QuerySelector(doc, sels[i])
    ensures forall j :: 0 <= j < i ==> QuerySelector(doc, sels[j]).None?
  {
    if QuerySelector(doc, sels[0]).Some? {
      i := 0;
    } else {
      var i' := FirstSelectedSource(doc, sels[1..]);
      i := i' + 1;
      assert forall j :: 1 <= j < |sels| ==> sels[1..][j - 1] == sels[j];
    }
  }

  /** The chain finds nothing exactly when no selector finds anything. */
  lemma {:induction false} FirstSelectedNone(doc: Node, sels: seq<Selector>)
    ensures FirstSelected(doc, sels).None? <==> forall j :: 0 <= j < |sels| ==> QuerySelector(doc, sels[j]).None?
  {
    if sels != [] {
      FirstSelectedNone(doc, sels[1..]);
      assert forall j :: 1 <= j < |sels| ==> sels[1..][j - 1] == sels[j];
    }
  }

  /**
   * The main content is the first element, in document order, that matches
   * the first of the six selectors that matches anything at all.
   */
  lemma MainContentPriority(doc: Node) returns (i: nat, k: nat)
    requires MainContent(doc).Some?
    ensures i < |MainSelectors| && k < |Subtree(doc)| && MainContent(doc).value == Subtree(doc)[k]
    ensures Matches(Subtree(doc)[k], MainSelectors[i])
    ensures forall j :: 0 <= j < k ==> !Matches(Subtree(doc)[j], MainSelectors[i])
    ensures forall j, x :: 0 <= j < i && x in Subtree(doc) ==> !Matches(x, MainSelectors[j])
  {
    i := FirstSelectedSource(doc, MainSelectors);
    k := QuerySelectorFirst(doc, MainSelectors[i]);
    forall j | 0 <= j < i
      ensures forall x :: x in Subtree(doc) ==> !Matches(x, MainSelectors[j])
    {
      QuerySelectorNone(doc, MainSelectors[j]);
    }
  }

  /** A page where no element matches any selector yields exactly the "no content" text. */
  lemma NoMatchSentinel(doc: Node)
    requires forall j, x :: 0 <= j < |MainSelectors| && x in Subtree(doc) ==> !Matches(x, MainSelectors[j])
    ensures MainContent(doc).None?
    ensures PageContent(doc) == NoContent
  {
    forall j | 0 <= j < |MainSelectors|
      ensures QuerySelector(doc, MainSelectors[j]).None?
    {
      QuerySelectorNone(doc, MainSelectors[j]);
    }
    FirstSelectedNone(doc, MainSelectors);
  }
}
