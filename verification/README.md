# GitBook documentation scraper — Dafny model

`scraper.js` opens the landing page of a documentation site in a headless
browser. It collects the links of the site's pages and visits each distinct
page once. From each page it extracts the main content as Markdown and writes
everything to one Markdown document. This project models the logic of that
script; the browser and the file system stay outside. The model has three
parts.

- **Link collection** (`Links`). `collectLinks` walks the page's anchors in
  document order. It keeps `{url, title}` for an anchor whose address:
  - is non-empty;
  - starts with `https://developer.esnekpos.com`;
  - has neither `#` nor `?`;
  - and whose trimmed text is non-empty.

  `CollectLinks` is the loop. `CollectedLinks` is its specification.
- **Content extraction** (`Dom`, `Extractor`). Main content is the first
  element matched by the first of six selectors that matches anything (`.page-inner`,
  `main`, `article`, `.markdown-section`, `.markdown-body`,
  `.theme-default-content`). Without one, the page content is the "İçerik
  bulunamadı" text.
  - `getTextContent` runs five passes over the main element, in this order:
    headings, paragraphs, lists, tables, `pre code` blocks.
  - Each pass appends one block per element, in document order.
  - When nothing was appended, the result is the element's text with
    whitespace runs collapsed and trimmed.
  - Every pass is a method with a loop (`AppendEach`, `AppendLists`,
    `AppendTables`; the table pass also uses `RenderHeader` and `AppendRows`).
    Each is proved equal to a specification function (`ListBlock`,
    `TableBlock`, `Body`, `Markdown`, …). The facts about the output are
    lemmas about those functions (`ExtractorFacts`).
  - The DOM is a tree of elements (lower-case tag, class set, children) and
    text nodes. `textContent`, `querySelectorAll` over tag names and over
    `pre code`, and `document.querySelector` are functions over that tree
    (`Dom`).
- **Crawl assembly** (`Crawl`). The document starts with `# title`.
  - Then every collected link whose address is not yet in `visitedUrls` adds
    the address to the set and appends one section.
  - A loaded page's section is `## pageTitle`, `URL: …`, the content and a
    `---` rule.
  - A page that fails gives the fixed `### HATA` marker.
  - What visiting an address yields is the input function `fetch`.

The code appends the `## pageTitle` and `URL:` lines before the content
callback runs (scraper.js:88-91). So a failure inside the callback leaves those
two lines in the document, followed by the error marker. The outcome of a visit
therefore has three cases, not two: `NavigationFailed`, `EvaluationFailed`,
`Loaded`.

## Model

| member | source | states |
|---|---|---|
| Links.CollectLinks | scraper.js:55-70 | The returned links are those of `CollectedLinks(anchors)`: in document order, one per anchor passing the address and text tests, each address non-empty, in-site, free of `#` and `?`, each title non-empty with no whitespace at either end |
| Links.CollectedLinkSource | scraper.js:57-68 | Every returned link comes from an anchor that passes both tests; its url is the href and its title the trimmed inner text |
| Links.CollectedLinkPresent | scraper.js:57-68 | Every anchor that passes both tests yields a returned link |
| Links.CollectedLinksAppend | scraper.js:57-69 | The links of two consecutive runs of anchors are those of the first run followed by those of the second (document order is kept) |
| Strings.TrimEmpty | scraper.js:61-62 | A trimmed text is empty exactly when the text is all JavaScript whitespace |
| Strings.Trim | scraper.js:61 | The trimmed text is no longer than the input and has no whitespace at either end |
| Strings.TrimStart | scraper.js:61 | Dropping leading whitespace gives the suffix of the input that starts at its first non-whitespace character; everything dropped is whitespace |
| Strings.TrimEnd | scraper.js:61 | Dropping trailing whitespace gives the prefix of the input that ends at its last non-whitespace character; everything dropped is whitespace |
| Strings.TrimIsTrimEndOfTrimStart | scraper.js:61 | `trim` is dropping the leading whitespace and then the trailing whitespace |
| Strings.TrimKeepsVisible | scraper.js:61 | Trimming removes only whitespace: the non-whitespace characters stay, in order |
| Strings.Collapse | scraper.js:172-173 | The collapsed text is empty exactly when the input is, starts with whitespace exactly when the input does, has no whitespace but plain spaces and no two whitespace characters in a row (what becomes of each run is `CollapseRun`) |
| Strings.CollapseRun | scraper.js:172-173 | A whitespace run between a text that ends visibly and a text that starts visibly becomes exactly one space, each side collapsed on its own |
| Strings.CollapseKeepsWord | scraper.js:172-173 | A text without whitespace is left unchanged by the collapse |
| Strings.CollapseTrimWords | scraper.js:172-174 | Two words separated by any whitespace run come out of collapse-then-trim as the words with one space between them |
| Strings.CollapseKeepsVisible | scraper.js:172-173 | Collapsing removes only whitespace: the non-whitespace characters stay, in order |
| Strings.CollapseTrimShape | scraper.js:172-174 | Collapsing then trimming gives a text with no whitespace at the ends, no whitespace run, only plain spaces, and all non-whitespace characters of the input in order |
| Strings.NatToStringRoundTrip | scraper.js:123 | The decimal text of an item number reads back as that number |
| Dom.TextContentInOrder | scraper.js:108 | `textContent` is the data of the text nodes of the subtree, in document order |
| Dom.QueryAllMembers | scraper.js:105 | `querySelectorAll` over tag names returns exactly the descendants having one of those tags |
| Dom.WithTagAppend | scraper.js:105 | Filtering two runs of nodes by tag gives the filtered first run followed by the filtered second run |
| Dom.QueryAllInOrder | scraper.js:105 | `querySelectorAll` over tag names returns descendants in document order, each position at most once |
| Dom.PreCodeBlocksSpec | scraper.js:164 | `querySelectorAll('pre code')` returns exactly the `code` elements below the element that have a `pre` ancestor inside it, the element itself included |
| Dom.PreCodeBlocksInOrder | scraper.js:164 | `querySelectorAll('pre code')` returns its blocks in document order, each position at most once |
| Dom.CodesInPreForest | scraper.js:164 | Inside a `pre`, the walk over a forest returns every `code` element of it, each occurrence kept, in document order (the tag filter) |
| Dom.CodesInPreSubtree | scraper.js:164 | Inside a `pre`, the walk over a subtree returns every `code` element of it, each occurrence kept, in document order |
| Dom.PreCodeBlocksOfPre | scraper.js:164 | Below a `pre` element, `querySelectorAll('pre code')` equals `querySelectorAll('code')`, so equal code blocks are all returned |
| Dom.QuerySelectorFirst | scraper.js:93 | `querySelector` returns the first matching element in document order |
| Dom.QuerySelectorNone | scraper.js:93 | `querySelector` returns nothing exactly when no element of the document matches |
| Extractor.AppendEach | scraper.js:105-114 | A `forEach` that appends a rendered block per element leaves the buffer followed by the blocks of all elements in document order |
| Extractor.RenderList | scraper.js:117-130 | The list callback appends `ListBlock(list)`: one line per `li` below the list, numbered when `ol`, then a newline |
| Extractor.RenderHeader | scraper.js:138-145 | Both lines start with a bar and a space; the header line then has each `th` cell's trimmed text followed by a space, a bar and a space; the separator has one three-dash column per `th` cell |
| Extractor.RenderCells | scraper.js:150-155 | A data row line is a bar and a space, then each `td` cell's trimmed text followed by a space, a bar and a space |
| Extractor.AppendRows | scraper.js:149-158 | The row loop appends one line per row after the first, in order |
| Extractor.RenderTable | scraper.js:133-161 | The table callback appends `TableBlock(table)`: nothing without `tr`, else header, separator, one line per later row and a newline |
| Extractor.AppendLists | scraper.js:116-130 | The list pass appends each list's block in document order |
| Extractor.AppendTables | scraper.js:132-162 | The table pass appends each table's block in document order |
| Extractor.GetTextContent | scraper.js:102-178 | The returned text is `Markdown(element)`: the five passes in order, or the collapsed and trimmed text when they produced nothing |
| Extractor.BodyInPassOrder | scraper.js:105-169 | The passes' text is the headings' text, then the paragraphs', lists', tables' and code blocks' |
| Extractor.EvaluatePage | scraper.js:91-100 | The content callback returns `PageContent(doc)`: the main element's Markdown, or the no-content text |
| ExtractorFacts.BlockPosition | scraper.js:105-169 | The block of the k-th element of a pass sits after every earlier pass and the blocks of earlier elements of its own pass, and before the later ones |
| ExtractorFacts.TargetsInOrder | scraper.js:105-165 | Every pass visits its elements in document order, each at most once |
| ExtractorFacts.HeadingRoundTrip | scraper.js:106-109 | An `hK` element has level K in 1..6, the tag being `h` followed by K's digit; its line reads back as K leading `#`, a space, the trimmed text and a blank line |
| ExtractorFacts.CodeFenceRoundTrip | scraper.js:165-169 | A code block renders as an opening fence line, the trimmed text, a newline and a closing fence and blank line, from which the text reads back |
| ExtractorFacts.OrderedItemNumber | scraper.js:122-123 | The line of item k of an ordered list reads back as number k+1 |
| ExtractorFacts.ListItemPlacement | scraper.js:119-127 | The k-th `li` below a list gets its line right after the lines of the earlier items, numbered k+1 for `ol`, starting `* ` for `ul` |
| ExtractorFacts.EmptyListBlock | scraper.js:119-129 | A list without `li` still appends a single newline |
| ExtractorFacts.TableBlockEmpty | scraper.js:134-137 | A table appends text exactly when it has at least one `tr` |
| ExtractorFacts.SeparatorPerHeaderCell | scraper.js:138-147 | The separator line is a bar and a space, then the three-dash column repeated once per `th` cell of the first row |
| ExtractorFacts.DataRowPlacement | scraper.js:147-160 | Row k (k ≥ 1) gets exactly one line, after the header, the separator and the lines of rows 1..k-1, before the later ones and the final newline |
| ExtractorFacts.BlockEndsWithBlankLine | scraper.js:105-169 | Every heading, paragraph, code block, list with an item and table with a row ends with a blank line |
| ExtractorFacts.PassEmptyExactly | scraper.js:105-169 | A pass produces no text exactly when it has no element to render (for tables: no table has a `tr`) |
| ExtractorFacts.FallbackExactlyWhenNothingRendered | scraper.js:171-175 | The fallback is used exactly when no pass has anything to render; otherwise the passes' text is returned |
| ExtractorFacts.FallbackShape | scraper.js:171-175 | The fallback has no whitespace at either end, no whitespace run, only plain spaces, and all visible characters of the element's text in order |
| ExtractorFacts.FallbackKeepsWordsApart | scraper.js:171-175 | When the element's text is two words separated by whitespace, the fallback is the two words with one space between them |
| ExtractorFacts.FirstSelectedSource | scraper.js:93-98 | The chain of alternatives yields the element of the first selector that finds one; every earlier selector found nothing |
| ExtractorFacts.FirstSelectedNone | scraper.js:93-98 | The chain yields nothing exactly when every selector finds nothing |
| ExtractorFacts.MainContentPriority | scraper.js:93-98 | The main element is the first element in document order matching the first of the six selectors that matches any element |
| ExtractorFacts.NoMatchSentinel | scraper.js:93-100 | When no element matches any of the six selectors, the page content is exactly the no-content text |
| Crawl.VisitPage | scraper.js:83-187 | One visit appends the section of its outcome: header, content and rule; header and error marker; or the error marker alone |
| Crawl.CrawlLinks | scraper.js:26-188 | After the loop the visited set is the set of link addresses and the document is the title line followed by one section per distinct address in order of first occurrence |
| Crawl.Scrape | scraper.js:51-188 | Collecting links then crawling them gives the document and visited set of `CollectedLinks(anchors)` |
| CrawlFacts.UrlSource | scraper.js:77-80 | Every visited address is the address of some collected link |
| CrawlFacts.UrlPresent | scraper.js:77-80 | Every collected link's address ends up in the visited set |
| CrawlFacts.NewUrlsElements | scraper.js:77-80 | An address gets a section exactly when it is in the visited set |
| CrawlFacts.NewUrlsDistinct | scraper.js:77-80 | No address gets two sections |
| CrawlFacts.SectionCount | scraper.js:77-80 | There are exactly as many sections as distinct addresses |
| CrawlFacts.NewUrlSource | scraper.js:77-80 | The k-th section belongs to a link whose address no earlier link has |
| CrawlFacts.NewUrlsPrefix | scraper.js:77-80 | The sections of the addresses met in the first i links come first and in the same order, so sections follow the order of first occurrence |
| CrawlFacts.DocumentSection | scraper.js:77-188 | The document is the title line, the sections of earlier addresses, the k-th section, then the later ones |
| CrawlFacts.SectionEndsWithRule | scraper.js:183-186 | Every section, successful or not, ends with the `---` rule |
| CrawlFacts.OnlySitePagesVisited | scraper.js:59-80 | Every visited address is non-empty, in-site and free of `#` and `?` |

## Left out

- Browser lifecycle and navigation (`launch`, `newPage`, `setViewport`, `goto`, `waitForTimeout`, `page.title()`, `close`): foreign browser I/O. The landing page's title is the `title` parameter. Visiting an address is the input function `fetch`. Since every address is visited once, `fetch` being a function loses nothing.
- The menu-expansion clicks (scraper.js:38-47): UI side effects whose failure is ignored. They affect the result only through which anchors the page shows, and the anchors are an input.
- `fs.writeFile` and all console output: file and console I/O. The document is returned instead of written.
- The async structure and `page.evaluate`: both callbacks are modelled as ordinary functions over a DOM value.
- The outer `catch` (scraper.js:196-198): a failure outside the page loop only logs and writes nothing. That is browser or file I/O, which is not modelled.
- The CSS selector engine:
  - `querySelectorAll` is modelled for groups of tag names and for `pre code` only.
  - `querySelector` is modelled for one tag or one class selector.
  - A `pre` ancestor above the main element does not count for `pre code`.
- Tag names are lower-case strings. Tags and the `ol` check are compared directly, since the browser's upper-case `tagName` and the `toLowerCase()` call agree on HTML elements.
- `innerText` is an input string per anchor, since it depends on layout and CSS visibility.
- `href` is the already-resolved absolute address; URL resolution is not modelled.
- Comment and other non-element, non-text nodes are not modelled. They add nothing to `textContent` of elements.
- Text is a sequence of Unicode code points. Whitespace is the JavaScript whitespace and line-terminator set used by both `trim()` and `\s`.
