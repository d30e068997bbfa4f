/**
 * The crawl loop of the scraper: after the document title, every collected
 * link whose address has not been seen yet is visited once and contributes one
 * framed section, either the page's extracted content or an error marker.
 * Navigation and the browser are not modelled: what visiting an address yields
 * is the input function `fetch`.
 */
module Crawl {
  import opened Strings
  import opened Dom
  import opened Links
  import opened Extractor

  /**
   * What visiting one address yields: the navigation (or the page title) fails,
   * the page loads but the content callback fails, or the page loads with the
   * given title and document.
   */
  datatype PageOutcome =
    | NavigationFailed
    | EvaluationFailed(pageTitle: string)
    | Loaded(pageTitle: string, document: Node)

  /** The text appended when processing a page fails ("HATA: Sayfa işlenirken hata oluştu"). */
  const ErrorMarker: string := "### HATA: Sayfa i\U{015F}lenirken hata olu\U{015F}tu\n\n---\n\n"

  /** The rule that closes every section. */
  const SectionEnd: string := "\n\n---\n\n"

  function TitleLine(title: string): string {
    "# " + title + "\n\n"
  }

  /** The two lines written once the page has loaded and its title is known. */
  function PageHeader(pageTitle: string, url: string): string {
    "## " + pageTitle + "\n\n" + ("URL: " + url + "\n\n")
  }

  /** The section one visited address contributes. */
  function Section(url: string, outcome: PageOutcome): string {
    match outcome
    case NavigationFailed => ErrorMarker
    case EvaluationFailed(pageTitle) => PageHeader(pageTitle, url) + ErrorMarker
    case Loaded(pageTitle, document) => PageHeader(pageTitle, url) + (PageContent(document) + SectionEnd)
  }

  function SectionOf(fetch: string -> PageOutcome): string -> string {
    url => Section(url, fetch(url))
  }

  /** The addresses of `links`. */
  function UrlSet(links: seq<Link>): set<string> {
    if links == [] then {} else UrlSet(links[..|links| - 1]) + {links[|links| - 1].url}
  }

  /** The addresses of `links` in the order of their first occurrence, each once. */
  function NewUrls(links: seq<Link>): seq<string> {
    if links == [] then []
    else
      var init := links[..|links| - 1];
      var url := links[|links| - 1].url;
      NewUrls(init) + (if url in UrlSet(init) then [] else [url])
  }

  /** The whole Markdown document for the given title and collected links. */
  function Document(title: string, links: seq<Link>, fetch: string -> PageOutcome): string {
    TitleLine(title) + ConcatMap(NewUrls(links), SectionOf(fetch))
  }

  /** A link whose address was already visited adds nothing. */
  lemma SkipStep(links: seq<Link>, i: nat)
    requires i < |links| && links[i].url in UrlSet(links[..i])
    ensures UrlSet(links[..i + 1]) == UrlSet(links[..i])
    ensures NewUrls(links[..i + 1]) == NewUrls(links[..i])
  {
    PrefixStep(links, i);
  }

  /** A link with a new address adds its address and its section. */
  lemma VisitStep(head: string, links: seq<Link>, i: nat, g: string -> string)
    requires i < |links| && links[i].url !in UrlSet(links[..i])
    ensures UrlSet(links[..i + 1]) == UrlSet(links[..i]) + {links[i].url}
    ensures head + ConcatMap(NewUrls(links[..i + 1]), g) == head + ConcatMap(NewUrls(links[..i]), g) + g(links[i].url)
  {
    PrefixStep(links, i);
    AppendPiece(head, NewUrls(links[..i]), links[i].url, g);
  }

  /** The loop over the collected links, with its `visitedUrls` set. */
  method CrawlLinks(title: string, allLinks: seq<Link>, fetch: string -> PageOutcome)
    returns (markdownContent: string, visitedUrls: set<string>)
    ensures visitedUrls == UrlSet(allLinks)
    ensures markdownContent == Document(title, allLinks, fetch)
  {
    markdownContent := "";
    markdownContent := markdownContent + TitleLine(title);
    EmptyPrefix(TitleLine(title));
    visitedUrls := {};
    ghost var head := markdownContent;
    var i := 0;
    while i < |allLinks|
      invariant 0 <= i <= |allLinks|
      invariant visitedUrls == UrlSet(allLinks[..i])
      invariant markdownContent == head + ConcatMap(NewUrls(allLinks[..i]), SectionOf(fetch))
    {
      var link := allLinks[i];
      if link.url in visitedUrls {
        SkipStep(allLinks, i);
      } else {
        VisitStep(head, allLinks, i, SectionOf(fetch));
        visitedUrls := visitedUrls + {link.url};
        var section := VisitPage(link.url, fetch);
        markdownContent := markdownContent + section;
      }
      i := i + 1;
    }
    PrefixAll(allLinks);
  }

  /** The body of the `try`/`catch` for one new address: the text it appends. */
  method VisitPage(url: string, fetch: string -> PageOutcome) returns (appended: string)
    ensures appended == Section(url, fetch(url))
  {
    appended := "";
    match fetch(url)
    case NavigationFailed =>
      appended := appended + ErrorMarker;
      EmptyPrefix(ErrorMarker);
    case EvaluationFailed(pageTitle) =>
      appended := appended + ("## " + pageTitle + "\n\n");
      EmptyPrefix("## " + pageTitle + "\n\n");
      appended := appended + ("URL: " + url + "\n\n");
      appended := appended + ErrorMarker;
    case Loaded(pageTitle, document) =>
      appended := appended + ("## " + pageTitle + "\n\n");
      EmptyPrefix("## " + pageTitle + "\n\n");
      appended := appended + ("URL: " + url + "\n\n");
      var content := EvaluatePage(document);
      appended := appended + (content + SectionEnd);
  }

  /** The whole run: collect the links of the landing page, then crawl them. */
  method Scrape(title: string, anchors: seq<Anchor>, fetch: string -> PageOutcome)
    returns (markdownContent: string, visitedUrls: set<string>)
    ensures markdownContent == Document(title, CollectedLinks(anchors), fetch)
    ensures visitedUrls == UrlSet(CollectedLinks(anchors))
  {
    var allLinks := CollectLinks(anchors);
    markdownContent, visitedUrls := CrawlLinks(title, allLinks, fetch);
  }
}
