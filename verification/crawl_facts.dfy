/**
 * What the crawl loop promises: every address gets at most one section, the
 * visited set ends up holding exactly the collected addresses, sections appear
 * in the order of the addresses' first occurrence, each section is closed by
 * the `---` rule, and only in-site addresses are ever visited.
 */
module CrawlFacts {
  import opened Strings
  import opened Links
  import opened Crawl

  /** Every address in the visited set belongs to some link, at position `i`. */
  lemma {:induction false} UrlSource(links: seq<Link>, url: string) returns (i: nat)
    requires url in UrlSet(links)
    ensures i < |links| && links[i].url == url
  {
    var n := |links| - 1;
    if url in UrlSet(links[..n]) {
      i := UrlSource(links[..n], url);
      assert links[..n][i] == links[i];
    } else {
      i := n;
    }
  }

  /** The address of every link is in the visited set. */
  lemma {:induction false} UrlPresent(links: seq<Link>, i: nat)
    requires i < |links|
    ensures links[i].url in UrlSet(links)
  {
    var n := |links| - 1;
    if i < n {
      assert links[..n][i] == links[i];
      UrlPresent(links[..n], i);
    }
  }

  /** An address gets a section exactly when it is the address of some link. */
  lemma {:induction false} NewUrlsElements(links: seq<Link>, url: string)
    ensures url in NewUrls(links) <==> url in UrlSet(links)
  {
    if links != [] {
      NewUrlsElements(links[..|links| - 1], url);
    }
  }

  /** No address gets two sections. */
  lemma {:induction false} NewUrlsDistinct(links: seq<Link>)
    ensures var r := NewUrls(links);
            forall i, j :: 0 <= i < j < |r| ==> r[i] != r[j]
  {
    if links != [] {
      var init := links[..|links| - 1];
      var url := links[|links| - 1].url;
      NewUrlsDistinct(init);
      if url !in UrlSet(init) {
        NewUrlsElements(init, url);
      }
    }
  }

  /** There are exactly as many sections as distinct addresses among the links. */
  lemma {:induction false} SectionCount(links: seq<Link>)
    ensures |NewUrls(links)| == |UrlSet(links)|
  {
    if links != [] {
      var init := links[..|links| - 1];
      var url := links[|links| - 1].url;
      SectionCount(init);
      assert UrlSet(links) == UrlSet(init) + {url};
      if url in UrlSet(init) {
        assert UrlSet(links) == UrlSet(init);
      } else {
        assert |UrlSet(init) + {url}| == |UrlSet(init)| + 1;
      }
    }
  }

  /**
   * Section `k` belongs to a link whose address no earlier link has: the
   * section of an address comes from its first occurrence.
   */
  lemma {:induction false} NewUrlSource(links: seq<Link>, k: nat) returns (i: nat)
    requires k < |NewUrls(links)|
    ensures i < |links| && links[i].url == NewUrls(links)[k] && NewUrls(links)[k] !in UrlSet(links[..i])
  {
    var n := |links| - 1;
    var init := links[..n];
    if k < |NewUrls(init)| {
      i := NewUrlSource(init, k);
      assert init[i] == links[i];
      assert init[..i] == links[..i];
    } else {
      i := n;
    }
  }

  /**
   * The sections of the addresses met in the first `i` links come first, in
   * the same order: sections follow the order of first occurrence, and a later
   * link never moves an earlier section.
   */
  lemma {:induction false} NewUrlsPrefix(links: seq<Link>, i: nat)
    requires i <= |links|
    ensures NewUrls(links[..i]) <= NewUrls(links)
    decreases |links| - i
  {
    if i < |links| {
      PrefixStep(links, i);
      NewUrlsPrefix(links, i + 1);
    } else {
      PrefixAll(links);
    }
  }

  /** Section `k` sits after the title line and the sections before it and before the later ones. */
  lemma DocumentSection(title: string, links: seq<Link>, fetch: string -> PageOutcome, k: nat)
    requires k < |NewUrls(links)|
    ensures var r := NewUrls(links);
            Document(title, links, fetch)
            == TitleLine(title)
               + (ConcatMap(r[..k], SectionOf(fetch)) + Section(r[k], fetch(r[k])) + ConcatMap(r[k + 1..], SectionOf(fetch)))
  {
    ConcatMapAt(NewUrls(links), SectionOf(fetch), k);
  }

  /** Every section, whatever happened on the page, ends with the `---` rule. */
  lemma SectionEndsWithRule(url: string, outcome: PageOutcome)
    ensures var s := Section(url, outcome);
            |s| >= |SectionEnd| && s[|s| - |SectionEnd|..] == SectionEnd
  {
    var s := Section(url, outcome);
    match outcome
    case NavigationFailed =>
      assert s[|s| - |SectionEnd|..] == ErrorMarker[|ErrorMarker| - 7..];
    case EvaluationFailed(t) =>
      assert s[|s| - |SectionEnd|..] == ErrorMarker[|ErrorMarker| - 7..];
    case Loaded(t, d) =>
  }

  /** Only in-site addresses without fragment or query are ever visited. */
  lemma OnlySitePagesVisited(anchors: seq<Anchor>, url: string)
    requires url in NewUrls(CollectedLinks(anchors))
    ensures AcceptsHref(url)
  {
    var links := CollectedLinks(anchors);
    NewUrlsElements(links, url);
    var i := UrlSource(links, url);
    var j := CollectedLinkSource(anchors, links[i]);
  }
}
