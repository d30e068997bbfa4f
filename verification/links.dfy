/**
 * The link collector that runs inside the landing page (`collectLinks`): it
 * walks the page's anchors in document order and keeps the ones that point
 * into the documentation site, carry neither a fragment nor a query, and show
 * some visible text.
 */
module Links {
  import opened Strings

  /** The origin prefix the collector compares against; it is written out in the filter, not taken from `BASE_URL`. */
  const SitePrefix: string := "https://developer.esnekpos.com"

  /** An `<a>` element as the collector sees it: its resolved `href` and its rendered `innerText`. */
  datatype Anchor = Anchor(href: string, innerText: string)

  /** A discovered page: its address and the anchor's trimmed text. */
  datatype Link = Link(url: string, title: string)

  /** The first test of the collector: a non-empty in-site address without `#` or `?`. */
  predicate AcceptsHref(href: string) {
    href != "" && SitePrefix <= href && '#' !in href && '?' !in href
  }

  /** Both tests of the collector: the address test, then a non-empty trimmed text. */
  predicate IsCollected(a: Anchor) {
    AcceptsHref(a.href) && Trim(a.innerText) != ""
  }

  /** A non-empty text with no whitespace at either end. */
  predicate IsTrimmedText(t: string) {
    t != "" && !IsWhitespace(t[0]) && !IsWhitespace(t[|t| - 1])
  }

  function LinkOf(a: Anchor): Link {
    Link(a.href, Trim(a.innerText))
  }

  /** The links the collector returns for `anchors`, in document order. */
  function CollectedLinks(anchors: seq<Anchor>): seq<Link> {
    if anchors == [] then []
    else
      var last := anchors[|anchors| - 1];
      CollectedLinks(anchors[..|anchors| - 1]) + (if IsCollected(last) then [LinkOf(last)] else [])
  }

  /** The loop of `collectLinks`, pushing one `{url, title}` per accepted anchor. */
  method CollectLinks(anchors: seq<Anchor>) returns (links: seq<Link>)
    ensures links == CollectedLinks(anchors)
    ensures forall l :: l in links ==> AcceptsHref(l.url) && IsTrimmedText(l.title)
  {
    links := [];
    var i := 0;
    while i < |anchors|
      invariant 0 <= i <= |anchors|
      invariant links == CollectedLinks(anchors[..i])
      invariant forall l :: l in links ==> AcceptsHref(l.url) && IsTrimmedText(l.title)
    {
      var anchor := anchors[i];
      var href := anchor.href;
      if href != "" && SitePrefix <= href && '#' !in href && '?' !in href {
        var title := Trim(anchor.innerText);
        if title != "" && |title| > 0 {
          links := links + [Link(href, title)];
        }
      }
      PrefixStep(anchors, i);
      i := i + 1;
    }
    PrefixAll(anchors);
  }

  /**
   * The collector works anchor by anchor: the links of two consecutive runs of
   * anchors are the links of the first run followed by those of the second,
   * so the links keep the document order of their anchors.
   */
  lemma {:induction false} CollectedLinksAppend(a: seq<Anchor>, b: seq<Anchor>)
    ensures CollectedLinks(a + b) == CollectedLinks(a) + CollectedLinks(b)
    decreases |b|
  {
    if b == [] {
      assert a + b == a;
    } else {
      assert (a + b)[..|a + b| - 1] == a + b[..|b| - 1];
      CollectedLinksAppend(a, b[..|b| - 1]);
    }
  }

  /** Every returned link comes from an anchor, at position `i`, that passes both tests. */
  lemma {:induction false} CollectedLinkSource(anchors: seq<Anchor>, l: Link) returns (i: nat)
    requires l in CollectedLinks(anchors)
    ensures i < |anchors| && IsCollected(anchors[i]) && l == LinkOf(anchors[i])
  {
    var n := |anchors| - 1;
    if l in CollectedLinks(anchors[..n]) {
      i := CollectedLinkSource(anchors[..n], l);
      assert anchors[..n][i] == anchors[i];
    } else {
      i := n;
    }
  }

  /** Every anchor that passes both tests yields a returned link. */
  lemma {:induction false} CollectedLinkPresent(anchors: seq<Anchor>, i: nat)
    requires i < |anchors| && IsCollected(anchors[i])
    ensures LinkOf(anchors[i]) in CollectedLinks(anchors)
  {
    var n := |anchors| - 1;
    if i < n {
      assert anchors[..n][i] == anchors[i];
      CollectedLinkPresent(anchors[..n], i);
    }
  }
}
