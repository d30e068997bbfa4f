/**
 * The part of the browser's DOM that the scraper reads: element trees with
 * tag names, class lists and text, `textContent`, `querySelectorAll` for tag
 * selectors and for the descendant selector `pre code`, and
 * `document.querySelector` for one tag or class selector.
 */
module Dom {
  import opened Wrappers
  import opened Strings

  /** An element (lower-case tag name, class names, children) or a text node. */
  datatype Node =
    | Element(tag: string, classes: set<string>, children: seq<Node>)
    | Text(data: string)

  /** `textContent`: the text of every text node below `n`, in document order. */
  function TextContent(n: Node): string
    decreases n
  {
    match n
    case Text(data) => data
    case Element(_, _, children) => ChildrenText(children)
  }

  function ChildrenText(children: seq<Node>): string
    decreases children
  {
    if children == [] then ""
    else ChildrenText(children[..|children| - 1]) + TextContent(children[|children| - 1])
  }

  /** `n` followed by all its descendants, in document (pre-)order. */
  function Subtree(n: Node): (r: seq<Node>)
    ensures |r| >= 1 && r[0] == n
    decreases n
  {
    match n
    case Text(_) => [n]
    case Element(_, _, children) => [n] + Forest(children)
  }

  /** The subtrees of `children`, one after the other. */
  function Forest(children: seq<Node>): seq<Node>
    decreases children
  {
    if children == [] then []
    else Forest(children[..|children| - 1]) + Subtree(children[|children| - 1])
  }

  /** The descendants of `n` in document order, `n` itself excluded. */
  function Descendants(n: Node): seq<Node> {
    match n
    case Text(_) => []
    case Element(_, _, children) => Forest(children)
  }

  predicate HasTag(n: Node, tags: set<string>) {
    n.Element? && n.tag in tags
  }

  /** The elements of `nodes` whose tag is one of `tags`, keeping their order. */
  function WithTag(nodes: seq<Node>, tags: set<string>): seq<Node> {
    if nodes == [] then []
    else
      var last := nodes[|nodes| - 1];
      WithTag(nodes[..|nodes| - 1], tags) + (if HasTag(last, tags) then [last] else [])
  }

  /** `n.querySelectorAll('t1, t2, ...')` for a group of tag selectors. */
  function QueryAll(n: Node, tags: set<string>): seq<Node> {
    WithTag(Descendants(n), tags)
  }

  /** Filtering by tag keeps exactly the elements whose tag is listed. */
  lemma {:induction false} WithTagMembers(nodes: seq<Node>, tags: set<string>, x: Node)
    ensures x in WithTag(nodes, tags) <==> x in nodes && HasTag(x, tags)
  {
    if nodes != [] {
      var init := nodes[..|nodes| - 1];
      WithTagMembers(init, tags, x);
      assert nodes == init + [nodes[|nodes| - 1]];
    }
  }

  /** `querySelectorAll` on tag names returns exactly the descendants with one of those tags. */
  lemma QueryAllMembers(n: Node, tags: set<string>, x: Node)
    ensures x in QueryAll(n, tags) <==> x in Descendants(n) && HasTag(x, tags)
  {
    WithTagMembers(Descendants(n), tags, x);
  }

  /** Filtering two runs of nodes is filtering each run, in the same order. */
  lemma {:induction false} WithTagAppend(p: seq<Node>, q: seq<Node>, tags: set<string>)
    ensures WithTag(p + q, tags) == WithTag(p, tags) + WithTag(q, tags)
    decreases |q|
  {
    if q == [] {
      assert p + q == p;
    } else {
      assert (p + q)[..|p + q| - 1] == p + q[..|q| - 1];
      WithTagAppend(p, q[..|q| - 1], tags);
    }
  }

  /** Filtering by tag keeps the nodes' order. */
  lemma {:induction false} WithTagInOrder(nodes: seq<Node>, tags: set<string>)
    ensures Subseq(WithTag(nodes, tags), nodes)
  {
    if nodes == [] {
      SubseqNone(nodes);
    } else {
      var init := nodes[..|nodes| - 1];
      var last := nodes[|nodes| - 1];
      WithTagInOrder(init, tags);
      SubseqSnoc(WithTag(init, tags), init, last, HasTag(last, tags));
      assert init + [last] == nodes;
    }
  }

  /** `querySelectorAll` over tag names returns the descendants in document order. */
  lemma QueryAllInOrder(n: Node, tags: set<string>)
    ensures Subseq(QueryAll(n, tags), Descendants(n))
  {
    WithTagInOrder(Descendants(n), tags);
  }

  /**
   * `n.querySelectorAll('pre code')`: the `code` elements below `n` that have
   * a `pre` ancestor, `n` itself counting as an ancestor.
   */
  function PreCodeBlocks(n: Node): seq<Node> {
    match n
    case Text(_) => []
    case Element(tag, _, children) => CodesInForest(children, tag == "pre")
  }

  function CodesInForest(children: seq<Node>, inPre: bool): seq<Node>
    decreases children
  {
    if children == [] then []
    else CodesInForest(children[..|children| - 1], inPre) + CodesInSubtree(children[|children| - 1], inPre)
  }

  function CodesInSubtree(n: Node, inPre: bool): seq<Node>
    decreases n
  {
    match n
    case Text(_) => []
    case Element(tag, _, children) =>
      (if inPre && tag == "code" then [n] else []) + CodesInForest(children, inPre || tag == "pre")
  }

  /** A simple CSS selector: a tag name (`main`) or a class (`.page-inner`). */
  datatype Selector = TagSelector(name: string) | ClassSelector(name: string)

  predicate Matches(n: Node, sel: Selector) {
    n.Element? &&
    match sel
    case TagSelector(name) => n.tag == name
    case ClassSelector(name) => name in n.classes
  }

  /** The position of the first node of `nodes` that matches `sel`, if any. */
  function FirstMatch(nodes: seq<Node>, sel: Selector): (r: Option<nat>)
    ensures r.Some? ==> r.value < |nodes| && Matches(nodes[r.value], sel)
    ensures r.Some? ==> forall j :: 0 <= j < r.value ==> !Matches(nodes[j], sel)
    ensures r.None? ==> forall j :: 0 <= j < |nodes| ==> !Matches(nodes[j], sel)
  {
    if nodes == [] then None
    else if Matches(nodes[0], sel) then Some(0)
    else match FirstMatch(nodes[1..], sel)
      case None => None
      case Some(k) => Some(k + 1)
  }

  /** `document.querySelector(sel)` on the document whose root element is `doc`. */
  function QuerySelector(doc: Node, sel: Selector): Option<Node> {
    var nodes := Subtree(doc);
    match FirstMatch(nodes, sel)
    case None => None
    case Some(k) => Some(nodes[k])
  }

  /** The element `querySelector` returns is the first match in document order. */
  lemma QuerySelectorFirst(doc: Node, sel: Selector) returns (k: nat)
    requires QuerySelector(doc, sel).Some?
    ensures k < |Subtree(doc)| && QuerySelector(doc, sel).value == Subtree(doc)[k]
    ensures Matches(Subtree(doc)[k], sel)
    ensures forall j :: 0 <= j < k ==> !Matches(Subtree(doc)[j], sel)
  {
    k := FirstMatch(Subtree(doc), sel).value;
  }

  /** `querySelector` finds nothing exactly when nothing in the document matches. */
  lemma QuerySelectorNone(doc: Node, sel: Selector)
    ensures QuerySelector(doc, sel).None? <==> forall x :: x in Subtree(doc) ==> !Matches(x, sel)
  {
    var nodes := Subtree(doc);
    if FirstMatch(nodes, sel).Some? {
      assert nodes[FirstMatch(nodes, sel).value] in nodes;
    }
  }

  /** The text a node holds itself: the data of a text node, nothing for an element. */
  function OwnText(n: Node): string {
    if n.Text? then n.data else ""
  }

  /** `textContent` is the data of the text nodes of the subtree, in document order. */
  lemma {:induction false} TextContentInOrder(n: Node)
    ensures TextContent(n) == ConcatMap(Subtree(n), OwnText)
    decreases n
  {
    match n
    case Text(_) =>
      ConcatMapSnoc([], n, OwnText);
      assert [] + [n] == [n];
    case Element(_, _, children) =>
      ChildrenTextInOrder(children);
      ConcatMapAppend([n], Forest(children), OwnText);
      ConcatMapSnoc([], n, OwnText);
      assert [] + [n] == [n];
  }

  lemma {:induction false} ChildrenTextInOrder(children: seq<Node>)
    ensures ChildrenText(children) == ConcatMap(Forest(children), OwnText)
    decreases children
  {
    if children != [] {
      var init := children[..|children| - 1];
      var last := children[|children| - 1];
      ChildrenTextInOrder(init);
      TextContentInOrder(last);
      ConcatMapAppend(Forest(init), Subtree(last), OwnText);
    }
  }

  /** Some `pre` element among `nodes` has `x` below it. */
  predicate UnderPre(nodes: seq<Node>, x: Node) {
    exists a :: a in nodes && HasTag(a, {"pre"}) && x in Descendants(a)
  }

  /** The descendants of `a` lie in its subtree; stated once so that the proofs that use it stay cheap. */
  lemma DescendantsInSubtree(a: Node, x: Node)
    requires x in Descendants(a)
    ensures x in Subtree(a)
  {
  }

  /** A subtree of a node of the forest lies inside the forest. */
  lemma {:induction false} ForestClosed(children: seq<Node>, a: Node, x: Node)
    requires a in Forest(children) && x in Subtree(a)
    ensures x in Forest(children)
    decreases children
  {
    var init := children[..|children| - 1];
    var last := children[|children| - 1];
    if a in Forest(init) {
      ForestClosed(init, a, x);
    } else {
      SubtreeClosed(last, a, x);
    }
  }

  lemma {:induction false} SubtreeClosed(n: Node, a: Node, x: Node)
    requires a in Subtree(n) && x in Subtree(a)
    ensures x in Subtree(n)
    decreases n
  {
    if a != n {
      assert Subtree(n)[0] == n;
      ForestClosed(n.children, a, x);
    }
  }

  /** A node below a `pre` of the forest is itself in the forest. */
  lemma UnderPreInForest(children: seq<Node>, x: Node)
    requires UnderPre(Forest(children), x)
    ensures x in Forest(children)
  {
    var a :| a in Forest(children) && HasTag(a, {"pre"}) && x in Descendants(a);
    DescendantsInSubtree(a, x);
    ForestClosed(children, a, x);
  }

  lemma UnderPreInSubtree(n: Node, x: Node)
    requires UnderPre(Subtree(n), x)
    ensures x in Subtree(n)
  {
    var a :| a in Subtree(n) && HasTag(a, {"pre"}) && x in Descendants(a);
    DescendantsInSubtree(a, x);
    SubtreeClosed(n, a, x);
  }

  /** A `pre` among two runs of nodes is a `pre` of the first run or of the second. */
  lemma UnderPreAppend(p: seq<Node>, q: seq<Node>, x: Node)
    ensures UnderPre(p + q, x) <==> UnderPre(p, x) || UnderPre(q, x)
  {
    if UnderPre(p + q, x) {
      var a :| a in p + q && HasTag(a, {"pre"}) && x in Descendants(a);
      assert a in p || a in q;
    }
    if UnderPre(p, x) {
      var a :| a in p && HasTag(a, {"pre"}) && x in Descendants(a);
      assert a in p + q;
    }
    if UnderPre(q, x) {
      var a :| a in q && HasTag(a, {"pre"}) && x in Descendants(a);
      assert a in p + q;
    }
  }

  /** Below an element, a `pre` ancestor is the element itself or a `pre` of its children's forest. */
  lemma UnderPreOfElement(n: Node, x: Node)
    requires n.Element?
    ensures UnderPre(Subtree(n), x) <==> (n.tag == "pre" && x in Forest(n.children)) || UnderPre(Forest(n.children), x)
  {
    UnderPreAppend([n], Forest(n.children), x);
    if UnderPre([n], x) {
      var a :| a in [n] && HasTag(a, {"pre"}) && x in Descendants(a);
      assert a == n;
    }
    if n.tag == "pre" && x in Forest(n.children) {
      assert n in [n];
    }
  }

  /**
   * The `code` elements the walk over a forest collects: exactly those with a
   * `pre` above them, where `inPre` says the forest itself lies inside a `pre`.
   */
  lemma {:induction false} CodesInForestExactly(children: seq<Node>, inPre: bool, x: Node)
    ensures x in CodesInForest(children, inPre)
            <==> x in Forest(children) && HasTag(x, {"code"}) && (inPre || UnderPre(Forest(children), x))
    decreases children
  {
    if children != [] {
      var init := children[..|children| - 1];
      var last := children[|children| - 1];
      CodesInForestExactly(init, inPre, x);
      CodesInSubtreeExactly(last, inPre, x);
      UnderPreAppend(Forest(init), Subtree(last), x);
      if UnderPre(Forest(init), x) {
        UnderPreInForest(init, x);
      }
      if UnderPre(Subtree(last), x) {
        UnderPreInSubtree(last, x);
      }
    }
  }

  lemma {:induction false} CodesInSubtreeExactly(n: Node, inPre: bool, x: Node)
    ensures x in CodesInSubtree(n, inPre)
            <==> x in Subtree(n) && HasTag(x, {"code"}) && (inPre || UnderPre(Subtree(n), x))
    decreases n
  {
    if n.Element? {
      var children := n.children;
      CodesInForestExactly(children, inPre || n.tag == "pre", x);
      UnderPreOfElement(n, x);
      if UnderPre(Forest(children), x) {
        UnderPreInForest(children, x);
      }
      assert Subtree(n) == [n] + Forest(children);
    }
  }

  lemma {:induction false} CodesInForestInOrder(children: seq<Node>, inPre: bool)
    ensures Subseq(CodesInForest(children, inPre), Forest(children))
    decreases children
  {
    if children == [] {
      SubseqNone(Forest(children));
    } else {
      var init := children[..|children| - 1];
      var last := children[|children| - 1];
      CodesInForestInOrder(init, inPre);
      CodesInSubtreeInOrder(last, inPre);
      SubseqAppend(CodesInForest(init, inPre), Forest(init), CodesInSubtree(last, inPre), Subtree(last));
    }
  }

  lemma {:induction false} CodesInSubtreeInOrder(n: Node, inPre: bool)
    ensures Subseq(CodesInSubtree(n, inPre), Subtree(n))
    decreases n
  {
    match n
    case Text(_) =>
      SubseqNone([n]);
    case Element(tag, _, children) =>
      var own: seq<Node> := if inPre && tag == "code" then [n] else [];
      if own == [] {
        SubseqNone([n]);
      } else {
        SubseqSelf(n);
      }
      CodesInForestInOrder(children, inPre || tag == "pre");
      SubseqAppend(own, [n], CodesInForest(children, inPre || tag == "pre"), Forest(children));
  }

  /**
   * Inside a `pre`, the walk collects every `code` element of the forest, each
   * as often as it occurs, in document order: a plain tag filter.
   */
  lemma {:induction false} CodesInPreForest(children: seq<Node>)
    ensures CodesInForest(children, true) == WithTag(Forest(children), {"code"})
    decreases children
  {
    if children != [] {
      var init := children[..|children| - 1];
      var last := children[|children| - 1];
      CodesInPreForest(init);
      CodesInPreSubtree(last);
      WithTagAppend(Forest(init), Subtree(last), {"code"});
    }
  }

  lemma {:induction false} CodesInPreSubtree(n: Node)
    ensures CodesInSubtree(n, true) == WithTag(Subtree(n), {"code"})
    decreases n
  {
    match n
    case Text(_) =>
      assert WithTag([n], {"code"}) == WithTag([], {"code"}) + [];
    case Element(tag, _, children) =>
      CodesInPreForest(children);
      WithTagAppend([n], Forest(children), {"code"});
      assert WithTag([n], {"code"}) == WithTag([], {"code"}) + (if HasTag(n, {"code"}) then [n] else []);
  }

  /** Below a `pre`, `querySelectorAll('pre code')` is every `code` descendant, duplicates included. */
  lemma PreCodeBlocksOfPre(n: Node)
    requires HasTag(n, {"pre"})
    ensures PreCodeBlocks(n) == QueryAll(n, {"code"})
  {
    CodesInPreForest(n.children);
  }

  /** `querySelectorAll('pre code')` returns its blocks in document order. */
  lemma PreCodeBlocksInOrder(n: Node)
    ensures Subseq(PreCodeBlocks(n), Descendants(n))
  {
    match n
    case Text(_) =>
      SubseqNone(Descendants(n));
    case Element(tag, _, children) =>
      CodesInForestInOrder(children, tag == "pre");
  }

  /**
   * `n.querySelectorAll('pre code')` returns exactly the `code` elements below
   * `n` that have a `pre` ancestor, `n` itself included, inside `n`.
   */
  lemma PreCodeBlocksSpec(n: Node, x: Node)
    ensures x in PreCodeBlocks(n) <==> x in Descendants(n) && HasTag(x, {"code"}) && UnderPre(Subtree(n), x)
  {
    if n.Element? {
      CodesInForestExactly(n.children, n.tag == "pre", x);
      UnderPreOfElement(n, x);
      if UnderPre(Forest(n.children), x) {
        UnderPreInForest(n.children, x);
      }
    }
  }
}
