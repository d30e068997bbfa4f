/** Option type shared by the other modules. */
module Wrappers {
  datatype Option<T> = None | Some(value: T)
}

/**
 * The string primitives the scraper relies on: the JavaScript whitespace class
 * (shared by `String.prototype.trim` and the regular-expression class `\s`),
 * `trim`, the `replace(/\s+/g, ' ')` collapse, string concatenation of a
 * sequence of pieces, `String.prototype.repeat`, and the decimal rendering of
 * a number inside a template literal.
 */
module Strings {

  /** JavaScript's WhiteSpace and LineTerminator code points. */
  predicate IsWhitespace(c: char) {
    || c == ' ' || c == '\t' || c == '\n' || c == '\r'
    || c == '\U{000B}' || c == '\U{000C}' || c == '\U{00A0}' || c == '\U{1680}'
    || ('\U{2000}' <= c <= '\U{200A}')
    || c == '\U{2028}' || c == '\U{2029}' || c == '\U{202F}' || c == '\U{205F}'
    || c == '\U{3000}' || c == '\U{FEFF}'
  }

  predicate AllWhitespace(s: string) {
    forall k :: 0 <= k < |s| ==> IsWhitespace(s[k])
  }

  /** Every whitespace character is a plain space. */
  predicate OnlySpaces(s: string) {
    forall k :: 0 <= k < |s| && IsWhitespace(s[k]) ==> s[k] == ' '
  }

  /** No two whitespace characters stand next to each other. */
  predicate NoWhitespaceRun(s: string) {
    forall k :: 0 <= k < |s| - 1 ==> !(IsWhitespace(s[k]) && IsWhitespace(s[k + 1]))
  }

  /** Drops the leading whitespace: the result is the suffix of `s` that starts at its first visible character. */
  function TrimStart(s: string): (r: string)
    ensures |r| <= |s| && r == s[|s| - |r|..]
    ensures AllWhitespace(s[..|s| - |r|])
    ensures r == [] || !IsWhitespace(r[0])
  {
    if s != [] && IsWhitespace(s[0]) then TrimStart(s[1..]) else s
  }

  /** Drops the trailing whitespace: the result is the prefix of `s` that ends at its last visible character. */
  function TrimEnd(s: string): (r: string)
    ensures |r| <= |s| && r == s[..|r|]
    ensures AllWhitespace(s[|r|..])
    ensures r == [] || !IsWhitespace(r[|r| - 1])
  {
    if s != [] && IsWhitespace(s[|s| - 1]) then TrimEnd(s[..|s| - 1]) else s
  }

  /** `String.prototype.trim`: `TrimEnd(TrimStart(s))`, written as one recursion. */
  function Trim(s: string): (r: string)
    ensures |r| <= |s|
    ensures r == [] || (!IsWhitespace(r[0]) && !IsWhitespace(r[|r| - 1]))
  {
    if s != [] && IsWhitespace(s[0]) then Trim(s[1..]) else TrimEnd(s)
  }

  /** Trimming leaves nothing exactly when the text is all whitespace. */
  lemma {:induction false} TrimEmpty(s: string)
    ensures Trim(s) == [] <==> AllWhitespace(s)
  {
    if s != [] && IsWhitespace(s[0]) {
      TrimEmpty(s[1..]);
    } else if s != [] {
      assert s == TrimEnd(s)[..0] + s[..1] + s[1..];
    }
  }

  lemma {:induction false} TrimIsTrimEndOfTrimStart(s: string)
    ensures Trim(s) == TrimEnd(TrimStart(s))
  {
    if s != [] && IsWhitespace(s[0]) {
      TrimIsTrimEndOfTrimStart(s[1..]);
    }
  }

  /** `s.replace(/\s+/g, ' ')`: every maximal run of whitespace becomes one space. */
  function Collapse(s: string): (r: string)
    ensures (r == []) <==> (s == [])
    ensures s != [] ==> (IsWhitespace(r[0]) <==> IsWhitespace(s[0]))
    ensures OnlySpaces(r)
    ensures NoWhitespaceRun(r)
    decreases |s|
  {
    if s == [] then []
    else if IsWhitespace(s[0]) then [' '] + Collapse(TrimStart(s))
    else [s[0]] + Collapse(s[1..])
  }

  /** The visible characters of `s`, in order. */
  function Visible(s: string): string {
    if s == [] then []
    else (if IsWhitespace(s[0]) then [] else [s[0]]) + Visible(s[1..])
  }

  lemma {:induction false} VisibleAppend(a: string, b: string)
    ensures Visible(a + b) == Visible(a) + Visible(b)
  {
    if a != [] {
      assert (a + b)[1..] == a[1..] + b;
      VisibleAppend(a[1..], b);
    } else {
      assert a + b == b;
    }
  }

  lemma {:induction false} VisibleOfWhitespace(s: string)
    requires AllWhitespace(s)
    ensures Visible(s) == []
  {
    if s != [] {
      VisibleOfWhitespace(s[1..]);
    }
  }

  /** Collapsing whitespace keeps every visible character, in order. */
  lemma {:induction false} CollapseKeepsVisible(s: string)
    ensures Visible(Collapse(s)) == Visible(s)
    decreases |s|
  {
    if s == [] {
    } else if IsWhitespace(s[0]) {
      var t := TrimStart(s);
      assert t == TrimStart(s[1..]);
      CollapseKeepsVisible(t);
      VisibleAppend([' '], Collapse(t));
      TrimStartKeepsVisible(s);
    } else {
      CollapseKeepsVisible(s[1..]);
      VisibleAppend([s[0]], Collapse(s[1..]));
    }
  }

  lemma {:induction false} TrimStartKeepsVisible(s: string)
    ensures Visible(TrimStart(s)) == Visible(s)
  {
    var t := TrimStart(s);
    var w := s[..|s| - |t|];
    assert s == w + t;
    VisibleAppend(w, t);
    VisibleOfWhitespace(w);
  }

  lemma {:induction false} TrimEndKeepsVisible(s: string)
    ensures Visible(TrimEnd(s)) == Visible(s)
  {
    var r := TrimEnd(s);
    var w := s[|r|..];
    assert s == r + w;
    VisibleAppend(r, w);
    VisibleOfWhitespace(w);
  }

  /** Trimming removes only whitespace. */
  lemma {:induction false} TrimKeepsVisible(s: string)
    ensures Visible(Trim(s)) == Visible(s)
  {
    TrimIsTrimEndOfTrimStart(s);
    TrimStartKeepsVisible(s);
    TrimEndKeepsVisible(TrimStart(s));
  }

  lemma {:induction false} NoRunSlice(s: string, i: nat, j: nat)
    requires i <= j <= |s| && NoWhitespaceRun(s)
    ensures NoWhitespaceRun(s[i..j])
  {
    var r := s[i..j];
    forall k | 0 <= k < |r| - 1
      ensures !(IsWhitespace(r[k]) && IsWhitespace(r[k + 1]))
    {
      assert r[k] == s[i + k] && r[k + 1] == s[i + k + 1];
    }
  }

  /** `Trim(s)` is the slice of `s` that starts at position `i`. */
  lemma {:induction false} TrimIsSlice(s: string) returns (i: nat)
    ensures i + |Trim(s)| <= |s| && Trim(s) == s[i..i + |Trim(s)|]
  {
    if s != [] && IsWhitespace(s[0]) {
      var j := TrimIsSlice(s[1..]);
      i := j + 1;
      SliceOfTail(s, j, j + |Trim(s)|);
    } else {
      i := 0;
    }
  }

  lemma SpacesSlice(s: string, i: nat, j: nat)
    requires i <= j <= |s| && OnlySpaces(s)
    ensures OnlySpaces(s[i..j])
  {
    var r := s[i..j];
    forall k | 0 <= k < |r| && IsWhitespace(r[k])
      ensures r[k] == ' '
    {
      assert r[k] == s[i + k];
    }
  }

  /** Trimming cannot bring in whitespace other than spaces. */
  lemma TrimKeepsOnlySpaces(s: string)
    requires OnlySpaces(s)
    ensures OnlySpaces(Trim(s))
  {
    var i := TrimIsSlice(s);
    SpacesSlice(s, i, i + |Trim(s)|);
  }

  /** A sequence identity stated once, so that the proofs that use it stay cheap. */
  lemma SliceOfTail<T>(xs: seq<T>, a: nat, b: nat)
    requires 1 <= |xs| && a <= b <= |xs| - 1
    ensures xs[1..][a..b] == xs[a + 1..b + 1]
  {
  }

  /** Trimming cannot create a run of whitespace. */
  lemma TrimKeepsNoRun(s: string)
    requires NoWhitespaceRun(s)
    ensures NoWhitespaceRun(Trim(s))
  {
    var i := TrimIsSlice(s);
    NoRunSlice(s, i, i + |Trim(s)|);
  }

  /**
   * `s.replace(/\s+/g, ' ').trim()` has no whitespace at either end, no two
   * whitespace characters in a row, no whitespace other than plain spaces, and
   * every visible character of `s`, in order.
   */
  lemma CollapseTrimShape(s: string)
    ensures var r := Trim(Collapse(s));
            && (r == [] || (!IsWhitespace(r[0]) && !IsWhitespace(r[|r| - 1])))
            && NoWhitespaceRun(r)
            && OnlySpaces(r)
            && Visible(r) == Visible(s)
  {
    var c := Collapse(s);
    TrimKeepsNoRun(c);
    TrimKeepsOnlySpaces(c);
    TrimKeepsVisible(c);
    CollapseKeepsVisible(s);
  }

  /** A text without whitespace is left as it is by the collapse. */
  lemma {:induction false} CollapseKeepsWord(s: string)
    requires forall k :: 0 <= k < |s| ==> !IsWhitespace(s[k])
    ensures Collapse(s) == s
  {
    if s != [] {
      CollapseKeepsWord(s[1..]);
    }
  }

  /** Leading whitespace in front of a text that starts visibly is dropped exactly. */
  lemma {:induction false} TrimStartOfRun(w: string, b: string)
    requires AllWhitespace(w)
    requires b == [] || !IsWhitespace(b[0])
    ensures TrimStart(w + b) == b
  {
    if w == [] {
      assert w + b == b;
    } else {
      assert (w + b)[1..] == w[1..] + b;
      TrimStartOfRun(w[1..], b);
    }
  }

  /** Trimming the front of a text that ends visibly leaves what follows it alone. */
  lemma {:induction false} TrimStartAppend(a: string, r: string)
    requires a != [] && !IsWhitespace(a[|a| - 1])
    ensures TrimStart(a + r) == TrimStart(a) + r
  {
    if IsWhitespace(a[0]) {
      assert (a + r)[1..] == a[1..] + r;
      TrimStartAppend(a[1..], r);
    }
  }

  lemma CollapseRunAtStart(w: string, b: string)
    requires w != [] && AllWhitespace(w)
    requires b == [] || !IsWhitespace(b[0])
    ensures Collapse(w + b) == [' '] + Collapse(b)
  {
    TrimStartOfRun(w, b);
  }

  /** Regrouping a head, a text, a space and a tail; stated once so that the proofs that use it stay cheap. */
  lemma HeadRegroup(h: string, x: string, y: string)
    ensures h + (x + " " + y) == h + x + " " + y
  {
  }

  /** A sequence identity stated once, so that the proofs that use it stay cheap. */
  lemma Regroup<T>(a: seq<T>, w: seq<T>, b: seq<T>)
    ensures a + w + b == a + (w + b)
  {
  }

  /** A sequence identity stated once, so that the proofs that use it stay cheap. */
  lemma HeadSplit<T>(a: seq<T>, w: seq<T>, b: seq<T>)
    requires a != []
    ensures a + w + b == [a[0]] + (a[1..] + w + b)
  {
    assert (a + w + b)[1..] == a[1..] + w + b;
  }

  /** The collapse of a text that starts visibly keeps that character. */
  lemma CollapseVisibleHead(c: char, u: string)
    requires !IsWhitespace(c)
    ensures Collapse([c] + u) == [c] + Collapse(u)
  {
    assert ([c] + u)[1..] == u;
  }

  /** One step of `CollapseRun` when the text before the run starts with whitespace. */
  lemma CollapseRunSpaceStep(a: string, w: string, b: string)
    requires a != [] && IsWhitespace(a[0]) && !IsWhitespace(a[|a| - 1])
    requires Collapse(TrimStart(a) + w + b) == Collapse(TrimStart(a)) + " " + Collapse(b)
    ensures Collapse(a + w + b) == Collapse(a) + " " + Collapse(b)
  {
    var t := TrimStart(a);
    var s := a + w + b;
    TrimStartAppend(a, w + b);
    Regroup(a, w, b);
    Regroup(t, w, b);
    assert s[0] == a[0];
    assert Collapse(s) == [' '] + Collapse(t + w + b);
    HeadRegroup([' '], Collapse(t), Collapse(b));
  }

  /** One step of `CollapseRun` when the text before the run starts visibly. */
  lemma CollapseRunVisibleStep(a: string, w: string, b: string)
    requires a != [] && !IsWhitespace(a[0])
    requires Collapse(a[1..] + w + b) == Collapse(a[1..]) + " " + Collapse(b)
    ensures Collapse(a + w + b) == Collapse(a) + " " + Collapse(b)
  {
    var u := a[1..] + w + b;
    HeadSplit(a, w, b);
    assert a == [a[0]] + a[1..];
    CollapseVisibleHead(a[0], u);
    CollapseVisibleHead(a[0], a[1..]);
    HeadRegroup([a[0]], Collapse(a[1..]), Collapse(b));
  }

  /**
   * A run of whitespace between two texts becomes exactly one space: the text
   * before it ends visibly and the text after it starts visibly, and each side
   * is collapsed on its own.
   */
  lemma {:induction false} CollapseRun(a: string, w: string, b: string)
    requires w != [] && AllWhitespace(w)
    requires a == [] || !IsWhitespace(a[|a| - 1])
    requires b == [] || !IsWhitespace(b[0])
    ensures Collapse(a + w + b) == Collapse(a) + " " + Collapse(b)
    decreases |a|
  {
    if a == [] {
      assert a + w + b == w + b;
      CollapseRunAtStart(w, b);
    } else if IsWhitespace(a[0]) {
      assert TrimStart(a) == TrimStart(a[1..]);
      CollapseRun(TrimStart(a), w, b);
      CollapseRunSpaceStep(a, w, b);
    } else {
      CollapseRun(a[1..], w, b);
      CollapseRunVisibleStep(a, w, b);
    }
  }

  /** The fallback keeps two words apart: one space between them, whatever whitespace separated them. */
  lemma CollapseTrimWords(a: string, w: string, b: string)
    requires a != [] && forall k :: 0 <= k < |a| ==> !IsWhitespace(a[k])
    requires w != [] && AllWhitespace(w)
    requires b != [] && forall k :: 0 <= k < |b| ==> !IsWhitespace(b[k])
    ensures Trim(Collapse(a + w + b)) == a + " " + b
  {
    CollapseRun(a, w, b);
    CollapseKeepsWord(a);
    CollapseKeepsWord(b);
  }

  /** `f` applied to each element of `xs`, the results joined in order (a `forEach` that appends). */
  function ConcatMap<T>(xs: seq<T>, f: T -> string): string {
    if xs == [] then "" else ConcatMap(xs[..|xs| - 1], f) + f(xs[|xs| - 1])
  }

  /** Appending one element appends its piece. */
  lemma ConcatMapSnoc<T>(xs: seq<T>, x: T, f: T -> string)
    ensures ConcatMap(xs + [x], f) == ConcatMap(xs, f) + f(x)
  {
    assert (xs + [x])[..|xs|] == xs;
  }

  /** A sequence identity stated once, so that the proofs that use it stay cheap. */
  lemma PrefixSnoc<T>(xs: seq<T>, i: nat)
    requires i < |xs|
    ensures xs[..i + 1] == xs[..i] + [xs[i]]
  {
  }

  /** A sequence identity stated once, so that the proofs that use it stay cheap. */
  lemma SliceSnoc<T>(xs: seq<T>, lo: nat, hi: nat)
    requires lo <= hi < |xs|
    ensures xs[lo..hi + 1] == xs[lo..hi] + [xs[hi]]
  {
  }

  /** A sequence identity stated once, so that the proofs that use it stay cheap. */
  lemma PrefixStep<T>(xs: seq<T>, i: nat)
    requires i < |xs|
    ensures xs[..i + 1][..i] == xs[..i]
  {
  }

  /** A sequence identity stated once, so that the proofs that use it stay cheap. */
  lemma PrefixAll<T>(xs: seq<T>)
    ensures xs[..|xs|] == xs
  {
  }

  /** A sequence identity stated once, so that the proofs that use it stay cheap. */
  lemma EmptyPrefix(s: string)
    ensures "" + s == s
  {
  }

  /** One step of a loop that appends the piece of each element to a buffer. */
  lemma AppendPiece<T>(text: string, xs: seq<T>, x: T, f: T -> string)
    ensures text + ConcatMap(xs + [x], f) == text + ConcatMap(xs, f) + f(x)
  {
    ConcatMapSnoc(xs, x, f);
  }

  lemma {:induction false} ConcatMapAppend<T>(a: seq<T>, b: seq<T>, f: T -> string)
    ensures ConcatMap(a + b, f) == ConcatMap(a, f) + ConcatMap(b, f)
    decreases |b|
  {
    if b == [] {
      assert a + b == a;
    } else {
      assert (a + b)[..|a + b| - 1] == a + b[..|b| - 1];
      ConcatMapAppend(a, b[..|b| - 1], f);
    }
  }

  /**
   * The piece of element `k` sits between the pieces of the earlier elements
   * and those of the later ones: the joined text keeps the order of `xs`.
   */
  lemma {:induction false} ConcatMapAt<T>(xs: seq<T>, f: T -> string, k: nat)
    requires k < |xs|
    ensures ConcatMap(xs, f) == ConcatMap(xs[..k], f) + f(xs[k]) + ConcatMap(xs[k + 1..], f)
  {
    assert xs == xs[..k + 1] + xs[k + 1..];
    ConcatMapAppend(xs[..k + 1], xs[k + 1..], f);
    assert xs[..k + 1][..k] == xs[..k];
  }

  /**
   * When the piece of outer element `i` is itself the joined pieces of `inner`,
   * the piece of inner element `k` sits after everything that comes before
   * outer element `i` and before everything that comes after it.
   */
  lemma ConcatMapNestedAt<A, B>(outer: seq<A>, g: A -> string, i: nat, inner: seq<B>, f: B -> string, k: nat)
    requires i < |outer| && k < |inner| && g(outer[i]) == ConcatMap(inner, f)
    ensures ConcatMap(outer, g)
         == ConcatMap(outer[..i], g)
            + (ConcatMap(inner[..k], f) + f(inner[k]) + ConcatMap(inner[k + 1..], f))
            + ConcatMap(outer[i + 1..], g)
  {
    ConcatMapAt(outer, g, i);
    ConcatMapAt(inner, f, k);
  }

  /** The position of the piece of element `k` among the pieces of all elements but the first. */
  lemma ConcatMapTailAt<T>(xs: seq<T>, f: T -> string, k: nat)
    requires 1 <= k < |xs|
    ensures ConcatMap(xs[1..], f) == ConcatMap(xs[1..k], f) + f(xs[k]) + ConcatMap(xs[k + 1..], f)
  {
    ConcatMapAt(xs[1..], f, k - 1);
    assert xs[1..][..k - 1] == xs[1..k];
    assert xs[1..][k..] == xs[k + 1..];
  }

  /** The joined text is empty exactly when every piece is. */
  lemma {:induction false} ConcatMapEmpty<T>(xs: seq<T>, f: T -> string)
    ensures ConcatMap(xs, f) == "" <==> forall k :: 0 <= k < |xs| ==> f(xs[k]) == ""
  {
    if xs != [] {
      var init := xs[..|xs| - 1];
      ConcatMapEmpty(init, f);
      assert forall k :: 0 <= k < |init| ==> init[k] == xs[k];
    }
  }

  /** The elements of `b` whose flag in `mask` is set, in their order. */
  function Pick<T>(b: seq<T>, mask: seq<bool>): seq<T>
    requires |mask| == |b|
  {
    if b == [] then []
    else Pick(b[..|b| - 1], mask[..|mask| - 1]) + (if mask[|mask| - 1] then [b[|b| - 1]] else [])
  }

  /** `a` is `b` with some elements left out: what remains keeps `b`'s order. */
  ghost predicate Subseq<T>(a: seq<T>, b: seq<T>) {
    exists mask :: |mask| == |b| && Pick(b, mask) == a
  }

  lemma {:induction false} PickAppend<T>(b1: seq<T>, m1: seq<bool>, b2: seq<T>, m2: seq<bool>)
    requires |m1| == |b1| && |m2| == |b2|
    ensures Pick(b1 + b2, m1 + m2) == Pick(b1, m1) + Pick(b2, m2)
    decreases |b2|
  {
    if b2 == [] {
      assert b1 + b2 == b1 && m1 + m2 == m1;
    } else {
      var n := |b2| - 1;
      assert (b1 + b2)[..|b1 + b2| - 1] == b1 + b2[..n];
      assert (m1 + m2)[..|m1 + m2| - 1] == m1 + m2[..n];
      PickAppend(b1, m1, b2[..n], m2[..n]);
    }
  }

  /** Subsequences of two runs, put together, are a subsequence of the two runs put together. */
  lemma SubseqAppend<T>(a1: seq<T>, b1: seq<T>, a2: seq<T>, b2: seq<T>)
    requires Subseq(a1, b1) && Subseq(a2, b2)
    ensures Subseq(a1 + a2, b1 + b2)
  {
    var m1 :| |m1| == |b1| && Pick(b1, m1) == a1;
    var m2 :| |m2| == |b2| && Pick(b2, m2) == a2;
    PickAppend(b1, m1, b2, m2);
  }

  /** Extending the sequence by one element, which the subsequence keeps or leaves out. */
  lemma SubseqSnoc<T>(a: seq<T>, b: seq<T>, x: T, keep: bool)
    requires Subseq(a, b)
    ensures Subseq(a + (if keep then [x] else []), b + [x])
  {
    if keep {
      SubseqSelf(x);
      SubseqAppend(a, b, [x], [x]);
    } else {
      SubseqNone([x]);
      SubseqAppend(a, b, [], [x]);
      assert a + [] == a;
    }
  }

  lemma SubseqNone<T>(b: seq<T>)
    ensures Subseq([], b)
  {
    var mask := seq(|b|, _ => false);
    NonePicked(b, mask);
  }

  lemma {:induction false} NonePicked<T>(b: seq<T>, mask: seq<bool>)
    requires |mask| == |b| && forall k :: 0 <= k < |mask| ==> !mask[k]
    ensures Pick(b, mask) == []
  {
    if b != [] {
      NonePicked(b[..|b| - 1], mask[..|mask| - 1]);
    }
  }

  lemma SubseqSelf<T>(x: T)
    ensures Subseq([x], [x])
  {
    assert Pick([x], [true]) == [x];
  }

  /** `s.repeat(n)`. */
  function Repeat(s: string, n: nat): (r: string)
    ensures |s| == 1 ==> |r| == n && forall k :: 0 <= k < n ==> r[k] == s[0]
  {
    if n == 0 then "" else Repeat(s, n - 1) + s
  }

  predicate IsDigit(c: char) {
    '0' <= c <= '9'
  }

  function DigitChar(d: nat): (c: char)
    requires d < 10
    ensures IsDigit(c) && c as int - '0' as int == d
  {
    ('0' as int + d) as char
  }

  /** The decimal digits of `n`, as a template literal prints a non-negative integer. */
  function NatToString(n: nat): (r: string)
    ensures |r| >= 1 && forall k :: 0 <= k < |r| ==> IsDigit(r[k])
    ensures r[0] == '0' ==> n == 0
  {
    if n < 10 then [DigitChar(n)] else NatToString(n / 10) + [DigitChar(n % 10)]
  }

  function DigitValue(c: char): (d: nat)
    requires IsDigit(c)
    ensures d < 10
  {
    c as int - '0' as int
  }

  /** The value of a string of decimal digits. */
  function DecimalValue(s: string): nat
    requires forall k :: 0 <= k < |s| ==> IsDigit(s[k])
  {
    if s == [] then 0
    else DecimalValue(s[..|s| - 1]) * 10 + DigitValue(s[|s| - 1])
  }

  /** Reading back the printed digits gives the number. */
  lemma {:induction false} NatToStringRoundTrip(n: nat)
    ensures DecimalValue(NatToString(n)) == n
  {
    if n >= 10 {
      var s := NatToString(n);
      assert s[..|s| - 1] == NatToString(n / 10);
      NatToStringRoundTrip(n / 10);
    }
  }

  /** The length of the longest prefix of `s` whose characters all satisfy `p`. */
  function CountLeading(s: string, p: char -> bool): (n: nat)
    ensures n <= |s|
    ensures forall k :: 0 <= k < n ==> p(s[k])
    ensures n < |s| ==> !p(s[n])
  {
    if s != [] && p(s[0]) then 1 + CountLeading(s[1..], p) else 0
  }
}
