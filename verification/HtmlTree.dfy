/** The tolerant HTML tree builder of extract_md.py.

    `Tree` accepts every token stream: end tags may be stray or mis-nested.  The
    value-level model keeps the tree as its open path: one frame per node between
    the root and the cursor, each holding the children that can no longer change.
    The classes `Node` and `Tree` below are the mutable tree with parent links. */
module HtmlTree {

  type Attrs = map<string, string>

  datatype Dom = Text(data: string) | Elem(tag: string, attrs: Attrs, kids: seq<Dom>)

  datatype Token =
    | Start(tag: string, attrs: Attrs)
    | StartEnd(tag: string, attrs: Attrs)
    | End(tag: string)
    | Data(text: string)

  const VOID: set<string> := {"img", "br", "hr", "meta", "link", "input", "source"}

  // ----- The open path -------------------------------------------------------

  /** An open node with the children that are already complete. */
  datatype Frame = Frame(tag: string, attrs: Attrs, kids: seq<Dom>)

  /** Root first, cursor last. */
  type Path = p: seq<Frame> | |p| > 0 witness [Frame("root", map[], [])]

  const EMPTY: Path := [Frame("root", map[], [])]

  function Append(p: Path, ds: seq<Dom>): Path {
    var top := p[|p| - 1];
    p[..|p| - 1] + [top.(kids := top.kids + ds)]
  }

  /** Completes the cursor's node: it becomes the last child of its parent. */
  function SealTop(p: Path): Path
    requires |p| > 1
  {
    var top := p[|p| - 1];
    Append(p[..|p| - 1], [Elem(top.tag, top.attrs, top.kids)])
  }

  function SealTo(p: Path, n: nat): (r: Path)
    requires 1 <= n <= |p|
    ensures |r| == n
    decreases |p|
  {
    if |p| == n then p else SealTo(SealTop(p), n)
  }

  /** Index of the innermost open node with this tag, or 0 when only the root is left. */
  function Innermost(p: Path, tag: string): (i: nat)
    ensures i < |p|
    ensures i > 0 ==> p[i].tag == tag
    ensures forall j :: i < j < |p| ==> p[j].tag != tag
  {
    if |p| == 1 || p[|p| - 1].tag == tag then |p| - 1 else Innermost(p[..|p| - 1], tag)
  }

  function Step(p: Path, t: Token): Path {
    match t
    case Start(tag, attrs) =>
      if tag in VOID then Append(p, [Elem(tag, attrs, [])]) else p + [Frame(tag, attrs, [])]
    case StartEnd(tag, attrs) => Append(p, [Elem(tag, attrs, [])])
    case End(tag) =>
      var i := Innermost(p, tag);
      if i == 0 then p else SealTo(p, i)
    case Data(text) => Append(p, [Text(text)])
  }

  function Run(p: Path, ts: seq<Token>): Path
    decreases |ts|
  {
    if ts == [] then p else Run(Step(p, ts[0]), ts[1..])
  }

  /** The finished document: the children of the root. */
  function Document(ts: seq<Token>): seq<Dom> {
    SealTo(Run(EMPTY, ts), 1)[0].kids
  }

  /** A start tag opens a node, unless it is one of the seven that never have content; then it
      only adds one, as every self-closing tag does. */
  lemma OpensIff(p: Path, tag: string, attrs: Attrs)
    ensures var void := tag in {"img", "br", "hr", "meta", "link", "input", "source"};
            && (Step(p, Start(tag, attrs)) == if void then Step(p, StartEnd(tag, attrs)) else p + [Frame(tag, attrs, [])])
            && |Step(p, StartEnd(tag, attrs))| == |p|
  {}

  lemma {:induction false} RunConcat(p: Path, a: seq<Token>, b: seq<Token>)
    ensures Run(p, a + b) == Run(Run(p, a), b)
    decreases |a|
  {
    if a == [] {
      assert a + b == b;
    } else {
      assert (a + b)[1..] == a[1..] + b;
      RunConcat(Step(p, a[0]), a[1..], b);
    }
  }

  // ----- Document order is arrival order -------------------------------------

  datatype Event = Opened(tag: string, attrs: Attrs) | Said(text: string)

  /** Preorder of a forest. */
  function Preorder(ds: seq<Dom>): seq<Event> {
    if ds == [] then []
    else PreorderOf(ds[0]) + Preorder(ds[1..])
  }

  function PreorderOf(d: Dom): seq<Event> {
    match d
    case Text(s) => [Said(s)]
    case Elem(tag, attrs, kids) => [Opened(tag, attrs)] + Preorder(kids)
  }

  /** What arrived, with every end tag dropped. */
  function Arrivals(ts: seq<Token>): seq<Event> {
    if ts == [] then []
    else (match ts[0]
          case Start(tag, attrs) => [Opened(tag, attrs)]
          case StartEnd(tag, attrs) => [Opened(tag, attrs)]
          case End(_) => []
          case Data(s) => [Said(s)]) + Arrivals(ts[1..])
  }

  /** Preorder of the whole tree, read off the open path (the root itself is not listed). */
  function PathPreorder(p: Path): seq<Event>
  {
    if |p| == 1 then Preorder(p[0].kids)
    else
      var top := p[|p| - 1];
      PathPreorder(p[..|p| - 1]) + [Opened(top.tag, top.attrs)] + Preorder(top.kids)
  }

  lemma {:induction false} PreorderConcat(a: seq<Dom>, b: seq<Dom>)
    ensures Preorder(a + b) == Preorder(a) + Preorder(b)
    decreases |a|
  {
    if a == [] {
      assert a + b == b;
    } else {
      assert (a + b)[1..] == a[1..] + b;
      PreorderConcat(a[1..], b);
    }
  }

  lemma AppendPreorder(p: Path, ds: seq<Dom>)
    ensures PathPreorder(Append(p, ds)) == PathPreorder(p) + Preorder(ds)
  {
    var top := p[|p| - 1];
    assert Append(p, ds)[..|p| - 1] == p[..|p| - 1];
    PreorderConcat(top.kids, ds);
  }

  lemma {:induction false} SealToPreorder(p: Path, n: nat)
    requires 1 <= n <= |p|
    ensures PathPreorder(SealTo(p, n)) == PathPreorder(p)
    decreases |p|
  {
    if |p| > n {
      var top := p[|p| - 1];
      var e := Elem(top.tag, top.attrs, top.kids);
      AppendPreorder(p[..|p| - 1], [e]);
      assert Preorder([e]) == [Opened(top.tag, top.attrs)] + Preorder(top.kids) + Preorder([]);
      SealToPreorder(SealTop(p), n);
    }
  }

  lemma StepPreorder(p: Path, t: Token)
    ensures PathPreorder(Step(p, t)) == PathPreorder(p) + Arrivals([t])
  {
    match t
    case Start(tag, attrs) =>
      if tag in VOID {
        AppendPreorder(p, [Elem(tag, attrs, [])]);
        assert Preorder([Elem(tag, attrs, [])]) == [Opened(tag, attrs)] + Preorder([]) + Preorder([]);
      } else {
        var q := p + [Frame(tag, attrs, [])];
        assert q[..|q| - 1] == p;
      }
    case StartEnd(tag, attrs) =>
      AppendPreorder(p, [Elem(tag, attrs, [])]);
      assert Preorder([Elem(tag, attrs, [])]) == [Opened(tag, attrs)] + Preorder([]) + Preorder([]);
    case End(tag) =>
      var i := Innermost(p, tag);
      if i > 0 { SealToPreorder(p, i); }
    case Data(s) =>
      AppendPreorder(p, [Text(s)]);
      assert Preorder([Text(s)]) == [Said(s)] + Preorder([]);
  }

  lemma ArrivalsHead(ts: seq<Token>)
    requires ts != []
    ensures Arrivals(ts) == Arrivals([ts[0]]) + Arrivals(ts[1..])
  {}

  lemma {:induction false} RunPreorder(p: Path, ts: seq<Token>)
    ensures PathPreorder(Run(p, ts)) == PathPreorder(p) + Arrivals(ts)
    decreases |ts|
  {
    if ts != [] {
      StepPreorder(p, ts[0]);
      RunPreorder(Step(p, ts[0]), ts[1..]);
      ArrivalsHead(ts);
    }
  }

  /** For every token stream, well nested or not, the document's preorder is exactly the
      start and data tokens in arrival order: no end tag loses, duplicates or moves a node. */
  lemma DocumentOrderIsArrivalOrder(ts: seq<Token>)
    ensures Preorder(Document(ts)) == Arrivals(ts)
  {
    RunPreorder(EMPTY, ts);
    SealToPreorder(Run(EMPTY, ts), 1);
  }

  /** A stray end tag changes nothing; one that matches closes exactly the nodes from the
      innermost match inwards and leaves every frame outside its parent alone. */
  lemma {:induction false} EndTagEffect(p: Path, tag: string)
    ensures (forall j :: 0 < j < |p| ==> p[j].tag != tag) <==> Step(p, End(tag)) == p
    ensures var q := Step(p, End(tag));
            q != p ==> && |q| < |p| && p[|q|].tag == tag && (forall j :: |q| < j < |p| ==> p[j].tag != tag)
                       && q[..|q| - 1] == p[..|q| - 1]
  {
    var i := Innermost(p, tag);
    if i > 0 { SealToKeepsOuter(p, i); }
  }

  lemma {:induction false} SealToKeepsOuter(p: Path, n: nat)
    requires 1 <= n <= |p|
    ensures SealTo(p, n)[..n - 1] == p[..n - 1]
    decreases |p|
  {
    if |p| > n {
      SealToKeepsOuter(SealTop(p), n);
      assert SealTop(p)[..n - 1] == p[..n - 1];
    }
  }

  // ----- Print / parse round trip --------------------------------------------

  /** Void elements have no children: what the builder can produce. */
  predicate WellFormed(ds: seq<Dom>) {
    forall d <- ds :: WellFormedOne(d)
  }

  predicate WellFormedOne(d: Dom) {
    d.Elem? ==> (d.tag in VOID ==> d.kids == []) && forall k <- d.kids :: WellFormedOne(k)
  }

  function Print(ds: seq<Dom>): seq<Token> {
    if ds == [] then [] else PrintOne(ds[0]) + Print(ds[1..])
  }

  function PrintOne(d: Dom): seq<Token> {
    match d
    case Text(s) => [Data(s)]
    case Elem(tag, attrs, kids) =>
      if tag in VOID then [Start(tag, attrs)]
      else [Start(tag, attrs)] + Print(kids) + [End(tag)]
  }

  /** Feeding the printed form of a forest at any cursor appends exactly that forest to the
      cursor's children and returns the cursor to where it was, whatever tags are open. */
  lemma {:induction false} RoundTrip(p: Path, ds: seq<Dom>)
    requires WellFormed(ds)
    ensures Run(p, Print(ds)) == Append(p, ds)
    decreases ds
  {
    if ds == [] {
      var top := p[|p| - 1];
      assert top.kids + [] == top.kids;
    } else {
      RunConcat(p, PrintOne(ds[0]), Print(ds[1..]));
      RoundTripOne(p, ds[0]);
      RoundTrip(Append(p, [ds[0]]), ds[1..]);
      assert [ds[0]] + ds[1..] == ds;
      AppendTwice(p, [ds[0]], ds[1..]);
    }
  }

  lemma AppendTwice(p: Path, a: seq<Dom>, b: seq<Dom>)
    ensures Append(Append(p, a), b) == Append(p, a + b)
  {
    var top := p[|p| - 1];
    assert (top.kids + a) + b == top.kids + (a + b);
    assert Append(p, a)[..|p| - 1] == p[..|p| - 1];
  }

  lemma {:induction false} RoundTripOne(p: Path, d: Dom)
    requires WellFormedOne(d)
    ensures Run(p, PrintOne(d)) == Append(p, [d])
    decreases d
  {
    match d
    case Text(s) =>
      assert Run(p, [Data(s)]) == Step(p, Data(s));
    case Elem(tag, attrs, kids) =>
      if tag in VOID {
        assert Run(p, [Start(tag, attrs)]) == Step(p, Start(tag, attrs));
      } else {
        var q := p + [Frame(tag, attrs, [])];
        var body := Print(kids);
        assert Run(p, [Start(tag, attrs)]) == q;
        RunConcat(p, [Start(tag, attrs)] + body, [End(tag)]);
        RunConcat(p, [Start(tag, attrs)], body);
        RoundTrip(q, kids);
        var r := Append(q, kids);
        assert [] + kids == kids;
        assert r[|p|] == Frame(tag, attrs, kids) && r[..|p|] == p;
        assert Innermost(r, tag) == |p|;
        assert SealTo(r, |p|) == SealTop(r) == Append(p, [d]);
        assert Run(r, [End(tag)]) == Step(r, End(tag));
      }
  }

  predicate PathWellFormed(p: Path) {
    && (forall i :: 0 < i < |p| ==> p[i].tag !in VOID)
    && (forall i :: 0 <= i < |p| ==> WellFormed(p[i].kids))
  }

  lemma {:induction false} SealToWellFormed(p: Path, n: nat)
    requires 1 <= n <= |p| && PathWellFormed(p)
    ensures PathWellFormed(SealTo(p, n))
    decreases |p|
  {
    if |p| > n {
      var top := p[|p| - 1];
      assert WellFormedOne(Elem(top.tag, top.attrs, top.kids));
      SealToWellFormed(SealTop(p), n);
    }
  }

  lemma {:induction false} RunWellFormed(p: Path, ts: seq<Token>)
    requires PathWellFormed(p)
    ensures PathWellFormed(Run(p, ts))
    decreases |ts|
  {
    if ts != [] {
      if ts[0].End? {
        var i := Innermost(p, ts[0].tag);
        if i > 0 { SealToWellFormed(p, i); }
      }
      RunWellFormed(Step(p, ts[0]), ts[1..]);
    }
  }

  /** Printing any parsed document and parsing it again gives the same document, for every
      token stream: parsing is a projection onto well-formed documents. */
  lemma ParsePrintParse(ts: seq<Token>)
    ensures WellFormed(Document(ts))
    ensures Document(Print(Document(ts))) == Document(ts)
  {
    RunWellFormed(EMPTY, ts);
    SealToWellFormed(Run(EMPTY, ts), 1);
    RoundTrip(EMPTY, Document(ts));
    assert Append(EMPTY, Document(ts))[0].kids == Document(ts);
  }

  // ----- The mutable tree with parent links -----------------------------------

  datatype Child = Kid(node: Node) | Words(data: string)

  class Node {
    const tag: string
    const attrs: Attrs
    var children: seq<Child>
    var parent: Node?
    ghost const lineage: seq<Node>  // the nodes above it, root first

    constructor (tag: string, attrs: Attrs, ghost lineage: seq<Node>)
      ensures this.tag == tag && this.attrs == attrs && this.lineage == lineage
      ensures children == [] && parent == null
    {
      this.tag, this.attrs, this.lineage, children, parent := tag, attrs, lineage, [], null;
    }
  }

  /** Child c is the heap form of d; `known` gives the value of every completed node. */
  ghost predicate Shows(c: Child, d: Dom, known: map<Node, Dom>) {
    match c
    case Words(s) => d == Text(s)
    case Kid(n) => n in known && known[n] == d
  }

  ghost predicate ShowsAll(cs: seq<Child>, ds: seq<Dom>, known: map<Node, Dom>) {
    |cs| == |ds| && forall i {:trigger Shows(cs[i], ds[i], known)} :: 0 <= i < |cs| ==> Shows(cs[i], ds[i], known)
  }

  /** Every known node has the tag, attributes and children its value says.  Each node is
      checked one level deep, so the predicate needs no recursion through the heap. */
  ghost predicate Faithful(known: map<Node, Dom>)
    reads known.Keys
  {
    forall n <- known ::
      && known[n].Elem? && n.tag == known[n].tag && n.attrs == known[n].attrs
      && ShowsAll(n.children, known[n].kids, known)
  }

  lemma ShowsMore(cs: seq<Child>, ds: seq<Dom>, known: map<Node, Dom>, n: Node, d: Dom)
    requires ShowsAll(cs, ds, known) && n !in known
    ensures ShowsAll(cs, ds, known[n := d])
  {
    forall i | 0 <= i < |cs| ensures Shows(cs[i], ds[i], known[n := d]) {
      assert Shows(cs[i], ds[i], known);
    }
  }

  ghost predicate ChildOf(c: Node, n: Node, family: set<Node>)
    reads family`parent
  {
    c in family && c.parent == n && c.lineage == n.lineage + [n]
  }

  /** No node hangs twice under n, and each that does is in the family and has n as its parent. */
  ghost predicate ThreadedAt(n: Node, cs: seq<Child>, family: set<Node>)
    reads family`parent
  {
    && (forall i :: 0 <= i < |cs| && cs[i].Kid? ==> ChildOf(cs[i].node, n, family))
    && (forall i, j :: 0 <= j < i < |cs| && cs[i].Kid? ==> cs[j] != cs[i])
  }

  ghost predicate Threaded(family: set<Node>)
    reads family
  {
    forall n <- family :: ThreadedAt(n, n.children, family)
  }

  /** One of the family was given one more child c; `before` is what they had until then. */
  ghost predicate Grown(family: set<Node>, before: map<Node, seq<Child>>, cur: Node, c: Child)
    reads family
  {
    && cur in family && before.Keys == family
    && (forall m <- family :: ThreadedAt(m, before[m], family))
    && (forall m <- family :: m.children == if m == cur then before[m] + [c] else before[m])
  }

  lemma ThreadedGrows(family: set<Node>, before: map<Node, seq<Child>>, cur: Node, n: Node)
    requires Grown(family, before, cur, Kid(n)) && n !in family
    requires n.children == [] && n.parent == cur && n.lineage == cur.lineage + [cur]
    ensures Threaded(family + {n})
  {
    forall m <- family + {n} ensures ThreadedAt(m, m.children, family + {n}) {
      if m in family {
        assert ThreadedAt(m, before[m], family);
      }
    }
  }

  lemma ThreadedSays(family: set<Node>, before: map<Node, seq<Child>>, cur: Node, text: string)
    requires Grown(family, before, cur, Words(text))
    ensures Threaded(family)
  {
    forall m <- family ensures ThreadedAt(m, m.children, family) {
      assert ThreadedAt(m, before[m], family);
    }
  }

  ghost predicate NoRepeats(ns: seq<Node>) {
    forall i, j :: 0 <= i < j < |ns| ==> ns[i] != ns[j]
  }

  /** x is c or below it. */
  ghost predicate Within(c: Node, x: Node) {
    x == c || c.lineage + [c] <= x.lineage
  }

  /** Every node listed so far is within one of these children of n. */
  ghost predicate WithinSome(n: Node, cs: seq<Child>, x: Node) {
    exists j :: 0 <= j < |cs| && cs[j].Kid? && cs[j].node.lineage == n.lineage + [n] && Within(cs[j].node, x)
  }

  /** Subtrees of two children of one node share no node. */
  lemma Apart(n: Node, c: Node, d: Node, x: Node)
    requires c.lineage == d.lineage == n.lineage + [n] && Within(c, x) && Within(d, x)
    ensures c == d
  {
    var k := |n.lineage| + 1;
    assert (c.lineage + [c])[k] == c && (d.lineage + [d])[k] == d;
    if x != c && x != d {
      assert x.lineage[k] == c && x.lineage[k] == d;
    }
  }

  /** What a listing gains from one more child with its descendants. */
  lemma ListingGrows(n: Node, cs: seq<Child>, family: set<Node>, i: nat, out: seq<Node>, below: seq<Node>)
    requires i < |cs| && cs[i].Kid? && ThreadedAt(n, cs, family)
    requires NoRepeats(out) && (forall x <- out :: x in family && WithinSome(n, cs[..i], x))
    requires NoRepeats(below) && (forall x <- below :: x in family && cs[i].node.lineage + [cs[i].node] <= x.lineage)
    ensures var out' := out + ([cs[i].node] + below);
            NoRepeats(out') && forall x <- out' :: x in family && WithinSome(n, cs[..i + 1], x)
  {
    var c := cs[i].node;
    var more := [c] + below;
    assert ChildOf(c, n, family);
    forall x <- below ensures x != c {
      assert |x.lineage| > |c.lineage|;
    }
    assert NoRepeats(more) by {
      forall j | 0 <= j < |below| ensures below[j] != c { assert below[j] in below; }
    }
    forall x <- more ensures x in family && Within(c, x) {}
    forall x <- out, y <- more ensures x != y {
      NotYetListed(n, cs, family, i, x);
    }
    forall x <- out + more ensures x in family && WithinSome(n, cs[..i + 1], x) {
      if x in out {
        var j :| 0 <= j < i && cs[..i][j].Kid? && cs[..i][j].node.lineage == n.lineage + [n] && Within(cs[..i][j].node, x);
        assert cs[..i + 1][j] == cs[j];
      } else {
        assert cs[..i + 1][i] == cs[i];
      }
    }
    RepeatsNot(out, more);
  }

  lemma NotYetListed(n: Node, cs: seq<Child>, family: set<Node>, i: nat, x: Node)
    requires i < |cs| && cs[i].Kid? && ThreadedAt(n, cs, family) && WithinSome(n, cs[..i], x)
    ensures !Within(cs[i].node, x)
  {
    var j :| 0 <= j < i && cs[..i][j].Kid? && cs[..i][j].node.lineage == n.lineage + [n] && Within(cs[..i][j].node, x);
    assert ChildOf(cs[i].node, n, family) && cs[j] != cs[i];
    if Within(cs[i].node, x) {
      Apart(n, cs[i].node, cs[j].node, x);
    }
  }

  lemma RepeatsNot(a: seq<Node>, b: seq<Node>)
    requires NoRepeats(a) && NoRepeats(b) && forall x <- a, y <- b :: x != y
    ensures NoRepeats(a + b)
  {
    forall i, j | 0 <= i < |a| && 0 <= j < |b| ensures a[i] != b[j] {
      assert a[i] in a && b[j] in b;
    }
  }

  lemma WithinIsBelow(n: Node, cs: seq<Child>, x: Node)
    requires WithinSome(n, cs, x)
    ensures n.lineage + [n] <= x.lineage
  {}

  /** `Node.descendants`: every element below the node, in document order. */
  method Descendants(n: Node, ghost known: map<Node, Dom>, ghost family: set<Node>) returns (out: seq<Node>)
    requires n in known && Faithful(known) && n in family && Threaded(family)
    ensures Labels(out) == Elements(Preorder(known[n].kids))
    ensures NoRepeats(out) && forall x <- out :: x in family && n.lineage + [n] <= x.lineage
    decreases known[n]
  {
    out := [];
    ghost var kids := known[n].kids;
    for i := 0 to |n.children|
      invariant Labels(out) == Elements(Preorder(kids[..i]))
      invariant NoRepeats(out) && forall x <- out :: x in family && WithinSome(n, n.children[..i], x)
    {
      assert Shows(n.children[i], kids[i], known);
      assert ThreadedAt(n, n.children, family);
      if n.children[i].Kid? {
        var c := n.children[i].node;
        assert ChildOf(c, n, family);
        var below := Descendants(c, known, family);
        ListingGrows(n, n.children, family, i, out, below);
        LabelsStep(kids, i, out, c, below, known[c].kids);
        out := out + ([c] + below);
      } else {
        WordsStep(kids, i);
        StillWithin(n, n.children, i, out);
      }
    }
    assert kids[..|n.children|] == kids;
    forall x <- out ensures n.lineage + [n] <= x.lineage {
      WithinIsBelow(n, n.children[..|n.children|], x);
    }
  }

  lemma StillWithin(n: Node, cs: seq<Child>, i: nat, out: seq<Node>)
    requires i < |cs| && forall x <- out :: WithinSome(n, cs[..i], x)
    ensures forall x <- out :: WithinSome(n, cs[..i + 1], x)
  {
    forall x <- out ensures WithinSome(n, cs[..i + 1], x) {
      var j :| 0 <= j < i && cs[..i][j].Kid? && cs[..i][j].node.lineage == n.lineage + [n] && Within(cs[..i][j].node, x);
      assert cs[..i + 1][j] == cs[j];
    }
  }

  lemma ElementsStep(kids: seq<Dom>, i: nat)
    requires i < |kids|
    ensures Elements(Preorder(kids[..i + 1])) == Elements(Preorder(kids[..i])) + Elements(PreorderOf(kids[i]))
  {
    PreorderConcat(kids[..i], [kids[i]]);
    assert kids[..i + 1] == kids[..i] + [kids[i]];
    assert Preorder([kids[i]]) == PreorderOf(kids[i]) by { assert PreorderOf(kids[i]) + [] == PreorderOf(kids[i]); }
    ElementsConcat(Preorder(kids[..i]), PreorderOf(kids[i]));
  }

  lemma WordsStep(kids: seq<Dom>, i: nat)
    requires i < |kids| && kids[i].Text?
    ensures Elements(Preorder(kids[..i + 1])) == Elements(Preorder(kids[..i]))
  {
    ElementsStep(kids, i);
    assert Elements([Said(kids[i].data)]) == [];
  }

  lemma LabelsStep(kids: seq<Dom>, i: nat, out: seq<Node>, c: Node, below: seq<Node>, under: seq<Dom>)
    requires i < |kids| && kids[i] == Elem(c.tag, c.attrs, under)
    requires Labels(out) == Elements(Preorder(kids[..i])) && Labels(below) == Elements(Preorder(under))
    ensures Labels(out + ([c] + below)) == Elements(Preorder(kids[..i + 1]))
  {
    ElementsStep(kids, i);
    LabelsConcat(out, [c] + below);
    LabelsConcat([c], below);
    ElementsConcat([Opened(c.tag, c.attrs)], Preorder(under));
    assert Elements([Opened(c.tag, c.attrs)]) == [Opened(c.tag, c.attrs)] == Labels([c]);
  }

  function Elements(es: seq<Event>): seq<Event> {
    if es == [] then []
    else (if es[0].Opened? then [es[0]] else []) + Elements(es[1..])
  }

  ghost function Labels(ns: seq<Node>): seq<Event> {
    seq(|ns|, i requires 0 <= i < |ns| => Opened(ns[i].tag, ns[i].attrs))
  }

  lemma LabelsConcat(a: seq<Node>, b: seq<Node>)
    ensures Labels(a + b) == Labels(a) + Labels(b)
  {}

  lemma {:induction false} ElementsConcat(a: seq<Event>, b: seq<Event>)
    ensures Elements(a + b) == Elements(a) + Elements(b)
    decreases |a|
  {
    if a == [] {
      assert a + b == b;
    } else {
      assert (a + b)[1..] == a[1..] + b && (a + b)[0] == a[0];
      ElementsConcat(a[1..], b);
      var head := if a[0].Opened? then [a[0]] else [];
      assert head + (Elements(a[1..]) + Elements(b)) == head + Elements(a[1..]) + Elements(b);
    }
  }

  ghost predicate OpenAt(i: nat, n: Node, cs: seq<Child>, f: Frame, sealed: map<Node, Dom>) {
    && |n.lineage| == i && n !in sealed
    && n.tag == f.tag && n.attrs == f.attrs
    && ShowsAll(cs, f.kids, sealed)
  }

  /** The value of an open path: the i-th node's completed children are `links[i]`. */
  ghost predicate Describes(nodes: seq<Node>, links: seq<seq<Child>>, path: Path, sealed: map<Node, Dom>) {
    && |nodes| == |links| == |path|
    && forall i {:trigger links[i]} :: 0 <= i < |nodes| ==> OpenAt(i, nodes[i], links[i], path[i], sealed)
  }

  /** In the heap each open node holds its completed children, then the next open node. */
  ghost predicate Stored(nodes: seq<Node>, links: seq<seq<Child>>)
    requires |nodes| == |links|
    reads nodes
  {
    && (forall i {:trigger links[i]} :: 0 <= i < |nodes| - 1 ==> nodes[i].children == links[i] + [Kid(nodes[i + 1])])
    && (nodes != [] ==> nodes[|nodes| - 1].children == links[|nodes| - 1])
  }

  /** The same, with something new hung under the innermost open one. */
  ghost predicate StoredWith(nodes: seq<Node>, links: seq<seq<Child>>, c: Child)
    requires |nodes| == |links|
    reads nodes
  {
    && nodes != []
    && (forall i {:trigger links[i]} :: 0 <= i < |nodes| - 1 ==> nodes[i].children == links[i] + [Kid(nodes[i + 1])])
    && nodes[|nodes| - 1].children == links[|nodes| - 1] + [c]
  }

  lemma StoredLeaf(nodes: seq<Node>, links: seq<seq<Child>>, c: Child)
    requires |nodes| == |links| && StoredWith(nodes, links, c)
    ensures Stored(nodes, links[|nodes| - 1 := links[|nodes| - 1] + [c]])
  {}

  lemma StoredPush(nodes: seq<Node>, links: seq<seq<Child>>, n: Node)
    requires |nodes| == |links| && StoredWith(nodes, links, Kid(n)) && n.children == []
    ensures Stored(nodes + [n], links + [[]])
  {}

  /** The nodes of the open path are different nodes. */
  lemma OthersKeep(nodes: seq<Node>, links: seq<seq<Child>>, path: Path, sealed: map<Node, Dom>)
    requires Describes(nodes, links, path, sealed)
    ensures forall i {:trigger links[i]} :: 0 <= i < |nodes| - 1 ==> nodes[i] != nodes[|nodes| - 1]
  {
    forall i | 0 <= i < |nodes| - 1 ensures nodes[i] != nodes[|nodes| - 1] {
      assert OpenAt(i, nodes[i], links[i], path[i], sealed);
      assert OpenAt(|nodes| - 1, nodes[|nodes| - 1], links[|nodes| - 1], path[|nodes| - 1], sealed);
    }
  }

  lemma ChainPlus(nodes: seq<Node>, trail: seq<Node>, n: Node)
    requires nodes != [] && nodes <= trail && ParentChain(trail) && n.parent == nodes[|nodes| - 1]
    ensures ParentChain(nodes + [n])
  {}

  ghost predicate ParentChain(ns: seq<Node>)
    reads ns
  {
    forall i {:trigger ns[i].parent} :: 0 < i < |ns| ==> ns[i].parent == ns[i - 1]
  }

  lemma DescribesAppend(nodes: seq<Node>, links: seq<seq<Child>>, path: Path, sealed: map<Node, Dom>, c: Child, d: Dom)
    requires Describes(nodes, links, path, sealed) && Shows(c, d, sealed)
    ensures Describes(nodes, links[|path| - 1 := links[|path| - 1] + [c]], Append(path, [d]), sealed)
  {}

  lemma DescribesPush(nodes: seq<Node>, links: seq<seq<Child>>, path: Path, sealed: map<Node, Dom>, n: Node)
    requires Describes(nodes, links, path, sealed) && |n.lineage| == |nodes| && n !in sealed
    ensures Describes(nodes + [n], links + [[]], path + [Frame(n.tag, n.attrs, [])], sealed)
  {}

  lemma DescribesPop(nodes: seq<Node>, links: seq<seq<Child>>, path: Path, sealed: map<Node, Dom>)
    requires Describes(nodes, links, path, sealed) && |nodes| > 1
    ensures Describes(nodes[..|nodes| - 1], links[..|nodes| - 1], path[..|nodes| - 1], sealed)
  {}

  lemma DescribesMore(nodes: seq<Node>, links: seq<seq<Child>>, path: Path, sealed: map<Node, Dom>, n: Node, d: Dom)
    requires Describes(nodes, links, path, sealed) && n !in sealed && |n.lineage| == |nodes|
    ensures Describes(nodes, links, path, sealed[n := d])
  {
    forall i | 0 <= i < |nodes| ensures OpenAt(i, nodes[i], links[i], path[i], sealed[n := d]) {
      assert OpenAt(i, nodes[i], links[i], path[i], sealed);
      ShowsMore(links[i], path[i].kids, sealed, n, d);
    }
  }

  lemma FaithfulMore(sealed: map<Node, Dom>, n: Node, d: Dom)
    requires Faithful(sealed) && n !in sealed
    requires d.Elem? && n.tag == d.tag && n.attrs == d.attrs && ShowsAll(n.children, d.kids, sealed)
    ensures Faithful(sealed[n := d])
  {
    var more := sealed[n := d];
    forall m <- more ensures ShowsAll(m.children, more[m].kids, more) {
      ShowsMore(m.children, if m == n then d.kids else sealed[m].kids, sealed, n, d);
    }
  }

  /** A completed node hung under the innermost open node. */
  lemma LeafAdded(nodes: seq<Node>, links: seq<seq<Child>>, path: Path, sealed: map<Node, Dom>, n: Node, d: Dom)
    requires Describes(nodes, links, path, sealed) && Faithful(sealed) && n !in sealed && |n.lineage| == |nodes|
    requires d.Elem? && n.tag == d.tag && n.attrs == d.attrs && ShowsAll(n.children, d.kids, sealed)
    ensures Faithful(sealed[n := d])
    ensures var top := |path| - 1;
            Describes(nodes, links[top := links[top] + [Kid(n)]], Append(path, [d]), sealed[n := d])
  {
    FaithfulMore(sealed, n, d);
    DescribesMore(nodes, links, path, sealed, n, d);
    DescribesAppend(nodes, links, path, sealed[n := d], Kid(n), d);
  }

  /** The value of the innermost open node. */
  function Completed(p: Path): Dom {
    var top := p[|p| - 1];
    Elem(top.tag, top.attrs, top.kids)
  }

  ghost function LinksSealed(links: seq<seq<Child>>, n: Node): seq<seq<Child>>
    requires |links| > 1
  {
    var last := |links| - 1;
    links[..last][last - 1 := links[last - 1] + [Kid(n)]]
  }

  /** Counting the innermost open node as complete; the heap stays as it is. */
  lemma SealLast(nodes: seq<Node>, links: seq<seq<Child>>, path: Path, sealed: map<Node, Dom>)
    requires Describes(nodes, links, path, sealed) && Stored(nodes, links) && Faithful(sealed) && |nodes| > 1
    ensures var last, n := |nodes| - 1, nodes[|nodes| - 1];
            var sealed' := sealed[n := Completed(path)];
            && Describes(nodes[..last], LinksSealed(links, n), SealTop(path), sealed')
            && Stored(nodes[..last], LinksSealed(links, n)) && Faithful(sealed')
  {
    var last := |nodes| - 1;
    var n := nodes[last];
    assert OpenAt(last, n, links[last], path[last], sealed);
    DescribesPop(nodes, links, path, sealed);
    LeafAdded(nodes[..last], links[..last], path[..last], sealed, n, Completed(path));
  }

  /** The values of all nodes of the tree, open ones included. */
  lemma {:induction false} Values(nodes: seq<Node>, links: seq<seq<Child>>, path: Path, sealed: map<Node, Dom>)
    returns (known: map<Node, Dom>)
    requires Describes(nodes, links, path, sealed) && Stored(nodes, links) && Faithful(sealed)
    ensures nodes[0] in known && Faithful(known)
    ensures known[nodes[0]].kids == SealTo(path, 1)[0].kids
    decreases |nodes|
  {
    if |nodes| == 1 {
      assert OpenAt(0, nodes[0], links[0], path[0], sealed);
      FaithfulMore(sealed, nodes[0], Completed(path));
      known := sealed[nodes[0] := Completed(path)];
    } else {
      SealLast(nodes, links, path, sealed);
      var last, n := |nodes| - 1, nodes[|nodes| - 1];
      known := Values(nodes[..last], LinksSealed(links, n), SealTop(path), sealed[n := Completed(path)]);
    }
  }

  ghost predicate OnPath(nodes: seq<Node>, family: set<Node>) {
    forall i :: 0 <= i < |nodes| ==> nodes[i] in family && nodes[i].lineage == nodes[..i]
  }

  lemma OnPathPrefix(nodes: seq<Node>, family: set<Node>, i: nat)
    requires OnPath(nodes, family) && i <= |nodes|
    ensures OnPath(nodes[..i], family)
  {
    forall j | 0 <= j < i ensures nodes[..i][j].lineage == nodes[..i][..j] {
      assert nodes[j].lineage == nodes[..j];
    }
  }

  lemma OnPathPlus(nodes: seq<Node>, family: set<Node>, n: Node)
    requires OnPath(nodes, family) && n.lineage == nodes
    ensures OnPath(nodes, family + {n}) && OnPath(nodes + [n], family + {n})
  {
    var more := nodes + [n];
    forall j | 0 <= j < |more| ensures more[j] in family + {n} && more[j].lineage == more[..j] {
      if j < |nodes| {
        assert nodes[j].lineage == nodes[..j] == more[..j];
      }
    }
  }

  /** The bookkeeping agrees with the heap: the open path and the completed nodes have the values
      they should have, parents are what the children lists say, and `trail` extends the path. */
  ghost predicate Sound(root: Node, nodes: seq<Node>, links: seq<seq<Child>>, path: Path, sealed: map<Node, Dom>,
                        trail: seq<Node>, family: set<Node>)
    reads nodes, sealed.Keys, trail, family
  {
    && Describes(nodes, links, path, sealed)
    && Stored(nodes, links)
    && Faithful(sealed)
    && nodes[0] == root
    && nodes <= trail && ParentChain(trail)
    && Threaded(family) && OnPath(nodes, family)
  }

  class Tree {
    const root: Node
    var cur: Node
    ghost var nodes: seq<Node>        // the open path: root first, cursor last
    ghost var links: seq<seq<Child>>  // the completed children of each open node
    ghost var path: Path              // the value of the open path
    ghost var sealed: map<Node, Dom>  // completed nodes and their values
    ghost var trail: seq<Node>        // from the root down to the node created last
    ghost var family: set<Node>       // every node of the tree

    ghost predicate Linked()
      reads this, nodes, sealed.Keys, trail, family
    {
      Sound(root, nodes, links, path, sealed, trail, family)
    }

    /** The cursor is the last open node, hence an ancestor-or-self of the node created last. */
    ghost predicate Valid()
      reads this, nodes, sealed.Keys, trail, family
    {
      Linked() && cur == nodes[|nodes| - 1]
    }

    constructor ()
      ensures Valid() && path == EMPTY && fresh(root) && trail == [root] && sealed == map[] && family == {root}
    {
      var r := new Node("root", map[], []);
      root, cur, nodes, links, path, sealed, trail, family := r, r, [r], [[]], EMPTY, map[], [r], {r};
    }

    /** Completes the innermost open node; only the bookkeeping changes, not the heap. */
    ghost method SealOne()
      requires Linked() && |nodes| > 1
      modifies `nodes, `links, `path, `sealed
      ensures Linked() && path == SealTop(old(path)) && nodes == old(nodes[..|nodes| - 1])
    {
      SealLast(nodes, links, path, sealed);
      var last := |nodes| - 1;
      var n := nodes[last];
      OnPathPrefix(nodes, family, last);
      nodes, links, path, sealed := nodes[..last], LinksSealed(links, n), SealTop(path), sealed[n := Completed(path)];
    }

    /** Completes every open node from index i inwards. */
    ghost method SealDownTo(i: nat)
      requires Linked() && 1 <= i <= |nodes|
      modifies `nodes, `links, `path, `sealed
      ensures Linked() && path == SealTo(old(path), i) && nodes == old(nodes[..i])
    {
      while |nodes| > i
        invariant i <= |nodes| == |path| && Linked() && nodes <= old(nodes)
        invariant SealTo(path, i) == SealTo(old(path), i)
      {
        SealOne();
      }
    }

    /** Creates a node as the last child of the cursor. */
    method AddNode(tag: string, attrs: Attrs) returns (n: Node)
      requires Valid()
      modifies cur`children
      ensures fresh(n) && n.tag == tag && n.attrs == attrs && Hung(n)
      ensures Threaded(family + {n}) && OnPath(nodes, family + {n}) && OnPath(nodes + [n], family + {n})
    {
      n := Hang(tag, attrs);
      OthersKeep(nodes, links, path, sealed);
      ChainPlus(nodes, trail, n);
      OnPathPlus(nodes, family, n);
    }

    /** The three assignments, and that every node keeps its parent. */
    method Hang(tag: string, attrs: Attrs) returns (n: Node)
      requires Threaded(family) && OnPath(nodes, family) && nodes != [] && cur == nodes[|nodes| - 1]
      modifies cur`children
      ensures fresh(n) && n.tag == tag && n.attrs == attrs && n.lineage == nodes && n.children == [] && n.parent == cur
      ensures cur.children == old(cur.children) + [Kid(n)] && Threaded(family + {n})
    {
      ghost var before := map m <- family :: m.children;
      n := new Node(tag, attrs, nodes);
      n.parent := cur;
      cur.children := cur.children + [Kid(n)];
      assert cur.lineage + [cur] == nodes;
      ThreadedGrows(family, before, cur, n);
    }

    /** Bookkeeping for a node just hung under the cursor. */
    ghost predicate Hung(n: Node)
      reads this, nodes, sealed.Keys, trail, n
    {
      && Describes(nodes, links, path, sealed) && StoredWith(nodes, links, Kid(n)) && Faithful(sealed)
      && nodes[0] == root && cur == nodes[|nodes| - 1]
      && n !in sealed && |n.lineage| == |nodes| && n.children == [] && ParentChain(nodes + [n])
    }

    ghost method NoteLeaf(n: Node)
      requires Hung(n) && Threaded(family + {n}) && OnPath(nodes, family + {n})
      modifies `links, `path, `sealed, `trail, `family
      ensures Valid() && family == old(family) + {n} && path == Append(old(path), [Elem(n.tag, n.attrs, [])]) && trail == nodes + [n]
    {
      var d, top := Elem(n.tag, n.attrs, []), |nodes| - 1;
      LeafAdded(nodes, links, path, sealed, n, d);
      StoredLeaf(nodes, links, Kid(n));
      links, path, sealed, trail, family :=
        links[top := links[top] + [Kid(n)]], Append(path, [d]), sealed[n := d], nodes + [n], family + {n};
    }

    method HandleStartEnd(tag: string, attrs: Attrs)
      requires Valid()
      modifies cur`children, `links, `path, `sealed, `trail, `family
      ensures Valid() && path == Step(old(path), StartEnd(tag, attrs))
      ensures trail == nodes + [trail[|trail| - 1]] && fresh(trail[|trail| - 1])
      ensures family == old(family) + {trail[|trail| - 1]}
    {
      var n := AddNode(tag, attrs);
      NoteLeaf(n);
    }

    ghost method NoteOpen(n: Node)
      requires Hung(n) && Threaded(family + {n}) && OnPath(nodes + [n], family + {n})
      modifies `nodes, `links, `path, `trail, `family
      ensures Linked() && nodes == trail == old(nodes) + [n] && path == old(path) + [Frame(n.tag, n.attrs, [])]
      ensures family == old(family) + {n}
    {
      DescribesPush(nodes, links, path, sealed, n);
      StoredPush(nodes, links, n);
      nodes, links, path, trail, family :=
        nodes + [n], links + [[]], path + [Frame(n.tag, n.attrs, [])], nodes + [n], family + {n};
    }

    method OpenNode(tag: string, attrs: Attrs)
      requires Valid()
      modifies this, cur`children
      ensures Valid() && path == old(path) + [Frame(tag, attrs, [])]
      ensures trail == nodes == old(nodes) + [cur] && fresh(cur) && family == old(family) + {cur}
    {
      var n := AddNode(tag, attrs);
      NoteOpen(n);
      MoveTo(n);
    }

    method MoveTo(node: Node)
      requires Linked() && node == nodes[|nodes| - 1]
      modifies `cur
      ensures Valid() && cur == node
    {
      cur := node;
    }

    /** A void tag leaves the cursor where it is, as `HandleStartEnd` does. */
    method HandleStart(tag: string, attrs: Attrs)
      requires Valid()
      modifies this, cur`children
      ensures Valid() && path == Step(old(path), Start(tag, attrs))
      ensures trail == old(nodes) + [trail[|trail| - 1]] && fresh(trail[|trail| - 1])
      ensures family == old(family) + {trail[|trail| - 1]}
    {
      if tag in VOID {
        HandleStartEnd(tag, attrs);
      } else {
        OpenNode(tag, attrs);
      }
    }

    method WalkUp(tag: string) returns (node: Node, ghost i: nat)
      requires Valid()
      ensures i == Innermost(path, tag) && node == nodes[i] && (node == root <==> i == 0)
    {
      node, i := cur, |nodes| - 1;
      assert path[..i + 1] == path;
      assert OpenAt(i, nodes[i], links[i], path[i], sealed) && OpenAt(0, root, links[0], path[0], sealed);
      while node != root && node.tag != tag
        invariant 0 <= i < |nodes| && node == nodes[i] && |node.lineage| == i && node.tag == path[i].tag
        invariant Innermost(path, tag) == Innermost(path[..i + 1], tag)
        decreases i
      {
        assert path[..i + 1][..i] == path[..i];
        assert trail[i].parent == trail[i - 1];
        node := node.parent;
        i := i - 1;
        assert OpenAt(i, nodes[i], links[i], path[i], sealed);
      }
    }

    /** An end tag that no open node has leaves the tree alone; otherwise the cursor moves
        to the parent of the innermost match. */
    method HandleEnd(tag: string)
      requires Valid()
      modifies this
      ensures Valid() && path == Step(old(path), End(tag))
      ensures nodes <= old(nodes) && trail == old(trail) && family == old(family)
    {
      var node, i := WalkUp(tag);
      if node != root && node.parent != null {
        assert trail[i].parent == trail[i - 1];
        SealDownTo(i);
        MoveTo(node.parent);
      }
    }

    method HandleData(text: string)
      requires Valid()
      modifies `path, `links, cur`children
      ensures Valid() && path == Step(old(path), Data(text))
    {
      ghost var top := |nodes| - 1;
      DescribesAppend(nodes, links, path, sealed, Words(text), Text(text));
      OthersKeep(nodes, links, path, sealed);
      Say(text);
      StoredLeaf(nodes, links, Words(text));
      links := links[top := links[top] + [Words(text)]];
      path := Append(path, [Text(text)]);
    }

    /** The assignment, and that every node keeps its parent. */
    method Say(text: string)
      requires Threaded(family) && cur in family
      modifies cur`children
      ensures cur.children == old(cur.children) + [Words(text)] && Threaded(family)
    {
      ghost var before := map m <- family :: m.children;
      cur.children := cur.children + [Words(text)];
      ThreadedSays(family, before, cur, text);
    }

    method Handle(t: Token)
      requires Valid()
      modifies this, cur`children
      ensures Valid() && path == Step(old(path), t)
      ensures forall n <- nodes :: n in old(nodes) || fresh(n)
    {
      match t
      case Start(tag, attrs) => HandleStart(tag, attrs);
      case StartEnd(tag, attrs) => HandleStartEnd(tag, attrs);
      case End(tag) => HandleEnd(tag);
      case Data(text) => HandleData(text);
    }
  }

  /** Feeds a whole token stream to a new tree and lists its nodes.  Whatever the tokens, the
      traversal meets the nodes in the order their start tags arrived, each once; and every
      node, open or closed, is the parent of the nodes hung under it. */
  method Parse(ts: seq<Token>) returns (tree: Tree, all: seq<Node>, ghost known: map<Node, Dom>)
    ensures fresh(tree) && tree.Valid() && tree.path == Run(EMPTY, ts)
    ensures tree.root in known && Faithful(known) && known[tree.root].kids == Document(ts)
    ensures Labels(all) == Elements(Arrivals(ts)) && NoRepeats(all) && forall n <- all :: n in tree.family
    ensures tree.root in tree.family &&
            forall n <- tree.family, c :: Kid(c) in n.children ==> c in tree.family && c.parent == n
  {
    tree := new Tree();
    for i := 0 to |ts|
      invariant fresh(tree) && tree.Valid() && forall n <- tree.nodes :: fresh(n)
      invariant Run(tree.path, ts[i..]) == Run(EMPTY, ts)
    {
      assert ts[i..][1..] == ts[i + 1..];
      assert tree.cur in tree.nodes;
      tree.Handle(ts[i]);
    }
    known := Values(tree.nodes, tree.links, tree.path, tree.sealed);
    DocumentOrderIsArrivalOrder(ts);
    assert tree.nodes[0].lineage == [];
    all := Descendants(tree.root, known, tree.family);
    forall n <- tree.family, c | Kid(c) in n.children ensures c in tree.family && c.parent == n {
      assert ThreadedAt(n, n.children, tree.family);
    }
  }
}
