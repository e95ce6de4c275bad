/** The parsed HTML document the three extractors read, and the BeautifulSoup queries they use.
    Parsing markup text into this tree is not part of the model: the tree is the input.

    - `n.find(q)` is the first strict descendant of `n`, in document (pre-)order, that `q` matches;
    - `n.find_all(q)` is every such descendant, in document order;
    - `n.find_all(q, recursive=False)` looks at the direct children only;
    - `n.text` concatenates the text nodes below `n`;
    - parent and sibling moves are made on index paths from the document root. */
module Html {
  import opened Wrappers
  import opened Strings

  datatype Node =
    | Element(tag: string, attrs: map<string, string>, classes: seq<string>, children: seq<Node>)
    | Text(content: string)

  /** What a `class_=` argument asks of an element's class list. */
  datatype ClassTest =
    | AnyClass
    | HasClass(name: string)              // class_='name'
    | ClassContaining(fragment: string)   // class_=lambda x: x and fragment in x

  /** What a `string=` argument asks of a text node. */
  datatype TextTest =
    | Containing(needle: string)               // string=lambda x: x and needle in x
    | ContainingIgnoringCase(needle: string)   // string=lambda x: x and needle.lower() in x.lower()
    | Exactly(text: string)                    // string='text'
    | PercentFigure                            // string=re.compile(r'\d+\.?\d*%')

  datatype Query =
    | ElementQuery(tag: string, attr: Option<(string, string)>, cls: ClassTest)
    | TextQuery(test: TextTest)

  /** `find(tag)` with no further filter. */
  function TagQuery(tag: string): Query {
    ElementQuery(tag, None, AnyClass)
  }

  /** `find(tag, attrs={key: value})`. */
  function AttrQuery(tag: string, key: string, value: string): Query {
    ElementQuery(tag, Some((key, value)), AnyClass)
  }

  /** `find(tag, class_=name)`. */
  function ClassQuery(tag: string, name: string): Query {
    ElementQuery(tag, None, HasClass(name))
  }

  predicate ClassMatches(classes: seq<string>, t: ClassTest) {
    match t
    case AnyClass => true
    case HasClass(name) => name in classes
    case ClassContaining(fragment) => exists c | c in classes :: Contains(c, fragment)
  }

  predicate TextMatches(s: string, t: TextTest) {
    match t
    case Containing(needle) => s != "" && Contains(s, needle)
    case ContainingIgnoringCase(needle) => s != "" && Contains(Lower(s), Lower(needle))
    case Exactly(text) => s == text
    case PercentFigure => HasPercentFigure(s)
  }

  predicate Matches(n: Node, q: Query) {
    match q
    case ElementQuery(tag, attr, cls) =>
      && n.Element? && n.tag == tag
      && (attr.Some? ==> attr.value.0 in n.attrs && n.attrs[attr.value.0] == attr.value.1)
      && ClassMatches(n.classes, cls)
    case TextQuery(test) => n.Text? && TextMatches(n.content, test)
  }

  // ---------------------------------------------------------------------------
  // document order

  /** Every strict descendant of `n`, in document order. */
  function Descendants(n: Node): seq<Node>
    decreases n, 1
  {
    if n.Element? then Forest(n.children) else []
  }

  /** The nodes of a list of sibling trees, each followed by its descendants. */
  function Forest(ns: seq<Node>): seq<Node>
    decreases ns, 0
  {
    if ns == [] then [] else [ns[0]] + Descendants(ns[0]) + Forest(ns[1..])
  }

  function Filter(ns: seq<Node>, q: Query): (r: seq<Node>)
    ensures |r| <= |ns|
    ensures forall x | x in r :: x in ns && Matches(x, q)
    ensures forall x | x in ns && Matches(x, q) :: x in r
  {
    if ns == [] then []
    else if Matches(ns[0], q) then [ns[0]] + Filter(ns[1..], q)
    else Filter(ns[1..], q)
  }

  function First(ns: seq<Node>): Option<Node> {
    if ns == [] then None else Some(ns[0])
  }

  /** `n.find_all(q)`. */
  function FindAll(n: Node, q: Query): seq<Node> {
    Filter(Descendants(n), q)
  }

  /** `n.find_all(q, recursive=False)`. */
  function FindChildren(n: Node, q: Query): seq<Node> {
    if n.Element? then Filter(n.children, q) else []
  }

  /** `n.find(q)`, searched the way BeautifulSoup walks the tree: stop at the first match. */
  function Find(n: Node, q: Query): Option<Node>
    decreases n, 1
  {
    if n.Element? then FindInForest(n.children, q) else None
  }

  function FindInForest(ns: seq<Node>, q: Query): Option<Node>
    decreases ns, 0
  {
    if ns == [] then None
    else if Matches(ns[0], q) then Some(ns[0])
    else match Find(ns[0], q)
      case Some(x) => Some(x)
      case None => FindInForest(ns[1..], q)
  }

  lemma {:induction false} FilterAppend(a: seq<Node>, b: seq<Node>, q: Query)
    ensures Filter(a + b, q) == Filter(a, q) + Filter(b, q)
  {
    if a == [] {
      assert a + b == b;
    } else {
      var ab := a + b;
      assert ab[0] == a[0] && ab[1..] == a[1..] + b;
      FilterAppend(a[1..], b, q);
      if Matches(a[0], q) {
        calc {
          Filter(ab, q);
          [a[0]] + Filter(a[1..] + b, q);
          [a[0]] + (Filter(a[1..], q) + Filter(b, q));
          ([a[0]] + Filter(a[1..], q)) + Filter(b, q);
        }
      }
    }
  }

  /** `find` returns the first element of what `find_all` returns, and nothing when that is empty. */
  lemma {:induction false} FindIsFirstOfFindAll(n: Node, q: Query)
    ensures Find(n, q) == First(FindAll(n, q))
    decreases n, 1
  {
    if n.Element? {
      FindInForestIsFirst(n.children, q);
    }
  }

  lemma {:induction false} FindInForestIsFirst(ns: seq<Node>, q: Query)
    ensures FindInForest(ns, q) == First(Filter(Forest(ns), q))
    decreases ns, 0
  {
    if ns != [] {
      var x := ns[0];
      FilterAppend([x] + Descendants(x), Forest(ns[1..]), q);
      FilterAppend([x], Descendants(x), q);
      if !Matches(x, q) {
        FindIsFirstOfFindAll(x, q);
        FindInForestIsFirst(ns[1..], q);
      }
    }
  }

  // ---------------------------------------------------------------------------
  // .text

  /** `n.text`. */
  function TextOf(n: Node): string
    decreases n, 1
  {
    match n
    case Text(s) => s
    case Element(_, _, _, children) => ForestText(children)
  }

  function ForestText(ns: seq<Node>): string
    decreases ns, 0
  {
    if ns == [] then "" else TextOf(ns[0]) + ForestText(ns[1..])
  }

  /** The contents of the text nodes of a flat list of nodes, in order. */
  function TextContents(ns: seq<Node>): string {
    if ns == [] then "" else (if ns[0].Text? then ns[0].content else "") + TextContents(ns[1..])
  }

  lemma {:induction false} TextContentsAppend(a: seq<Node>, b: seq<Node>)
    ensures TextContents(a + b) == TextContents(a) + TextContents(b)
  {
    if a == [] {
      assert a + b == b;
    } else {
      assert (a + b)[0] == a[0] && (a + b)[1..] == a[1..] + b;
      TextContentsAppend(a[1..], b);
    }
  }

  /** `.text` of an element is exactly the text nodes below it, read in document order. */
  lemma {:induction false} TextIsDescendantContents(n: Node)
    requires n.Element?
    ensures TextOf(n) == TextContents(Descendants(n))
    decreases n, 1
  {
    ForestTextIsContents(n.children);
  }

  lemma {:induction false} ForestTextIsContents(ns: seq<Node>)
    ensures ForestText(ns) == TextContents(Forest(ns))
    decreases ns, 0
  {
    if ns != [] {
      var x := ns[0];
      TextContentsAppend([x] + Descendants(x), Forest(ns[1..]));
      TextContentsAppend([x], Descendants(x));
      ForestTextIsContents(ns[1..]);
      if x.Element? {
        TextIsDescendantContents(x);
      }
    }
  }

  /** `n.text.strip()`, the value every landmark lookup stores. */
  function StrippedText(n: Node): string {
    Strip(TextOf(n))
  }

  /** `n.find(q).text.strip()` when `find` finds an element, and nothing otherwise. */
  function FindText(n: Node, q: Query): (r: Option<string>)
    ensures r.Some? <==> Find(n, q).Some?
    ensures r.Some? ==> r.value == StrippedText(Find(n, q).value)
  {
    match Find(n, q)
    case None => None
    case Some(x) => Some(StrippedText(x))
  }

  // ---------------------------------------------------------------------------
  // index paths: `[i, j]` is the j-th child of the i-th child of the root

  type Path = seq<nat>

  function NodeAt(root: Node, p: Path): Option<Node>
    decreases |p|
  {
    if p == [] then Some(root)
    else if root.Element? && p[0] < |root.children| then NodeAt(root.children[p[0]], p[1..])
    else None
  }

  /** The path of every strict descendant, in document order. */
  function DescendantPaths(n: Node): seq<Path>
    decreases n, 1
  {
    if n.Element? then ForestPaths(n.children, 0) else []
  }

  function ForestPaths(ns: seq<Node>, base: nat): seq<Path>
    decreases ns, 0
  {
    if ns == [] then []
    else [[base]] + Under(base, DescendantPaths(ns[0])) + ForestPaths(ns[1..], base + 1)
  }

  function Under(i: nat, ps: seq<Path>): (r: seq<Path>)
    ensures |r| == |ps|
  {
    seq(|ps|, k requires 0 <= k < |ps| => [i] + ps[k])
  }

  /** The k-th path of `DescendantPaths` leads to the k-th node of `Descendants`. */
  lemma {:induction false} PathsLocate(n: Node)
    ensures |DescendantPaths(n)| == |Descendants(n)|
    ensures forall k | 0 <= k < |Descendants(n)| :: NodeAt(n, DescendantPaths(n)[k]) == Some(Descendants(n)[k])
    decreases n, 1, 0
  {
    if n.Element? {
      ForestPathsLocate(n, 0);
      assert n.children[0..] == n.children;
    }
  }

  lemma {:induction false} ForestPathsLocate(parent: Node, b: nat)
    requires parent.Element? && b <= |parent.children|
    ensures var ns := parent.children[b..];
            && |ForestPaths(ns, b)| == |Forest(ns)|
            && forall k | 0 <= k < |Forest(ns)| :: NodeAt(parent, ForestPaths(ns, b)[k]) == Some(Forest(ns)[k])
    decreases parent, 0, |parent.children| - b
  {
    var ns := parent.children[b..];
    if ns != [] {
      var x := parent.children[b];
      assert ns[0] == x && ns[1..] == parent.children[b + 1..];
      PathsLocate(x);
      ForestPathsLocate(parent, b + 1);
      var ps := ForestPaths(ns, b);
      var sub := DescendantPaths(x);
      assert ps == [[b]] + Under(b, sub) + ForestPaths(parent.children[b + 1..], b + 1);
      assert Forest(ns) == [x] + Descendants(x) + Forest(parent.children[b + 1..]);
      forall k | 0 <= k < |Forest(ns)|
        ensures NodeAt(parent, ps[k]) == Some(Forest(ns)[k])
      {
        if k == 0 {
          assert NodeAt(parent, [b]) == NodeAt(x, []);
        } else if k <= |sub| {
          var p := ps[k];
          assert p == [b] + sub[k - 1];
          assert p[0] == b && p[1..] == sub[k - 1];
        }
      }
    }
  }

  /** The index of the first node `q` matches. */
  function FirstIndex(ns: seq<Node>, q: Query): (r: Option<nat>)
    ensures r.Some? ==> r.value < |ns| && Matches(ns[r.value], q)
    ensures r.Some? ==> forall j | 0 <= j < r.value :: !Matches(ns[j], q)
    ensures r.None? ==> forall j | 0 <= j < |ns| :: !Matches(ns[j], q)
  {
    if ns == [] then None
    else if Matches(ns[0], q) then Some(0)
    else match FirstIndex(ns[1..], q)
      case None => None
      case Some(k) => Some(k + 1)
  }

  /** The path of `root.find(q)`. */
  function FindPath(root: Node, q: Query): Option<Path> {
    PathsLocate(root);
    match FirstIndex(Descendants(root), q)
    case None => None
    case Some(k) => Some(DescendantPaths(root)[k])
  }

  lemma {:induction false} FirstIndexIsFirstOfFilter(ns: seq<Node>, q: Query)
    ensures FirstIndex(ns, q).None? <==> Filter(ns, q) == []
    ensures FirstIndex(ns, q).Some? ==> Filter(ns, q)[0] == ns[FirstIndex(ns, q).value]
  {
    if ns != [] && !Matches(ns[0], q) {
      FirstIndexIsFirstOfFilter(ns[1..], q);
    }
  }

  /** `FindPath` leads to the node `find` returns, and exists exactly when that node does. */
  lemma FindPathLocates(root: Node, q: Query)
    ensures FindPath(root, q).Some? <==> Find(root, q).Some?
    ensures FindPath(root, q).Some? ==> NodeAt(root, FindPath(root, q).value) == Find(root, q)
  {
    PathsLocate(root);
    FirstIndexIsFirstOfFilter(Descendants(root), q);
    FindIsFirstOfFindAll(root, q);
  }

  lemma {:induction false} SameMatchesSameIndex(ns: seq<Node>, q1: Query, q2: Query)
    requires forall n | n in ns :: Matches(n, q1) == Matches(n, q2)
    ensures FirstIndex(ns, q1) == FirstIndex(ns, q2)
  {
    if ns != [] {
      SameMatchesSameIndex(ns[1..], q1, q2);
    }
  }

  /** Two queries that match the same nodes find the same path. */
  lemma SameMatchesSamePath(root: Node, q1: Query, q2: Query)
    requires forall n :: Matches(n, q1) == Matches(n, q2)
    ensures FindPath(root, q1) == FindPath(root, q2)
  {
    SameMatchesSameIndex(Descendants(root), q1, q2);
  }

  // ---------------------------------------------------------------------------
  // moves along paths

  predicate IsTagAt(root: Node, p: Path, tag: string) {
    var n := NodeAt(root, p);
    n.Some? && n.value.Element? && n.value.tag == tag
  }

  /** `x.find_parent(tag)` for the node `x` at `p`: the path of the nearest proper ancestor that is
      a `tag` element. */
  function EnclosingPath(root: Node, p: Path, tag: string): (r: Option<Path>)
    ensures r.Some? ==> |r.value| < |p| && r.value == p[..|r.value|] && IsTagAt(root, r.value, tag)
    ensures r.Some? ==> forall m | |r.value| < m < |p| :: !IsTagAt(root, p[..m], tag)
    ensures r.None? ==> forall m | 0 <= m < |p| :: !IsTagAt(root, p[..m], tag)
    decreases |p|
  {
    if p == [] then None
    else
      var up := p[..|p| - 1];
      assert forall m | 0 <= m < |up| :: up[..m] == p[..m];
      if IsTagAt(root, up, tag) then Some(up) else EnclosingPath(root, up, tag)
  }

  /** `x.parent`, as a path. */
  function ParentPath(p: Path): Option<Path> {
    if p == [] then None else Some(p[..|p| - 1])
  }

  /** `x.find_next_sibling(tag)` for the node `x` at `p`: the first later sibling that is a `tag` element. */
  function NextSibling(root: Node, p: Path, tag: string): (r: Option<Node>)
    ensures r.Some? ==> r.value.Element? && r.value.tag == tag
  {
    if p == [] then None
    else match NodeAt(root, p[..|p| - 1])
      case Some(Element(_, _, _, siblings)) =>
        var i := p[|p| - 1];
        if i < |siblings| then
          var later := Filter(siblings[i + 1..], TagQuery(tag));
          assert later != [] ==> later[0] in later;
          First(later)
        else None
      case _ => None
  }
}
