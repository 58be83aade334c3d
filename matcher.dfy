/**
 * match (esquery.js): the nodes of a tree that a selector picks, in the order
 * the source pushes them.
 *
 * Every case that walks the tree is a visitPre call with the callback the
 * source passes; a callback is a function of the node and the incoming
 * context that returns what it pushes and the context it hands down. The
 * loops the sibling and adjacent callbacks run over an array are methods,
 * each proved equal to the function the callbacks use.
 */
module Matcher {
  import opened Common
  import opened Selector
  import opened Tree
  import opened PathResolve

  // ---------------------------------------------------------------------------
  // Scans over one array of nodes

  /** The first node of `ks` from position `j` on that is in `R`, if any. */
  function FirstFrom(ks: seq<Node>, j: nat, R: seq<Node>): (r: seq<Node>)
    requires j <= |ks|
    ensures |r| <= 1
    decreases |ks| - j
  {
    if j == |ks| then []
    else if In(ks[j], R) then [ks[j]]
    else FirstFrom(ks, j + 1, R)
  }

  /** What the sibling scan pushes for the left-hand positions below `n`. */
  function SiblingsUpTo(ks: seq<Node>, L: seq<Node>, R: seq<Node>, n: nat): seq<Node>
    requires n <= |ks|
  {
    if n == 0 then []
    else SiblingsUpTo(ks, L, R, n - 1) + (if In(ks[n - 1], L) then FirstFrom(ks, n, R) else [])
  }

  /**
   * For every position of `ks` holding a node of `L`, in order, the first
   * later node of `R` (a node may be pushed once for each such position).
   */
  function SiblingHits(ks: seq<Node>, L: seq<Node>, R: seq<Node>): seq<Node> {
    SiblingsUpTo(ks, L, R, |ks|)
  }

  /** What the adjacent scan pushes for the left-hand positions below `n`. */
  function AdjacentUpTo(ks: seq<Node>, L: seq<Node>, R: seq<Node>, n: nat): seq<Node>
    requires n < |ks| || n == 0
  {
    if n == 0 then []
    else AdjacentUpTo(ks, L, R, n - 1) + (if In(ks[n - 1], L) && In(ks[n], R) then [ks[n]] else [])
  }

  /** For every position of `ks` holding a node of `L`, the next node when it is in `R`. */
  function AdjacentHits(ks: seq<Node>, L: seq<Node>, R: seq<Node>): seq<Node> {
    if ks == [] then [] else AdjacentUpTo(ks, L, R, |ks| - 1)
  }

  /** The element nth-child picks from one array: from the front, or from the back when negative. */
  function NthHits(ks: seq<Node>, index: int): (r: seq<Node>)
    ensures |r| <= 1 && forall x | x in r :: x in ks
    ensures r != [] <==> -|ks| <= index < |ks|
    ensures 0 <= index < |ks| ==> r == [ks[index]]
    ensures index < 0 && |ks| + index >= 0 ==> r == [ks[|ks| + index]]
  {
    if 0 <= index < |ks| then [ks[index]]
    else if index < 0 && |ks| + index >= 0 then [ks[|ks| + index]]
    else []
  }

  /** The sibling callback's loop over one array, as the source runs it. */
  method ScanSiblings(ks: seq<Node>, L: seq<Node>, R: seq<Node>) returns (pushed: seq<Node>)
    ensures pushed == SiblingHits(ks, L, R)
  {
    pushed := [];
    var i := 0;
    while i < |ks|
      invariant 0 <= i <= |ks|
      invariant pushed == SiblingsUpTo(ks, L, R, i)
    {
      if IndexOf(L, ks[i]) > -1 {
        var j := i + 1;
        while j < |ks|
          invariant i + 1 <= j <= |ks|
          invariant pushed == SiblingsUpTo(ks, L, R, i)
          invariant FirstFrom(ks, i + 1, R) == FirstFrom(ks, j, R)
        {
          if IndexOf(R, ks[j]) > -1 {
            assert FirstFrom(ks, j, R) == [ks[j]];
            pushed := pushed + [ks[j]];
            assert pushed == SiblingsUpTo(ks, L, R, i + 1);
            break;
          }
          j := j + 1;
        }
        assert pushed == SiblingsUpTo(ks, L, R, i + 1);
      }
      i := i + 1;
    }
  }

  /** The adjacent callback's loop over one array, as the source runs it. */
  method ScanAdjacent(ks: seq<Node>, L: seq<Node>, R: seq<Node>) returns (pushed: seq<Node>)
    ensures pushed == AdjacentHits(ks, L, R)
  {
    pushed := [];
    var i := 0;
    while i < |ks| - 1
      invariant 0 <= i && (i < |ks| || i == 0)
      invariant pushed == AdjacentUpTo(ks, L, R, i)
    {
      if IndexOf(L, ks[i]) > -1 {
        if IndexOf(R, ks[i + 1]) > -1 {
          pushed := pushed + [ks[i + 1]];
        }
      }
      i := i + 1;
    }
  }

  /** What a callback pushes over `Object.keys(node)`: `scan` of every array field, in field order. */
  function EachList(fs: seq<Field>, scan: seq<Node> -> seq<Node>): seq<Node> {
    if fs == [] then []
    else (if fs[0].value.ListField? then scan(fs[0].value.nodes) else []) + EachList(fs[1..], scan)
  }

  // ---------------------------------------------------------------------------
  // Attribute tests

  /** `===` between a property value and a selector literal. */
  predicate StrictEquals(v: Option<FieldValue>, lit: Literal) {
    match lit
    case NumLit(k) => v == Some(ScalarField(NumScalar(k)))
    case StrLit(s) => v == Some(ScalarField(StrScalar(s)))
  }

  /** `[name]`: the path is defined at the node. */
  function HasPath(name: string): Node -> bool {
    (n: Node) => ResolvedPath(NodeField(n), name).Some?
  }

  /** `[name=value]`: the value at the path is the literal. */
  function PathEquals(name: string, lit: Literal): Node -> bool {
    (n: Node) => StrictEquals(ResolvedPath(NodeField(n), name), lit)
  }

  /** `[name]` and `[name=value]`: what the node must satisfy. */
  function AttributeTest(name: string, value: Option<Literal>): Node -> bool {
    if value.None? then HasPath(name) else PathEquals(name, value.value)
  }

  /** A node's `type` is `name`. */
  function HasType(name: string): Node -> bool {
    (n: Node) => n.nodeType == Some(name)
  }

  /** `rightMatches.indexOf(node) > -1` */
  function InMatches(R: seq<Node>): Node -> bool {
    (n: Node) => IndexOf(R, n) > -1
  }

  // ---------------------------------------------------------------------------
  // The callbacks

  /** Pushes every node it sees. */
  function PushEach(): (Node, bool) -> (seq<Node>, Option<bool>) {
    (n: Node, inside: bool) => ([n], None)
  }

  /** Pushes the nodes that satisfy `test`. */
  function PushIf(test: Node -> bool): (Node, bool) -> (seq<Node>, Option<bool>) {
    (n: Node, inside: bool) => (if test(n) then [n] else [], None)
  }

  /**
   * descendant: pushes a node of R when the context is true, and hands true to
   * the subtree of a node of L (otherwise undefined: the context is inherited).
   */
  function DescendantVisitor(L: seq<Node>, R: seq<Node>): (Node, bool) -> (seq<Node>, Option<bool>) {
    (n: Node, inside: bool) =>
      (if inside && IndexOf(R, n) > -1 then [n] else [],
       if IndexOf(L, n) > -1 then Some(true) else None)
  }

  /**
   * child: pushes a node of R when the context is positive, and hands 1 to the
   * subtree of a node of L and 0 to any other. The root's context is
   * undefined, and `undefined > 0` is false as `0 > 0` is.
   */
  function ChildVisitor(L: seq<Node>, R: seq<Node>): (Node, int) -> (seq<Node>, Option<int>) {
    (n: Node, parent: int) =>
      (if parent > 0 && IndexOf(R, n) > -1 then [n] else [],
       Some(if IndexOf(L, n) > -1 then 1 else 0))
  }

  function SiblingScan(L: seq<Node>, R: seq<Node>): seq<Node> -> seq<Node> {
    ks => SiblingHits(ks, L, R)
  }

  function AdjacentScan(L: seq<Node>, R: seq<Node>): seq<Node> -> seq<Node> {
    ks => AdjacentHits(ks, L, R)
  }

  function NthScan(index: int): seq<Node> -> seq<Node> {
    ks => NthHits(ks, index)
  }

  /** sibling, adjacent and nth-child: run `scan` over every array field of the node. */
  function ScanVisitor(scan: seq<Node> -> seq<Node>): (Node, bool) -> (seq<Node>, Option<bool>) {
    (n: Node, inside: bool) => (EachList(n.fields, scan), None)
  }

  // ---------------------------------------------------------------------------
  // match

  /** match(ast, selector): an undefined selector matches nothing. */
  function Match(root: Node, selector: Option<Selector>): seq<Node>
    decreases selector
  {
    match selector
    case None => []
    case Some(s) => MatchSelector(root, s)
  }

  function MatchSelector(root: Node, s: Selector): seq<Node>
    decreases s
  {
    match s
    case Wildcard => VisitPre(root, PushEach(), false)
    case Identifier(name) => VisitPre(root, PushIf(HasType(name)), false)
    case Descendant(l, r) => VisitPre(root, DescendantVisitor(MatchSelector(root, l), Match(root, r)), false)
    case Child(l, r) => VisitPre(root, ChildVisitor(MatchSelector(root, l), Match(root, r)), 0)
    case Sibling(l, r) => VisitPre(root, ScanVisitor(SiblingScan(MatchSelector(root, l), Match(root, r))), false)
    case Adjacent(l, r) => VisitPre(root, ScanVisitor(AdjacentScan(MatchSelector(root, l), Match(root, r))), false)
    // A selector whose `type` is undefined falls through the switch.
    case Unmapped(_, _, _) => []
    case NthChild(index) =>
      // A string index is left out: it matches nothing here.
      if index.NumLit? then VisitPre(root, ScanVisitor(NthScan(index.num)), false) else []
    case And(l, r) => Where(MatchSelector(root, l), InMatches(Match(root, r)))
    case Attribute(name, value) => VisitPre(root, PushIf(AttributeTest(name, value)), false)
  }
}
