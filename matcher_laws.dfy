/**
 * What match computes, stated against the pre-order of the tree and each
 * node's ancestors rather than against the callbacks that compute it.
 */
module MatcherLaws {
  import opened Common
  import opened Selector
  import opened Tree
  import opened PathResolve
  import opened Matcher

  // ---------------------------------------------------------------------------
  // Walks whose callback hands nothing down

  /** The context a callback that always returns undefined leaves everywhere. */
  function Unchanged(): seq<Node> -> bool {
    (a: seq<Node>) => false
  }

  /** A callback that returns undefined pushes, at every visit, what it pushes for that node. */
  lemma ContextFreeWalk(root: Node, visit: (Node, bool) -> (seq<Node>, Option<bool>))
    requires forall m: Node, c: bool :: visit(m, c).1 == None
    ensures VisitPre(root, visit, false) == FlatMap(Visits(root, []), PushedAt(visit, Unchanged()))
  {
    VisitPreByAncestry(root, visit, Unchanged(), []);
  }

  /** `*` matches every node, in pre-order. */
  lemma WildcardIsPreOrder(root: Node)
    ensures MatchSelector(root, Wildcard) == PreOrder(root)
  {
    ContextFreeWalk(root, PushEach());
    FlatMapKeepsAll(Visits(root, []), PushedAt(PushEach(), Unchanged()));
  }

  /** A callback that pushes the nodes passing `test` filters the pre-order. */
  lemma PushIfFilters(root: Node, test: Node -> bool)
    ensures VisitPre(root, PushIf(test), false) == Where(PreOrder(root), test)
  {
    ContextFreeWalk(root, PushIf(test));
    FlatMapFilters(Visits(root, []), PushedAt(PushIf(test), Unchanged()), test);
  }

  /** An identifier matches exactly the nodes of the tree whose `type` is the name, in pre-order. */
  lemma IdentifierFiltersPreOrder(root: Node, name: string)
    ensures MatchSelector(root, Identifier(name)) == Where(PreOrder(root), HasType(name))
    ensures forall x :: x in MatchSelector(root, Identifier(name)) <==> x in PreOrder(root) && x.nodeType == Some(name)
  {
    PushIfFilters(root, HasType(name));
    WhereLaws(PreOrder(root), HasType(name));
  }

  /** `[name]` and `[name=value]` filter the pre-order with their attribute test. */
  lemma AttributeFiltersPreOrder(root: Node, name: string, value: Option<Literal>)
    ensures MatchSelector(root, Attribute(name, value)) == Where(PreOrder(root), AttributeTest(name, value))
  {
    var test := AttributeTest(name, value);
    assert MatchSelector(root, Attribute(name, value)) == VisitPre(root, PushIf(test), false);
    PushIfFilters(root, test);
  }

  /** `[name]` matches exactly the nodes at which getPath is defined. */
  lemma AttributePresence(root: Node, name: string)
    ensures forall x :: x in MatchSelector(root, Attribute(name, None)) <==>
              x in PreOrder(root) && ResolvedPath(NodeField(x), name).Some?
  {
    AttributeFiltersPreOrder(root, name, None);
    WhereLaws(PreOrder(root), HasPath(name));
  }

  /** `[name=value]` matches exactly the nodes at which getPath is `===` the literal. */
  lemma AttributeEquality(root: Node, name: string, lit: Literal)
    ensures forall x :: x in MatchSelector(root, Attribute(name, Some(lit))) <==>
              x in PreOrder(root) && StrictEquals(ResolvedPath(NodeField(x), name), lit)
  {
    AttributeFiltersPreOrder(root, name, Some(lit));
    WhereLaws(PreOrder(root), PathEquals(name, lit));
  }

  // ---------------------------------------------------------------------------
  // and

  /** `and` keeps, in order, the left matches that are also right matches. */
  lemma AndIsOrderedIntersection(root: Node, l: Selector, r: Option<Selector>)
    ensures Subsequence(MatchSelector(root, And(l, r)), MatchSelector(root, l))
    ensures forall x :: x in MatchSelector(root, And(l, r)) <==>
              x in MatchSelector(root, l) && In(x, Match(root, r))
  {
    var L, R := MatchSelector(root, l), Match(root, r);
    assert MatchSelector(root, And(l, r)) == Where(L, InMatches(R));
    WhereLaws(L, InMatches(R));
    assert forall x :: InMatches(R)(x) == In(x, R);
  }

  // ---------------------------------------------------------------------------
  // descendant and child

  lemma {:induction false} AnyInSnoc(a: seq<Node>, m: Node, L: seq<Node>)
    ensures AnyIn(a + [m], L) <==> AnyIn(a, L) || In(m, L)
  {
    if AnyIn(a + [m], L) {
      var j :| 0 <= j < |a + [m]| && In((a + [m])[j], L);
      if j < |a| {
        assert In(a[j], L);
      }
    }
    if AnyIn(a, L) {
      var j :| 0 <= j < |a| && In(a[j], L);
      assert (a + [m])[j] == a[j];
    }
    if In(m, L) {
      assert (a + [m])[|a|] == m;
    }
  }

  /** A visit of a node of R with some ancestor in L. */
  function BelowLeft(L: seq<Node>, R: seq<Node>): Visit -> bool {
    (v: Visit) => In(v.node, R) && AnyIn(v.ancestors, L)
  }

  /** The parent of a visited node: its last ancestor, none for the root. */
  function Parent(v: Visit): Option<Node> {
    if v.ancestors == [] then None else Some(v.ancestors[|v.ancestors| - 1])
  }

  /** A visit of a node of R whose parent is in L. */
  function UnderLeft(L: seq<Node>, R: seq<Node>): Visit -> bool {
    (v: Visit) => In(v.node, R) && Parent(v).Some? && In(Parent(v).value, L)
  }

  /** The context descendant hands down: true below a left match. */
  function LeftAbove(L: seq<Node>): seq<Node> -> bool {
    (a: seq<Node>) => AnyIn(a, L)
  }

  lemma LeftAboveSteps(L: seq<Node>, R: seq<Node>)
    ensures forall a, m :: LeftAbove(L)(a + [m]) == Handed(DescendantVisitor(L, R), m, LeftAbove(L)(a))
  {
    forall a, m
      ensures LeftAbove(L)(a + [m]) == Handed(DescendantVisitor(L, R), m, LeftAbove(L)(a))
    {
      AnyInSnoc(a, m, L);
      assert (IndexOf(L, m) > -1) == In(m, L);
      assert DescendantVisitor(L, R)(m, LeftAbove(L)(a)).1 == if In(m, L) then Some(true) else None;
    }
  }

  /** The descendant walk pushes the visits of nodes of R with an ancestor in L. */
  lemma DescendantWalk(root: Node, L: seq<Node>, R: seq<Node>)
    ensures VisitPre(root, DescendantVisitor(L, R), false) == Select(Visits(root, []), BelowLeft(L, R))
  {
    LeftAboveSteps(L, R);
    assert LeftAbove(L)([]) == false;
    VisitPreByAncestry(root, DescendantVisitor(L, R), LeftAbove(L), []);
    forall v: Visit
      ensures PushedAt(DescendantVisitor(L, R), LeftAbove(L))(v) == if BelowLeft(L, R)(v) then [v.node] else []
    {
      assert (IndexOf(R, v.node) > -1) == In(v.node, R);
    }
    FlatMapSelects(Visits(root, []), PushedAt(DescendantVisitor(L, R), LeftAbove(L)), BelowLeft(L, R));
  }

  /** descendant(l, r): the visits of right matches with a left match among their ancestors. */
  lemma DescendantByAncestry(root: Node, l: Selector, r: Option<Selector>)
    ensures MatchSelector(root, Descendant(l, r)) ==
            Select(Visits(root, []), BelowLeft(MatchSelector(root, l), Match(root, r)))
  {
    DescendantWalk(root, MatchSelector(root, l), Match(root, r));
  }

  /** The context child hands down: 1 below a left match, 0 elsewhere. */
  function ParentMark(L: seq<Node>): seq<Node> -> int {
    (a: seq<Node>) => if a != [] && In(a[|a| - 1], L) then 1 else 0
  }

  lemma ParentMarkSteps(L: seq<Node>, R: seq<Node>)
    ensures forall a, m :: ParentMark(L)(a + [m]) == Handed(ChildVisitor(L, R), m, ParentMark(L)(a))
  {
    forall a, m
      ensures ParentMark(L)(a + [m]) == Handed(ChildVisitor(L, R), m, ParentMark(L)(a))
    {
      assert (a + [m])[|a + [m]| - 1] == m;
      assert (IndexOf(L, m) > -1) == In(m, L);
      assert ChildVisitor(L, R)(m, ParentMark(L)(a)).1 == Some(if In(m, L) then 1 else 0);
    }
  }

  /** The child walk pushes the visits of nodes of R whose parent is in L. */
  lemma ChildWalk(root: Node, L: seq<Node>, R: seq<Node>)
    ensures VisitPre(root, ChildVisitor(L, R), 0) == Select(Visits(root, []), UnderLeft(L, R))
  {
    ParentMarkSteps(L, R);
    assert ParentMark(L)([]) == 0;
    VisitPreByAncestry(root, ChildVisitor(L, R), ParentMark(L), []);
    forall v: Visit
      ensures PushedAt(ChildVisitor(L, R), ParentMark(L))(v) == if UnderLeft(L, R)(v) then [v.node] else []
    {
      assert (IndexOf(R, v.node) > -1) == In(v.node, R);
    }
    FlatMapSelects(Visits(root, []), PushedAt(ChildVisitor(L, R), ParentMark(L)), UnderLeft(L, R));
  }

  /** child(l, r): the visits of right matches whose parent is a left match. */
  lemma ChildByParent(root: Node, l: Selector, r: Option<Selector>)
    ensures MatchSelector(root, Child(l, r)) ==
            Select(Visits(root, []), UnderLeft(MatchSelector(root, l), Match(root, r)))
  {
    ChildWalk(root, MatchSelector(root, l), Match(root, r));
  }

  /**
   * A node is a descendant match iff some visit of it below the root meets a
   * right match with a left match among its ancestors; the root is never one.
   */
  lemma DescendantMembership(root: Node, l: Selector, r: Option<Selector>, x: Node)
    ensures x in MatchSelector(root, Descendant(l, r)) <==>
            exists i | 1 <= i < |Visits(root, [])| ::
              Visits(root, [])[i].node == x && In(x, Match(root, r))
              && AnyIn(Visits(root, [])[i].ancestors, MatchSelector(root, l))
    ensures x in MatchSelector(root, Descendant(l, r)) ==> x < root
  {
    var L, R := MatchSelector(root, l), Match(root, r);
    var vs := Visits(root, []);
    DescendantByAncestry(root, l, r);
    SelectMembership(vs, BelowLeft(L, R), x);
    VisitShape(root, []);
    assert forall i | 1 <= i < |vs| :: vs[i] in vs[1..];
    if x in MatchSelector(root, Descendant(l, r)) {
      var i :| 0 <= i < |vs| && vs[i].node == x && BelowLeft(L, R)(vs[i]);
      assert i != 0;
    }
  }

  /**
   * A node is a child match iff some visit of it is a right match whose parent
   * is a left match; that parent has it among its kids, and the root is never one.
   */
  lemma ChildMembership(root: Node, l: Selector, r: Option<Selector>, x: Node)
    ensures x in MatchSelector(root, Child(l, r)) <==>
            exists i | 1 <= i < |Visits(root, [])| ::
              Visits(root, [])[i].node == x && In(x, Match(root, r))
              && Parent(Visits(root, [])[i]).Some? && In(Parent(Visits(root, [])[i]).value, MatchSelector(root, l))
              && x in Kids(Parent(Visits(root, [])[i]).value)
    ensures x in MatchSelector(root, Child(l, r)) ==> x < root
  {
    var L, R := MatchSelector(root, l), Match(root, r);
    var vs := Visits(root, []);
    ChildByParent(root, l, r);
    SelectMembership(vs, UnderLeft(L, R), x);
    VisitShape(root, []);
    assert forall i | 1 <= i < |vs| :: vs[i] in vs[1..];
    if x in MatchSelector(root, Child(l, r)) {
      var i :| 0 <= i < |vs| && vs[i].node == x && UnderLeft(L, R)(vs[i]);
      assert i != 0;
    }
  }

  /** The root is never a descendant or a child match: both need an ancestor. */
  lemma RootNeverBelow(root: Node, l: Selector, r: Option<Selector>)
    ensures root !in MatchSelector(root, Descendant(l, r))
    ensures root !in MatchSelector(root, Child(l, r))
  {
    DescendantMembership(root, l, r, root);
    ChildMembership(root, l, r, root);
  }

  // ---------------------------------------------------------------------------
  // sibling, adjacent and nth-child

  /** `scan` of some array field of `n` holds `x`. */
  predicate ScannedAt(n: Node, scan: seq<Node> -> seq<Node>, x: Node) {
    exists j | 0 <= j < |n.fields| :: n.fields[j].value.ListField? && x in scan(n.fields[j].value.nodes)
  }

  lemma {:induction false} EachListMembership(fs: seq<Field>, scan: seq<Node> -> seq<Node>, x: Node)
    ensures x in EachList(fs, scan) <==>
            exists j | 0 <= j < |fs| :: fs[j].value.ListField? && x in scan(fs[j].value.nodes)
  {
    if fs != [] {
      EachListMembership(fs[1..], scan, x);
      assert forall j | 1 <= j < |fs| :: fs[j] == fs[1..][j - 1];
      if x in EachList(fs[1..], scan) {
        var j :| 0 <= j < |fs[1..]| && fs[1..][j].value.ListField? && x in scan(fs[1..][j].value.nodes);
        assert fs[j + 1] == fs[1..][j];
      }
    }
  }

  /** sibling, adjacent and nth-child push what `scan` finds in every array field of every node. */
  lemma ScannedMembership(root: Node, scan: seq<Node> -> seq<Node>, x: Node)
    ensures x in VisitPre(root, ScanVisitor(scan), false) <==>
            exists i | 0 <= i < |PreOrder(root)| :: ScannedAt(PreOrder(root)[i], scan, x)
  {
    var vs := Visits(root, []);
    var f := PushedAt(ScanVisitor(scan), Unchanged());
    ContextFreeWalk(root, ScanVisitor(scan));
    FlatMapMembership(vs, f, x);
    forall i | 0 <= i < |vs|
      ensures x in f(vs[i]) <==> ScannedAt(PreOrder(root)[i], scan, x)
    {
      EachListMembership(vs[i].node.fields, scan, x);
    }
  }

  /** The first node of R at or after `from` is `x` at position `j`. */
  predicate FirstAt(ks: seq<Node>, R: seq<Node>, from: nat, j: nat, x: Node)
    requires from <= j < |ks|
  {
    ks[j] == x && In(x, R) && forall m | from <= m < j :: !In(ks[m], R)
  }

  lemma {:induction false} FirstFromMembership(ks: seq<Node>, from: nat, R: seq<Node>, x: Node)
    requires from <= |ks|
    ensures x in FirstFrom(ks, from, R) <==> exists j | from <= j < |ks| :: FirstAt(ks, R, from, j, x)
    decreases |ks| - from
  {
    if from < |ks| && !In(ks[from], R) {
      FirstFromMembership(ks, from + 1, R, x);
      if exists j | from <= j < |ks| :: FirstAt(ks, R, from, j, x) {
        var j :| from <= j < |ks| && FirstAt(ks, R, from, j, x);
        assert j != from;
        assert FirstAt(ks, R, from + 1, j, x);
      }
      var next := from + 1;
      if exists j | next <= j < |ks| :: FirstAt(ks, R, next, j, x) {
        var j :| next <= j < |ks| && FirstAt(ks, R, next, j, x);
        assert FirstAt(ks, R, from, j, x);
      }
    } else if from < |ks| {
      if exists j | from <= j < |ks| :: FirstAt(ks, R, from, j, x) {
        var j :| from <= j < |ks| && FirstAt(ks, R, from, j, x);
        assert j == from;
      }
      assert x == ks[from] ==> FirstAt(ks, R, from, from, x);
    }
  }

  /** The node of L at `i` sends the scan to `x` at `j`. */
  predicate SiblingPair(ks: seq<Node>, L: seq<Node>, R: seq<Node>, i: nat, j: nat, x: Node)
    requires i < j < |ks|
  {
    In(ks[i], L) && FirstAt(ks, R, i + 1, j, x)
  }

  lemma {:induction false} SiblingsUpToMembership(ks: seq<Node>, L: seq<Node>, R: seq<Node>, n: nat, x: Node)
    requires n <= |ks|
    ensures x in SiblingsUpTo(ks, L, R, n) <==>
            exists i, j | 0 <= i < n && i < j < |ks| :: SiblingPair(ks, L, R, i, j, x)
  {
    if n > 0 {
      SiblingsUpToMembership(ks, L, R, n - 1, x);
      FirstFromMembership(ks, n, R, x);
      var last := n - 1;
      if exists i, j | 0 <= i < n && i < j < |ks| :: SiblingPair(ks, L, R, i, j, x) {
        var i, j :| 0 <= i < n && i < j < |ks| && SiblingPair(ks, L, R, i, j, x);
        if i < last {
          assert exists i, j | 0 <= i < last && i < j < |ks| :: SiblingPair(ks, L, R, i, j, x);
        } else {
          assert FirstAt(ks, R, n, j, x);
        }
      }
      if x in SiblingsUpTo(ks, L, R, n) && x !in SiblingsUpTo(ks, L, R, last) {
        assert In(ks[last], L) && x in FirstFrom(ks, n, R);
        var j :| n <= j < |ks| && FirstAt(ks, R, n, j, x);
        assert SiblingPair(ks, L, R, last, j, x);
      }
    }
  }

  /**
   * sibling, over one array: x is pushed iff some node of L sits before it and
   * x is the first node of R after that position.
   */
  lemma SiblingMembership(ks: seq<Node>, L: seq<Node>, R: seq<Node>, x: Node)
    ensures x in SiblingHits(ks, L, R) <==>
            exists i, j | 0 <= i < j < |ks| :: SiblingPair(ks, L, R, i, j, x)
  {
    SiblingsUpToMembership(ks, L, R, |ks|, x);
  }

  lemma {:induction false} AdjacentUpToMembership(ks: seq<Node>, L: seq<Node>, R: seq<Node>, n: nat, x: Node)
    requires n < |ks| || n == 0
    ensures x in AdjacentUpTo(ks, L, R, n) <==>
            exists i | 0 <= i < n :: In(ks[i], L) && ks[i + 1] == x && In(x, R)
  {
    if n > 0 {
      AdjacentUpToMembership(ks, L, R, n - 1, x);
    }
  }

  /** adjacent, over one array: x is pushed iff it follows a node of L directly and is in R. */
  lemma AdjacentMembership(ks: seq<Node>, L: seq<Node>, R: seq<Node>, x: Node)
    ensures x in AdjacentHits(ks, L, R) <==>
            exists i | 0 <= i && i + 1 < |ks| :: In(ks[i], L) && ks[i + 1] == x && In(x, R)
  {
    if ks != [] {
      var n := |ks| - 1;
      assert AdjacentHits(ks, L, R) == AdjacentUpTo(ks, L, R, n);
      AdjacentUpToMembership(ks, L, R, n, x);
      if x in AdjacentHits(ks, L, R) {
        var i :| 0 <= i < n && In(ks[i], L) && ks[i + 1] == x && In(x, R);
        assert 0 <= i && i + 1 < |ks|;
      }
      if exists i | 0 <= i && i + 1 < |ks| :: In(ks[i], L) && ks[i + 1] == x && In(x, R) {
        var i :| 0 <= i && i + 1 < |ks| && In(ks[i], L) && ks[i + 1] == x && In(x, R);
        assert 0 <= i < n;
      }
    }
  }

  /** The array read back to front. */
  function Reversed(ks: seq<Node>): seq<Node> {
    seq(|ks|, i requires 0 <= i < |ks| => ks[|ks| - 1 - i])
  }

  /** Counting from the back is counting from the front of the reversed array. */
  lemma NthFromBackMirrors(ks: seq<Node>, k: nat)
    ensures NthHits(ks, -(k + 1)) == NthHits(Reversed(ks), k)
  {
  }

  /** :first-child and :last-child pick the first and the last element of every non-empty array. */
  lemma FirstAndLastElement(ks: seq<Node>)
    ensures ks != [] ==> NthHits(ks, 0) == [ks[0]] && NthHits(ks, -1) == [ks[|ks| - 1]]
    ensures ks == [] ==> NthHits(ks, 0) == [] && NthHits(ks, -1) == []
    ensures forall k :: |NthHits(ks, k)| <= 1
  {
  }

  /**
   * nth-child(k) matches exactly, in every array field of every node, the
   * element at k when 0 <= k < length, and the element at length + k when k
   * is negative and length + k >= 0.
   */
  lemma NthChildMembership(root: Node, k: int, x: Node)
    ensures x in MatchSelector(root, NthChild(NumLit(k))) <==>
            exists i | 0 <= i < |PreOrder(root)| :: exists j | 0 <= j < |PreOrder(root)[i].fields| ::
              PreOrder(root)[i].fields[j].value.ListField? &&
              var ks := PreOrder(root)[i].fields[j].value.nodes;
              (0 <= k < |ks| && x == ks[k]) || (k < 0 && |ks| + k >= 0 && x == ks[|ks| + k])
  {
    ScannedMembership(root, NthScan(k), x);
  }

  /** nth-child(-1) matches exactly the last element of every non-empty array field of every node. */
  lemma LastChildMembership(root: Node, x: Node)
    ensures x in MatchSelector(root, NthChild(NumLit(-1))) <==>
            exists i | 0 <= i < |PreOrder(root)| :: exists j | 0 <= j < |PreOrder(root)[i].fields| ::
              PreOrder(root)[i].fields[j].value.ListField? && PreOrder(root)[i].fields[j].value.nodes != []
              && x == Last(PreOrder(root)[i].fields[j].value.nodes)
  {
    ScannedMembership(root, NthScan(-1), x);
  }

  function Last(ks: seq<Node>): Node
    requires ks != []
  {
    ks[|ks| - 1]
  }

  /** A combinator or `and` whose right operand is undefined matches nothing. */
  lemma MissingOperandMatchesNothing(root: Node, s: Selector)
    requires IsCombination(s) || s.And?
    requires s.right.None?
    ensures MatchSelector(root, s) == []
  {
    var res := MatchSelector(root, s);
    if res != [] {
      var x := res[0];
      assert x in res;
      match s
      case Descendant(l, r) =>
        DescendantMembership(root, l, r, x);
      case Child(l, r) =>
        ChildMembership(root, l, r, x);
      case Sibling(l, r) =>
        var scan := SiblingScan(MatchSelector(root, l), []);
        ScannedMembership(root, scan, x);
        var i :| 0 <= i < |PreOrder(root)| && ScannedAt(PreOrder(root)[i], scan, x);
        var j :| 0 <= j < |PreOrder(root)[i].fields| && PreOrder(root)[i].fields[j].value.ListField?
                 && x in scan(PreOrder(root)[i].fields[j].value.nodes);
        SiblingMembership(PreOrder(root)[i].fields[j].value.nodes, MatchSelector(root, l), [], x);
      case Adjacent(l, r) =>
        var scan := AdjacentScan(MatchSelector(root, l), []);
        ScannedMembership(root, scan, x);
        var i :| 0 <= i < |PreOrder(root)| && ScannedAt(PreOrder(root)[i], scan, x);
        var j :| 0 <= j < |PreOrder(root)[i].fields| && PreOrder(root)[i].fields[j].value.ListField?
                 && x in scan(PreOrder(root)[i].fields[j].value.nodes);
        AdjacentMembership(PreOrder(root)[i].fields[j].value.nodes, MatchSelector(root, l), [], x);
      case Unmapped(_, _, _) =>
      case And(l, r) =>
        AndIsOrderedIntersection(root, l, r);
    }
  }
}
