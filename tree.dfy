/**
 * The target tree and the context-passing pre-order traversal (esquery.js,
 * visitPre).
 *
 * A node has a `type` (a plain object such as a location has none) and an
 * ordered list of fields; a field holds a node, an array of nodes or a scalar. The source enumerates a node's own properties
 * with `for (key in ...)`, whose order the language leaves to the host; here
 * that order is the order of the field list. The source compares nodes by
 * object identity (`indexOf`); here every node carries an `id` and membership
 * compares ids.
 */
module Tree {
  import opened Common

  datatype Scalar = NumScalar(num: int) | StrScalar(str: string) | BoolScalar(truth: bool)

  /**
   * A node, or any other object the tree holds (a source location, say). Its
   * `type` property is `nodeType`, None when the object has no `type`; the
   * fields are its other properties.
   */
  datatype Node = Node(id: nat, nodeType: Option<string>, fields: seq<Field>)

  datatype Field = Field(key: string, value: FieldValue)

  datatype FieldValue =
    | NodeField(node: Node)
    | ListField(nodes: seq<Node>)
    | ScalarField(scalar: Scalar)

  /** The truthiness test visitPre applies to `.type` before it descends into an object. */
  predicate Typed(k: Node) {
    k.nodeType.Some? && k.nodeType.value != ""
  }

  // ---------------------------------------------------------------------------
  // Identity

  /** `s.indexOf(x)`: the first position holding a node with x's identity, or -1. */
  function IndexOf(s: seq<Node>, x: Node): (i: int)
    ensures -1 <= i < |s|
    ensures i >= 0 ==> s[i].id == x.id && forall j | 0 <= j < i :: s[j].id != x.id
    ensures i == -1 <==> !In(x, s)
  {
    if s == [] then -1
    else if s[0].id == x.id then 0
    else
      var k := IndexOf(s[1..], x);
      if k == -1 then -1 else k + 1
  }

  /** `x` is, by identity, one of the nodes of `s`. */
  predicate In(x: Node, s: seq<Node>) {
    exists j | 0 <= j < |s| :: s[j].id == x.id
  }

  /** Some node of `s` is, by identity, one of the nodes of `t`. */
  predicate AnyIn(s: seq<Node>, t: seq<Node>) {
    exists j | 0 <= j < |s| :: In(s[j], t)
  }

  // ---------------------------------------------------------------------------
  // The traversal

  /**
   * The children visitPre descends into: the elements of every array field and
   * the node of every node field whose `type` is defined and not empty (the
   * source tests the truthiness of `.type`), in field order.
   */
  function ValueKids(v: FieldValue): (ks: seq<Node>)
    ensures forall k | k in ks :: k < v
  {
    match v
    case NodeField(k) => if Typed(k) then [k] else []
    case ListField(ks) => ks
    case ScalarField(_) => []
  }

  function FieldKids(fs: seq<Field>): (ks: seq<Node>)
    decreases fs
  {
    if fs == [] then [] else ValueKids(fs[0].value) + FieldKids(fs[1..])
  }

  function Kids(n: Node): seq<Node> {
    FieldKids(n.fields)
  }

  /**
   * visitPre(node, fn, context): the values the visitor pushes while the tree
   * is walked in pre-order. The visitor sees a node and the incoming context,
   * and returns what it pushes and the context for the subtree (None: it
   * returned undefined, so the incoming context is inherited).
   */
  function VisitPre<C, T>(n: Node, visit: (Node, C) -> (seq<T>, Option<C>), context: C): seq<T>
    decreases n
  {
    var (pushed, returned) := visit(n, context);
    pushed + VisitFields(n.fields, visit, if returned.Some? then returned.value else context)
  }

  function VisitFields<C, T>(fs: seq<Field>, visit: (Node, C) -> (seq<T>, Option<C>), context: C): seq<T>
    decreases fs
  {
    if fs == [] then [] else VisitValue(fs[0].value, visit, context) + VisitFields(fs[1..], visit, context)
  }

  function VisitValue<C, T>(v: FieldValue, visit: (Node, C) -> (seq<T>, Option<C>), context: C): seq<T>
    decreases v
  {
    match v
    case NodeField(k) => if Typed(k) then VisitPre(k, visit, context) else []
    case ListField(ks) => VisitList(ks, visit, context)
    case ScalarField(_) => []
  }

  function VisitList<C, T>(ks: seq<Node>, visit: (Node, C) -> (seq<T>, Option<C>), context: C): seq<T>
    decreases ks
  {
    if ks == [] then [] else VisitPre(ks[0], visit, context) + VisitList(ks[1..], visit, context)
  }

  // ---------------------------------------------------------------------------
  // Reference: the pre-order with each node's chain of ancestors

  /** One node as the traversal meets it, with its ancestors from the root down to its parent. */
  datatype Visit = Visit(node: Node, ancestors: seq<Node>)

  function Visits(n: Node, ancestors: seq<Node>): (vs: seq<Visit>)
    ensures vs != [] && vs[0] == Visit(n, ancestors)
    decreases n
  {
    [Visit(n, ancestors)] + FieldVisits(n.fields, ancestors + [n])
  }

  function FieldVisits(fs: seq<Field>, ancestors: seq<Node>): seq<Visit>
    decreases fs
  {
    if fs == [] then [] else ValueVisits(fs[0].value, ancestors) + FieldVisits(fs[1..], ancestors)
  }

  function ValueVisits(v: FieldValue, ancestors: seq<Node>): seq<Visit>
    decreases v
  {
    match v
    case NodeField(k) => if Typed(k) then Visits(k, ancestors) else []
    case ListField(ks) => ListVisits(ks, ancestors)
    case ScalarField(_) => []
  }

  function ListVisits(ks: seq<Node>, ancestors: seq<Node>): seq<Visit>
    decreases ks
  {
    if ks == [] then [] else Visits(ks[0], ancestors) + ListVisits(ks[1..], ancestors)
  }

  /** The visited nodes, in visiting order. */
  function NodesOf(vs: seq<Visit>): seq<Node> {
    seq(|vs|, i requires 0 <= i < |vs| => vs[i].node)
  }

  /** Every node of the tree, in the order the traversal meets them. */
  function PreOrder(root: Node): seq<Node> {
    NodesOf(Visits(root, []))
  }

  /** The concatenation of `f` over the visits, in order. */
  function FlatMap<T>(vs: seq<Visit>, f: Visit -> seq<T>): seq<T> {
    if vs == [] then [] else f(vs[0]) + FlatMap(vs[1..], f)
  }

  /** The nodes of the visits that satisfy `p`, in order. */
  function Select(vs: seq<Visit>, p: Visit -> bool): seq<Node> {
    if vs == [] then [] else (if p(vs[0]) then [vs[0].node] else []) + Select(vs[1..], p)
  }

  /** The elements of `s` that satisfy `p`, in order. */
  function Where(s: seq<Node>, p: Node -> bool): seq<Node> {
    if s == [] then [] else (if p(s[0]) then [s[0]] else []) + Where(s[1..], p)
  }

  /** The context a visitor hands to the subtree of `n`. */
  function Handed<C, T>(visit: (Node, C) -> (seq<T>, Option<C>), n: Node, context: C): C {
    var returned := visit(n, context).1;
    if returned.Some? then returned.value else context
  }

  /** What the visitor pushes at a visit when the context is `K` of the ancestors. */
  function PushedAt<C, T>(visit: (Node, C) -> (seq<T>, Option<C>), K: seq<Node> -> C): Visit -> seq<T> {
    (v: Visit) => visit(v.node, K(v.ancestors)).0
  }

  // ---------------------------------------------------------------------------
  // Laws

  lemma {:induction false} FlatMapAppend<T>(a: seq<Visit>, b: seq<Visit>, f: Visit -> seq<T>)
    ensures FlatMap(a + b, f) == FlatMap(a, f) + FlatMap(b, f)
  {
    if a != [] {
      assert (a + b)[1..] == a[1..] + b;
      FlatMapAppend(a[1..], b, f);
    } else {
      assert a + b == b;
    }
  }

  /**
   * The context-passing traversal, characterised: when the context that
   * reaches a node is a function `K` of the node's ancestors, visitPre pushes,
   * for every visit in pre-order, what the visitor pushes for that node in the
   * context its ancestors determine.
   */
  lemma {:induction false} VisitPreByAncestry<C, T>(n: Node, visit: (Node, C) -> (seq<T>, Option<C>),
                                                    K: seq<Node> -> C, ancestors: seq<Node>)
    requires forall a, m :: K(a + [m]) == Handed(visit, m, K(a))
    ensures VisitPre(n, visit, K(ancestors)) == FlatMap(Visits(n, ancestors), PushedAt(visit, K))
    decreases n
  {
    var f := PushedAt(visit, K);
    FieldsByAncestry(n.fields, visit, K, ancestors + [n]);
    FlatMapAppend([Visit(n, ancestors)], FieldVisits(n.fields, ancestors + [n]), f);
  }

  lemma {:induction false} FieldsByAncestry<C, T>(fs: seq<Field>, visit: (Node, C) -> (seq<T>, Option<C>),
                                                  K: seq<Node> -> C, ancestors: seq<Node>)
    requires forall a, m :: K(a + [m]) == Handed(visit, m, K(a))
    ensures VisitFields(fs, visit, K(ancestors)) == FlatMap(FieldVisits(fs, ancestors), PushedAt(visit, K))
    decreases fs
  {
    if fs != [] {
      ValueByAncestry(fs[0].value, visit, K, ancestors);
      FieldsByAncestry(fs[1..], visit, K, ancestors);
      FlatMapAppend(ValueVisits(fs[0].value, ancestors), FieldVisits(fs[1..], ancestors), PushedAt(visit, K));
    }
  }

  lemma {:induction false} ValueByAncestry<C, T>(v: FieldValue, visit: (Node, C) -> (seq<T>, Option<C>),
                                                 K: seq<Node> -> C, ancestors: seq<Node>)
    requires forall a, m :: K(a + [m]) == Handed(visit, m, K(a))
    ensures VisitValue(v, visit, K(ancestors)) == FlatMap(ValueVisits(v, ancestors), PushedAt(visit, K))
    decreases v
  {
    match v
    case NodeField(k) =>
      if Typed(k) { VisitPreByAncestry(k, visit, K, ancestors); }
    case ListField(ks) =>
      ListByAncestry(ks, visit, K, ancestors);
    case ScalarField(_) =>
  }

  lemma {:induction false} ListByAncestry<C, T>(ks: seq<Node>, visit: (Node, C) -> (seq<T>, Option<C>),
                                                K: seq<Node> -> C, ancestors: seq<Node>)
    requires forall a, m :: K(a + [m]) == Handed(visit, m, K(a))
    ensures VisitList(ks, visit, K(ancestors)) == FlatMap(ListVisits(ks, ancestors), PushedAt(visit, K))
    decreases ks
  {
    var f := PushedAt(visit, K);
    if ks != [] {
      VisitPreByAncestry(ks[0], visit, K, ancestors);
      ListByAncestry(ks[1..], visit, K, ancestors);
      FlatMapAppend(Visits(ks[0], ancestors), ListVisits(ks[1..], ancestors), f);
    }
  }

  /** What a flat map collects is what some visit contributes. */
  lemma {:induction false} FlatMapMembership<T>(vs: seq<Visit>, f: Visit -> seq<T>, x: T)
    ensures x in FlatMap(vs, f) <==> exists i | 0 <= i < |vs| :: x in f(vs[i])
  {
    if vs != [] {
      FlatMapMembership(vs[1..], f, x);
      assert forall i | 1 <= i < |vs| :: vs[i] == vs[1..][i - 1];
      if x in FlatMap(vs[1..], f) {
        var i :| 0 <= i < |vs[1..]| && x in f(vs[1..][i]);
        assert x in f(vs[i + 1]);
      }
    }
  }

  /** A flat map that keeps a visit's node exactly when `p` holds of it filters the pre-order. */
  lemma {:induction false} FlatMapFilters(vs: seq<Visit>, f: Visit -> seq<Node>, p: Node -> bool)
    requires forall i | 0 <= i < |vs| :: f(vs[i]) == if p(vs[i].node) then [vs[i].node] else []
    ensures FlatMap(vs, f) == Where(NodesOf(vs), p)
  {
    if vs != [] {
      FlatMapFilters(vs[1..], f, p);
      assert NodesOf(vs)[1..] == NodesOf(vs[1..]);
    }
  }

  /** Keeping every visit's node gives the nodes in visiting order. */
  lemma {:induction false} FlatMapKeepsAll(vs: seq<Visit>, f: Visit -> seq<Node>)
    requires forall i | 0 <= i < |vs| :: f(vs[i]) == [vs[i].node]
    ensures FlatMap(vs, f) == NodesOf(vs)
  {
    if vs != [] {
      FlatMapKeepsAll(vs[1..], f);
      assert NodesOf(vs) == [vs[0].node] + NodesOf(vs[1..]);
    }
  }

  /** A flat map that keeps a visit's node exactly when `p` holds of the visit selects those visits. */
  lemma {:induction false} FlatMapSelects(vs: seq<Visit>, f: Visit -> seq<Node>, p: Visit -> bool)
    requires forall i | 0 <= i < |vs| :: f(vs[i]) == if p(vs[i]) then [vs[i].node] else []
    ensures FlatMap(vs, f) == Select(vs, p)
  {
    if vs != [] {
      FlatMapSelects(vs[1..], f, p);
    }
  }

  lemma {:induction false} SelectMembership(vs: seq<Visit>, p: Visit -> bool, x: Node)
    ensures x in Select(vs, p) <==> exists i | 0 <= i < |vs| :: vs[i].node == x && p(vs[i])
  {
    if vs != [] {
      SelectMembership(vs[1..], p, x);
      assert forall i | 1 <= i < |vs| :: vs[i] == vs[1..][i - 1];
      if x in Select(vs[1..], p) {
        var i :| 0 <= i < |vs[1..]| && vs[1..][i].node == x && p(vs[1..][i]);
        assert vs[i + 1].node == x && p(vs[i + 1]);
      }
    }
  }

  /** `s` keeps, in order, some of the elements of `t`. */
  predicate Subsequence(s: seq<Node>, t: seq<Node>)
    decreases |t|
  {
    s == [] || (t != [] && ((s[0] == t[0] && Subsequence(s[1..], t[1..])) || Subsequence(s, t[1..])))
  }

  /** Filtering keeps order and membership is exactly "in s and satisfies p". */
  lemma {:induction false} WhereLaws(s: seq<Node>, p: Node -> bool)
    ensures Subsequence(Where(s, p), s)
    ensures forall x :: x in Where(s, p) <==> x in s && p(x)
    ensures |Where(s, p)| <= |s|
  {
    if s != [] {
      WhereLaws(s[1..], p);
      assert s == [s[0]] + s[1..];
      if p(s[0]) {
        assert Where(s, p) == [s[0]] + Where(s[1..], p);
        assert Where(s, p)[1..] == Where(s[1..], p);
      } else {
        assert Where(s, p) == Where(s[1..], p);
      }
    }
  }

  // ---------------------------------------------------------------------------
  // Where every visit sits

  /**
   * `v` is met while walking from a node `p` whose ancestors are `a`: its node
   * lies strictly inside `p`, its ancestors extend `a`, and it is one of the
   * kids of its last ancestor (one of `direct` when that ancestor is `p`).
   */
  ghost predicate Placed(v: Visit, p: Node, a: seq<Node>, direct: seq<Node>) {
    v.node < p && |v.ancestors| >= |a| && v.ancestors[..|a|] == a
    && (|v.ancestors| == |a| ==> v.node in direct)
    && (|v.ancestors| > |a| ==> v.node in Kids(v.ancestors[|v.ancestors| - 1]))
  }

  /**
   * After its first visit (the node itself, with ancestors `a`), the walk from
   * `n` meets only nodes strictly inside `n`, each with `a + [n]` at the head
   * of its ancestors and each a kid of its last ancestor.
   */
  lemma {:induction false} VisitShape(n: Node, a: seq<Node>)
    ensures forall v | v in Visits(n, a)[1..] ::
              v.node < n && |v.ancestors| > |a| && v.ancestors[..|a| + 1] == a + [n]
              && v.node in Kids(v.ancestors[|v.ancestors| - 1])
    decreases n
  {
    FieldShape(n, n.fields, a + [n]);
    assert Visits(n, a)[1..] == FieldVisits(n.fields, a + [n]);
    forall v | v in Visits(n, a)[1..]
      ensures |v.ancestors| > |a| && v.node in Kids(v.ancestors[|v.ancestors| - 1])
    {
      assert Placed(v, n, a + [n], FieldKids(n.fields));
      if |v.ancestors| == |a| + 1 {
        assert v.ancestors == a + [n];
      }
    }
  }

  lemma {:induction false} FieldShape(p: Node, fs: seq<Field>, a: seq<Node>)
    requires forall j | 0 <= j < |fs| :: fs[j] in p.fields
    ensures forall v | v in FieldVisits(fs, a) :: Placed(v, p, a, FieldKids(fs))
    decreases fs
  {
    if fs != [] {
      assert fs[0] in p.fields;
      forall k | k in ValueKids(fs[0].value)
        ensures k < p
      {
      }
      ValueShape(p, fs[0].value, a);
      FieldShape(p, fs[1..], a);
      assert FieldKids(fs) == ValueKids(fs[0].value) + FieldKids(fs[1..]);
    }
  }

  lemma {:induction false} ValueShape(p: Node, value: FieldValue, a: seq<Node>)
    requires forall k | k in ValueKids(value) :: k < p
    ensures forall v | v in ValueVisits(value, a) :: Placed(v, p, a, ValueKids(value))
    decreases value
  {
    match value
    case NodeField(k) =>
      if Typed(k) {
        assert k in ValueKids(value);
        VisitShape(k, a);
        forall v | v in Visits(k, a)
          ensures Placed(v, p, a, ValueKids(value))
        {
          if v != Visits(k, a)[0] {
            var i :| 0 <= i < |Visits(k, a)| && Visits(k, a)[i] == v;
            assert v in Visits(k, a)[1..];
            assert v.ancestors[..|a| + 1] == a + [k];
            assert v.ancestors[..|a|] == (a + [k])[..|a|];
          }
        }
      }
    case ListField(ks) =>
      assert ValueKids(value) == ks;
      ListShape(p, ks, a);
    case ScalarField(_) =>
  }

  lemma {:induction false} ListShape(p: Node, ks: seq<Node>, a: seq<Node>)
    requires forall k | k in ks :: k < p
    ensures forall v | v in ListVisits(ks, a) :: Placed(v, p, a, ks)
    decreases ks
  {
    if ks != [] {
      var k := ks[0];
      assert k in ks;
      VisitShape(k, a);
      forall v | v in Visits(k, a)
        ensures Placed(v, p, a, ks)
      {
        if v != Visits(k, a)[0] {
          var i :| 0 <= i < |Visits(k, a)| && Visits(k, a)[i] == v;
          assert v in Visits(k, a)[1..];
          assert v.ancestors[..|a|] == (a + [k])[..|a|];
        }
      }
      assert forall m | m in ks[1..] :: m in ks;
      ListShape(p, ks[1..], a);
    }
  }
}
