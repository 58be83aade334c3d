/**
 * The wildcard case of match as written (esquery.js:287-289):
 * `visitPre(ast, matches.push.bind(matches))`.
 *
 * visitPre calls its callback with two arguments, the node and the context,
 * and `push` appends every argument it receives; it then returns the new
 * length of the array, which visitPre hands to the subtree as its context.
 * So `*` collects each node followed by a context: undefined for the root,
 * a number for every other node. The intended result, every node in
 * pre-order, is what Matcher.MatchSelector computes for Wildcard.
 */
module WildcardPush {
  import opened Common
  import opened Selector
  import opened Tree
  import opened Matcher
  import opened MatcherLaws

  /** An element of `matches` after the as-written wildcard walk. */
  datatype Pushed = PushedNode(node: Node) | PushedUndefined | PushedLength(length: nat)

  /** visitPre with `matches.push` as the callback, threading the array it appends to. */
  function PushWalk(n: Node, context: Pushed, matches: seq<Pushed>): seq<Pushed>
    decreases n
  {
    var after := matches + [PushedNode(n), context];
    PushWalkFields(n.fields, PushedLength(|after|), after)
  }

  function PushWalkFields(fs: seq<Field>, context: Pushed, matches: seq<Pushed>): seq<Pushed>
    decreases fs
  {
    if fs == [] then matches
    else PushWalkFields(fs[1..], context, PushWalkValue(fs[0].value, context, matches))
  }

  function PushWalkValue(v: FieldValue, context: Pushed, matches: seq<Pushed>): seq<Pushed>
    decreases v
  {
    match v
    case NodeField(k) => if Typed(k) then PushWalk(k, context, matches) else matches
    case ListField(ks) => PushWalkList(ks, context, matches)
    case ScalarField(_) => matches
  }

  function PushWalkList(ks: seq<Node>, context: Pushed, matches: seq<Pushed>): seq<Pushed>
    decreases ks
  {
    if ks == [] then matches else PushWalkList(ks[1..], context, PushWalk(ks[0], context, matches))
  }

  /** match(ast, wildcard) as written: the root's context is undefined. */
  function WildcardAsWritten(root: Node): seq<Pushed> {
    PushWalk(root, PushedUndefined, [])
  }

  // ---------------------------------------------------------------------------
  // What the walk leaves in the array

  /** The elements at even positions: the first of every pair `push` appended. */
  function Firsts(s: seq<Pushed>): seq<Pushed>
    requires |s| % 2 == 0
    decreases |s|
  {
    if s == [] then [] else [s[0]] + Firsts(s[2..])
  }

  function Wrapped(ns: seq<Node>): (r: seq<Pushed>)
    ensures |r| == |ns| && forall i | 0 <= i < |ns| :: r[i] == PushedNode(ns[i])
  {
    seq(|ns|, i requires 0 <= i < |ns| => PushedNode(ns[i]))
  }

  /** `out` is `matches` followed by one pair per visit, whose first elements are the visited nodes. */
  predicate Appends(out: seq<Pushed>, matches: seq<Pushed>, vs: seq<Visit>) {
    |out| == |matches| + 2 * |vs| && out[..|matches|] == matches
    && Firsts(out[|matches|..]) == Wrapped(NodesOf(vs))
  }

  lemma {:induction false} FirstsAppend(a: seq<Pushed>, b: seq<Pushed>)
    requires |a| % 2 == 0 && |b| % 2 == 0
    ensures Firsts(a + b) == Firsts(a) + Firsts(b)
    decreases |a|
  {
    if a != [] {
      FirstsAppend(a[2..], b);
      assert (a + b)[2..] == a[2..] + b;
    } else {
      assert a + b == b;
    }
  }

  lemma AppendsCompose(matches: seq<Pushed>, mid: seq<Pushed>, out: seq<Pushed>, v1: seq<Visit>, v2: seq<Visit>)
    requires Appends(mid, matches, v1) && Appends(out, mid, v2)
    ensures Appends(out, matches, v1 + v2)
  {
    var r1, r2 := mid[|matches|..], out[|mid|..];
    assert out == mid + r2;
    assert mid == matches + r1;
    assert out[|matches|..] == r1 + r2;
    FirstsAppend(r1, r2);
    assert NodesOf(v1 + v2) == NodesOf(v1) + NodesOf(v2);
    assert Wrapped(NodesOf(v1) + NodesOf(v2)) == Wrapped(NodesOf(v1)) + Wrapped(NodesOf(v2));
  }

  lemma {:induction false} PushWalkAppends(n: Node, context: Pushed, matches: seq<Pushed>, a: seq<Node>)
    ensures Appends(PushWalk(n, context, matches), matches, Visits(n, a))
    decreases n
  {
    var after := matches + [PushedNode(n), context];
    PushWalkFieldsAppends(n.fields, PushedLength(|after|), after, a + [n]);
    assert Appends(after, matches, [Visit(n, a)]) by {
      assert after[|matches|..] == [PushedNode(n), context];
      assert Firsts([PushedNode(n), context]) == [PushedNode(n)] by {
        assert [PushedNode(n), context][2..] == [];
      }
    }
    AppendsCompose(matches, after, PushWalk(n, context, matches), [Visit(n, a)], FieldVisits(n.fields, a + [n]));
  }

  lemma {:induction false} PushWalkFieldsAppends(fs: seq<Field>, context: Pushed, matches: seq<Pushed>, a: seq<Node>)
    ensures Appends(PushWalkFields(fs, context, matches), matches, FieldVisits(fs, a))
    decreases fs
  {
    if fs == [] {
      assert matches[|matches|..] == [];
    } else {
      var mid := PushWalkValue(fs[0].value, context, matches);
      PushWalkValueAppends(fs[0].value, context, matches, a);
      PushWalkFieldsAppends(fs[1..], context, mid, a);
      AppendsCompose(matches, mid, PushWalkFields(fs, context, matches),
                     ValueVisits(fs[0].value, a), FieldVisits(fs[1..], a));
    }
  }

  lemma {:induction false} PushWalkValueAppends(v: FieldValue, context: Pushed, matches: seq<Pushed>, a: seq<Node>)
    ensures Appends(PushWalkValue(v, context, matches), matches, ValueVisits(v, a))
    decreases v
  {
    match v
    case NodeField(k) =>
      if Typed(k) {
        PushWalkAppends(k, context, matches, a);
      } else {
        assert matches[|matches|..] == [];
      }
    case ListField(ks) =>
      PushWalkListAppends(ks, context, matches, a);
    case ScalarField(_) =>
      assert matches[|matches|..] == [];
  }

  lemma {:induction false} PushWalkListAppends(ks: seq<Node>, context: Pushed, matches: seq<Pushed>, a: seq<Node>)
    ensures Appends(PushWalkList(ks, context, matches), matches, ListVisits(ks, a))
    decreases ks
  {
    if ks == [] {
      assert matches[|matches|..] == [];
    } else {
      var mid := PushWalk(ks[0], context, matches);
      PushWalkAppends(ks[0], context, matches, a);
      PushWalkListAppends(ks[1..], context, mid, a);
      AppendsCompose(matches, mid, PushWalkList(ks, context, matches), Visits(ks[0], a), ListVisits(ks[1..], a));
    }
  }

  /**
   * As written, `*` yields twice as many elements as there are nodes: the
   * nodes in pre-order at the even positions, and undefined right after the root.
   */
  lemma WildcardAsWrittenInterleaves(root: Node)
    ensures |WildcardAsWritten(root)| == 2 * |PreOrder(root)|
    ensures Firsts(WildcardAsWritten(root)) == Wrapped(MatchSelector(root, Wildcard))
    ensures WildcardAsWritten(root)[1] == PushedUndefined
    ensures WildcardAsWritten(root) != Wrapped(MatchSelector(root, Wildcard))
  {
    PushWalkAppends(root, PushedUndefined, [], []);
    WildcardIsPreOrder(root);
    var out := WildcardAsWritten(root);
    assert out[..0] == [] && out[0..] == out;
    assert out[1] == PushedUndefined by {
      var after := [PushedNode(root), PushedUndefined];
      assert [] + [PushedNode(root), PushedUndefined] == after;
      PushWalkFieldsAppends(root.fields, PushedLength(2), after, [root]);
      assert out[..2] == after;
    }
  }

  /** The smallest case: a lone node gives the node and undefined, where `[node]` was meant. */
  lemma LoneNodeCounterexample()
    ensures WildcardAsWritten(Node(0, Some("Program"), [])) == [PushedNode(Node(0, Some("Program"), [])), PushedUndefined]
    ensures MatchSelector(Node(0, Some("Program"), []), Wildcard) == [Node(0, Some("Program"), [])]
  {
    var n := Node(0, Some("Program"), []);
    assert PushWalkFields([], PushedLength(2), [PushedNode(n), PushedUndefined]) == [PushedNode(n), PushedUndefined];
    assert [] + [PushedNode(n), PushedUndefined] == [PushedNode(n), PushedUndefined];
    WildcardIsPreOrder(n);
    assert Visits(n, []) == [Visit(n, [])] by {
      assert FieldVisits([], [] + [n]) == [];
    }
  }
}
