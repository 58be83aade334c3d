/**
 * parse and query (esquery.js): the parser's result handed to the matcher.
 * Tokenizing is not part of this model, so both start from the token
 * sequence; a parse failure, which the source throws, is returned.
 */
module Query {
  import opened Common
  import opened Selector
  import opened Tokens
  import opened Tree
  import opened Parser
  import opened ParserLaws
  import opened Matcher
  import opened MatcherLaws

  /** query(ast, selector): match the tree against what the tokens parse to. */
  function Query(root: Node, tokens: seq<Token>): (r: Result<seq<Node>, ParseError>)
    ensures Processed(tokens, None).Err? ==> r == Err(Processed(tokens, None).error)
    ensures Processed(tokens, None).Ok? ==> r == Ok(Match(root, Processed(tokens, None).value))
  {
    match Processed(tokens, None)
    case Err(e) => Err(e)
    case Ok(selector) => Ok(Match(root, selector))
  }

  /** Querying with the tokens of a selector matches that selector. */
  lemma QueryRendered(root: Node, s: Selector)
    requires Canonical(s)
    ensures Query(root, Render(s)) == Ok(MatchSelector(root, s))
  {
    ParseRender(s);
  }

  /** An empty selector parses to undefined and matches nothing. */
  lemma EmptyQuery(root: Node)
    ensures Query(root, []) == Ok([])
  {
  }

  /**
   * A selector that ends in an operator is a parse error, whatever the tree
   * and whatever tokens that parse come before the operator.
   */
  lemma TrailingOperatorQueryFails(root: Node, ts: seq<Token>, op: string)
    requires Processed(ts, None).Ok?
    ensures Query(root, ts + [OperatorTok(op)]) == Err(Unexpected(UnexpectedToken, OperatorTok(op), [], Processed(ts, None).value))
  {
    TrailingOperatorFails(ts, None, op);
  }

  // ---------------------------------------------------------------------------
  // A program with two declarations in its body

  function DeclA(): Node {
    Node(1, Some("Decl_A"), [])
  }

  function DeclB(): Node {
    Node(2, Some("Decl_B"), [])
  }

  function Program(): Node {
    Node(0, Some("Program"), [Field("body", ListField([DeclA(), DeclB()]))])
  }

  lemma ProgramVisits()
    ensures Visits(Program(), []) ==
            [Visit(Program(), []), Visit(DeclA(), [Program()]), Visit(DeclB(), [Program()])]
    ensures PreOrder(Program()) == [Program(), DeclA(), DeclB()]
  {
    var p := Program();
    assert Visits(DeclA(), [p]) == [Visit(DeclA(), [p])] by {
      assert FieldVisits([], [] + [p] + [DeclA()]) == [];
    }
    assert Visits(DeclB(), [p]) == [Visit(DeclB(), [p])] by {
      assert FieldVisits([], [] + [p] + [DeclB()]) == [];
    }
    var ks := [DeclA(), DeclB()];
    assert ListVisits(ks, [p]) == [Visit(DeclA(), [p]), Visit(DeclB(), [p])] by {
      assert ks[1..] == [DeclB()] && ks[1..][1..] == [];
      assert ListVisits([DeclB()], [p]) == [Visit(DeclB(), [p])];
    }
    assert [] + [p] == [p];
    assert p.fields[1..] == [];
    assert FieldVisits(p.fields, [p]) == ValueVisits(ListField(ks), [p]) + FieldVisits([], [p]);
  }

  // Walks over three visits, unfolded once and for all.

  lemma ThreeFlatMap(vs: seq<Visit>, f: Visit -> seq<Node>)
    requires |vs| == 3
    ensures FlatMap(vs, f) == f(vs[0]) + f(vs[1]) + f(vs[2])
  {
    assert vs[1..][1..][1..] == [];
    assert FlatMap(vs[1..][1..], f) == f(vs[2]);
  }

  lemma ThreeSelect(vs: seq<Visit>, p: Visit -> bool)
    requires |vs| == 3
    ensures Select(vs, p) == (if p(vs[0]) then [vs[0].node] else []) + (if p(vs[1]) then [vs[1].node] else [])
                             + (if p(vs[2]) then [vs[2].node] else [])
  {
    assert vs[1..][1..][1..] == [];
    assert Select(vs[1..][1..], p) == if p(vs[2]) then [vs[2].node] else [];
  }

  lemma ThreeWhere(ns: seq<Node>, p: Node -> bool)
    requires |ns| == 3
    ensures Where(ns, p) == (if p(ns[0]) then [ns[0]] else []) + (if p(ns[1]) then [ns[1]] else [])
                            + (if p(ns[2]) then [ns[2]] else [])
  {
    assert ns[1..][1..][1..] == [];
    assert Where(ns[1..][1..], p) == if p(ns[2]) then [ns[2]] else [];
  }

  lemma IdentifiersOnProgram()
    ensures MatchSelector(Program(), Identifier("Program")) == [Program()]
    ensures MatchSelector(Program(), Identifier("Decl_A")) == [DeclA()]
    ensures MatchSelector(Program(), Identifier("Decl_B")) == [DeclB()]
  {
    ProgramVisits();
    var pre := PreOrder(Program());
    IdentifierFiltersPreOrder(Program(), "Program");
    IdentifierFiltersPreOrder(Program(), "Decl_A");
    IdentifierFiltersPreOrder(Program(), "Decl_B");
    ThreeWhere(pre, HasType("Program"));
    ThreeWhere(pre, HasType("Decl_A"));
    ThreeWhere(pre, HasType("Decl_B"));
  }

  /** `Decl_A` on the program gives the first declaration. */
  lemma QueryIdentifier()
    ensures Query(Program(), [IdentifierTok("Decl_A")]) == Ok([DeclA()])
  {
    QueryRendered(Program(), Identifier("Decl_A"));
    IdentifiersOnProgram();
  }

  /** Membership by identity in a one-node array. */
  lemma InOne(x: Node, y: Node)
    ensures In(x, [y]) <==> x.id == y.id
  {
    assert [y][0] == y;
  }

  /** The operands of `Program > Decl_B` and `Program Decl_B`. */
  lemma CombinatorOperands()
    ensures MatchSelector(Program(), Identifier("Program")) == [Program()]
    ensures Match(Program(), Some(Identifier("Decl_B"))) == [DeclB()]
  {
    IdentifiersOnProgram();
  }

  lemma ChildOnProgram()
    ensures MatchSelector(Program(), Child(Identifier("Program"), Some(Identifier("Decl_B")))) == [DeclB()]
  {
    var L, R := [Program()], [DeclB()];
    CombinatorOperands();
    ChildByParent(Program(), Identifier("Program"), Some(Identifier("Decl_B")));
    ProgramVisits();
    var vs := Visits(Program(), []);
    var under := UnderLeft(L, R);
    ThreeSelect(vs, under);
    InOne(Program(), DeclB());
    InOne(DeclA(), DeclB());
    InOne(DeclB(), DeclB());
    InOne(Program(), Program());
    assert !under(vs[0]) && !under(vs[1]);
    assert under(vs[2]) by {
      assert Parent(vs[2]) == Some(Program());
    }
  }

  /** `Program > Decl_B` gives the second declaration. */
  lemma QueryChild()
    ensures Query(Program(), [IdentifierTok("Program"), OperatorTok(">"), IdentifierTok("Decl_B")]) == Ok([DeclB()])
  {
    var s := Child(Identifier("Program"), Some(Identifier("Decl_B")));
    assert Canonical(s);
    assert Render(s) == [IdentifierTok("Program"), OperatorTok(">"), IdentifierTok("Decl_B")];
    QueryRendered(Program(), s);
    ChildOnProgram();
  }

  lemma DescendantOnProgram()
    ensures MatchSelector(Program(), Descendant(Identifier("Program"), Some(Identifier("Decl_B")))) == [DeclB()]
  {
    var L, R := [Program()], [DeclB()];
    CombinatorOperands();
    DescendantByAncestry(Program(), Identifier("Program"), Some(Identifier("Decl_B")));
    ProgramVisits();
    var vs := Visits(Program(), []);
    var below := BelowLeft(L, R);
    ThreeSelect(vs, below);
    InOne(Program(), DeclB());
    InOne(DeclA(), DeclB());
    InOne(DeclB(), DeclB());
    InOne(Program(), Program());
    assert !below(vs[0]) && !below(vs[1]);
    assert below(vs[2]) by {
      assert vs[2].ancestors == [Program()];
      assert AnyIn([Program()], L) by {
        assert [Program()][0] == Program();
      }
    }
  }

  /** `Program Decl_B` gives the second declaration. */
  lemma QueryDescendant()
    ensures Query(Program(), [IdentifierTok("Program"), OperatorTok(" "), IdentifierTok("Decl_B")]) == Ok([DeclB()])
  {
    var s := Descendant(Identifier("Program"), Some(Identifier("Decl_B")));
    assert Canonical(s);
    assert Render(s) == [IdentifierTok("Program"), OperatorTok(" "), IdentifierTok("Decl_B")];
    QueryRendered(Program(), s);
    DescendantOnProgram();
  }

  /** A scan of the program's body, and nothing from the declarations, which have no fields. */
  lemma ScanOnProgram(scan: seq<Node> -> seq<Node>)
    ensures VisitPre(Program(), ScanVisitor(scan), false) == scan([DeclA(), DeclB()])
  {
    var visit := ScanVisitor(scan);
    ContextFreeWalk(Program(), visit);
    ProgramVisits();
    var vs := Visits(Program(), []);
    var f := PushedAt(visit, Unchanged());
    ThreeFlatMap(vs, f);
    assert f(vs[0]) == scan([DeclA(), DeclB()]) by {
      assert Program().fields[1..] == [];
      assert EachList(Program().fields, scan) == scan([DeclA(), DeclB()]) + EachList([], scan);
    }
    assert f(vs[1]) == [] && f(vs[2]) == [];
  }

  /** In the body, the second declaration is the first `Decl_B` after a `Decl_A`. */
  lemma BodySiblings()
    ensures SiblingHits([DeclA(), DeclB()], [DeclA()], [DeclB()]) == [DeclB()]
  {
    var ks, L, R := [DeclA(), DeclB()], [DeclA()], [DeclB()];
    InOne(DeclA(), DeclA());
    InOne(DeclB(), DeclA());
    InOne(DeclB(), DeclB());
    assert FirstFrom(ks, 2, R) == [];
    assert FirstFrom(ks, 1, R) == [DeclB()];
    assert SiblingsUpTo(ks, L, R, 0) == [];
    assert SiblingsUpTo(ks, L, R, 1) == [DeclB()];
    assert SiblingsUpTo(ks, L, R, 2) == [DeclB()];
  }

  lemma SiblingCase(root: Node, l: Selector, r: Option<Selector>)
    ensures MatchSelector(root, Sibling(l, r))
         == VisitPre(root, ScanVisitor(SiblingScan(MatchSelector(root, l), Match(root, r))), false)
  {
  }

  lemma SiblingOnProgram()
    ensures MatchSelector(Program(), Sibling(Identifier("Decl_A"), Some(Identifier("Decl_B")))) == [DeclB()]
  {
    var L, R := [DeclA()], [DeclB()];
    SiblingCase(Program(), Identifier("Decl_A"), Some(Identifier("Decl_B")));
    IdentifiersOnProgram();
    ScanOnProgram(SiblingScan(L, R));
    BodySiblings();
  }

  /** `Decl_A ~ Decl_B` gives the second declaration, which follows the first in the body. */
  lemma QuerySibling()
    ensures Query(Program(), [IdentifierTok("Decl_A"), OperatorTok("~"), IdentifierTok("Decl_B")]) == Ok([DeclB()])
  {
    var s := Sibling(Identifier("Decl_A"), Some(Identifier("Decl_B")));
    assert Canonical(s);
    assert Render(s) == [IdentifierTok("Decl_A"), OperatorTok("~"), IdentifierTok("Decl_B")];
    QueryRendered(Program(), s);
    SiblingOnProgram();
  }

  /** `:first-child` gives the first declaration: the first element of the body. */
  lemma QueryFirstChild()
    ensures Query(Program(), [OperatorTok(":"), KeywordTok("first-child")]) == Ok([DeclA()])
  {
    var ts := [OperatorTok(":"), KeywordTok("first-child")];
    CombinatorTexts();
    assert ts[1..] == [KeywordTok("first-child")];
    assert ParsedPseudo(ts[1..]) == Done(NthChild(NumLit(0)), []);
    assert ParsedSelector(ts, None) == Done(Some(NthChild(NumLit(0))), []);
    assert Processed(ts, None) == Ok(Some(NthChild(NumLit(0))));
    ScanOnProgram(NthScan(0));
  }

  /** Only the program has a `body` property. */
  lemma BodyPaths()
    ensures HasPath("body")(Program())
    ensures !HasPath("body")(DeclA()) && !HasPath("body")(DeclB())
  {
    PathResolve.PlainKey(NodeField(Program()), "body");
    PathResolve.PlainKey(NodeField(DeclA()), "body");
    PathResolve.PlainKey(NodeField(DeclB()), "body");
  }

  lemma AttributeOnProgram()
    ensures MatchSelector(Program(), Attribute("body", None)) == [Program()]
  {
    AttributeFiltersPreOrder(Program(), "body", None);
    ProgramVisits();
    assert AttributeTest("body", None) == HasPath("body");
    ThreeWhere(PreOrder(Program()), HasPath("body"));
    BodyPaths();
  }

  /** `[body]` gives the program: only it has a `body` property. */
  lemma QueryAttribute()
    ensures Query(Program(), [OperatorTok("["), IdentifierTok("body"), OperatorTok("]")]) == Ok([Program()])
  {
    var s := Attribute("body", None);
    assert Canonical(s);
    QueryRendered(Program(), s);
    AttributeOnProgram();
  }
}
