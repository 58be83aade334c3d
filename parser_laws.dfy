/**
 * What the parser promises, stated over whole token sequences.
 *
 * `Render` writes a selector tree back as tokens. The central law is the round
 * trip: every canonical tree (a term followed by combinator terms and
 * qualifiers, folded to the left) is parsed back from its rendering. The other
 * lemmas say how the steps compose (a prefix that parses leaves its tree for
 * the tokens after it), the errors the parser throws and the two places where
 * it silently returns undefined.
 */
module ParserLaws {
  import opened Common
  import opened Selector
  import opened Tokens
  import opened Parser

  /** The trees that have a token rendering: a well-shaped tree with no undefined operand. */
  predicate Canonical(s: Selector) {
    match s
    case Wildcard => true
    case Identifier(_) => true
    case NthChild(_) => true
    case Attribute(_, _) => true
    case Descendant(l, r) => Canonical(l) && r.Some? && IsTerm(r.value)
    case Child(l, r) => Canonical(l) && r.Some? && IsTerm(r.value)
    case Sibling(l, r) => Canonical(l) && r.Some? && IsTerm(r.value)
    case Adjacent(l, r) => Canonical(l) && r.Some? && IsTerm(r.value)
    case Unmapped(op, l, r) =>
      HasCombinatorChar(op) && !IsMappedOperator(op) && Canonical(l) && r.Some? && IsTerm(r.value)
    case And(l, r) => Canonical(l) && r.Some? && IsQualifier(r.value)
  }

  /** The operator text of a combinator node (the inverse of the operator map). */
  function OperatorText(s: Selector): (op: string)
    requires IsCombination(s)
    ensures !s.Unmapped? ==> IsMappedOperator(op)
    ensures (s.Unmapped? ==> !IsMappedOperator(s.op)) ==> Combine(op, s.left, s.right) == s
  {
    match s
    case Descendant(_, _) => " "
    case Child(_, _) => ">"
    case Sibling(_, _) => "~"
    case Adjacent(_, _) => "+"
    case Unmapped(op, _, _) => op
  }

  function RenderTerm(t: Selector): (ts: seq<Token>)
    requires IsTerm(t)
    ensures ts != []
  {
    match t
    case Wildcard => [WildcardTok]
    case Identifier(n) => [IdentifierTok(n)]
    case NthChild(lit) =>
      [OperatorTok(":"), KeywordTok("nth-child"), OperatorTok("("), LiteralToken(lit), OperatorTok(")")]
    case Attribute(n, v) =>
      match v
      case None => [OperatorTok("["), IdentifierTok(n), OperatorTok("]")]
      case Some(lit) => [OperatorTok("["), IdentifierTok(n), OperatorTok("="), LiteralToken(lit), OperatorTok("]")]
  }

  /** The tokens of a canonical tree, left operand first. */
  function Render(s: Selector): (ts: seq<Token>)
    requires Canonical(s)
    ensures ts != []
  {
    if IsTerm(s) then RenderTerm(s)
    else if s.And? then Render(s.left) + RenderTerm(s.right.value)
    else Render(s.left) + [OperatorTok(OperatorText(s))] + RenderTerm(s.right.value)
  }

  lemma CombinatorTexts()
    ensures HasCombinatorChar(" ") && HasCombinatorChar(">") && HasCombinatorChar("~") && HasCombinatorChar("+")
    ensures !HasCombinatorChar(":") && !HasCombinatorChar("[")
  {
    assert IsCombinatorChar(" "[0]) && IsCombinatorChar(">"[0]) && IsCombinatorChar("~"[0]) && IsCombinatorChar("+"[0]);
  }

  /** A literal's token is read back as that literal. */
  lemma ValueStep(lit: Literal, rest: seq<Token>)
    ensures ParsedValue([LiteralToken(lit)] + rest) == Done(lit, rest)
  {
    assert ([LiteralToken(lit)] + rest)[1..] == rest;
  }

  lemma NthChildArgsStep(lit: Literal, rest: seq<Token>)
    ensures ParsedArgs([OperatorTok("("), LiteralToken(lit), OperatorTok(")")] + rest) == Done(lit, rest)
  {
    var args := [OperatorTok("("), LiteralToken(lit), OperatorTok(")")] + rest;
    assert args[1..] == [LiteralToken(lit)] + ([OperatorTok(")")] + rest);
    ValueStep(lit, [OperatorTok(")")] + rest);
    assert ([OperatorTok(")")] + rest)[1..] == rest;
  }

  lemma NthChildTermStep(lit: Literal, rest: seq<Token>)
    ensures ParsedSelector(RenderTerm(NthChild(lit)) + rest, None) == Done(Some(NthChild(lit)), rest)
  {
    var ts := RenderTerm(NthChild(lit)) + rest;
    var pseudo := ts[1..];
    assert pseudo == [KeywordTok("nth-child")] + ([OperatorTok("("), LiteralToken(lit), OperatorTok(")")] + rest);
    assert pseudo[1..] == [OperatorTok("("), LiteralToken(lit), OperatorTok(")")] + rest;
    NthChildArgsStep(lit, rest);
    assert ParsedPseudo(pseudo) == Done(NthChild(lit), rest);
    CombinatorTexts();
  }

  lemma AttributeStep(n: string, v: Option<Literal>, rest: seq<Token>)
    ensures ParsedAttribute(RenderTerm(Attribute(n, v))[1..] + rest) == Done(Some(Attribute(n, v)), rest)
  {
    var attr := RenderTerm(Attribute(n, v))[1..] + rest;
    match v
    case None =>
      assert attr == [IdentifierTok(n), OperatorTok("]")] + rest;
      assert attr[1..][1..] == rest;
    case Some(lit) =>
      assert attr == [IdentifierTok(n), OperatorTok("="), LiteralToken(lit), OperatorTok("]")] + rest;
      assert attr[1..][1..] == [LiteralToken(lit)] + ([OperatorTok("]")] + rest);
      ValueStep(lit, [OperatorTok("]")] + rest);
      assert ([OperatorTok("]")] + rest)[1..] == rest;
  }

  lemma AttributeTermStep(n: string, v: Option<Literal>, rest: seq<Token>)
    ensures ParsedSelector(RenderTerm(Attribute(n, v)) + rest, None) == Done(Some(Attribute(n, v)), rest)
  {
    var ts := RenderTerm(Attribute(n, v)) + rest;
    assert ts[1..] == RenderTerm(Attribute(n, v))[1..] + rest;
    AttributeStep(n, v, rest);
    CombinatorTexts();
  }

  /** A rendered term is consumed whole when no tree precedes it. */
  lemma TermStep(t: Selector, rest: seq<Token>)
    requires IsTerm(t)
    ensures ParsedSelector(RenderTerm(t) + rest, None) == Done(Some(t), rest)
  {
    match t
    case Wildcard =>
      assert ([WildcardTok] + rest)[1..] == rest;
    case Identifier(n) =>
      assert ([IdentifierTok(n)] + rest)[1..] == rest;
    case NthChild(lit) =>
      NthChildTermStep(lit, rest);
    case Attribute(n, v) =>
      AttributeTermStep(n, v, rest);
  }

  /** A rendered qualifier after a tree is joined to it with `And`. */
  lemma QualifierStep(a: Selector, q: Selector, rest: seq<Token>)
    requires IsQualifier(q)
    ensures ParsedSelector(RenderTerm(q) + rest, Some(a)) == Done(Some(And(a, Some(q))), rest)
  {
    CombinatorTexts();
    TermStep(q, rest);
  }

  /** A combinator operator and a rendered term after a tree build the operator map's node. */
  lemma CombinatorStep(op: string, a: Selector, t: Selector, rest: seq<Token>)
    requires HasCombinatorChar(op) && IsTerm(t)
    ensures ParsedSelector([OperatorTok(op)] + RenderTerm(t) + rest, Some(a)) == Done(Some(Combine(op, a, Some(t))), rest)
  {
    var ts := [OperatorTok(op)] + RenderTerm(t) + rest;
    assert ts[1..] == RenderTerm(t) + rest;
    TermStep(t, rest);
  }

  // ---------------------------------------------------------------------------
  // A step does not look past the tokens it consumes

  lemma ValueExtends(ts: seq<Token>, x: seq<Token>)
    requires ParsedValue(ts).Done?
    ensures ParsedValue(ts + x) == Done(ParsedValue(ts).value, ParsedValue(ts).rest + x)
  {
    assert (ts + x)[0] == ts[0] && (ts + x)[1..] == ts[1..] + x;
  }

  lemma ArgsExtends(ts: seq<Token>, x: seq<Token>)
    requires ParsedArgs(ts).Done?
    ensures ParsedArgs(ts + x) == Done(ParsedArgs(ts).value, ParsedArgs(ts).rest + x)
  {
    var queue := ts[1..];
    assert (ts + x)[0] == ts[0] && (ts + x)[1..] == queue + x;
    ValueExtends(queue, x);
    var after := ParsedValue(queue).rest;
    assert (after + x)[0] == after[0] && (after + x)[1..] == after[1..] + x;
  }

  lemma PseudoExtends(ts: seq<Token>, x: seq<Token>)
    requires ParsedPseudo(ts).Done?
    ensures ParsedPseudo(ts + x) == Done(ParsedPseudo(ts).value, ParsedPseudo(ts).rest + x)
  {
    assert (ts + x)[0] == ts[0] && (ts + x)[1..] == ts[1..] + x;
    if ts[0] == KeywordTok("nth-child") {
      ArgsExtends(ts[1..], x);
    }
  }

  lemma AttributeExtends(ts: seq<Token>, x: seq<Token>)
    requires ParsedAttribute(ts).Done?
    ensures ParsedAttribute(ts + x) == Done(ParsedAttribute(ts).value, ParsedAttribute(ts).rest + x)
  {
    var queue := ts[1..];
    assert (ts + x)[0] == ts[0] && (ts + x)[1..] == queue + x;
    assert (queue + x)[0] == queue[0] && (queue + x)[1..] == queue[1..] + x;
    if queue[0] == OperatorTok("=") {
      ValueExtends(queue[1..], x);
      var after := ParsedValue(queue[1..]).rest;
      assert (after + x)[0] == after[0] && (after + x)[1..] == after[1..] + x;
    }
  }

  lemma {:induction false} SelectorExtends(ts: seq<Token>, ast: Option<Selector>, x: seq<Token>)
    requires ParsedSelector(ts, ast).Done?
    ensures ParsedSelector(ts + x, ast) == Done(ParsedSelector(ts, ast).value, ParsedSelector(ts, ast).rest + x)
    decreases |ts|
  {
    var token, queue := ts[0], ts[1..];
    assert (ts + x)[0] == token && (ts + x)[1..] == queue + x;
    if token.OperatorTok? && |queue| > 0 {
      if HasCombinatorChar(token.op) {
        SelectorExtends(queue, None, x);
      } else if token.op == ":" {
        PseudoExtends(queue, x);
      } else if token.op == "[" {
        AttributeExtends(queue, x);
      }
    }
  }

  /**
   * processTokens folds its steps from the left: once a prefix has been read
   * without error, the tokens after it are read from the tree it left.
   */
  lemma {:induction false} ProcessedAppend(ts: seq<Token>, ast: Option<Selector>, x: seq<Token>)
    requires Processed(ts, ast).Ok?
    ensures Processed(ts + x, ast) == Processed(x, Processed(ts, ast).value)
    decreases |ts|
  {
    if ts == [] {
      assert ts + x == x;
    } else {
      var step := ParsedSelector(ts, ast);
      SelectorExtends(ts, ast, x);
      ProcessedAppend(step.rest, step.value, x);
    }
  }

  /** Processing a rendered tree leaves that tree as the tree so far. */
  lemma {:induction false} ProcessRendered(s: Selector, rest: seq<Token>)
    requires Canonical(s)
    ensures Processed(Render(s) + rest, None) == Processed(rest, Some(s))
  {
    if IsTerm(s) {
      TermStep(s, rest);
    } else if s.And? {
      var q := s.right.value;
      assert Render(s) + rest == Render(s.left) + (RenderTerm(q) + rest);
      ProcessRendered(s.left, RenderTerm(q) + rest);
      QualifierStep(s.left, q, rest);
    } else {
      var op, t := OperatorText(s), s.right.value;
      var tail := [OperatorTok(op)] + RenderTerm(t) + rest;
      assert Render(s) + rest == Render(s.left) + tail;
      ProcessRendered(s.left, tail);
      CombinatorTexts();
      CombinatorStep(op, s.left, t, rest);
      assert Combine(op, s.left, Some(t)) == s;
    }
  }

  /** Round trip: the parser reads every canonical tree back from its tokens. */
  lemma ParseRender(s: Selector)
    requires Canonical(s)
    ensures Processed(Render(s), None) == Ok(Some(s))
  {
    ProcessRendered(s, []);
    assert Render(s) + [] == Render(s);
  }

  /** Canonical trees are among the shapes the parser can build. */
  lemma {:induction false} CanonicalIsWellShaped(s: Selector)
    requires Canonical(s)
    ensures WellShaped(s)
  {
    if !IsTerm(s) {
      CanonicalIsWellShaped(s.left);
    }
  }

  /** Folding to the left: `a > b > c` is `child(child(a, b), c)`. */
  lemma ChildChainFoldsLeft(a: string, b: string, c: string)
    ensures Processed([IdentifierTok(a), OperatorTok(">"), IdentifierTok(b), OperatorTok(">"), IdentifierTok(c)], None)
         == Ok(Some(Child(Child(Identifier(a), Some(Identifier(b))), Some(Identifier(c)))))
  {
    var ab := Child(Identifier(a), Some(Identifier(b)));
    var abc := Child(ab, Some(Identifier(c)));
    assert IsTerm(Identifier(b)) && IsTerm(Identifier(c));
    assert Canonical(ab) && Canonical(abc);
    assert Render(ab) == [IdentifierTok(a)] + [OperatorTok(">")] + [IdentifierTok(b)];
    assert Render(abc) == Render(ab) + [OperatorTok(">")] + [IdentifierTok(c)];
    assert Render(abc) == [IdentifierTok(a), OperatorTok(">"), IdentifierTok(b), OperatorTok(">"), IdentifierTok(c)];
    ParseRender(abc);
  }

  /** A pseudo-class after a combinator applies to the whole chain: `a > b:first-child` is `and(child(a, b), nth-child 0)`. */
  lemma PseudoFoldsLeft(a: string, b: string)
    ensures Processed([IdentifierTok(a), OperatorTok(">"), IdentifierTok(b), OperatorTok(":"), KeywordTok("first-child")], None)
         == Ok(Some(And(Child(Identifier(a), Some(Identifier(b))), Some(NthChild(NumLit(0))))))
  {
    var ab := Child(Identifier(a), Some(Identifier(b)));
    assert IsTerm(Identifier(a)) && IsTerm(Identifier(b));
    assert Canonical(ab);
    assert Render(ab) == [IdentifierTok(a)] + [OperatorTok(">")] + [IdentifierTok(b)];
    assert Render(ab) + [OperatorTok(":"), KeywordTok("first-child")] + []
        == [IdentifierTok(a), OperatorTok(">"), IdentifierTok(b), OperatorTok(":"), KeywordTok("first-child")];
    PseudoKeywordStep(ab, "first-child", NumLit(0), []);
  }

  /** What `:` or `[` leaves: the qualifier joined to the tree so far with `and`, or alone when there is none. */
  function Qualified(ast: Option<Selector>, q: Option<Selector>): Option<Selector> {
    if ast.Some? then Some(And(ast.value, q)) else q
  }

  /** `:first-child` is index 0 and `:last-child` index -1, qualifying whatever tree there is so far. */
  lemma FirstAndLastChild(ast: Option<Selector>, rest: seq<Token>)
    ensures Processed([OperatorTok(":"), KeywordTok("first-child")] + rest, ast)
         == Processed(rest, Qualified(ast, Some(NthChild(NumLit(0)))))
    ensures Processed([OperatorTok(":"), KeywordTok("last-child")] + rest, ast)
         == Processed(rest, Qualified(ast, Some(NthChild(NumLit(-1)))))
  {
    PseudoKeyword(ast, "first-child", NumLit(0), rest);
    PseudoKeyword(ast, "last-child", NumLit(-1), rest);
  }

  lemma PseudoKeyword(ast: Option<Selector>, w: string, index: Literal, rest: seq<Token>)
    requires (w == "first-child" && index == NumLit(0)) || (w == "last-child" && index == NumLit(-1))
    ensures Processed([OperatorTok(":"), KeywordTok(w)] + rest, ast) == Processed(rest, Qualified(ast, Some(NthChild(index))))
  {
    CombinatorTexts();
    var tail := [OperatorTok(":"), KeywordTok(w)] + rest;
    assert tail[1..] == [KeywordTok(w)] + rest;
    assert ParsedPseudo(tail[1..]) == Done(NthChild(index), rest);
  }

  /** The same after the rendering of a canonical tree. */
  lemma PseudoKeywordStep(s: Selector, w: string, index: Literal, rest: seq<Token>)
    requires Canonical(s)
    requires (w == "first-child" && index == NumLit(0)) || (w == "last-child" && index == NumLit(-1))
    ensures Processed(Render(s) + [OperatorTok(":"), KeywordTok(w)] + rest, None)
         == Processed(rest, Some(And(s, Some(NthChild(index)))))
  {
    var tail := [OperatorTok(":"), KeywordTok(w)] + rest;
    assert Render(s) + [OperatorTok(":"), KeywordTok(w)] + rest == Render(s) + tail;
    ProcessRendered(s, tail);
    PseudoKeyword(Some(s), w, index, rest);
  }

  /** A wildcard or an identifier right after a tree, whatever that tree, is an "Unexpected token" error. */
  lemma TermAfterTreeFails(a: Selector, t: Token, rest: seq<Token>)
    requires t.WildcardTok? || t.IdentifierTok?
    ensures Processed([t] + rest, Some(a)) == Err(Unexpected(UnexpectedToken, t, rest, Some(a)))
  {
    assert ([t] + rest)[0] == t && ([t] + rest)[1..] == rest;
    assert ParsedSelector([t] + rest, Some(a)) == Failed(Unexpected(UnexpectedToken, t, rest, Some(a)));
  }

  /**
   * An operator as the last token (`a[`, `a >`, a lone `>`) is an "Unexpected
   * token" error carrying the tree read before it, whatever came before.
   */
  lemma TrailingOperatorFails(ts: seq<Token>, ast: Option<Selector>, op: string)
    requires Processed(ts, ast).Ok?
    ensures Processed(ts + [OperatorTok(op)], ast) == Err(Unexpected(UnexpectedToken, OperatorTok(op), [], Processed(ts, ast).value))
  {
    ProcessedAppend(ts, ast, [OperatorTok(op)]);
  }

  /** After `:`, only the three pseudo-class keywords are accepted, whatever the tree so far. */
  lemma PseudoFails(ast: Option<Selector>, t: Token, rest: seq<Token>)
    requires t != KeywordTok("first-child") && t != KeywordTok("last-child") && t != KeywordTok("nth-child")
    ensures Processed([OperatorTok(":"), t] + rest, ast)
         == Err(Unexpected(if t.KeywordTok? then UnexpectedKeyword else UnexpectedTokenInPseudo, t, rest, None))
  {
    CombinatorTexts();
    var tail := [OperatorTok(":"), t] + rest;
    assert tail[1..] == [t] + rest;
    assert ([t] + rest)[1..] == rest;
  }

  /** `:nth-child` needs `(`, a literal and `)`, whatever the tree so far. */
  lemma NthChildArgsFail(ast: Option<Selector>, t: Token, rest: seq<Token>)
    requires TextValue(t) != Some("(")
    ensures Processed([OperatorTok(":"), KeywordTok("nth-child"), t] + rest, ast)
         == Err(Unexpected(UnexpectedTokenInArgs, t, rest, None))
  {
    CombinatorTexts();
    var tail := [OperatorTok(":"), KeywordTok("nth-child"), t] + rest;
    assert tail[1..] == [KeywordTok("nth-child"), t] + rest;
    assert tail[1..][1..] == [t] + rest;
    assert ([t] + rest)[1..] == rest;
    assert ParsedArgs(tail[1..][1..]) == Failed(Unexpected(UnexpectedTokenInArgs, t, rest, None));
  }

  /** The step that reads `[name=t`, with `t` not a literal. */
  lemma ValueAttributeFails(n: string, t: Token, rest: seq<Token>)
    requires !(t.NumberTok? || t.StringTok?)
    ensures ParsedAttribute([IdentifierTok(n), OperatorTok("="), t] + rest)
         == Failed(Unexpected(UnexpectedTokenForValue, t, rest, None))
  {
    var attr := [IdentifierTok(n), OperatorTok("=")] + ([t] + rest);
    assert [IdentifierTok(n), OperatorTok("="), t] + rest == attr;
    assert attr[1..][1..] == [t] + rest;
    assert ([t] + rest)[1..] == rest;
  }

  /** The step that reads `[name=lit u` with `u` not `]`. */
  lemma CloseAttributeFails(n: string, lit: Literal, u: Token, rest: seq<Token>)
    requires u != OperatorTok("]")
    ensures ParsedAttribute([IdentifierTok(n), OperatorTok("="), LiteralToken(lit), u] + rest)
         == Failed(Unexpected(UnexpectedTokenInAttribute, u, rest, Some(Attribute(n, Some(lit)))))
  {
    var attr := [IdentifierTok(n), OperatorTok("=")] + ([LiteralToken(lit)] + ([u] + rest));
    assert [IdentifierTok(n), OperatorTok("="), LiteralToken(lit), u] + rest == attr;
    assert attr[1..][1..] == [LiteralToken(lit)] + ([u] + rest);
    ValueStep(lit, [u] + rest);
    assert ([u] + rest)[1..] == rest;
  }

  /** An attribute step that fails makes the whole parse fail with its error. */
  lemma AttributeFailure(ast: Option<Selector>, attr: seq<Token>, e: ParseError)
    requires attr != [] && ParsedAttribute(attr) == Failed(e)
    ensures Processed([OperatorTok("[")] + attr, ast) == Err(e)
  {
    var tail := [OperatorTok("[")] + attr;
    assert tail[1..] == attr;
    CombinatorTexts();
    assert ParsedSelector(tail, ast) == Failed(e);
  }

  /** In `[name=v]` the value must be a number or a string, whatever the tree so far. */
  lemma AttributeValueFails(ast: Option<Selector>, n: string, t: Token, rest: seq<Token>)
    requires !(t.NumberTok? || t.StringTok?)
    ensures Processed([OperatorTok("["), IdentifierTok(n), OperatorTok("="), t] + rest, ast)
         == Err(Unexpected(UnexpectedTokenForValue, t, rest, None))
  {
    var attr := [IdentifierTok(n), OperatorTok("="), t] + rest;
    assert [OperatorTok("["), IdentifierTok(n), OperatorTok("="), t] + rest == [OperatorTok("[")] + attr;
    ValueAttributeFails(n, t, rest);
    AttributeFailure(ast, attr, Unexpected(UnexpectedTokenForValue, t, rest, None));
  }

  /**
   * In `[name=v]` the literal must be followed by `]`, whatever the tree so
   * far; the error carries the attribute built so far.
   */
  lemma AttributeCloseFails(ast: Option<Selector>, n: string, lit: Literal, u: Token, rest: seq<Token>)
    requires u != OperatorTok("]")
    ensures Processed([OperatorTok("["), IdentifierTok(n), OperatorTok("="), LiteralToken(lit), u] + rest, ast)
         == Err(Unexpected(UnexpectedTokenInAttribute, u, rest, Some(Attribute(n, Some(lit)))))
  {
    var attr := [IdentifierTok(n), OperatorTok("="), LiteralToken(lit), u] + rest;
    assert [OperatorTok("["), IdentifierTok(n), OperatorTok("="), LiteralToken(lit), u] + rest == [OperatorTok("[")] + attr;
    CloseAttributeFails(n, lit, u, rest);
    AttributeFailure(ast, attr, Unexpected(UnexpectedTokenInAttribute, u, rest, Some(Attribute(n, Some(lit)))));
  }

  /** A `:` step that fails (a bad keyword, or bad `:nth-child` arguments) makes the whole parse fail with its error. */
  lemma PseudoFailure(ast: Option<Selector>, ps: seq<Token>, e: ParseError)
    requires ps != [] && ParsedPseudo(ps) == Failed(e)
    ensures Processed([OperatorTok(":")] + ps, ast) == Err(e)
  {
    var tail := [OperatorTok(":")] + ps;
    assert tail[1..] == ps;
    CombinatorTexts();
    assert ParsedSelector(tail, ast) == Failed(e);
  }

  /** `:nth-child(v` followed by anything but `)` is an "Unexpected token in value" error, whatever the tree so far. */
  lemma NthChildCloseFails(ast: Option<Selector>, lit: Literal, u: Token, rest: seq<Token>)
    requires u != OperatorTok(")")
    ensures Processed([OperatorTok(":"), KeywordTok("nth-child"), OperatorTok("("), LiteralToken(lit), u] + rest, ast)
         == Err(Unexpected(UnexpectedTokenInValue, u, rest, None))
  {
    var ps := [KeywordTok("nth-child"), OperatorTok("("), LiteralToken(lit), u] + rest;
    assert [OperatorTok(":"), KeywordTok("nth-child"), OperatorTok("("), LiteralToken(lit), u] + rest == [OperatorTok(":")] + ps;
    var args := ps[1..];
    assert args == [OperatorTok("(")] + ([LiteralToken(lit)] + ([u] + rest));
    assert args[1..] == [LiteralToken(lit)] + ([u] + rest);
    ValueStep(lit, [u] + rest);
    assert ([u] + rest)[1..] == rest;
    assert ParsedArgs(args) == Failed(Unexpected(UnexpectedTokenInValue, u, rest, None));
    PseudoFailure(ast, ps, Unexpected(UnexpectedTokenInValue, u, rest, None));
  }

  /** A combinator with no tree before it (`> a`) leaves its right term standing alone. */
  lemma LeadingCombinator(op: string, t: Selector, rest: seq<Token>)
    requires HasCombinatorChar(op) && IsTerm(t)
    ensures Processed([OperatorTok(op)] + RenderTerm(t) + rest, None) == Processed(rest, Some(t))
  {
    var ts := [OperatorTok(op)] + RenderTerm(t) + rest;
    assert ts[1..] == RenderTerm(t) + rest;
    TermStep(t, rest);
    assert ParsedSelector(ts, None) == Done(Some(t), rest);
  }

  /** A keyword, a string or a number where a selector step must start is an "Unexpected token" error. */
  lemma OtherTokenFails(ast: Option<Selector>, t: Token, rest: seq<Token>)
    requires t.KeywordTok? || t.StringTok? || t.NumberTok?
    ensures Processed([t] + rest, ast) == Err(Unexpected(UnexpectedToken, t, rest, ast))
  {
    assert ([t] + rest)[0] == t && ([t] + rest)[1..] == rest;
    assert ParsedSelector([t] + rest, ast) == Failed(Unexpected(UnexpectedToken, t, rest, ast));
  }

  /**
   * `[name op` with an operator other than `=` and `]` throws nothing: the
   * attribute is undefined, so the tree so far becomes `and(tree, undefined)`,
   * or undefined when there is none.
   */
  lemma UnthrownAttributeError(ast: Option<Selector>, n: string, op: string, rest: seq<Token>)
    requires op != "=" && op != "]"
    ensures Processed([OperatorTok("["), IdentifierTok(n), OperatorTok(op)] + rest, ast) == Processed(rest, Qualified(ast, None))
  {
    CombinatorTexts();
    var tail := [OperatorTok("["), IdentifierTok(n), OperatorTok(op)] + rest;
    assert tail[1..] == [IdentifierTok(n), OperatorTok(op)] + rest;
    assert tail[1..][1..][1..] == rest;
    assert ParsedAttribute(tail[1..]) == Done(None, rest);
    assert ParsedSelector(tail, ast) == Done(Qualified(ast, None), rest);
  }

  /**
   * An operator that is neither a combinator, `:` nor `[` (a stray `]`, `=`, `(`)
   * with tokens after it returns undefined: whatever tree was built so far is dropped.
   */
  lemma StrayOperatorDropsTree(ast: Option<Selector>, op: string, rest: seq<Token>)
    requires rest != []
    requires !HasCombinatorChar(op) && op != ":" && op != "["
    ensures Processed([OperatorTok(op)] + rest, ast) == Processed(rest, None)
  {
    assert ([OperatorTok(op)] + rest)[0] == OperatorTok(op) && ([OperatorTok(op)] + rest)[1..] == rest;
    assert ParsedSelector([OperatorTok(op)] + rest, ast) == Done(None, rest);
  }
}
