/**
 * The recursive-descent selector parser (esquery.js, processTokens and the
 * consume* functions).
 *
 * The source consumes one shared token array with `tokens.shift()`. Here the
 * queue is an index into an immutable token sequence: every Consume* method
 * takes the cursor and returns the cursor after the tokens it shifted. Each
 * method is proved equal to a pure specification function Parsed* over the
 * tokens that remain in the queue; a thrown error becomes `Err`.
 */
module Parser {
  import opened Common
  import opened Selector
  import opened Tokens

  /** The message prefix of each error that the parser throws. */
  datatype ErrorKind =
    | UnexpectedToken             // "Unexpected token: "
    | UnexpectedKeyword           // "Unexpected keyword: "
    | UnexpectedTokenInPseudo     // "Unexpected token in pseudo: "
    | UnexpectedTokenInAttribute  // "Unexpected token in attribute: "
    | UnexpectedTokenInValue      // "Unexpected token in value: "
    | UnexpectedTokenInArgs       // "Unexpected token in args: "
    | UnexpectedTokenForValue     // "Unexpected token for value: "

  datatype ParseError =
      /** An error built by createError: the offending token, the tokens still queued, the tree built so far. */
    | Unexpected(kind: ErrorKind, token: Token, remaining: seq<Token>, partial: Option<Selector>)
      /** The TypeError raised when `tokens.shift()` found the queue empty and the result was inspected. */
    | EndOfInput

  /** One parsing step on the remaining tokens: what it built and what is left, or the error. */
  datatype Parsed<+T> = Done(value: T, rest: seq<Token>) | Failed(error: ParseError)

  /** `rest` is what remains of `ts` after at least one token was shifted. */
  predicate ProperSuffix(rest: seq<Token>, ts: seq<Token>) {
    |rest| < |ts| && rest == ts[|ts| - |rest|..]
  }

  /** `s` is `a` with one more combinator term or qualifier attached on the right. */
  predicate Grows(a: Selector, s: Selector) {
    (IsCombination(s) && s.left == a && (s.right.None? || IsTerm(s.right.value))) ||
    (s.And? && s.left == a && (s.right.None? || IsQualifier(s.right.value)))
  }

  /** The tree that one consumeSelector call may build from the tree so far. */
  predicate Extends(ast: Option<Selector>, s: Selector) {
    match ast
    case None => IsTerm(s)
    case Some(a) => Grows(a, s)
  }

  /** The trees the parser builds: a term, grown one step at a time. */
  predicate WellShaped(s: Selector) {
    IsTerm(s) || ((IsCombination(s) || s.And?) && WellShaped(s.left) && Grows(s.left, s))
  }

  // ---------------------------------------------------------------------------
  // Specification functions

  /** consumeValue: a number or a string token becomes a literal. */
  function ParsedValue(ts: seq<Token>): (r: Parsed<Literal>)
    ensures ts == [] ==> r == Failed(EndOfInput)
    ensures r.Done? <==> ts != [] && (ts[0].NumberTok? || ts[0].StringTok?)
    ensures r.Done? ==> LiteralToken(r.value) == ts[0] && r.rest == ts[1..]
  {
    if ts == [] then Failed(EndOfInput)
    else
      match ts[0]
      case NumberTok(n) => Done(NumLit(n), ts[1..])
      case StringTok(s) => Done(StrLit(s), ts[1..])
      case _ => Failed(Unexpected(UnexpectedTokenForValue, ts[0], ts[1..], None))
  }

  /** consumeArgs: `(`, one literal, `)`. The `(` test compares the token's value only. */
  function ParsedArgs(ts: seq<Token>): (r: Parsed<Literal>)
    ensures r.Done? <==>
              |ts| >= 3 && TextValue(ts[0]) == Some("(") &&
              (ts[1].NumberTok? || ts[1].StringTok?) && ts[2] == OperatorTok(")")
    ensures r.Done? ==> LiteralToken(r.value) == ts[1] && r.rest == ts[3..]
  {
    if ts == [] then Failed(EndOfInput)
    else
      var token, queue := ts[0], ts[1..];
      if TextValue(token) == Some("(") && |queue| > 1 then
        match ParsedValue(queue)
        case Failed(e) => Failed(e)
        case Done(literal, after) =>
          var paren := after[0];
          if paren != OperatorTok(")") then Failed(Unexpected(UnexpectedTokenInValue, paren, after[1..], None))
          else Done(literal, after[1..])
      else Failed(Unexpected(UnexpectedTokenInArgs, token, queue, None))
  }

  /** consumePseudo: the keyword after `:`. */
  function ParsedPseudo(ts: seq<Token>): (r: Parsed<Selector>)
    ensures ts == [] ==> r == Failed(EndOfInput)
    ensures r.Done? ==> r.value.NthChild? && ProperSuffix(r.rest, ts)
  {
    if ts == [] then Failed(EndOfInput)
    else
      match ts[0]
      case KeywordTok(w) =>
        if w == "first-child" then Done(NthChild(NumLit(0)), ts[1..])
        else if w == "nth-child" then
          match ParsedArgs(ts[1..])
          case Failed(e) => Failed(e)
          case Done(index, after) => Done(NthChild(index), after)
        else if w == "last-child" then Done(NthChild(NumLit(-1)), ts[1..])
        else Failed(Unexpected(UnexpectedKeyword, ts[0], ts[1..], None))
      case _ => Failed(Unexpected(UnexpectedTokenInPseudo, ts[0], ts[1..], None))
  }

  /**
   * consumeAttribute: the tokens after `[`. An operator other than `=` and `]`
   * creates an error that is never thrown, so the result is undefined (None).
   */
  function ParsedAttribute(ts: seq<Token>): (r: Parsed<Option<Selector>>)
    ensures ts == [] ==> r == Failed(EndOfInput)
    ensures r.Done? ==> |ts| >= 2 && ts[0].IdentifierTok? && ts[1].OperatorTok? && ProperSuffix(r.rest, ts)
    ensures r.Done? ==> (r.value.Some? <==> ts[1].op in {"=", "]"})
    ensures r.Done? && r.value.Some? ==> r.value.value.Attribute? && r.value.value.name == ts[0].name
  {
    if ts == [] then Failed(EndOfInput)
    else
      var token, queue := ts[0], ts[1..];
      if token.IdentifierTok? && |queue| > 0 then
        var op, afterOp := queue[0], queue[1..];
        if op.OperatorTok? then
          if op.op == "=" then
            match ParsedValue(afterOp)
            case Failed(e) => Failed(e)
            case Done(literal, afterValue) =>
              var ast := Attribute(token.name, Some(literal));
              if afterValue == [] then Failed(EndOfInput)
              else if afterValue[0] != OperatorTok("]") then
                Failed(Unexpected(UnexpectedTokenInAttribute, afterValue[0], afterValue[1..], Some(ast)))
              else Done(Some(ast), afterValue[1..])
          else if op.op == "]" then Done(Some(Attribute(token.name, None)), afterOp)
          else Done(None, afterOp)
        else Failed(Unexpected(UnexpectedTokenInAttribute, op, afterOp, None))
      else Failed(Unexpected(UnexpectedTokenInAttribute, token, queue, None))
  }

  /** consumeSelector: one term, combinator or qualifier, folded onto the tree so far. */
  function ParsedSelector(ts: seq<Token>, ast: Option<Selector>): (r: Parsed<Option<Selector>>)
    ensures ts == [] ==> r == Failed(EndOfInput)
    ensures r.Done? ==> ProperSuffix(r.rest, ts)
    ensures r.Done? && r.value.Some? ==> Extends(ast, r.value.value)
    decreases |ts|
  {
    if ts == [] then Failed(EndOfInput)
    else
      var token, queue := ts[0], ts[1..];
      if token.WildcardTok? && ast.None? then Done(Some(Wildcard), queue)
      else if token.IdentifierTok? && ast.None? then Done(Some(Identifier(token.name)), queue)
      else if token.OperatorTok? && |queue| > 0 then
        if HasCombinatorChar(token.op) then
          match ParsedSelector(queue, None)
          case Failed(e) => Failed(e)
          case Done(selector, after) =>
            Done(if ast.Some? then Some(Combine(token.op, ast.value, selector)) else selector, after)
        else if token.op == ":" then
          match ParsedPseudo(queue)
          case Failed(e) => Failed(e)
          case Done(pseudo, after) =>
            Done(if ast.Some? then Some(And(ast.value, Some(pseudo))) else Some(pseudo), after)
        else if token.op == "[" then
          match ParsedAttribute(queue)
          case Failed(e) => Failed(e)
          case Done(attribute, after) =>
            Done(if ast.Some? then Some(And(ast.value, attribute)) else attribute, after)
        else Done(None, queue)
      else Failed(Unexpected(UnexpectedToken, token, queue, ast))
  }

  /** processTokens: consumeSelector until the queue is empty. */
  function Processed(ts: seq<Token>, ast: Option<Selector>): (r: Result<Option<Selector>, ParseError>)
    ensures ts == [] ==> r == Ok(ast)
    ensures r.Ok? && r.value.Some? && (ast.None? || WellShaped(ast.value)) ==> WellShaped(r.value.value)
    decreases |ts|
  {
    if ts == [] then Ok(ast)
    else
      match ParsedSelector(ts, ast)
      case Failed(e) => Err(e)
      case Done(next, rest) => Processed(rest, next)
  }

  // ---------------------------------------------------------------------------
  // The parser proper, over a token queue

  /** What a Consume* method returned, read as a step on the remaining tokens. */
  function AtCursor<T>(r: Result<T, ParseError>, tokens: seq<Token>, next: nat): Parsed<T>
    requires next <= |tokens|
  {
    match r
    case Ok(v) => Done(v, tokens[next..])
    case Err(e) => Failed(e)
  }

  /** `tokens.shift()`: the front token (undefined when the queue is empty) and the new front. */
  method Shift(tokens: seq<Token>, pos: nat) returns (token: Option<Token>, next: nat)
    requires pos <= |tokens|
    ensures pos < |tokens| ==> token == Some(tokens[pos]) && next == pos + 1
    ensures pos == |tokens| ==> token == None && next == pos
  {
    if pos < |tokens| {
      token, next := Some(tokens[pos]), pos + 1;
    } else {
      token, next := None, pos;
    }
  }

  method ConsumeValue(tokens: seq<Token>, pos: nat) returns (r: Result<Literal, ParseError>, next: nat)
    requires pos <= |tokens|
    ensures pos <= next <= |tokens|
    ensures AtCursor(r, tokens, next) == ParsedValue(tokens[pos..])
  {
    var token;
    token, next := Shift(tokens, pos);
    if token == None {
      return Err(EndOfInput), next;
    }
    match token.value
    case NumberTok(n) => r := Ok(NumLit(n));
    case StringTok(s) => r := Ok(StrLit(s));
    case _ => r := Err(Unexpected(UnexpectedTokenForValue, token.value, tokens[next..], None));
  }

  method ConsumeArgs(tokens: seq<Token>, pos: nat) returns (r: Result<Literal, ParseError>, next: nat)
    requires pos <= |tokens|
    ensures pos <= next <= |tokens|
    ensures AtCursor(r, tokens, next) == ParsedArgs(tokens[pos..])
  {
    var token;
    token, next := Shift(tokens, pos);
    if token == None {
      return Err(EndOfInput), next;
    }
    assert tokens[pos..][1..] == tokens[next..];
    if TextValue(token.value) == Some("(") && |tokens| - next > 1 {
      var literal;
      literal, next := ConsumeValue(tokens, next);
      if literal.Err? {
        return literal, next;
      }
      var paren;
      paren, next := Shift(tokens, next);
      if paren.value != OperatorTok(")") {
        return Err(Unexpected(UnexpectedTokenInValue, paren.value, tokens[next..], None)), next;
      }
      r := literal;
    } else {
      r := Err(Unexpected(UnexpectedTokenInArgs, token.value, tokens[next..], None));
    }
  }

  method ConsumePseudo(tokens: seq<Token>, pos: nat) returns (r: Result<Selector, ParseError>, next: nat)
    requires pos <= |tokens|
    ensures pos <= next <= |tokens|
    ensures AtCursor(r, tokens, next) == ParsedPseudo(tokens[pos..])
  {
    var token;
    token, next := Shift(tokens, pos);
    if token == None {
      return Err(EndOfInput), next;
    }
    assert tokens[pos..][1..] == tokens[next..];
    match token.value
    case KeywordTok(w) =>
      if w == "first-child" {
        r := Ok(NthChild(NumLit(0)));
      } else if w == "nth-child" {
        var index;
        index, next := ConsumeArgs(tokens, next);
        r := match index case Ok(lit) => Ok(NthChild(lit)) case Err(e) => Err(e);
      } else if w == "last-child" {
        r := Ok(NthChild(NumLit(-1)));
      } else {
        r := Err(Unexpected(UnexpectedKeyword, token.value, tokens[next..], None));
      }
    case _ =>
      r := Err(Unexpected(UnexpectedTokenInPseudo, token.value, tokens[next..], None));
  }

  method ConsumeAttribute(tokens: seq<Token>, pos: nat) returns (r: Result<Option<Selector>, ParseError>, next: nat)
    requires pos <= |tokens|
    ensures pos <= next <= |tokens|
    ensures AtCursor(r, tokens, next) == ParsedAttribute(tokens[pos..])
  {
    var token;
    token, next := Shift(tokens, pos);
    if token == None {
      return Err(EndOfInput), next;
    }
    assert tokens[pos..][1..] == tokens[next..];
    if token.value.IdentifierTok? && next < |tokens| {
      var op;
      op, next := Shift(tokens, next);
      assert tokens[pos..][2..] == tokens[next..];
      if op.value.OperatorTok? {
        if op.value.op == "=" {
          var literal;
          literal, next := ConsumeValue(tokens, next);
          if literal.Err? {
            return Err(literal.error), next;
          }
          var ast := Attribute(token.value.name, Some(literal.value));
          var closing;
          closing, next := Shift(tokens, next);
          if closing == None {
            return Err(EndOfInput), next;
          }
          if closing.value != OperatorTok("]") {
            return Err(Unexpected(UnexpectedTokenInAttribute, closing.value, tokens[next..], Some(ast))), next;
          }
          r := Ok(Some(ast));
        } else if op.value.op == "]" {
          r := Ok(Some(Attribute(token.value.name, None)));
        } else {
          // The source builds an error here but does not throw it.
          r := Ok(None);
        }
      } else {
        r := Err(Unexpected(UnexpectedTokenInAttribute, op.value, tokens[next..], None));
      }
    } else {
      r := Err(Unexpected(UnexpectedTokenInAttribute, token.value, tokens[next..], None));
    }
  }

  method ConsumeSelector(tokens: seq<Token>, pos: nat, ast: Option<Selector>)
    returns (r: Result<Option<Selector>, ParseError>, next: nat)
    requires pos <= |tokens|
    ensures pos <= next <= |tokens|
    ensures AtCursor(r, tokens, next) == ParsedSelector(tokens[pos..], ast)
    decreases |tokens| - pos
  {
    var token;
    token, next := Shift(tokens, pos);
    if token == None {
      return Err(EndOfInput), next;
    }
    assert tokens[pos..][1..] == tokens[next..];
    var t := token.value;
    if t.WildcardTok? && ast.None? {
      r := Ok(Some(Wildcard));
    } else if t.IdentifierTok? && ast.None? {
      r := Ok(Some(Identifier(t.name)));
    } else if t.OperatorTok? && next < |tokens| {
      if HasCombinatorChar(t.op) {
        var selector;
        selector, next := ConsumeSelector(tokens, next, None);
        r := match selector
          case Err(e) => Err(e)
          case Ok(right) => Ok(if ast.Some? then Some(Combine(t.op, ast.value, right)) else right);
      } else if t.op == ":" {
        var pseudo;
        pseudo, next := ConsumePseudo(tokens, next);
        r := match pseudo
          case Err(e) => Err(e)
          case Ok(p) => Ok(if ast.Some? then Some(And(ast.value, Some(p))) else Some(p));
      } else if t.op == "[" {
        var attribute;
        attribute, next := ConsumeAttribute(tokens, next);
        r := match attribute
          case Err(e) => Err(e)
          case Ok(a) => Ok(if ast.Some? then Some(And(ast.value, a)) else a);
      } else {
        // No branch matches: the function falls off its end and returns undefined.
        r := Ok(None);
      }
    } else {
      r := Err(Unexpected(UnexpectedToken, t, tokens[next..], ast));
    }
  }

  /** processTokens: the tree built from the whole queue, or the first error. */
  method ProcessTokens(tokens: seq<Token>) returns (r: Result<Option<Selector>, ParseError>)
    ensures r == Processed(tokens, None)
  {
    var ast: Option<Selector> := None;
    var pos := 0;
    while pos < |tokens|
      invariant pos <= |tokens|
      invariant Processed(tokens[pos..], ast) == Processed(tokens, None)
      decreases |tokens| - pos
    {
      var step, next := ConsumeSelector(tokens, pos, ast);
      if step.Err? {
        return Err(step.error);
      }
      ast, pos := step.value, next;
    }
    r := Ok(ast);
  }
}
