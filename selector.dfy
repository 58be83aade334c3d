/**
 * The selector tree that the parser builds and the matcher evaluates.
 * A right operand is optional because the source can leave it `undefined`
 * (an attribute selector whose operator is neither `=` nor `]`).
 */
module Selector {
  import opened Common

  /** A literal operand; number tokens are modelled as integers. */
  datatype Literal = NumLit(num: int) | StrLit(str: string)

  datatype Selector =
    | Wildcard
    | Identifier(name: string)
    | Descendant(left: Selector, right: Option<Selector>)
    | Child(left: Selector, right: Option<Selector>)
    | Sibling(left: Selector, right: Option<Selector>)
    | Adjacent(left: Selector, right: Option<Selector>)
      /** A combinator whose operator text is not a key of the operator map: its `type` is undefined. */
    | Unmapped(op: string, left: Selector, right: Option<Selector>)
    | And(left: Selector, right: Option<Selector>)
    | NthChild(index: Literal)
      /** `[name]` when `value` is None, `[name=value]` otherwise. */
    | Attribute(name: string, value: Option<Literal>)

  /** The operator texts that name a combinator. */
  predicate IsMappedOperator(op: string) {
    op == " " || op == ">" || op == "~" || op == "+"
  }

  /** Builds the combinator node that the operator map names for `op`. */
  function Combine(op: string, left: Selector, right: Option<Selector>): (s: Selector)
    ensures IsCombination(s) && s.left == left && s.right == right
    ensures s.Descendant? <==> op == " "
    ensures s.Child? <==> op == ">"
    ensures s.Sibling? <==> op == "~"
    ensures s.Adjacent? <==> op == "+"
    ensures s.Unmapped? <==> !IsMappedOperator(op)
    ensures s.Unmapped? ==> s.op == op
  {
    if op == " " then Descendant(left, right)
    else if op == ">" then Child(left, right)
    else if op == "~" then Sibling(left, right)
    else if op == "+" then Adjacent(left, right)
    else Unmapped(op, left, right)
  }

  /** The binary variants that a combinator operator builds. */
  predicate IsCombination(s: Selector) {
    s.Descendant? || s.Child? || s.Sibling? || s.Adjacent? || s.Unmapped?
  }

  /** What one term of a selector stands for when no tree precedes it. */
  predicate IsTerm(s: Selector) {
    s.Wildcard? || s.Identifier? || s.NthChild? || s.Attribute?
  }

  /** What `:` and `[` produce: the right operand of an `And`. */
  predicate IsQualifier(s: Selector) {
    s.NthChild? || s.Attribute?
  }
}
