/**
 * Tokens, as the lexer classifies them. The lexer itself is not part of this
 * model: the parser takes a token sequence as its input.
 */
module Tokens {
  import opened Common
  import opened Selector

  datatype Token =
    | WildcardTok
    | KeywordTok(word: string)
    | StringTok(text: string)
    | NumberTok(num: int)
    | OperatorTok(op: string)
    | IdentifierTok(name: string)

  /** The `value` of a token when it is a string (a wildcard's value is "*"). */
  function TextValue(t: Token): Option<string> {
    match t
    case WildcardTok => Some("*")
    case KeywordTok(w) => Some(w)
    case StringTok(s) => Some(s)
    case NumberTok(_) => None
    case OperatorTok(op) => Some(op)
    case IdentifierTok(n) => Some(n)
  }

  /** The characters of the regular-expression class `\s`. */
  predicate IsRegexSpace(c: char) {
    ('\t' <= c <= '\r') || c == ' ' || c == '\U{00A0}' || c == '\U{1680}'
    || ('\U{2000}' <= c <= '\U{200A}') || c == '\U{2028}' || c == '\U{2029}'
    || c == '\U{202F}' || c == '\U{205F}' || c == '\U{3000}' || c == '\U{FEFF}'
  }

  predicate IsCombinatorChar(c: char) {
    IsRegexSpace(c) || c == '>' || c == '~' || c == '+'
  }

  /** The test `/[\s>~+]/` on an operator's text: it holds when ANY character is one of those. */
  predicate HasCombinatorChar(op: string) {
    exists i | 0 <= i < |op| :: IsCombinatorChar(op[i])
  }

  /** The token a literal is read from. */
  function LiteralToken(lit: Literal): (t: Token)
    ensures t.NumberTok? || t.StringTok?
  {
    match lit
    case NumLit(n) => NumberTok(n)
    case StrLit(s) => StringTok(s)
  }
}
