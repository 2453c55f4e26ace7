/** The tokens the engine splits an expression into (calc::calc::Token in calc/calc.h). */
module Tokens {

  /** Token::Type */
  datatype TokenType =
    | Unknown
    | Operator
    | Real
    | RealReal
    | Name
    | Whitespace
    | OpenBracket
    | CloseBracket
    | Comma
    | FunctionStart
    | AssignmentOperator

  /**
    A token: its type, its text and, for a RealReal (a value already
    computed), the value itself.
  */
  datatype Token = Token(kind: TokenType, str: string, val: real)

  /** Token(type, str) with the default value 0. */
  function Tok(kind: TokenType, str: string): Token {
    Token(kind, str, 0.0)
  }

  /** A computed value, Token(tokenRealReal, "", v). */
  function Value(v: real): Token {
    Token(RealReal, "", v)
  }

  /** The position of a type in Token::Type, which "Unexpected token id" reports as a real. */
  function TypeId(k: TokenType): (n: nat)
    ensures n <= 10
  {
    match k
    case Unknown => 0
    case Operator => 1
    case Real => 2
    case RealReal => 3
    case Name => 4
    case Whitespace => 5
    case OpenBracket => 6
    case CloseBracket => 7
    case Comma => 8
    case FunctionStart => 9
    case AssignmentOperator => 10
  }

  /** calc::isOperator */
  predicate IsOperator(c: char) {
    || c == '^' || c == '~' || c == '*' || c == '/' || c == '%' || c == '+'
    || c == '-' || c == '<' || c == '>' || c == '&' || c == '|' || c == '='
  }
}
