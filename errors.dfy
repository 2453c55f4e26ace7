/** The engine's error values (calc/error.h) and the libm functions it calls. */
module Errors {

  /** calcError::errorType */
  datatype ErrorType =
    | Unknown
    | UnknownToken
    | UnexpectedToken
    | UnclosedBracket
    | InvalidExpression
    | InvalidOperands
    | InvalidArguments
    | UnknownName
    | EmptyExpression
    | RecursiveCall

  /** calcError: a message, its kind and the extra strings and reals a caller renders. */
  datatype CalcError = CalcError(msg: string, kind: ErrorType, strs: seq<string>, reals: seq<real>)

  /** overflowError::dataType */
  datatype OverflowType = Bin | Oct | Hex

  /** The exceptions real2str can raise: a calcError, or an overflowError for the bases. */
  datatype FormatError = Overflow(base: OverflowType)

  /**
    The floating-point library functions whose results the model does not
    interpret: std::pow, std::fmod, and pow(a, 1/b) for the root operator.
  */
  datatype Libm = Libm(pow: (real, real) -> real, fmod: (real, real) -> real, root: (real, real) -> real)
}
