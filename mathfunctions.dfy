/**
  The three kinds of function a calculator can call (calc/mathfunction.h):
  a predefined function over the whole argument list, a one-argument C++
  function, and a user-defined function given by an expression over the
  variables ARG0, ARG1, ... This module holds what does not need the
  calculator: the argument checks of the two built-in kinds and the
  argument count of an expression. Executing a user-defined function is
  Engine.Session.Execute.
*/
module MathFunctions {
  import opened Wrappers
  import opened Errors
  import opened Text

  /**
    A mathFunction: its variant and what it runs. A C++ function takes one
    real and may itself raise an error (faculty of a negative number does).
  */
  datatype MathFunction =
    | UserDefined(expression: string)
    | Cpp(apply: real -> Result<real, CalcError>)
    | PreDefined(run: seq<real> -> Result<real, CalcError>)

  // ---------------------------------------------------------------- predefined and C++ functions

  /** An invalidArguments error gets the function's name appended; any other error passes unchanged. */
  function NameAttached(e: CalcError, name: string): (r: CalcError)
    ensures r.msg == e.msg && r.kind == e.kind && r.reals == e.reals
    ensures r.strs == if e.kind == InvalidArguments then e.strs + [name] else e.strs
  {
    if e.kind == InvalidArguments then e.(strs := e.strs + [name]) else e
  }

  /** preDefinedMathFunction::execute: the function's own result, its errors named when about arguments. */
  function RunPreDefined(run: seq<real> -> Result<real, CalcError>, name: string, args: seq<real>): (r: Result<real, CalcError>)
    ensures r.Ok? <==> run(args).Ok?
    ensures r.Ok? ==> r.value == run(args).value
    ensures r.Err? ==> r.error == NameAttached(run(args).error, name)
  {
    match run(args)
    case Ok(v) => Ok(v)
    case Err(e) => Err(NameAttached(e, name))
  }

  /**
    cppMathFunction's arity error: raised with the name and the argument
    count, and named once more by the handler that catches it.
  */
  function CppArityError(name: string, given: nat): CalcError {
    NameAttached(CalcError(if given < 1 then "Too less arguments" else "Too many arguments",
                           InvalidArguments, [name], [given as real]), name)
  }

  /**
    cppMathFunction::execute: exactly one argument, passed to the C++
    function; its errors about arguments are named like the arity errors.
  */
  function RunCpp(apply: real -> Result<real, CalcError>, name: string, args: seq<real>): (r: Result<real, CalcError>)
    ensures r.Ok? <==> |args| == 1 && apply(args[0]).Ok?
    ensures r.Ok? ==> r.value == apply(args[0]).value
    ensures |args| == 1 && r.Err? ==> r.error == NameAttached(apply(args[0]).error, name)
    ensures |args| != 1 ==> && r.Err? && r.error.kind == InvalidArguments
                            && r.error.strs == [name, name]
                            && r.error.reals == [|args| as real]
                            && r.error.msg == (if |args| < 1 then "Too less arguments" else "Too many arguments")
  {
    if |args| != 1 then Err(CppArityError(name, |args|))
    else match apply(args[0])
      case Ok(v) => Ok(v)
      case Err(e) => Err(NameAttached(e, name))
  }

  // ---------------------------------------------------------------- the arguments of an expression

  /** The largest argument count an unsigned short counter reaches. */
  const MAX_ARGUMENTS: nat := USHORT_MAX

  /** "ARG" followed by the decimal digits of i. */
  function ArgName(i: nat): (s: string)
    ensures |s| > 3 && s[..3] == "ARG"
  {
    "ARG" + NatToString(i)
  }

  /** Different positions have different argument names. */
  lemma ArgNamesDistinct(i: nat, j: nat)
    requires i != j
    ensures ArgName(i) != ArgName(j)
  {
    if ArgName(i) == ArgName(j) {
      assert NatToString(i) == ArgName(i)[3..];
      assert NatToString(j) == ArgName(j)[3..];
      NatToStringInjective(i, j);
    }
  }

  /** The count reached when counting on from n. */
  function ArgCountFrom(expr: string, n: nat): (c: nat)
    requires n <= MAX_ARGUMENTS
    ensures n <= c <= MAX_ARGUMENTS
    decreases MAX_ARGUMENTS - n
  {
    if n == MAX_ARGUMENTS || !Contains(expr, ArgName(n)) then n else ArgCountFrom(expr, n + 1)
  }

  /**
    The number of arguments a user-defined function takes: the first n for
    which "ARGn" does not occur in its expression, or 65535.
  */
  function ArgCount(expr: string): nat {
    ArgCountFrom(expr, 0)
  }

  /** Every name below the count occurs; the name at the count does not, unless the counter was exhausted. */
  lemma {:induction false} ArgCountFromIsLeast(expr: string, n: nat)
    requires n <= MAX_ARGUMENTS
    requires forall i :: 0 <= i < n ==> Contains(expr, ArgName(i))
    ensures forall i :: 0 <= i < ArgCountFrom(expr, n) ==> Contains(expr, ArgName(i))
    ensures ArgCountFrom(expr, n) < MAX_ARGUMENTS ==> !Contains(expr, ArgName(ArgCountFrom(expr, n)))
    decreases MAX_ARGUMENTS - n
  {
    if n < MAX_ARGUMENTS && Contains(expr, ArgName(n)) {
      ArgCountFromIsLeast(expr, n + 1);
    }
  }

  /** The count is the least n whose argument name is missing from the expression (below the counter's limit). */
  lemma ArgCountIsLeast(expr: string)
    ensures ArgCount(expr) <= MAX_ARGUMENTS
    ensures forall i :: 0 <= i < ArgCount(expr) ==> Contains(expr, ArgName(i))
    ensures ArgCount(expr) < MAX_ARGUMENTS ==> !Contains(expr, ArgName(ArgCount(expr)))
  {
    ArgCountFromIsLeast(expr, 0);
  }

  /** The counting loop of userDefinedMathFunction::execute. */
  method CountArguments(expr: string) returns (count: nat)
    ensures count == ArgCount(expr)
  {
    count := 0;
    while count < MAX_ARGUMENTS && Contains(expr, ArgName(count))
      invariant count <= MAX_ARGUMENTS
      invariant ArgCountFrom(expr, count) == ArgCount(expr)
      decreases MAX_ARGUMENTS - count
    {
      count := count + 1;
    }
  }
}
