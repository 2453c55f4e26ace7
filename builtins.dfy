/**
  The built-in functions of the Qt front end (the mathFunctions namespace
  in qtcalc.cpp) and the QTCalc operations that keep the built-in
  variables and functions in the calculator's tables.
*/
module Builtins {
  import opened Wrappers
  import opened Errors
  import opened MathFunctions
  import opened Engine
  import Passes

  // ---------------------------------------------------------------- round

  /** std::ceil */
  function Ceil(x: real): (c: int)
    ensures x <= c as real < x + 1.0
  {
    if x == x.Floor as real then x.Floor else x.Floor + 1
  }

  /**
    mathFunctions::round: the floor when it is strictly closer, otherwise
    the ceiling; halves therefore round up.
  */
  function Round(x: real): (r: real)
    ensures r == r.Floor as real
    ensures x - 0.5 < r <= x + 0.5
  {
    var f := x.Floor as real;
    var c := Ceil(x) as real;
    if x - f < c - x then f else c
  }

  /** Only one integer lies in (x - 1/2, x + 1/2]: round returns the nearest integer, halves going up. */
  lemma RoundIsNearest(x: real, k: int)
    requires x - 0.5 < k as real <= x + 0.5
    ensures Round(x) == k as real
  {
    var j := Round(x).Floor;
    assert j as real == Round(x);
    assert (j - k) as real < 1.0 && (k - j) as real < 1.0;
  }

  // ---------------------------------------------------------------- faculty

  /** n! */
  function Factorial(k: nat): (f: nat)
    ensures f >= 1
  {
    if k <= 1 then 1 else k * Factorial(k - 1)
  }

  function NegativeFacultyError(n: real): CalcError {
    CalcError("Invalid argument!", InvalidArguments, [], [n])
  }

  /**
    mathFunctions::faculty: an error for a negative number, 1 up to 1, and
    n times the faculty of n - 1 above it (so also for fractions).
  */
  function Faculty(n: real): (r: Result<real, CalcError>)
    ensures r.Ok? <==> n >= 0.0
    ensures r.Err? ==> r.error == NegativeFacultyError(n)
    ensures r.Ok? ==> r.value >= 1.0
    decreases if n > 1.0 then n.Floor else 0
  {
    if n < 0.0 then Err(NegativeFacultyError(n))
    else if n > 1.0 then
      match Faculty(n - 1.0)
      case Ok(v) => Ok(n * v)
      case Err(e) => Err(e)
    else Ok(1.0)
  }

  /** Above 1, faculty multiplies by n the faculty of n - 1. */
  lemma FacultyStep(n: real, prev: real, v: real)
    requires n > 1.0 && prev == n - 1.0 && Faculty(prev).Ok? && Faculty(prev).value == v
    ensures Faculty(n).Ok? && Faculty(n).value == n * v
  {
  }

  /** Multiplying integers and then converting is converting and then multiplying. */
  lemma ProductAsReal(a: int, b: int)
    ensures (a * b) as real == a as real * b as real
  {
  }

  /** On a natural number faculty is the factorial. */
  lemma {:induction false} FacultyOfNatural(k: nat)
    ensures Faculty(k as real).Ok? && Faculty(k as real).value == Factorial(k) as real
  {
    if k > 1 {
      var f := Factorial(k - 1);
      FacultyOfNatural(k - 1);
      FacultyStep(k as real, (k - 1) as real, f as real);
      ProductAsReal(k, f);
    }
  }

  // ---------------------------------------------------------------- if

  /**
    mathFunctions::ifFunction: at least two arguments; the second when the
    first is not 0, otherwise the third, or 0 when there is none.
  */
  function IfFunction(args: seq<real>): (r: Result<real, CalcError>)
    ensures r.Ok? <==> |args| >= 2
    ensures r.Err? ==> r.error == CalcError("Too less arguments", InvalidArguments, [], [|args| as real, 2.0])
    ensures r.Ok? && args[0] != 0.0 ==> r.value == args[1]
    ensures r.Ok? && args[0] == 0.0 && |args| >= 3 ==> r.value == args[2]
    ensures r.Ok? && args[0] == 0.0 && |args| == 2 ==> r.value == 0.0
  {
    if |args| < 2 then Err(CalcError("Too less arguments", InvalidArguments, [], [|args| as real, 2.0]))
    else if args[0] != 0.0 then Ok(args[1])
    else Ok(if |args| >= 3 then args[2] else 0.0)
  }

  /** Called through the function table, a short argument list is reported with the name it was called by. */
  lemma IfArityErrorNamed(name: string, x: real)
    ensures RunPreDefined(IfFunction, name, [x])
         == Err(CalcError("Too less arguments", InvalidArguments, [name], [1.0, 2.0]))
  {
    var run: seq<real> -> Result<real, CalcError> := IfFunction;
    assert run([x]) == IfFunction([x]);
    assert IfFunction([x]).Err?;
    assert RunPreDefined(IfFunction, name, [x]).Err?;
    assert IfFunction([x]).error == CalcError("Too less arguments", InvalidArguments, [], [1.0, 2.0]);
    assert [] + [name] == [name];
    assert RunPreDefined(IfFunction, name, [x]).error == NameAttached(IfFunction([x]).error, name);
  }

  // ---------------------------------------------------------------- random

  /** The values an unsigned int holds. */
  const UINT_RANGE: real := 4294967296.0

  function InvalidRandomArgument(): CalcError {
    CalcError("Invalid argument!", InvalidArguments, [], [])
  }

  /**
    mathFunctions::random, with qrand()'s result given as draw (at most
    randMax, the platform's RAND_MAX): no argument gives draw / randMax;
    one argument m gives an integer from 0 to m; two arguments give
    draw modulo the size of the range, added to the minimum. A range that
    does not fit the unsigned int it is cast to has no defined outcome in
    C++; the model reports the unknown error.
  */
  function Random(args: seq<real>, draw: nat, randMax: nat): (r: Result<real, CalcError>)
    requires 0 < randMax && draw <= randMax
    ensures |args| == 0 ==> r.Ok? && 0.0 <= r.value <= 1.0
    ensures |args| == 1 && args[0] <= 0.0 ==> r == Err(InvalidRandomArgument())
    ensures |args| == 1 && 0.0 < args[0] && args[0] + 1.0 < UINT_RANGE ==>
      r.Ok? && 0.0 <= r.value <= args[0] && r.value == r.value.Floor as real
    ensures |args| == 2 && args[0] >= args[1] ==> r == Err(InvalidRandomArgument())
    ensures |args| == 2 && args[0] < args[1] && args[1] - args[0] + 1.0 < UINT_RANGE ==>
      r.Ok? && args[0] <= r.value <= args[1]
    ensures |args| > 2 ==> r == Err(CalcError("Too many arguments", InvalidArguments, [], [|args| as real, 2.0]))
  {
    if |args| == 0 then Ok(draw as real / randMax as real)
    else if |args| == 1 then
      if args[0] <= 0.0 then Err(InvalidRandomArgument())
      else if args[0] + 1.0 >= UINT_RANGE then Err(Passes.UnknownError())
      else Ok((draw % (args[0] + 1.0).Floor) as real)
    else if |args| == 2 then
      if args[0] >= args[1] then Err(InvalidRandomArgument())
      else if args[1] - args[0] + 1.0 >= UINT_RANGE then Err(Passes.UnknownError())
      else Ok((draw % (args[1] - args[0] + 1.0).Floor) as real + args[0])
    else Err(CalcError("Too many arguments", InvalidArguments, [], [|args| as real, 2.0]))
  }

  // ---------------------------------------------------------------- the front end's tables

  /**
    The front end: the calculator's shared tables, and the built-in
    variables and functions it installed, which deleting or renaming puts
    back.
  */
  class QTCalc {
    const session: Session
    const builtInVars: map<string, real>
    const builtInFuncs: map<string, MathFunction>

    /** Every built-in variable and function is in the calculator's tables. */
    ghost predicate Valid()
      reads this, session
    {
      && builtInVars.Keys <= session.vars.Keys
      && builtInFuncs.Keys <= session.funcs.Keys
    }

    /**
      QTCalc::QTCalc: every built-in function is set in the calculator,
      then pi, e and phi; the built-in variables are the whole variable
      table at that point.
    */
    constructor (session: Session, builtIns: map<string, MathFunction>, pi: real, e: real, phi: real)
      modifies session
      ensures Valid()
      ensures this.session == session && builtInFuncs == builtIns
      ensures session.funcs == old(session.funcs) + builtIns
      ensures session.vars == old(session.vars)["pi" := pi]["e" := e]["phi" := phi]
      ensures builtInVars == session.vars
      ensures session.callStack == old(session.callStack)
    {
      this.session := session;
      builtInFuncs := builtIns;
      var rest := builtIns;
      while rest != map[]
        invariant session.funcs + rest == old(session.funcs) + builtIns
        invariant session.vars == old(session.vars) && session.callStack == old(session.callStack)
        decreases |rest.Keys|
      {
        var name :| name in rest;
        RestoreStep(session.funcs, rest, name);
        session.SetFunction(name, rest[name]);
        rest := rest - {name};
      }
      assert session.funcs + rest == session.funcs;
      var _ := session.SetVar("pi", pi);
      var _ := session.SetVar("e", e);
      var _ := session.SetVar("phi", phi);
      builtInVars := session.vars;
    }

    /** QTCalc::setVar */
    method SetVar(name: string, value: real)
      requires Valid()
      modifies session
      ensures Valid()
      ensures session.vars == old(session.vars)[name := value]
      ensures session.funcs == old(session.funcs) && session.callStack == old(session.callStack)
    {
      var _ := session.SetVar(name, value);
    }

    /** QTCalc::deleteVar: a built-in variable comes back with its built-in value. */
    method DeleteVar(name: string)
      requires Valid()
      modifies session
      ensures Valid()
      ensures session.vars == if name in builtInVars then old(session.vars)[name := builtInVars[name]]
                              else old(session.vars) - {name}
      ensures session.funcs == old(session.funcs) && session.callStack == old(session.callStack)
    {
      var _ := session.DeleteVar(name);
      if name in builtInVars {
        var _ := session.SetVar(name, builtInVars[name]);
      }
    }

    /** QTCalc::renameVar: when the old name is built in, it comes back with its built-in value. */
    method RenameVar(from: string, to: string)
      requires Valid()
      modifies session
      ensures Valid()
      ensures var moved := if Renamed(old(session.vars), from, to).Some?
                           then Renamed(old(session.vars), from, to).value else old(session.vars);
        session.vars == if from in builtInVars then moved[from := builtInVars[from]] else moved
      ensures session.funcs == old(session.funcs) && session.callStack == old(session.callStack)
    {
      var _ := session.RenameVar(from, to);
      if from in builtInVars {
        var _ := session.SetVar(from, builtInVars[from]);
      }
    }

    /**
      QTCalc::setFunc: the name becomes a user-defined function with the
      expression (an existing user-defined function gets the new expression).
    */
    method SetFunc(name: string, content: string)
      requires Valid()
      modifies session
      ensures Valid()
      ensures session.funcs == old(session.funcs)[name := UserDefined(content)]
      ensures session.vars == old(session.vars) && session.callStack == old(session.callStack)
    {
      session.SetFunction(name, UserDefined(content));
    }

    /** QTCalc::deleteFunc: a built-in function comes back. */
    method DeleteFunc(name: string)
      requires Valid()
      modifies session
      ensures Valid()
      ensures session.funcs == if name in builtInFuncs then old(session.funcs)[name := builtInFuncs[name]]
                               else old(session.funcs) - {name}
      ensures session.vars == old(session.vars) && session.callStack == old(session.callStack)
    {
      var _ := session.DeleteFunction(name);
      if name in builtInFuncs {
        session.SetFunction(name, builtInFuncs[name]);
      }
    }

    /**
      QTCalc::renameFunc: a built-in function that is not user-defined is
      removed from under the new name first; the function is renamed; a
      built-in function of the old name comes back. The removal only ever
      deletes a name that exists, since every built-in name is in the table.
      Renaming a missing function onto a built-in name loses that built-in,
      so the tables stay complete only when the old name exists.
    */
    method RenameFunc(from: string, to: string)
      requires Valid()
      modifies session
      ensures from in old(session.funcs) ==> Valid()
      ensures to in builtInFuncs && from !in old(session.funcs) && !old(session.funcs)[to].UserDefined? ==>
        to !in session.funcs
      ensures var cleared := if to in builtInFuncs && !old(session.funcs)[to].UserDefined?
                             then old(session.funcs) - {to} else old(session.funcs);
        var moved := if Renamed(cleared, from, to).Some? then Renamed(cleared, from, to).value else cleared;
        session.funcs == if from in builtInFuncs then moved[from := builtInFuncs[from]] else moved
      ensures session.vars == old(session.vars) && session.callStack == old(session.callStack)
    {
      if to in builtInFuncs {
        var f := session.GetFunction(to);
        if !f.value.UserDefined? {
          var existed := session.DeleteFunction(to);
          assert existed;
        }
      }
      var _ := session.RenameFunction(from, to);
      if from in builtInFuncs {
        session.SetFunction(from, builtInFuncs[from]);
      }
    }
  }
}
