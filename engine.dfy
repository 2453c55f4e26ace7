/**
  The calculator proper (calc::calc in calc/calc.h and calc/calc.cpp, with
  userDefinedMathFunction::execute from calc/mathfunction.cpp).

  The variables, the functions and the call stack are static in the C++
  and shared by every calculator; here they are the fields of one Session
  object that every Calc refers to. Evaluating a token list (the body of
  calculate() after parsing) is a family of mutually recursive methods on
  the session: the bracket pass evaluates the tokens between a pair of
  brackets, the function pass evaluates each argument and then executes
  the function, and a user-defined function evaluates its own expression.
  They terminate because a user-defined function cannot call a function
  already on the call stack.
*/
module Engine {
  import opened Wrappers
  import opened Errors
  import opened Tokens
  import opened Passes
  import opened MathFunctions
  import Lexer
  import Validator

  // ---------------------------------------------------------------- tables

  /**
    renameVar and renameFunction: the entry under from moves to to, provided
    from exists and to does not; otherwise nothing happens (None).
  */
  function Renamed<V>(m: map<string, V>, from: string, to: string): (r: Option<map<string, V>>)
    ensures r.Some? <==> from in m && to !in m
    ensures r.Some? ==> && r.value.Keys == m.Keys - {from} + {to}
                        && r.value[to] == m[from]
                        && forall k :: k in m && k != from ==> r.value[k] == m[k]
  {
    if from in m && to !in m then Some(m - {from} + map[to := m[from]]) else None
  }

  /** Renaming back undoes a rename. */
  lemma RenameRoundTrip<V>(m: map<string, V>, from: string, to: string)
    requires Renamed(m, from, to).Some?
    ensures Renamed(Renamed(m, from, to).value, to, from) == Some(m)
  {
    var r := Renamed(m, from, to).value;
    var back := Renamed(r, to, from);
    assert back.Some?;
    assert back.value.Keys == m.Keys;
    assert back.value == m;
  }

  /** calc::getVar const: the value of a variable, 0 for a missing one. */
  function ValueOrZero(vars: map<string, real>, name: string): (v: real)
    ensures name in vars ==> v == vars[name]
    ensures name !in vars ==> v == 0.0
  {
    if name in vars then vars[name] else 0.0
  }

  /**
    calc::deleteFunction as written: it reads currFunctions[name] before
    erasing, which for a missing name inserts and dereferences a null
    pointer (None here). Returns whether the function existed and the table
    after the call.
  */
  function DeleteFunctionAsWritten(funcs: map<string, MathFunction>, name: string): (r: Option<(bool, map<string, MathFunction>)>)
    ensures r.None? <==> name !in funcs
    ensures r.Some? ==> r.value == (true, funcs - {name})
  {
    if name in funcs then Some((true, funcs - {name})) else None
  }

  /** Deleting a function that does not exist is not answered with false: the call has no defined outcome. */
  lemma DeleteMissingFunctionAsWritten()
    ensures DeleteFunctionAsWritten(map[], "f") == None
  {
  }

  // ---------------------------------------------------------------- errors

  function UnknownFunctionError(name: string): CalcError {
    CalcError("Unknown function", UnknownName, [name], [])
  }

  function RecursionError(name: string): CalcError {
    CalcError("A function may not (indirectly) call itself", RecursiveCall, [name], [])
  }

  /** The argument count is wrong: carries the name, the count given and the count expected. */
  function ArityError(name: string, given: nat, expected: nat): CalcError {
    CalcError(if given < expected then "Too less arguments" else "Too many arguments",
              InvalidArguments, [name], [given as real, expected as real])
  }

  function InvalidBodyError(expr: string, name: string): CalcError {
    CalcError("Invalid expression in the function", InvalidExpression, [expr, name], [])
  }

  /** Whether a function's expression parses without errors. */
  predicate BodyIsValid(expr: string) {
    Validator.Validate(Lexer.Lex(expr)).1 == []
  }

  // ---------------------------------------------------------------- what the bracket and function passes find

  /**
    The group calcDoBrackets evaluates: the positions of its opening and
    closing brackets, nothing when there is no group, and the unknown error
    for a group that is never closed (the source then steps past the end of
    the vector).
  */
  function GroupTarget(ts: seq<Token>): (r: Result<Option<(nat, nat)>, CalcError>)
    ensures r.Err? ==> r.error == UnknownError()
    ensures r.Ok? && r.value.Some? ==>
      && r.value.value.0 < r.value.value.1 < |ts|
      && ts[r.value.value.0].kind == OpenBracket && ts[r.value.value.1].kind == CloseBracket
  {
    match ScanGroup(ts, 0, GroupStart)
    case (None, _) => Ok(None)
    case (Some(open), stop) => if stop == |ts| then Err(UnknownError()) else Ok(Some((open, stop)))
  }

  /** A list without opening brackets holds no group. */
  lemma PlainHasNoGroup(ts: seq<Token>)
    requires Plain(ts)
    ensures GroupTarget(ts) == Ok(None)
  {
    NoBracketNoGroup(ts, 0, GroupStart);
  }

  /**
    The call calcDoFunctions executes: the positions of the first function
    start and of the closing bracket of its argument list, nothing when
    there is no call, the unknown error when the call runs past the end of
    the list, and "Unknown function" (naming it without its unary minus)
    when no function has the name.
  */
  function CallTarget(ts: seq<Token>, funcs: map<string, MathFunction>): (r: Result<Option<(nat, nat)>, CalcError>)
    ensures r == Ok(None) <==> ScanCall(ts, 0, 0, None).start.None?
    ensures r.Err? ==> r.error == UnknownError() || r.error.kind == UnknownName
    ensures r.Err? && r.error.kind == UnknownName ==>
      var start := ScanCall(ts, 0, 0, None).start.value;
      BareName(ts[start]) !in funcs && r.error == UnknownFunctionError(BareName(ts[start]))
    ensures r.Ok? && r.value.Some? ==>
      && r.value.value.0 + 2 <= r.value.value.1 < |ts|
      && ts[r.value.value.0].kind == FunctionStart && ts[r.value.value.1].kind == CloseBracket
      && BareName(ts[r.value.value.0]) in funcs
  {
    var c := ScanCall(ts, 0, 0, None);
    if c.start.None? then Ok(None)
    else if c.broken || c.stop == |ts| then Err(UnknownError())
    else if BareName(ts[c.start.value]) !in funcs then Err(UnknownFunctionError(BareName(ts[c.start.value])))
    else Ok(Some((c.start.value, c.stop)))
  }

  /** A list without function starts holds no call. */
  lemma PlainHasNoCall(ts: seq<Token>, funcs: map<string, MathFunction>)
    requires Plain(ts)
    ensures CallTarget(ts, funcs) == Ok(None)
  {
    NoStartNoCall(ts, 0, 0);
  }

  /** out is ts with the tokens from lo to hi, both included, replaced by one computed value. */
  predicate Replaced(ts: seq<Token>, lo: nat, hi: nat, out: seq<Token>) {
    && lo <= hi < |ts|
    && |out| == |ts| - (hi - lo)
    && out[..lo] == ts[..lo]
    && out[lo].kind == RealReal
    && out[lo + 1..] == ts[hi + 1..]
  }

  /** The tokens from lo to hi, both included, replaced by the computed value t. */
  function Splice(ts: seq<Token>, lo: nat, hi: nat, t: Token): (out: seq<Token>)
    requires lo <= hi < |ts| && t.kind == RealReal
    ensures Replaced(ts, lo, hi, out) && out[lo] == t
  {
    ts[..lo] + [t] + ts[hi + 1..]
  }

  // ---------------------------------------------------------------- argument binding

  /** The ARG variables bound to the first n arguments: ARGi to args[i]. */
  function Bound(args: seq<real>, n: nat): map<string, real>
    requires n <= |args|
  {
    if n == 0 then map[] else Bound(args, n - 1)[ArgName(n - 1) := args[n - 1]]
  }

  /** ARGi is bound to the i-th argument. */
  lemma {:induction false} BoundBinds(args: seq<real>, n: nat, i: nat)
    requires i < n <= |args|
    ensures ArgName(i) in Bound(args, n) && Bound(args, n)[ArgName(i)] == args[i]
  {
    if i < n - 1 {
      ArgNamesDistinct(i, n - 1);
      BoundBinds(args, n - 1, i);
    }
  }

  /** No name from ARGn on is bound. */
  lemma {:induction false} BoundOnlyBelow(args: seq<real>, n: nat, i: nat)
    requires n <= |args| && i >= n
    ensures ArgName(i) !in Bound(args, n)
  {
    if n > 0 {
      ArgNamesDistinct(i, n - 1);
      BoundOnlyBelow(args, n - 1, i);
    }
  }

  /** Updating after a union is the union with the updated right-hand map. */
  lemma UpdateUnion<K, V>(m: map<K, V>, b: map<K, V>, k: K, v: V)
    ensures (m + b)[k := v] == m + b[k := v]
  {
  }

  /** The values of ARG0 .. ARG(n-1) that existed before binding, which execute restores. */
  function Saved(vars: map<string, real>, n: nat): map<string, real> {
    if n == 0 then map[]
    else if ArgName(n - 1) in vars then Saved(vars, n - 1)[ArgName(n - 1) := vars[ArgName(n - 1)]]
    else Saved(vars, n - 1)
  }

  /** ARGi (i < n) is saved exactly when it existed, with the value it had. */
  lemma {:induction false} SavedHolds(vars: map<string, real>, n: nat, i: nat)
    requires i < n
    ensures ArgName(i) in Saved(vars, n) <==> ArgName(i) in vars
    ensures ArgName(i) in vars ==> Saved(vars, n)[ArgName(i)] == vars[ArgName(i)]
  {
    if i < n - 1 {
      ArgNamesDistinct(i, n - 1);
      SavedHolds(vars, n - 1, i);
    } else {
      SavedOnlyBelow(vars, n - 1, i);
    }
  }

  /** Names from ARGn on are never saved. */
  lemma {:induction false} SavedOnlyBelow(vars: map<string, real>, n: nat, i: nat)
    requires i >= n
    ensures ArgName(i) !in Saved(vars, n)
  {
    if n > 0 {
      ArgNamesDistinct(i, n - 1);
      SavedOnlyBelow(vars, n - 1, i);
    }
  }

  /**
    The checks userDefinedMathFunction::execute makes before it binds the
    arguments, in its order: the function's parsed tokens, or the error it
    raises.
  */
  function Admit(expr: string, name: string, given: nat, stack: seq<string>): Result<seq<Token>, CalcError> {
    if name in stack then Err(RecursionError(name))
    else if given != ArgCount(expr) then Err(ArityError(name, given, ArgCount(expr)))
    else if !BodyIsValid(expr) then Err(InvalidBodyError(expr, name))
    else Ok(Validator.Validate(Lexer.Lex(expr)).0)
  }

  // ---------------------------------------------------------------- the session

  /** The variables, the functions and the call stack that all calculators share. */
  class Session {
    var vars: map<string, real>
    var funcs: map<string, MathFunction>
    var callStack: seq<string>
    const libm: Libm

    constructor (libm: Libm)
      ensures vars == map[] && funcs == map[] && callStack == [] && this.libm == libm
    {
      vars := map[];
      funcs := map[];
      callStack := [];
      this.libm := libm;
    }

    /** The names on the call stack. */
    ghost function StackSet(): set<string>
      reads this
    {
      set s | s in callStack
    }

    /** How many more user-defined calls can be nested: the functions not yet on the call stack. */
    ghost function Budget(): nat
      reads this
    {
      |funcs.Keys - StackSet()|
    }

    /** The same, counting the name about to be called as a function. */
    ghost function BudgetFor(name: string): nat
      reads this
    {
      |(funcs.Keys + {name}) - StackSet()|
    }

    // -------------------------------------------------------------- the variable table

    /** deleteVar: true iff the variable existed; it is gone afterwards. */
    method DeleteVar(name: string) returns (existed: bool)
      modifies this
      ensures existed <==> name in old(vars)
      ensures vars == old(vars) - {name}
      ensures funcs == old(funcs) && callStack == old(callStack)
    {
      existed := name in vars;
      vars := vars - {name};
    }

    /** setVar: the variable holds the value, created if needed; the value is returned. */
    method SetVar(name: string, value: real) returns (v: real)
      modifies this
      ensures vars == old(vars)[name := value] && v == value
      ensures funcs == old(funcs) && callStack == old(callStack)
    {
      vars := vars[name := value];
      v := value;
    }

    /** setVarlist: the whole table replaced. */
    method SetVarList(newVars: map<string, real>)
      modifies this
      ensures vars == newVars
      ensures funcs == old(funcs) && callStack == old(callStack)
    {
      vars := newVars;
    }

    /** renameVar: succeeds iff the old name exists and the new one does not. */
    method RenameVar(from: string, to: string) returns (ok: bool)
      modifies this
      ensures ok <==> from in old(vars) && to !in old(vars)
      ensures vars == if ok then Renamed(old(vars), from, to).value else old(vars)
      ensures funcs == old(funcs) && callStack == old(callStack)
    {
      ok := from in vars && to !in vars;
      if ok {
        var value := vars[from];
        vars := vars[to := value];
        vars := vars - {from};
      }
    }

    /** getVar (non-const): the value, a missing variable being created with 0. */
    method GetVar(name: string) returns (v: real)
      modifies this
      ensures v == ValueOrZero(old(vars), name)
      ensures name in vars && vars[name] == v
      ensures vars == if name in old(vars) then old(vars) else old(vars)[name := 0.0]
      ensures funcs == old(funcs) && callStack == old(callStack)
    {
      if name !in vars {
        vars := vars[name := 0.0];
      }
      v := vars[name];
    }

    // -------------------------------------------------------------- the function table

    /** deleteFunction, defined for a missing name too: true iff the function existed. */
    method DeleteFunction(name: string) returns (existed: bool)
      modifies this
      ensures existed <==> name in old(funcs)
      ensures funcs == old(funcs) - {name}
      ensures name in old(funcs) ==> Some((existed, funcs)) == DeleteFunctionAsWritten(old(funcs), name)
      ensures vars == old(vars) && callStack == old(callStack)
    {
      existed := name in funcs;
      funcs := funcs - {name};
    }

    /** setFunction: the name now refers to the function. */
    method SetFunction(name: string, f: MathFunction)
      modifies this
      ensures funcs == old(funcs)[name := f]
      ensures vars == old(vars) && callStack == old(callStack)
    {
      funcs := funcs[name := f];
    }

    /** getFunction: the function, or none (a null pointer) for a missing name. */
    function GetFunction(name: string): (r: Option<MathFunction>)
      reads this
      ensures r.Some? <==> name in funcs
      ensures r.Some? ==> r.value == funcs[name]
    {
      if name in funcs then Some(funcs[name]) else None
    }

    /** renameFunction: succeeds iff the old name exists and the new one does not. */
    method RenameFunction(from: string, to: string) returns (ok: bool)
      modifies this
      ensures ok <==> from in old(funcs) && to !in old(funcs)
      ensures funcs == if ok then Renamed(old(funcs), from, to).value else old(funcs)
      ensures vars == old(vars) && callStack == old(callStack)
    {
      ok := from in funcs && to !in funcs;
      if ok {
        var f := funcs[from];
        funcs := funcs[to := f];
        funcs := funcs - {from};
      }
    }

    // -------------------------------------------------------------- evaluation

    /**
      calculate() of the temporary calculator that the bracket and function
      passes create for a piece of a token list (and of a user-defined
      function's expression): whitespace removed, the bracket and function
      passes, then the operator and assignment passes and the last token.
      Calculator.Calc.Calculate runs the same steps on a calculator's own
      parsed tokens and states what they yield.
    */
    method Evaluate(ts0: seq<Token>) returns (r: Result<real, CalcError>)
      modifies this
      ensures funcs == old(funcs)
      ensures r.Ok? ==> callStack == old(callStack)
      ensures r.Err? ==> callStack == old(callStack) || callStack == []
      decreases Budget(), |ts0|, 4
    {
      var ts := DropWhitespace(ts0);
      var flat := Resolve(ts);
      if flat.Err? {
        return Err(flat.error);
      }
      r := Arithmetic(flat.value);
    }

    /** while(calcDoBrackets()); while(calcDoFunctions()); */
    method Resolve(ts: seq<Token>) returns (r: Result<seq<Token>, CalcError>)
      modifies this
      ensures funcs == old(funcs)
      ensures r.Ok? ==> callStack == old(callStack)
      ensures r.Err? ==> callStack == old(callStack) || callStack == []
      ensures Plain(ts) ==> r == Ok(ts) && vars == old(vars)
      ensures r.Ok? ==> CallTarget(r.value, funcs) == Ok(None)
      decreases Budget(), |ts|, 3
    {
      var cur := ts;
      while true
        invariant funcs == old(funcs) && callStack == old(callStack)
        invariant |cur| <= |ts|
        invariant Plain(ts) ==> cur == ts && vars == old(vars)
        decreases |cur|
      {
        if Plain(ts) {
          PlainHasNoGroup(ts);
        }
        var step := DoBrackets(cur);
        if step.Err? {
          return Err(step.error);
        }
        if step.value.None? {
          break;
        }
        cur := step.value.value;
      }
      while true
        invariant funcs == old(funcs) && callStack == old(callStack)
        invariant |cur| <= |ts|
        invariant Plain(ts) ==> cur == ts && vars == old(vars)
        decreases |cur|
      {
        if Plain(ts) {
          PlainHasNoCall(ts, funcs);
        }
        var step := DoFunctions(cur);
        if step.Err? {
          return Err(step.error);
        }
        if step.value.None? {
          break;
        }
        cur := step.value.value;
      }
      r := Ok(cur);
    }

    /**
      calcDoBrackets: the tokens between the first outermost pair of
      brackets that are not a function's are evaluated, and the pair with
      everything in it is replaced by the value, negated when the opening
      bracket carries a unary minus. An unclosed group steps past the end of
      the vector in the source; the model reports the unknown error.
    */
    method DoBrackets(ts: seq<Token>) returns (r: Result<Option<seq<Token>>, CalcError>)
      modifies this
      ensures funcs == old(funcs)
      ensures r.Ok? ==> callStack == old(callStack)
      ensures r.Err? ==> callStack == old(callStack) || callStack == []
      ensures GroupTarget(ts).Err? ==> r == Err(GroupTarget(ts).error)
      ensures GroupTarget(ts) == Ok(None) <==> r == Ok(None)
      ensures GroupTarget(ts) == Ok(None) ==> vars == old(vars)
      ensures r.Ok? && r.value.Some? ==>
        && GroupTarget(ts).Ok? && GroupTarget(ts).value.Some?
        && Replaced(ts, GroupTarget(ts).value.value.0, GroupTarget(ts).value.value.1, r.value.value)
      decreases Budget(), |ts|, 2
    {
      var target := FindGroupTarget(ts);
      if target.Err? {
        return Err(target.error);
      }
      if target.value.None? {
        return Ok(None);
      }
      var (open, stop) := target.value.value;
      var v :- Evaluate(ts[open + 1..stop]);
      r := Ok(Some(Splice(ts, open, stop, Value(v * Sign(ts[open])))));
    }

    /** The search loop of calcDoBrackets and the check that the group is closed. */
    method FindGroupTarget(ts: seq<Token>) returns (r: Result<Option<(nat, nat)>, CalcError>)
      ensures r == GroupTarget(ts)
    {
      var lastOpen, stop := FindGroup(ts);
      if lastOpen.None? {
        return Ok(None);
      }
      if stop == |ts| {
        return Err(UnknownError());
      }
      r := Ok(Some((lastOpen.value, stop)));
    }

    /**
      calcDoFunctions: the first function call is looked up, its arguments
      are evaluated from left to right, and the call with its brackets is
      replaced by the function's value, negated when the name carries a
      unary minus. A call that runs past the end of the list has no
      defined outcome in the source; the model reports the unknown error.
    */
    method DoFunctions(ts: seq<Token>) returns (r: Result<Option<seq<Token>>, CalcError>)
      modifies this
      ensures funcs == old(funcs)
      ensures r.Ok? ==> callStack == old(callStack)
      ensures r.Err? ==> callStack == old(callStack) || callStack == []
      ensures CallTarget(ts, old(funcs)).Err? ==> r == Err(CallTarget(ts, old(funcs)).error) && vars == old(vars)
      ensures CallTarget(ts, old(funcs)) == Ok(None) <==> r == Ok(None)
      ensures CallTarget(ts, old(funcs)) == Ok(None) ==> vars == old(vars)
      ensures r.Ok? && r.value.Some? ==>
        && CallTarget(ts, old(funcs)).Ok? && CallTarget(ts, old(funcs)).value.Some?
        && Replaced(ts, CallTarget(ts, old(funcs)).value.value.0, CallTarget(ts, old(funcs)).value.value.1, r.value.value)
      decreases Budget(), |ts|, 2
    {
      var target := FindTarget(ts);
      if target.Err? {
        return Err(target.error);
      }
      if target.value.None? {
        return Ok(None);
      }
      var (start, stop) := target.value.value;
      var name := BareName(ts[start]);
      var args :- EvaluateArguments(ts[start + 2..stop]);
      var v :- Call(name, args);
      r := Ok(Some(Splice(ts, start, stop, Value(v * Sign(ts[start])))));
    }

    /** The search loop of calcDoFunctions and the lookup of the name it finds. */
    method FindTarget(ts: seq<Token>) returns (r: Result<Option<(nat, nat)>, CalcError>)
      ensures r == CallTarget(ts, funcs)
    {
      var c := FindCall(ts);
      if c.start.None? {
        return Ok(None);
      }
      if c.broken || c.stop == |ts| {
        return Err(UnknownError());
      }
      var name := BareName(ts[c.start.value]);
      if name !in funcs {
        return Err(UnknownFunctionError(name));
      }
      r := Ok(Some((c.start.value, c.stop)));
    }

    /**
      The argument loop of calcDoFunctions: the tokens between a call's
      brackets split at the commas outside nested brackets, each piece
      evaluated as soon as it is complete; the last piece only when it is
      not empty.
    */
    method EvaluateArguments(region: seq<Token>) returns (r: Result<seq<real>, CalcError>)
      modifies this
      ensures funcs == old(funcs)
      ensures r.Ok? ==> callStack == old(callStack)
      ensures r.Err? ==> callStack == old(callStack) || callStack == []
      ensures r.Ok? ==> |r.value| == |SplitArgs(region, 0, 0, [])|
      decreases Budget(), |region|, 5
    {
      var values: seq<real> := [];
      var cur: seq<Token> := [];
      var depth := 0;
      var p := 0;
      while p < |region|
        invariant p <= |region| && |cur| <= p
        invariant funcs == old(funcs) && callStack == old(callStack)
        invariant |values| + |SplitArgs(region, p, depth, cur)| == |SplitArgs(region, 0, 0, [])|
      {
        if region[p].kind == Comma && depth == 0 {
          var v :- Evaluate(cur);
          values := values + [v];
          cur := [];
        } else {
          depth := Depth(depth, region[p]);
          cur := cur + [region[p]];
        }
        p := p + 1;
      }
      if cur != [] {
        var v :- Evaluate(cur);
        values := values + [v];
      }
      r := Ok(values);
    }

    /** currFunctions[name]->execute(args): the function the name refers to, run on the arguments. */
    method Call(name: string, args: seq<real>) returns (r: Result<real, CalcError>)
      requires name in funcs
      modifies this
      ensures funcs == old(funcs)
      ensures r.Ok? ==> callStack == old(callStack)
      ensures r.Err? ==> callStack == old(callStack) || callStack == []
      decreases Budget(), 0, 2
    {
      assert funcs.Keys + {name} == funcs.Keys;
      r := Execute(funcs[name], name, args);
    }

    /**
      mathFunction::execute. A C++ or predefined function runs on the
      arguments without touching the session. A user-defined function
      refuses a name already on the call stack, checks the argument count
      and its expression, binds ARG0, ARG1, ... to the arguments, evaluates
      its expression and puts back the ARG variables that existed before.
      Success pops the name it pushed; every error it raises or passes on
      leaves the call stack empty.
    */
    method Execute(f: MathFunction, name: string, args: seq<real>) returns (r: Result<real, CalcError>)
      modifies this
      ensures funcs == old(funcs)
      ensures r.Ok? ==> callStack == old(callStack)
      ensures !f.UserDefined? ==> vars == old(vars) && callStack == old(callStack)
      ensures f.Cpp? ==> r == RunCpp(f.apply, name, args)
      ensures f.PreDefined? ==> r == RunPreDefined(f.run, name, args)
      ensures f.UserDefined? && r.Err? ==> callStack == []
      ensures f.UserDefined? && name in old(callStack) ==> r == Err(RecursionError(name)) && vars == old(vars)
      ensures f.UserDefined? && name !in old(callStack) && |args| != ArgCount(f.expression) ==>
        r == Err(ArityError(name, |args|, ArgCount(f.expression))) && vars == old(vars)
      ensures f.UserDefined? && name !in old(callStack) && |args| == ArgCount(f.expression) && !BodyIsValid(f.expression) ==>
        r == Err(InvalidBodyError(f.expression, name)) && vars == old(vars)
      ensures f.UserDefined? && r.Ok? ==>
        name !in old(callStack) && |args| == ArgCount(f.expression) && BodyIsValid(f.expression)
      ensures f.UserDefined? ==> forall i :: 0 <= i < |args| && ArgName(i) in old(vars) ==>
        ArgName(i) in vars && vars[ArgName(i)] == old(vars)[ArgName(i)]
      decreases BudgetFor(name), 0, 1
    {
      match f
      case Cpp(apply) =>
        r := RunCpp(apply, name, args);
      case PreDefined(run) =>
        r := RunPreDefined(run, name, args);
      case UserDefined(expr) =>
        r := ExecuteUserDefined(expr, name, args);
    }

    /** userDefinedMathFunction::execute */
    method ExecuteUserDefined(expr: string, name: string, args: seq<real>) returns (r: Result<real, CalcError>)
      modifies this
      ensures funcs == old(funcs)
      ensures r.Ok? ==> callStack == old(callStack)
      ensures r.Err? ==> callStack == []
      ensures Admit(expr, name, |args|, old(callStack)).Err? ==>
        r == Err(Admit(expr, name, |args|, old(callStack)).error) && vars == old(vars)
      ensures r.Ok? ==> Admit(expr, name, |args|, old(callStack)).Ok?
      ensures forall i :: 0 <= i < |args| && ArgName(i) in old(vars) ==>
        ArgName(i) in vars && vars[ArgName(i)] == old(vars)[ArgName(i)]
      decreases BudgetFor(name), 0, 0
    {
      ghost var stack := callStack;
      var body :- Enter(expr, name, |args|);
      PushShrinks(funcs.Keys, stack, name);
      ghost var before := vars;
      var saved := BindArguments(args);
      r := Evaluate(body);
      Leave(r.Ok?);
      Restore(saved);
      forall i | 0 <= i < |args| && ArgName(i) in before
        ensures ArgName(i) in vars && vars[ArgName(i)] == before[ArgName(i)]
      {
        SavedHolds(before, |args|, i);
      }
    }

    /**
      The checks before the arguments are bound: a name already on the call
      stack, the argument count, the function's expression. The name is
      pushed; any error clears the call stack.
    */
    method Enter(expr: string, name: string, given: nat) returns (r: Result<seq<Token>, CalcError>)
      modifies this
      ensures r == Admit(expr, name, given, old(callStack))
      ensures r.Ok? ==> callStack == old(callStack) + [name]
      ensures r.Err? ==> callStack == []
      ensures vars == old(vars) && funcs == old(funcs)
    {
      if name in callStack {
        callStack := [];
        return Err(RecursionError(name));
      }
      callStack := callStack + [name];
      var count := CountArguments(expr);
      if given != count {
        callStack := [];
        return Err(ArityError(name, given, count));
      }
      var lexed := Lexer.Tokenize(expr);
      var body, errors := Validator.SearchForErrors(lexed);
      if errors != [] {
        callStack := [];
        return Err(InvalidBodyError(expr, name));
      }
      r := Ok(body);
    }

    /** After the evaluation: success pops the name pushed, an error clears the call stack. */
    method Leave(success: bool)
      modifies this
      ensures callStack == if success && old(callStack) != [] then old(callStack)[..|old(callStack)| - 1] else []
      ensures vars == old(vars) && funcs == old(funcs)
    {
      if success && callStack != [] {
        callStack := callStack[..|callStack| - 1];
      } else {
        callStack := [];
      }
    }

    /**
      The binding loop: each ARGi that exists is remembered, then set to the
      i-th argument. Returns the remembered values.
    */
    method BindArguments(args: seq<real>) returns (saved: map<string, real>)
      modifies this
      ensures saved == Saved(old(vars), |args|)
      ensures vars == old(vars) + Bound(args, |args|)
      ensures funcs == old(funcs) && callStack == old(callStack)
    {
      saved := map[];
      var i := 0;
      while i < |args|
        invariant i <= |args|
        invariant saved == Saved(old(vars), i)
        invariant vars == old(vars) + Bound(args, i)
        invariant funcs == old(funcs) && callStack == old(callStack)
      {
        var argName := ArgName(i);
        BoundOnlyBelow(args, i, i);
        UpdateUnion(old(vars), Bound(args, i), argName, args[i]);
        if argName in vars {
          saved := saved[argName := vars[argName]];
        }
        vars := vars[argName := args[i]];
        i := i + 1;
      }
    }

    /** The restoring loop: every remembered ARG variable gets its old value back. */
    method Restore(saved: map<string, real>)
      modifies this
      ensures vars == old(vars) + saved
      ensures funcs == old(funcs) && callStack == old(callStack)
    {
      var rest := saved;
      while rest != map[]
        invariant vars + rest == old(vars) + saved
        invariant funcs == old(funcs) && callStack == old(callStack)
        decreases |rest.Keys|
      {
        var k :| k in rest;
        RestoreStep(vars, rest, k);
        vars := vars[k := rest[k]];
        rest := rest - {k};
      }
      assert vars + rest == vars;
    }

    /** The operator passes, the assignment pass and the last token: Flat, step by step. */
    method Arithmetic(ts: seq<Token>) returns (r: Result<real, CalcError>)
      modifies this
      ensures r == Flat(ts, old(vars), libm).0 && vars == Flat(ts, old(vars), libm).1
      ensures funcs == old(funcs) && callStack == old(callStack)
    {
      var rest := RunOperators(ts, vars, libm);
      if rest.Err? {
        return Err(rest.error);
      }
      var last := RunAssignments(rest.value);
      if last.Err? {
        return Err(last.error);
      }
      r := Final(last.value, vars, libm);
    }

    /** while(calcDoAssignments()); */
    method RunAssignments(ts: seq<Token>) returns (r: Result<seq<Token>, CalcError>)
      modifies this
      ensures r == Assign(ts, old(vars), libm).0 && vars == Assign(ts, old(vars), libm).1
      ensures funcs == old(funcs) && callStack == old(callStack)
    {
      var cur := ts;
      while true
        invariant Assign(cur, vars, libm) == Assign(ts, old(vars), libm)
        invariant funcs == old(funcs) && callStack == old(callStack)
        decreases |cur|
      {
        var step := FindAssignment(cur, vars, libm);
        if step.Err? {
          return Err(step.error);
        }
        if step.value.None? {
          return Ok(cur);
        }
        var (next, target, value) := step.value.value;
        vars := vars[target := value];
        cur := next;
      }
    }
  }

  /** Moving one entry from the pending map into the table leaves their union unchanged. */
  lemma RestoreStep<K, V>(m: map<K, V>, rest: map<K, V>, k: K)
    requires k in rest
    ensures m[k := rest[k]] + (rest - {k}) == m + rest
  {
  }

  /** Pushing a name not on the call stack leaves fewer functions that can still be called. */
  lemma PushShrinks(keys: set<string>, stack: seq<string>, name: string)
    requires name !in stack
    ensures |keys - (set s | s in stack + [name])| < |(keys + {name}) - (set s | s in stack)|
  {
    var before := set s | s in stack;
    var after := set s | s in stack + [name];
    assert after == before + {name};
    assert name !in before;
    assert (keys + {name}) - before == (keys - after) + {name};
  }
}
