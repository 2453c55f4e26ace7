/**
  The parts of calc::calculate (calc/calc.cpp) that do not call back into
  the calculator: the value of a single token, the whitespace filter, the
  operator passes and the assignment pass, and the searches done by the
  bracket and function passes. Each pass step is a function on the token
  list that reports an error, that there is nothing left to do (None), or
  the shortened list; a method with the source's loop is proved equal to it.

  Arithmetic is exact: real numbers stand for doubles, and std::pow,
  std::fmod and the root operator are the uninterpreted Libm functions.
  Where the C++ reads outside the token vector (an operator with no operand
  on one side) its behaviour is undefined; the model reports the unknown
  error there.
*/
module Passes {
  import opened Wrappers
  import opened Errors
  import opened Tokens
  import Numbers

  /** calcError("Unknown error occurred", calcError::unknown) */
  function UnknownError(): CalcError {
    CalcError("Unknown error occurred", ErrorType.Unknown, [], [])
  }

  /** Whether a token's text starts with a unary minus (an empty text reads the terminating '\0'). */
  predicate Negated(t: Token) {
    |t.str| > 0 && t.str[0] == '-'
  }

  /** The text of a name without its unary minus: the variable or function it refers to. */
  function BareName(t: Token): string {
    if Negated(t) then t.str[1..] else t.str
  }

  /** -1 for a token carrying a unary minus, 1 otherwise. */
  function Sign(t: Token): real {
    if Negated(t) then -1.0 else 1.0
  }

  // ---------------------------------------------------------------- tokenToValue

  /** The error for a name that is not a variable. */
  function UnknownVariableError(t: Token): CalcError {
    CalcError("Unknown variable", UnknownName, [t.str], [])
  }

  /**
    tokenToValue: a computed value, a number still in text form (a time
    string when it holds a ':'), or the value of a variable, negated when
    the name carries a unary minus. Any other token is an error.
  */
  function TokenValue(t: Token, vars: map<string, real>, m: Libm): (r: Result<real, CalcError>)
    ensures t.kind == Name ==> (r.Ok? <==> BareName(t) in vars)
    ensures t.kind == Name && r.Err? ==> r.error == UnknownVariableError(t)
    ensures t.kind == Name && r.Ok? ==> r.value == Sign(t) * vars[BareName(t)]
    ensures t.kind !in {Real, RealReal, Name} ==> r.Err? && r.error.kind == UnexpectedToken
  {
    match t.kind
    case RealReal => Ok(t.val)
    case Real =>
      if ':' in t.str then Numbers.TimeParse(t.str, false, m) else Numbers.ParseNumber(t.str, false, m)
    case Name =>
      if BareName(t) in vars then Ok(vars[BareName(t)] * Sign(t)) else Err(UnknownVariableError(t))
    case _ => Err(CalcError("Unexpected token id", UnexpectedToken, [t.str], [TypeId(t.kind) as real]))
  }

  /** A name with a unary minus has the opposite value of the plain name. */
  lemma UnaryNameNegates(name: string, vars: map<string, real>, m: Libm)
    requires name == [] || name[0] != '-'
    ensures var plain := TokenValue(Tok(Name, name), vars, m);
      var minus := TokenValue(Tok(Name, "-" + name), vars, m);
      plain.Ok? == minus.Ok? && (plain.Ok? ==> minus.value == -plain.value)
  {
    assert BareName(Tok(Name, "-" + name)) == name;
  }

  // ---------------------------------------------------------------- whitespace

  /** The token list with every whitespace token removed, order kept. */
  function NoWhitespace(ts: seq<Token>): (r: seq<Token>)
    ensures |r| <= |ts|
    ensures forall i :: 0 <= i < |r| ==> r[i].kind != Whitespace
    ensures forall i :: 0 <= i < |r| ==> r[i] in ts
  {
    if ts == [] then []
    else if ts[|ts| - 1].kind == Whitespace then NoWhitespace(ts[..|ts| - 1])
    else NoWhitespace(ts[..|ts| - 1]) + [ts[|ts| - 1]]
  }

  /** A list without whitespace is left as it is. */
  lemma {:induction false} NoWhitespaceKeeps(ts: seq<Token>)
    requires forall i :: 0 <= i < |ts| ==> ts[i].kind != Whitespace
    ensures NoWhitespace(ts) == ts
  {
    if ts != [] {
      NoWhitespaceKeeps(ts[..|ts| - 1]);
      assert ts[..|ts| - 1] + [ts[|ts| - 1]] == ts;
    }
  }

  /** The whitespace loop at the start of calculate(). */
  method DropWhitespace(ts: seq<Token>) returns (r: seq<Token>)
    ensures r == NoWhitespace(ts)
  {
    r := [];
    var i := 0;
    while i < |ts|
      invariant 0 <= i <= |ts|
      invariant r == NoWhitespace(ts[..i])
    {
      assert ts[..i + 1][..i] == ts[..i];
      if ts[i].kind != Whitespace {
        r := r + [ts[i]];
      }
      i := i + 1;
    }
    assert ts[..|ts|] == ts;
  }

  // ---------------------------------------------------------------- operator passes

  /** The operator passes in the order calculate() runs them. */
  datatype Level = Powers | Products | Sums | Comparisons | Bitwise

  /** Whether the pass looks for this token (the product pass examines every operator, see ProductsFrom). */
  predicate Handles(level: Level, t: Token) {
    && t.kind == Operator
    && match level
       case Powers => t.str == "^" || t.str == "~"
       case Products => t.str == "*" || t.str == "/" || t.str == "%"
       case Sums => t.str == "+" || t.str == "-"
       case Comparisons => t.str == ">" || t.str == "<"
       case Bitwise => t.str == "|" || t.str == "&"
  }

  /** The operator at p and its two operands replaced by one computed value. */
  function Reduce(ts: seq<Token>, p: nat, v: real): (r: seq<Token>)
    requires 0 < p < |ts| - 1
    ensures |r| == |ts| - 2
    ensures r[..p - 1] == ts[..p - 1] && r[p - 1] == Value(v) && r[p..] == ts[p + 2..]
  {
    ts[..p - 1] + [Value(v)] + ts[p + 2..]
  }

  function NegativeRootError(): CalcError {
    CalcError("No negative roots allowed", InvalidOperands, [], [])
  }

  function NegativePowerError(): CalcError {
    CalcError("Only integer powers of negative numbers", InvalidOperands, [], [])
  }

  /** "Division by 0" or "Modulo by 0", carrying the zero divisor. */
  function ZeroDivisorError(modulo: bool): CalcError {
    CalcError(if modulo then "Modulo by 0" else "Division by 0", InvalidOperands, [], [0.0])
  }

  const LONG_MIN: int := -0x8000_0000_0000_0000
  const LONG_MAX: int := 0x7FFF_FFFF_FFFF_FFFF

  /** C's round: halfway cases away from zero. */
  function RoundAway(x: real): (n: int)
    ensures x - 1.0 / 2.0 <= n as real <= x + 1.0 / 2.0
  {
    if x >= 0.0 then (x + 0.5).Floor else -((-x + 0.5).Floor)
  }

  const TWO_TO_64: int := 0x1_0000_0000_0000_0000

  /** A long as its 64-bit two's complement pattern, held as a natural below 2^64. */
  function Bits(n: int): (b: nat)
    requires LONG_MIN <= n <= LONG_MAX
    ensures b < TWO_TO_64
  {
    if n < 0 then n + TWO_TO_64 else n
  }

  /** The long whose two's complement pattern is the lowest 64 bits of b. */
  function FromBits(b: nat): (n: int)
    ensures LONG_MIN <= n <= LONG_MAX
  {
    var w := b % TWO_TO_64;
    if w > LONG_MAX then w - TWO_TO_64 else w
  }

  /** Two's complement loses nothing in the range of long. */
  lemma BitsRoundTrip(n: int)
    requires LONG_MIN <= n <= LONG_MAX
    ensures FromBits(Bits(n)) == n
  {
  }

  /** The lowest bit of the or (or the and) of two bit patterns. */
  function LowBit(or: bool, x: nat, y: nat): nat {
    if (if or then x % 2 == 1 || y % 2 == 1 else x % 2 == 1 && y % 2 == 1) then 1 else 0
  }

  /** The bitwise or (or and) of two bit patterns, one bit at a time from the lowest. */
  function BitOp(or: bool, x: nat, y: nat): nat
    decreases x + y
  {
    if x == 0 && y == 0 then 0 else 2 * BitOp(or, x / 2, y / 2) + LowBit(or, x, y)
  }

  /** Or-ing or and-ing a bit pattern with itself gives it back. */
  lemma {:induction false} BitOpSame(or: bool, x: nat)
    ensures BitOp(or, x, x) == x
    decreases x
  {
    if x != 0 {
      BitOpSame(or, x / 2);
    }
  }

  /**
    static_cast<long int>(round(x)); a value outside the range of long has
    no defined conversion, for which the model reports the unknown error.
  */
  function ToLong(x: real): (r: Result<nat, CalcError>)
    ensures r.Ok? ==> r.value < TWO_TO_64
  {
    var n := RoundAway(x);
    if LONG_MIN <= n <= LONG_MAX then Ok(Bits(n)) else Err(UnknownError())
  }

  /** The value one operator of a pass computes from its operands. */
  function Apply(level: Level, op: string, a: real, b: real, m: Libm): Result<real, CalcError> {
    match level
    case Powers =>
      if a < 0.0 && op != "^" then Err(NegativeRootError())
      else if a < 0.0 && b.Floor as real != b then Err(NegativePowerError())
      else Ok(if op == "^" then m.pow(a, b) else m.root(a, b))
    case Products =>
      if op != "*" && b == 0.0 then Err(ZeroDivisorError(op == "%")) else Ok(Multiply(op, a, b, m))
    case Sums => Ok(if op == "+" then a + b else a - b)
    case Comparisons => Ok(if (if op == ">" then a > b else a < b) then 1.0 else 0.0)
    case Bitwise =>
      var x :- ToLong(a);
      var y :- ToLong(b);
      Ok(FromBits(BitOp(op == "|", x, y)) as real)
  }

  /** a * b, a / b or std::fmod(a, b). */
  function Multiply(op: string, a: real, b: real, m: Libm): real
    requires op == "*" || b != 0.0
  {
    if op == "*" then a * b else if op == "/" then a / b else m.fmod(a, b)
  }

  /** The first token at or after from that the pass handles, or |ts|. */
  function First(level: Level, ts: seq<Token>, from: nat): (p: nat)
    requires from <= |ts|
    ensures from <= p <= |ts|
    ensures p < |ts| ==> Handles(level, ts[p])
    decreases |ts| - from
  {
    if from == |ts| || Handles(level, ts[from]) then from else First(level, ts, from + 1)
  }

  /** No token before the one First finds is handled by the pass. */
  lemma {:induction false} FirstIsFirst(level: Level, ts: seq<Token>, from: nat, i: nat)
    requires from <= |ts| && from <= i < First(level, ts, from)
    ensures !Handles(level, ts[i])
    decreases |ts| - from
  {
    if i > from {
      FirstIsFirst(level, ts, from + 1, i);
    }
  }

  /**
    One step of calcDoPowers, calcDoPlusmin, calcDoCompare or calcDoBitwise:
    the first operator of the pass is replaced, with its operands, by its
    value; the left operand is read first.
  */
  function BinaryStep(level: Level, ts: seq<Token>, vars: map<string, real>, m: Libm): (r: Result<Option<seq<Token>>, CalcError>)
    ensures r.Ok? && r.value.Some? ==> |r.value.value| == |ts| - 2
  {
    var p := First(level, ts, 0);
    if p == |ts| then Ok(None) else BinaryAt(level, ts, p, vars, m)
  }

  /** The operator at p applied to its operands, the left one read first. */
  function BinaryAt(level: Level, ts: seq<Token>, p: nat, vars: map<string, real>, m: Libm): (r: Result<Option<seq<Token>>, CalcError>)
    requires p < |ts|
    ensures r.Ok? ==> r.value.Some? && |r.value.value| == |ts| - 2
  {
    if p == 0 || p == |ts| - 1 then Err(UnknownError())
    else
      var a :- TokenValue(ts[p - 1], vars, m);
      var b :- TokenValue(ts[p + 1], vars, m);
      var v :- Apply(level, ts[p].str, a, b, m);
      Ok(Some(Reduce(ts, p, v)))
  }

  /** The first operator at or after p, or |ts|. */
  function NextOperator(ts: seq<Token>, p: nat): (q: nat)
    requires p <= |ts|
    ensures p <= q <= |ts|
    ensures q < |ts| ==> ts[q].kind == Operator
    ensures forall i :: p <= i < q ==> ts[i].kind != Operator
    decreases |ts| - p
  {
    if p == |ts| || ts[p].kind == Operator then p else NextOperator(ts, p + 1)
  }

  /**
    calcDoMultiply from position p on. Every operator it passes has its
    right operand evaluated, whether or not it is a product; a zero divisor
    is reported before the left operand is read.
  */
  function ProductsFrom(ts: seq<Token>, p: nat, vars: map<string, real>, m: Libm): (r: Result<Option<seq<Token>>, CalcError>)
    requires p <= |ts|
    ensures r.Ok? && r.value.Some? ==> |r.value.value| == |ts| - 2
    decreases |ts| - p, 1
  {
    var q := NextOperator(ts, p);
    if q == |ts| then Ok(None) else ProductsAt(ts, q, vars, m)
  }

  /** calcDoMultiply at the operator at q. */
  function ProductsAt(ts: seq<Token>, q: nat, vars: map<string, real>, m: Libm): (r: Result<Option<seq<Token>>, CalcError>)
    requires q < |ts| && ts[q].kind == Operator
    ensures r.Ok? && r.value.Some? ==> |r.value.value| == |ts| - 2
    decreases |ts| - q, 0
  {
    if q == |ts| - 1 then Err(UnknownError())
    else
      var b :- TokenValue(ts[q + 1], vars, m);
      if !Handles(Products, ts[q]) then ProductsFrom(ts, q + 1, vars, m)
      else if ts[q].str != "*" && b == 0.0 then Err(ZeroDivisorError(ts[q].str == "%"))
      else if q == 0 then Err(UnknownError())
      else
        var a :- TokenValue(ts[q - 1], vars, m);
        Ok(Some(Reduce(ts, q, Multiply(ts[q].str, a, b, m))))
  }

  /** One step of the pass at the given level. */
  function Step(level: Level, ts: seq<Token>, vars: map<string, real>, m: Libm): (r: Result<Option<seq<Token>>, CalcError>)
    ensures r.Ok? && r.value.Some? ==> |r.value.value| == |ts| - 2
  {
    if level == Products then ProductsFrom(ts, 0, vars, m) else BinaryStep(level, ts, vars, m)
  }

  /** while(calcDoX()); — the pass repeated until it has nothing left to do. */
  function Exhaust(level: Level, ts: seq<Token>, vars: map<string, real>, m: Libm): Result<seq<Token>, CalcError>
    decreases |ts|
  {
    match Step(level, ts, vars, m)
    case Err(e) => Err(e)
    case Ok(None) => Ok(ts)
    case Ok(Some(next)) => Exhaust(level, next, vars, m)
  }

  /** The five operator passes in turn: powers, products, sums, comparisons, bitwise. */
  function Operators(ts: seq<Token>, vars: map<string, real>, m: Libm): Result<seq<Token>, CalcError> {
    var a :- Exhaust(Powers, ts, vars, m);
    var b :- Exhaust(Products, a, vars, m);
    var c :- Exhaust(Sums, b, vars, m);
    var d :- Exhaust(Comparisons, c, vars, m);
    Exhaust(Bitwise, d, vars, m)
  }

  /** calcDoPowers, calcDoPlusmin, calcDoCompare and calcDoBitwise. */
  method ApplyBinary(level: Level, ts: seq<Token>, vars: map<string, real>, m: Libm) returns (r: Result<Option<seq<Token>>, CalcError>)
    requires level != Products
    ensures r == BinaryStep(level, ts, vars, m)
  {
    var p := 0;
    while p < |ts| && !Handles(level, ts[p])
      invariant p <= |ts|
      invariant First(level, ts, p) == First(level, ts, 0)
    {
      p := p + 1;
    }
    if p == |ts| {
      return Ok(None);
    }
    r := BinaryAt(level, ts, p, vars, m);
  }

  /** The body of calcDoMultiply's loop at an operator: done with a result, or go on to the next token. */
  method ProductAtOperator(ts: seq<Token>, q: nat, vars: map<string, real>, m: Libm)
    returns (r: Result<Option<seq<Token>>, CalcError>, more: bool)
    requires q < |ts| && ts[q].kind == Operator
    ensures more ==> ProductsAt(ts, q, vars, m) == ProductsFrom(ts, q + 1, vars, m)
    ensures !more ==> r == ProductsAt(ts, q, vars, m)
  {
    more := false;
    if q == |ts| - 1 {
      return Err(UnknownError()), false;
    }
    var b := TokenValue(ts[q + 1], vars, m);
    if b.Err? {
      return Err(b.error), false;
    }
    if !Handles(Products, ts[q]) {
      return Ok(None), true;
    }
    if ts[q].str != "*" && b.value == 0.0 {
      return Err(ZeroDivisorError(ts[q].str == "%")), false;
    }
    if q == 0 {
      return Err(UnknownError()), false;
    }
    var a := TokenValue(ts[q - 1], vars, m);
    if a.Err? {
      return Err(a.error), false;
    }
    r := Ok(Some(Reduce(ts, q, Multiply(ts[q].str, a.value, b.value, m))));
  }

  /** calcDoMultiply. */
  method ApplyProducts(ts: seq<Token>, vars: map<string, real>, m: Libm) returns (r: Result<Option<seq<Token>>, CalcError>)
    ensures r == ProductsFrom(ts, 0, vars, m)
  {
    var p := 0;
    while p < |ts|
      invariant p <= |ts|
      invariant ProductsFrom(ts, p, vars, m) == ProductsFrom(ts, 0, vars, m)
    {
      if ts[p].kind == Operator {
        var more;
        r, more := ProductAtOperator(ts, p, vars, m);
        if !more {
          return;
        }
      }
      p := p + 1;
    }
    return Ok(None);
  }

  /** One call of the pass at the given level. */
  method ApplyLevel(level: Level, ts: seq<Token>, vars: map<string, real>, m: Libm) returns (r: Result<Option<seq<Token>>, CalcError>)
    ensures r == Step(level, ts, vars, m)
  {
    if level == Products {
      r := ApplyProducts(ts, vars, m);
    } else {
      r := ApplyBinary(level, ts, vars, m);
    }
  }

  /** while(calcDoX()); */
  method RunLevel(level: Level, ts: seq<Token>, vars: map<string, real>, m: Libm) returns (r: Result<seq<Token>, CalcError>)
    ensures r == Exhaust(level, ts, vars, m)
  {
    var cur := ts;
    while true
      invariant Exhaust(level, cur, vars, m) == Exhaust(level, ts, vars, m)
      decreases |cur|
    {
      var step := ApplyLevel(level, cur, vars, m);
      if step.Err? {
        return Err(step.error);
      }
      if step.value.None? {
        return Ok(cur);
      }
      cur := step.value.value;
    }
  }

  /** The five operator passes, one loop each. */
  method RunOperators(ts: seq<Token>, vars: map<string, real>, m: Libm) returns (r: Result<seq<Token>, CalcError>)
    ensures r == Operators(ts, vars, m)
  {
    var a :- RunLevel(Powers, ts, vars, m);
    var b :- RunLevel(Products, a, vars, m);
    var c :- RunLevel(Sums, b, vars, m);
    var d :- RunLevel(Comparisons, c, vars, m);
    r := RunLevel(Bitwise, d, vars, m);
  }

  // ---------------------------------------------------------------- properties of the operator passes

  /**
    The product pass walks over every operator before p: none of them is a
    product, and the right operand of each one has a value.
  */
  predicate PassedOver(ts: seq<Token>, lo: nat, p: nat, vars: map<string, real>, m: Libm)
    requires p < |ts|
  {
    forall i :: lo <= i < p && ts[i].kind == Operator ==>
      !Handles(Products, ts[i]) && TokenValue(ts[i + 1], vars, m).Ok?
  }

  /** From lo on, the pass reaches the division or modulo at p and reports its zero divisor. */
  lemma {:induction false} ZeroDivisorFrom(ts: seq<Token>, lo: nat, p: nat, vars: map<string, real>, m: Libm)
    requires lo <= p < |ts| - 1
    requires ts[p] == Tok(Operator, "/") || ts[p] == Tok(Operator, "%")
    requires PassedOver(ts, lo, p, vars, m)
    requires TokenValue(ts[p + 1], vars, m) == Ok(0.0)
    ensures ProductsFrom(ts, lo, vars, m) == Err(ZeroDivisorError(ts[p].str == "%"))
    decreases p - lo
  {
    var q := NextOperator(ts, lo);
    if q < p {
      assert ProductsFrom(ts, lo, vars, m) == ProductsFrom(ts, q + 1, vars, m);
      ZeroDivisorFrom(ts, q + 1, p, vars, m);
    } else {
      assert q == p;
    }
  }

  /**
    A division or modulo whose right operand is 0 is reported by the
    product pass when no product comes before it and every operator before
    it has a right operand with a value, whatever its left operand.
  */
  lemma ZeroDivisorReported(ts: seq<Token>, p: nat, vars: map<string, real>, m: Libm)
    requires p < |ts| - 1
    requires ts[p] == Tok(Operator, "/") || ts[p] == Tok(Operator, "%")
    requires PassedOver(ts, 0, p, vars, m)
    requires TokenValue(ts[p + 1], vars, m) == Ok(0.0)
    ensures Step(Products, ts, vars, m) == Err(ZeroDivisorError(ts[p].str == "%"))
  {
    ZeroDivisorFrom(ts, 0, p, vars, m);
  }

  /** "1+2/0" is the "Division by 0" error, though the '+' comes first. */
  lemma ZeroDivisorAfterSum(vars: map<string, real>, m: Libm)
    ensures var ts := [Tok(Real, "1"), Tok(Operator, "+"), Tok(Real, "2"), Tok(Operator, "/"), Tok(Real, "0")];
      Step(Products, ts, vars, m) == Err(ZeroDivisorError(false))
  {
    var ts := [Tok(Real, "1"), Tok(Operator, "+"), Tok(Real, "2"), Tok(Operator, "/"), Tok(Real, "0")];
    assert TokenValue(ts[2], vars, m) == Ok(2.0);
    assert TokenValue(ts[4], vars, m) == Ok(0.0);
    ZeroDivisorReported(ts, 3, vars, m);
  }

  /** A root of a negative number, or a fractional power of one, is refused. */
  lemma NegativeBaseRefused(ts: seq<Token>, p: nat, vars: map<string, real>, m: Libm)
    requires 0 < p < |ts| - 1 && p == First(Powers, ts, 0)
    requires TokenValue(ts[p - 1], vars, m).Ok? && TokenValue(ts[p - 1], vars, m).value < 0.0
    requires TokenValue(ts[p + 1], vars, m).Ok?
    ensures ts[p].str == "~" ==> Step(Powers, ts, vars, m) == Err(NegativeRootError())
    ensures var b := TokenValue(ts[p + 1], vars, m).value;
      ts[p].str == "^" && b.Floor as real != b ==> Step(Powers, ts, vars, m) == Err(NegativePowerError())
    ensures var b := TokenValue(ts[p + 1], vars, m).value;
      ts[p].str == "^" && b.Floor as real == b ==>
        Step(Powers, ts, vars, m) == Ok(Some(Reduce(ts, p, m.pow(TokenValue(ts[p - 1], vars, m).value, b))))
  {
    assert Step(Powers, ts, vars, m) == BinaryAt(Powers, ts, p, vars, m);
  }

  /** A comparison yields 1 or 0. */
  lemma ComparisonIsBoolean(op: string, a: real, b: real, m: Libm)
    requires op == ">" || op == "<"
    ensures Apply(Comparisons, op, a, b, m).Ok?
    ensures Apply(Comparisons, op, a, b, m).value == 1.0 <==> (if op == ">" then a > b else a < b)
    ensures Apply(Comparisons, op, a, b, m).value == 0.0 <==> !(if op == ">" then a > b else a < b)
  {
  }

  /** Or-ing or and-ing a whole number in the range of long with itself gives it back. */
  lemma BitwiseIdempotent(op: string, n: int, m: Libm)
    requires op == "|" || op == "&"
    requires LONG_MIN <= n <= LONG_MAX
    ensures Apply(Bitwise, op, n as real, n as real, m) == Ok(n as real)
  {
    assert RoundAway(n as real) == n;
    BitOpSame(op == "|", Bits(n));
    BitsRoundTrip(n);
  }

  // ---------------------------------------------------------------- assignments

  /** The first assignment operator at or after from, or |ts|. */
  function FirstAssignment(ts: seq<Token>, from: nat): (p: nat)
    requires from <= |ts|
    ensures from <= p <= |ts|
    ensures p < |ts| ==> ts[p].kind == AssignmentOperator
    ensures forall i :: from <= i < p ==> ts[i].kind != AssignmentOperator
    decreases |ts| - from
  {
    if from == |ts| || ts[from].kind == AssignmentOperator then from else FirstAssignment(ts, from + 1)
  }

  /**
    One step of calcDoAssignments: the first assignment operator that is not
    the first token sets the variable named by the token before it to the
    value of the token after it (the name's text is used as it is, a unary
    minus included); the operator and the value are removed, leaving the
    name. Returns the shortened list, the variable and its value.
  */
  function AssignStep(ts: seq<Token>, vars: map<string, real>, m: Libm): (r: Result<Option<(seq<Token>, string, real)>, CalcError>)
    ensures r.Ok? && r.value.Some? ==> |r.value.value.0| == |ts| - 2
  {
    if |ts| <= 1 then Ok(None)
    else
      var p := FirstAssignment(ts, 1);
      if p == |ts| then Ok(None)
      else if p == |ts| - 1 then Err(UnknownError())
      else
        var v :- TokenValue(ts[p + 1], vars, m);
        Ok(Some((ts[..p] + ts[p + 2..], ts[p - 1].str, v)))
  }

  /** The assignment pass repeated: the remaining tokens (or the error) and the variables it leaves. */
  function Assign(ts: seq<Token>, vars: map<string, real>, m: Libm): (Result<seq<Token>, CalcError>, map<string, real>)
    decreases |ts|
  {
    match AssignStep(ts, vars, m)
    case Err(e) => (Err(e), vars)
    case Ok(None) => (Ok(ts), vars)
    case Ok(Some((next, name, v))) => Assign(next, vars[name := v], m)
  }

  /** The search of calcDoAssignments followed by reading the value. */
  method FindAssignment(ts: seq<Token>, vars: map<string, real>, m: Libm) returns (r: Result<Option<(seq<Token>, string, real)>, CalcError>)
    ensures r == AssignStep(ts, vars, m)
  {
    if |ts| <= 1 {
      return Ok(None);
    }
    var p := 1;
    while p < |ts| && ts[p].kind != AssignmentOperator
      invariant 1 <= p <= |ts|
      invariant FirstAssignment(ts, p) == FirstAssignment(ts, 1)
    {
      p := p + 1;
    }
    if p == |ts| {
      return Ok(None);
    }
    if p == |ts| - 1 {
      return Err(UnknownError());
    }
    var v :- TokenValue(ts[p + 1], vars, m);
    r := Ok(Some((ts[..p] + ts[p + 2..], ts[p - 1].str, v)));
  }

  // ---------------------------------------------------------------- the last token

  /** The end of calculate(): the first remaining token gives the result. */
  function Final(ts: seq<Token>, vars: map<string, real>, m: Libm): (r: Result<real, CalcError>)
    ensures ts == [] ==> r == Err(UnknownError())
    ensures ts != [] && ts[0].kind in {Name, Real, RealReal} ==> r == TokenValue(ts[0], vars, m)
    ensures ts != [] && ts[0].kind !in {Name, Real, RealReal} ==> r == Err(UnknownError())
  {
    if ts == [] then Err(UnknownError())
    else match ts[0].kind
      case Name => TokenValue(ts[0], vars, m)
      case Real => TokenValue(ts[0], vars, m)
      case RealReal => Ok(ts[0].val)
      case _ => Err(UnknownError())
  }

  /**
    calculate() on a token list holding no brackets and no function calls:
    the operator passes, then the assignments, then the first remaining
    token. Returns the result and the variables afterwards.
  */
  function Flat(ts: seq<Token>, vars: map<string, real>, m: Libm): (Result<real, CalcError>, map<string, real>) {
    match Operators(ts, vars, m)
    case Err(e) => (Err(e), vars)
    case Ok(rest) =>
      match Assign(rest, vars, m)
      case (Err(e), vars') => (Err(e), vars')
      case (Ok(last), vars') => (Final(last, vars', m), vars')
  }

  /** A list without brackets and function starts, which the bracket and function passes leave alone. */
  predicate Plain(ts: seq<Token>) {
    forall i :: 0 <= i < |ts| ==> ts[i].kind != OpenBracket && ts[i].kind != FunctionStart
  }

  // ---------------------------------------------------------------- the search of calcDoBrackets

  /**
    What the bracket search carries: the count of open brackets, whether
    the brackets being read are a function's, the opening bracket of the
    group found, and the kind of the previous token.
  */
  datatype GroupScan = GroupScan(open: int, functionOpen: bool, lastOpen: Option<nat>, last: Option<TokenType>)

  const GroupStart: GroupScan := GroupScan(0, false, None, None)

  /**
    calcDoBrackets' search from position p: the opening bracket of the
    first bracket group that is not a function's argument list, and where
    the search stopped (the group's closing bracket, or |ts|). An opening
    bracket right after a function start, with no group open, marks the
    function's brackets, whose closing brackets are then not counted. The
    source's counter is unsigned; an int compares with 0 exactly like it
    for every count a token list can reach.
  */
  function ScanGroup(ts: seq<Token>, p: nat, s: GroupScan): (r: (Option<nat>, nat))
    requires p <= |ts|
    requires s.lastOpen.Some? ==> s.lastOpen.value < p && ts[s.lastOpen.value].kind == OpenBracket
    ensures p <= r.1 <= |ts|
    ensures r.0.Some? ==> r.0.value < r.1 && ts[r.0.value].kind == OpenBracket
    ensures r.1 < |ts| ==> ts[r.1].kind == CloseBracket
    decreases |ts| - p
  {
    if p == |ts| then (s.lastOpen, p)
    else if ts[p].kind == OpenBracket then
      if s.open == 0 && s.last == Some(FunctionStart) then
        ScanGroup(ts, p + 1, s.(functionOpen := true, last := Some(OpenBracket)))
      else if s.open == 0 then
        ScanGroup(ts, p + 1, GroupScan(1, false, Some(p), Some(OpenBracket)))
      else
        ScanGroup(ts, p + 1, s.(open := s.open + 1, last := Some(OpenBracket)))
    else if !s.functionOpen && ts[p].kind == CloseBracket then
      if s.open - 1 == 0 then (s.lastOpen, p)
      else ScanGroup(ts, p + 1, s.(open := s.open - 1, last := Some(CloseBracket)))
    else
      ScanGroup(ts, p + 1, s.(last := Some(ts[p].kind)))
  }

  /** Without an opening bracket there is no group, so the bracket pass has nothing to do. */
  lemma {:induction false} NoBracketNoGroup(ts: seq<Token>, p: nat, s: GroupScan)
    requires p <= |ts| && s.lastOpen.None?
    requires forall i :: p <= i < |ts| ==> ts[i].kind != OpenBracket
    ensures ScanGroup(ts, p, s).0.None?
    decreases |ts| - p
  {
    if p < |ts| {
      if !s.functionOpen && ts[p].kind == CloseBracket && s.open - 1 == 0 {
      } else if !s.functionOpen && ts[p].kind == CloseBracket {
        NoBracketNoGroup(ts, p + 1, s.(open := s.open - 1, last := Some(CloseBracket)));
      } else {
        NoBracketNoGroup(ts, p + 1, s.(last := Some(ts[p].kind)));
      }
    }
  }

  /** The search loop of calcDoBrackets. */
  method FindGroup(ts: seq<Token>) returns (lastOpen: Option<nat>, stop: nat)
    ensures (lastOpen, stop) == ScanGroup(ts, 0, GroupStart)
  {
    var s := GroupStart;
    var p := 0;
    while p < |ts|
      invariant p <= |ts|
      invariant s.lastOpen.Some? ==> s.lastOpen.value < p && ts[s.lastOpen.value].kind == OpenBracket
      invariant ScanGroup(ts, p, s) == ScanGroup(ts, 0, GroupStart)
    {
      if ts[p].kind == OpenBracket {
        if s.open == 0 && s.last == Some(FunctionStart) {
          s := s.(functionOpen := true);
        } else {
          if s.open == 0 {
            s := s.(lastOpen := Some(p), functionOpen := false);
          }
          s := s.(open := s.open + 1);
        }
        s := s.(last := Some(OpenBracket));
      } else {
        if !s.functionOpen && ts[p].kind == CloseBracket {
          s := s.(open := s.open - 1);
          if s.open == 0 {
            return s.lastOpen, p;
          }
        }
        s := s.(last := Some(ts[p].kind));
      }
      p := p + 1;
    }
    return s.lastOpen, p;
  }

  // ---------------------------------------------------------------- the search of calcDoFunctions

  /**
    What the function search finds: the first function start and where the
    search stopped. It is broken when that start is the last token: the
    source then steps past the end of the vector.
  */
  datatype CallScan = CallScan(start: Option<nat>, stop: nat, broken: bool)

  /**
    calcDoFunctions' search from position p: the first function start (the
    token after it, its opening bracket, is skipped and counted), then the
    closing bracket that brings the count back to zero, or |ts|.
  */
  function ScanCall(ts: seq<Token>, p: nat, open: int, start: Option<nat>): (r: CallScan)
    requires p <= |ts|
    requires start.Some? ==> start.value + 2 <= p && ts[start.value].kind == FunctionStart
    ensures p <= r.stop <= |ts|
    ensures start.Some? ==> r.start == start && !r.broken
    ensures r.start.Some? ==> r.start.value < |ts| && ts[r.start.value].kind == FunctionStart
    ensures r.start.Some? && !r.broken ==> r.start.value + 2 <= r.stop
    ensures r.stop < |ts| && !r.broken ==> ts[r.stop].kind == CloseBracket
    decreases |ts| - p
  {
    if p == |ts| then CallScan(start, p, false)
    else if ts[p].kind == FunctionStart && start.None? then
      if p == |ts| - 1 then CallScan(Some(p), p, true)
      else ScanCall(ts, p + 2, open + 1, Some(p))
    else if ts[p].kind == OpenBracket then ScanCall(ts, p + 1, open + 1, start)
    else if ts[p].kind == CloseBracket && open - 1 == 0 then CallScan(start, p, false)
    else ScanCall(ts, p + 1, if ts[p].kind == CloseBracket then open - 1 else open, start)
  }

  /** Without a function start the function pass has nothing to do. */
  lemma {:induction false} NoStartNoCall(ts: seq<Token>, p: nat, open: int)
    requires p <= |ts|
    requires forall i :: p <= i < |ts| ==> ts[i].kind != FunctionStart
    ensures ScanCall(ts, p, open, None).start.None?
    decreases |ts| - p
  {
    if p < |ts| {
      if ts[p].kind == OpenBracket {
        NoStartNoCall(ts, p + 1, open + 1);
      } else if ts[p].kind == CloseBracket && open - 1 == 0 {
      } else {
        NoStartNoCall(ts, p + 1, if ts[p].kind == CloseBracket then open - 1 else open);
      }
    }
  }

  /** The search loop of calcDoFunctions. */
  method FindCall(ts: seq<Token>) returns (r: CallScan)
    ensures r == ScanCall(ts, 0, 0, None)
  {
    var open := 0;
    var start: Option<nat> := None;
    var p := 0;
    while p < |ts|
      invariant p <= |ts|
      invariant start.Some? ==> start.value + 2 <= p && ts[start.value].kind == FunctionStart
      invariant ScanCall(ts, p, open, start) == ScanCall(ts, 0, 0, None)
    {
      if ts[p].kind == FunctionStart && start.None? {
        if p == |ts| - 1 {
          return CallScan(Some(p), p, true);
        }
        start := Some(p);
        open := open + 1;
        p := p + 2;
      } else {
        if ts[p].kind == OpenBracket {
          open := open + 1;
        } else if ts[p].kind == CloseBracket {
          open := open - 1;
          if open == 0 {
            return CallScan(start, p, false);
          }
        }
        p := p + 1;
      }
    }
    return CallScan(start, p, false);
  }

  // ---------------------------------------------------------------- arguments

  /** The bracket depth after a token. */
  function Depth(depth: int, t: Token): int {
    if t.kind == OpenBracket then depth + 1 else if t.kind == CloseBracket then depth - 1 else depth
  }

  /**
    The argument token lists of a call, from the tokens between its
    brackets: split at the commas outside nested brackets, keeping the last
    piece only when it is not empty.
  */
  function SplitArgs(ts: seq<Token>, p: nat, depth: int, cur: seq<Token>): seq<seq<Token>>
    requires p <= |ts|
    decreases |ts| - p
  {
    if p == |ts| then (if cur == [] then [] else [cur])
    else if ts[p].kind == Comma && depth == 0 then [cur] + SplitArgs(ts, p + 1, depth, [])
    else SplitArgs(ts, p + 1, Depth(depth, ts[p]), cur + [ts[p]])
  }

  /** Argument lists written back with a comma between each two. */
  function Join(pieces: seq<seq<Token>>): seq<Token> {
    if pieces == [] then []
    else if |pieces| == 1 then pieces[0]
    else pieces[0] + [Tok(Comma, ",")] + Join(pieces[1..])
  }

  /**
    Splitting loses nothing: joining the argument lists with commas gives
    back the tokens between the brackets, unless the last one is a comma.
  */
  lemma {:induction false} SplitJoin(ts: seq<Token>, p: nat, depth: int, cur: seq<Token>)
    requires p <= |ts|
    requires forall i :: p <= i < |ts| && ts[i].kind == Comma ==> ts[i] == Tok(Comma, ",")
    requires cur + ts[p..] != []
    requires p < |ts| ==> ts[|ts| - 1].kind != Comma
    ensures Join(SplitArgs(ts, p, depth, cur)) == cur + ts[p..]
    decreases |ts| - p
  {
    if p == |ts| {
      assert cur != [];
    } else if ts[p].kind == Comma && depth == 0 {
      var rest := SplitArgs(ts, p + 1, depth, []);
      SplitJoin(ts, p + 1, depth, []);
      assert rest != [];
      var all := [cur] + rest;
      assert all[0] == cur && all[1..] == rest;
      assert ts[p..] == [ts[p]] + ts[p + 1..];
    } else {
      SplitJoin(ts, p + 1, Depth(depth, ts[p]), cur + [ts[p]]);
      assert ts[p..] == [ts[p]] + ts[p + 1..];
    }
  }
}
