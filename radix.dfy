/**
  Binary, octal and hexadecimal parsing and formatting
  (calc/calc_private.cpp: binStr2real, octStr2real, hexStr2real,
  real2binStr, real2octStr, real2hexStr).
*/
module Radix {
  import opened Wrappers
  import opened Errors
  import opened Text

  /** std::numeric_limits<unsigned long>::max() on an LP64 platform */
  const ULONG_MAX: int := 0x1_0000_0000_0000_0000 - 1

  function Pow(b: real, k: nat): (p: real)
    ensures b > 0.0 ==> p > 0.0
  {
    if k == 0 then 1.0 else b * Pow(b, k - 1)
  }

  datatype Base = Binary | Octal | Hexadecimal {
    function Radix(): nat {
      match this
      case Binary => 2
      case Octal => 8
      case Hexadecimal => 16
    }

    predicate IsDigitOf(c: char) {
      match this
      case Binary => c == '0' || c == '1'
      case Octal => '0' <= c <= '7'
      case Hexadecimal => IsXDigit(c)
    }

    function ValueOf(c: char): (d: nat)
      requires IsDigitOf(c)
      ensures d < Radix()
    {
      if IsDigit(c) then DigitValue(c)
      else if 'a' <= c <= 'f' then (c as int) - ('a' as int) + 10
      else (c as int) - ('A' as int) + 10
    }

    /** The digit std::ostream prints (lower-case letters for std::hex). */
    function CharOf(d: nat): (c: char)
      requires d < Radix()
      ensures IsDigitOf(c) && ValueOf(c) == d
    {
      if d < 10 then DigitChar(d) else (('a' as int) + d - 10) as char
    }

    /** Characters the parser passes over without raising an error. */
    predicate Skippable(c: char) {
      c == '-' || (this == Hexadecimal && (c == 'x' || c == 'X'))
    }
  }

  /** The number of digits of base b in s. */
  function DigitCount(b: Base, s: string): nat {
    if s == [] then 0 else (if b.IsDigitOf(s[0]) then 1 else 0) + DigitCount(b, s[1..])
  }

  /**
    The parsers' sum: every digit times the base raised to the number of
    digits to its right; other characters contribute nothing.
  */
  function DigitSum(b: Base, s: string): real {
    if s == [] then 0.0 else Term(b, s[0], DigitCount(b, s[1..])) + DigitSum(b, s[1..])
  }

  /** x times the radix of b, written out per base so that the product stays linear. */
  function Scale(b: Base, x: real): real {
    match b
    case Binary => 2.0 * x
    case Octal => 8.0 * x
    case Hexadecimal => 16.0 * x
  }

  /** What c contributes with k digits to its right: its value, scaled by the base k times. */
  function Term(b: Base, c: char, k: nat): real
    decreases k
  {
    if !b.IsDigitOf(c) then 0.0
    else if k == 0 then b.ValueOf(c) as real
    else Scale(b, Term(b, c, k - 1))
  }

  /** Scale is multiplication by the radix. */
  lemma ScaleIsProduct(b: Base, x: real)
    ensures Scale(b, x) == b.Radix() as real * x
  {
  }

  /** The base raised to k, the pow(base, counter) of the parsers. */
  function RadixPow(b: Base, k: nat): real {
    if k == 0 then 1.0 else Scale(b, RadixPow(b, k - 1))
  }

  /** RadixPow is the real power of the radix. */
  lemma {:induction false} RadixPowIsPow(b: Base, k: nat)
    ensures RadixPow(b, k) == Pow(b.Radix() as real, k)
  {
    if k > 0 {
      RadixPowIsPow(b, k - 1);
      ScaleIsProduct(b, RadixPow(b, k - 1));
    }
  }

  /** Term is the digit's value times the base raised to k, the product the parsers compute. */
  lemma {:induction false} TermIsPower(b: Base, c: char, k: nat)
    requires b.IsDigitOf(c)
    ensures Term(b, c, k) == b.ValueOf(c) as real * RadixPow(b, k)
  {
    if k > 0 {
      TermIsPower(b, c, k - 1);
      ScaleProduct(b, b.ValueOf(c) as real, RadixPow(b, k - 1));
    }
  }

  lemma ScaleProduct(b: Base, v: real, p: real)
    ensures Scale(b, v * p) == v * Scale(b, p)
  {
  }

  predicate IsBad(b: Base, c: char) { !b.IsDigitOf(c) && !b.Skippable(c) }

  /** The index of the rightmost character that is neither a digit nor skippable. */
  function RightmostBad(b: Base, s: string): (k: Option<nat>)
    ensures k.Some? ==> k.value < |s| && IsBad(b, s[k.value])
    ensures k.Some? ==> forall j :: k.value < j < |s| ==> !IsBad(b, s[j])
    ensures k.None? ==> forall j :: 0 <= j < |s| ==> !IsBad(b, s[j])
  {
    if s == [] then None
    else match RightmostBad(b, s[1..])
      case Some(k) => Some(k + 1)
      case None => if IsBad(b, s[0]) then Some(0) else None
  }

  /** The result negated when the text starts with a minus sign. */
  function SignedBy(s: string, v: real): real {
    if |s| > 0 && s[0] == '-' then -v else v
  }

  /** The error the parsers raise for a character they do not know; the character travels as a real. */
  function UnknownTokenError(c: char): CalcError {
    CalcError("Unknown token", UnknownToken, [], [c as int as real])
  }

  /** What binStr2real, octStr2real and hexStr2real return. */
  function RadixParse(b: Base, s: string, throwError: bool): Result<real, CalcError> {
    var bad := RightmostBad(b, s);
    if throwError && bad.Some? then Err(UnknownTokenError(s[bad.value]))
    else Ok(SignedBy(s, DigitSum(b, s)))
  }

  /** One character more on the left of a suffix: how the sum, the count and the rightmost bad index change. */
  lemma SuffixStep(b: Base, s: string, i: nat)
    requires i < |s|
    ensures DigitCount(b, s[i..]) == (if b.IsDigitOf(s[i]) then 1 else 0) + DigitCount(b, s[i + 1..])
    ensures DigitSum(b, s[i..]) == Term(b, s[i], DigitCount(b, s[i + 1..])) + DigitSum(b, s[i + 1..])
  {
    assert s[i..][0] == s[i];
    assert s[i..][1..] == s[i + 1..];
  }

  lemma RightmostBadAt(b: Base, s: string, i: nat)
    requires i < |s| && IsBad(b, s[i])
    requires forall j :: i < j < |s| ==> !IsBad(b, s[j])
    ensures RightmostBad(b, s) == Some(i)
  {
  }

  /** The shared loop of binStr2real, octStr2real and hexStr2real: scan from the back. */
  method RadixStr2Real(b: Base, s: string, throwError: bool) returns (res: Result<real, CalcError>)
    ensures res == RadixParse(b, s, throwError)
  {
    var out := 0.0;
    var counter: nat := 0;
    var i := |s|;
    while i > 0
      invariant 0 <= i <= |s|
      invariant out == DigitSum(b, s[i..]) && counter == DigitCount(b, s[i..])
      invariant throwError ==> forall j :: i <= j < |s| ==> !IsBad(b, s[j])
    {
      i := i - 1;
      SuffixStep(b, s, i);
      var c := s[i];
      if b.IsDigitOf(c) {
        var term := DigitTerm(b, c, counter);
        out := out + term;
        counter := counter + 1;
      } else if throwError && !b.Skippable(c) {
        RightmostBadAt(b, s, i);
        return Err(UnknownTokenError(c));
      }
    }
    assert s[0..] == s;
    if throwError {
      assert RightmostBad(b, s).None?;
    }
    if |s| > 0 && s[0] == '-' {
      out := -out;
    }
    return Ok(out);
  }

  /** One digit's contribution as the parsers compute it: the digit times pow(base, counter). */
  method DigitTerm(b: Base, c: char, counter: nat) returns (term: real)
    requires b.IsDigitOf(c)
    ensures term == Term(b, c, counter)
  {
    TermIsPower(b, c, counter);
    term := b.ValueOf(c) as real * RadixPow(b, counter);
  }

  /** binStr2real: sums digit × 2^position from the right, negated after a leading '-'. */
  method BinStr2Real(s: string, throwError: bool) returns (res: Result<real, CalcError>)
    ensures res == RadixParse(Binary, s, throwError)
    ensures res.Ok? ==> res.value == SignedBy(s, DigitSum(Binary, s))
    ensures res.Err? <==> throwError && RightmostBad(Binary, s).Some?
    ensures res.Err? ==> res.error.kind == UnknownToken
  {
    res := RadixStr2Real(Binary, s, throwError);
  }

  /** octStr2real: sums digit × 8^position from the right, negated after a leading '-'. */
  method OctStr2Real(s: string, throwError: bool) returns (res: Result<real, CalcError>)
    ensures res == RadixParse(Octal, s, throwError)
    ensures res.Ok? ==> res.value == SignedBy(s, DigitSum(Octal, s))
    ensures res.Err? <==> throwError && RightmostBad(Octal, s).Some?
    ensures res.Err? ==> res.error.kind == UnknownToken
  {
    res := RadixStr2Real(Octal, s, throwError);
  }

  /** hexStr2real: sums digit × 16^position from the right; '-', 'x' and 'X' are passed over. */
  method HexStr2Real(s: string, throwError: bool) returns (res: Result<real, CalcError>)
    ensures res == RadixParse(Hexadecimal, s, throwError)
    ensures res.Ok? ==> res.value == SignedBy(s, DigitSum(Hexadecimal, s))
    ensures res.Err? <==> throwError && RightmostBad(Hexadecimal, s).Some?
    ensures res.Err? ==> res.error.kind == UnknownToken
  {
    res := RadixStr2Real(Hexadecimal, s, throwError);
  }

  // ---------------------------------------------------------------------------
  // Formatting

  function Floor(v: real): int { v.Floor }

  function Ceil(v: real): int { if v == v.Floor as real then v.Floor else v.Floor + 1 }

  /**
    The rounding the formatters use: the floor when it is strictly closer,
    the ceiling otherwise (so halves go up).
  */
  function RoundHalfUp(v: real): (n: int)
    ensures n == Floor(v) || n == Ceil(v)
    ensures -0.5 <= v - n as real < 0.5
  {
    if Ceil(v) as real - v > v - Floor(v) as real then Floor(v) else Ceil(v)
  }

  /** The value the formatters convert: the rounded magnitude. */
  function Magnitude(v: real): nat {
    var n := RoundHalfUp(v);
    if n < 0 then -n else n
  }

  /** The digits of n in base b, most significant first, empty for zero (the loop of real2binStr). */
  function ToBase(b: Base, n: nat): (s: string)
    ensures n > 0 ==> |s| > 0 && s[0] != '0'
    decreases n
  {
    if n == 0 then [] else ToBase(b, n / b.Radix()) + [b.CharOf(n % b.Radix())]
  }

  /** Every character ToBase writes is a digit of the base. */
  lemma {:induction false} ToBaseDigits(b: Base, n: nat)
    ensures forall i :: 0 <= i < |ToBase(b, n)| ==> b.IsDigitOf(ToBase(b, n)[i])
    decreases n
  {
    if n > 0 {
      ToBaseDigits(b, n / b.Radix());
    }
  }

  /** std::ostream's rendering of an unsigned number: ToBase, or "0" for zero. */
  function StreamDigits(b: Base, n: nat): (s: string)
    ensures |s| > 0
  {
    if n == 0 then "0" else ToBase(b, n)
  }

  /** The guard real2binStr, real2octStr and real2hexStr use: only values above ULONG_MAX are refused. */
  predicate OverflowGuardAsWritten(v: real) { v > ULONG_MAX as real }

  /** The guard the formatters need: a magnitude beyond ULONG_MAX cannot be held by unsigned long. */
  predicate Overflows(v: real) { v > ULONG_MAX as real || v < -(ULONG_MAX as real) }

  /** real2binStr as written: only an exact zero is special-cased. */
  function Real2BinStrAsWritten(v: real): Result<string, FormatError> {
    if OverflowGuardAsWritten(v) then Err(Overflow(Bin))
    else if v == 0.0 then Ok("0")
    else Ok((if v < 0.0 then "-" else "") + ToBase(Binary, Magnitude(v)))
  }

  /** The as-written guard of all three formatters lets -2^65 through, although its magnitude does not fit in an unsigned long. */
  lemma NegativeOverflowPassesGuard()
    ensures var v := -(0x2_0000_0000_0000_0000 as real);
      !OverflowGuardAsWritten(v) && Magnitude(v) > ULONG_MAX && Overflows(v)
  {
    var v := -(0x2_0000_0000_0000_0000 as real);
    assert Floor(v) == -0x2_0000_0000_0000_0000;
    assert Ceil(v) == Floor(v);
  }

  /** real2binStr as written renders 0.25 (which rounds to 0) as the empty string. */
  lemma SmallValueGivesEmptyBinary()
    ensures Real2BinStrAsWritten(0.25) == Ok("")
  {
    assert Floor(0.25) == 0;
    assert Ceil(0.25) == 1;
    assert RoundHalfUp(0.25) == 0;
    assert Magnitude(0.25) == 0;
    assert ToBase(Binary, 0) == [];
    assert "" + ToBase(Binary, 0) == "";
  }

  /** The text real2binStr is meant to give: "0" for a value that rounds to zero, else the sign and the binary digits. */
  function BinText(v: real): string {
    if Magnitude(v) == 0 then "0" else (if v < 0.0 then "-" else "") + ToBase(Binary, Magnitude(v))
  }

  /**
    real2binStr with both guards corrected: a value whose magnitude exceeds
    ULONG_MAX on either side overflows, and a value that rounds to zero is "0".
  */
  method Real2BinStr(v: real) returns (res: Result<string, FormatError>)
    ensures res.Err? <==> Overflows(v)
    ensures res.Err? ==> res.error == Overflow(Bin)
    ensures res.Ok? ==> Magnitude(v) <= ULONG_MAX && res.value == BinText(v)
  {
    if Overflows(v) {
      return Err(Overflow(Bin));
    }
    var intVal := Magnitude(v);
    if intVal == 0 {
      return Ok("0");
    }
    var out := BinaryDigits(intVal);
    return Ok((if v < 0.0 then "-" else "") + out);
  }

  /** The loop of real2binStr: prepend intVal % 2 and halve intVal until it is 0. */
  method BinaryDigits(intVal: nat) returns (out: string)
    ensures out == ToBase(Binary, intVal)
  {
    out := "";
    var n := intVal;
    while n != 0
      invariant ToBase(Binary, n) + out == ToBase(Binary, intVal)
      decreases n
    {
      out := [Binary.CharOf(n % 2)] + out;
      n := n / 2;
    }
  }

  /** real2octStr with the corrected guard: "[-]0" followed by the octal digits of the rounded magnitude. */
  function Real2OctStr(v: real): (res: Result<string, FormatError>)
    ensures res.Err? <==> Overflows(v)
    ensures res.Ok? ==> Magnitude(v) <= ULONG_MAX
  {
    if Overflows(v) then Err(Overflow(Oct))
    else Ok((if v < 0.0 then "-" else "") + "0" + StreamDigits(Octal, Magnitude(v)))
  }

  /** real2hexStr with the corrected guard: "[-]0x" followed by the hexadecimal digits of the rounded magnitude. */
  function Real2HexStr(v: real): (res: Result<string, FormatError>)
    ensures res.Err? <==> Overflows(v)
    ensures res.Ok? ==> Magnitude(v) <= ULONG_MAX
  {
    if Overflows(v) then Err(Overflow(Hex))
    else Ok((if v < 0.0 then "-" else "") + "0x" + StreamDigits(Hexadecimal, Magnitude(v)))
  }

  // ---------------------------------------------------------------------------
  // Round trips

  lemma {:induction false} DigitCountAppend(b: Base, s: string, c: char)
    ensures b.IsDigitOf(c) ==> DigitCount(b, s + [c]) == DigitCount(b, s) + 1
    ensures !b.IsDigitOf(c) ==> DigitCount(b, s + [c]) == DigitCount(b, s)
    decreases |s|
  {
    if s == [] {
      assert ([c])[1..] == [];
    } else {
      assert (s + [c])[1..] == s[1..] + [c];
      DigitCountAppend(b, s[1..], c);
    }
  }

  /** Appending a character: a digit multiplies what was read by the base and adds the digit; anything else changes nothing. */
  lemma DigitSumAppend(b: Base, s: string, c: char)
    ensures b.IsDigitOf(c) ==> DigitSum(b, s + [c]) == b.Radix() as real * DigitSum(b, s) + b.ValueOf(c) as real
    ensures !b.IsDigitOf(c) ==> DigitSum(b, s + [c]) == DigitSum(b, s)
  {
    if b.IsDigitOf(c) {
      AppendDigitSum(b, s, c);
    } else {
      AppendOtherSum(b, s, c);
    }
  }

  /** The digit case of DigitSumAppend, with the product written as Scale. */
  lemma {:induction false} AppendDigitSum(b: Base, s: string, c: char)
    requires b.IsDigitOf(c)
    ensures DigitSum(b, s + [c]) == Scale(b, DigitSum(b, s)) + b.ValueOf(c) as real
    decreases |s|
  {
    var t := s + [c];
    if s == [] {
      assert t[1..] == [];
    } else {
      assert t[0] == s[0] && t[1..] == s[1..] + [c];
      DigitCountAppend(b, s[1..], c);
      AppendDigitSum(b, s[1..], c);
    }
  }

  /** The case of DigitSumAppend for a character that is not a digit. */
  lemma {:induction false} AppendOtherSum(b: Base, s: string, c: char)
    requires !b.IsDigitOf(c)
    ensures DigitSum(b, s + [c]) == DigitSum(b, s)
    decreases |s|
  {
    var t := s + [c];
    if s == [] {
      assert t[1..] == [];
    } else {
      assert t[0] == s[0] && t[1..] == s[1..] + [c];
      DigitCountAppend(b, s[1..], c);
      AppendOtherSum(b, s[1..], c);
    }
  }

  /** Reading the digits ToBase writes gives back the number. */
  lemma {:induction false} DigitSumToBase(b: Base, n: nat)
    ensures DigitSum(b, ToBase(b, n)) == n as real
    decreases n
  {
    if n > 0 {
      var r := b.Radix();
      var t := ToBase(b, n / r);
      assert ToBase(b, n) == t + [b.CharOf(n % r)];
      AppendDigitSum(b, t, b.CharOf(n % r));
      DigitSumToBase(b, n / r);
      Recombine(b, n);
    }
  }

  /** n is the base times its quotient plus its remainder, in reals. */
  lemma Recombine(b: Base, n: nat)
    ensures Scale(b, (n / b.Radix()) as real) + (n % b.Radix()) as real == n as real
  {
  }

  /** A non-digit, or the digit zero, contributes nothing wherever it stands. */
  lemma {:induction false} ZeroTerm(b: Base, c: char, k: nat)
    requires !b.IsDigitOf(c) || b.ValueOf(c) == 0
    ensures Term(b, c, k) == 0.0
    decreases k
  {
    if k > 0 {
      ZeroTerm(b, c, k - 1);
    }
  }

  lemma {:induction false} DigitSumSkipsLeading(b: Base, prefix: string, s: string)
    requires forall i :: 0 <= i < |prefix| ==> !b.IsDigitOf(prefix[i]) || b.ValueOf(prefix[i]) == 0
    ensures DigitSum(b, prefix + s) == DigitSum(b, s)
    decreases |prefix|
  {
    if prefix != [] {
      var t := prefix + s;
      assert t[0] == prefix[0];
      assert t[1..] == prefix[1..] + s;
      ZeroTerm(b, prefix[0], DigitCount(b, t[1..]));
      assert DigitSum(b, t) == Term(b, t[0], DigitCount(b, t[1..])) + DigitSum(b, t[1..]);
      DigitSumSkipsLeading(b, prefix[1..], s);
    } else {
      assert prefix + s == s;
    }
  }

  lemma MagnitudeOfInteger(k: int)
    ensures Magnitude(k as real) == if k < 0 then -k else k
  {
    assert Floor(k as real) == k;
  }

  /** Formatting an integral value in binary and parsing it back gives the value. */
  lemma BinaryRoundTrip(k: int)
    requires -ULONG_MAX <= k <= ULONG_MAX
    ensures Real2BinStrAsWritten(k as real).Ok?
    ensures RadixParse(Binary, Real2BinStrAsWritten(k as real).value, true).Ok?
    ensures RadixParse(Binary, Real2BinStrAsWritten(k as real).value, true).value == k as real
  {
    MagnitudeOfInteger(k);
    var s := Real2BinStrAsWritten(k as real).value;
    var n := if k < 0 then -k else k;
    if k != 0 {
      DigitSumToBase(Binary, n);
      ToBaseDigits(Binary, n);
      var digits := ToBase(Binary, n);
      if k < 0 {
        assert s == "-" + digits;
        DigitSumSkipsLeading(Binary, "-", digits);
        assert forall j :: 0 <= j < |s| ==> !IsBad(Binary, s[j]) by {
          forall j | 0 <= j < |s| ensures !IsBad(Binary, s[j]) {
            if j > 0 { assert s[j] == digits[j - 1]; }
          }
        }
      } else {
        assert s == digits;
        assert s[0] != '-';
      }
    } else {
      assert DigitSum(Binary, "0") == 0.0;
    }
  }

  /** Leading zeros and skippable characters followed by the digits std::ostream prints for n parse back as n, signed. */
  lemma StreamDigitsParse(b: Base, prefix: string, n: nat)
    requires forall i :: 0 <= i < |prefix| ==> prefix[i] == '0' || b.Skippable(prefix[i])
    ensures RadixParse(b, prefix + StreamDigits(b, n), true).Ok?
    ensures RadixParse(b, prefix + StreamDigits(b, n), true).value
         == if |prefix| > 0 && prefix[0] == '-' then -(n as real) else n as real
  {
    var digits := StreamDigits(b, n);
    var s := prefix + digits;
    StreamDigitsClean(b, prefix, n);
    StreamDigitsSum(b, prefix, n);
    if |prefix| == 0 {
      assert s == digits;
      assert b.IsDigitOf(digits[0]) by { if n > 0 { ToBaseDigits(b, n); } }
    } else {
      assert s[0] == prefix[0];
    }
  }

  /** Such a text holds no character the parsers refuse. */
  lemma StreamDigitsClean(b: Base, prefix: string, n: nat)
    requires forall i :: 0 <= i < |prefix| ==> prefix[i] == '0' || b.Skippable(prefix[i])
    ensures RightmostBad(b, prefix + StreamDigits(b, n)).None?
  {
    var digits := StreamDigits(b, n);
    var s := prefix + digits;
    if n > 0 {
      ToBaseDigits(b, n);
    }
    forall j | 0 <= j < |s| ensures !IsBad(b, s[j]) {
      if j >= |prefix| { assert s[j] == digits[j - |prefix|]; }
    }
  }

  /** Such a text's digits sum to n: the prefix contributes nothing. */
  lemma StreamDigitsSum(b: Base, prefix: string, n: nat)
    requires forall i :: 0 <= i < |prefix| ==> prefix[i] == '0' || b.Skippable(prefix[i])
    ensures DigitSum(b, prefix + StreamDigits(b, n)) == n as real
  {
    DigitSumSkipsLeading(b, prefix, StreamDigits(b, n));
    if n == 0 {
      assert DigitSum(b, "0") == 0.0;
    } else {
      DigitSumToBase(b, n);
    }
  }

  /** The binary text of a value in range parses back, with throwError set, as the value rounded half up. */
  lemma BinaryParsesBack(v: real)
    requires !Overflows(v)
    ensures RadixParse(Binary, BinText(v), true).Ok?
    ensures RadixParse(Binary, BinText(v), true).value == RoundHalfUp(v) as real
  {
    var n := Magnitude(v);
    if n == 0 {
      StreamDigitsParse(Binary, "", 0);
      assert "" + StreamDigits(Binary, 0) == BinText(v);
    } else {
      var sign := if v < 0.0 then "-" else "";
      StreamDigitsParse(Binary, sign, n);
      assert sign + StreamDigits(Binary, n) == BinText(v);
    }
  }

  /** real2octStr's text parses back, with throwError set, as the value rounded half up. */
  lemma OctalParsesBack(v: real)
    requires !Overflows(v)
    ensures Real2OctStr(v).Ok?
    ensures RadixParse(Octal, Real2OctStr(v).value, true).Ok?
    ensures RadixParse(Octal, Real2OctStr(v).value, true).value == RoundHalfUp(v) as real
  {
    var prefix := (if v < 0.0 then "-" else "") + "0";
    StreamDigitsParse(Octal, prefix, Magnitude(v));
  }

  /** real2hexStr's text parses back, with throwError set, as the value rounded half up. */
  lemma HexParsesBack(v: real)
    requires !Overflows(v)
    ensures Real2HexStr(v).Ok?
    ensures RadixParse(Hexadecimal, Real2HexStr(v).value, true).Ok?
    ensures RadixParse(Hexadecimal, Real2HexStr(v).value, true).value == RoundHalfUp(v) as real
  {
    var prefix := (if v < 0.0 then "-" else "") + "0x";
    StreamDigitsParse(Hexadecimal, prefix, Magnitude(v));
  }
}
