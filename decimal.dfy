/**
  Decimal parsing (calc/calc_private.cpp: decStr2real). The text is read
  from the back: digits accumulate, the first '.' divides what was read by
  10^digits, an 'e' or 'E' turns what was read into the exponent and starts
  over, and a '-' anywhere marks the part read so far as negative.
*/
module Decimal {
  import opened Wrappers
  import opened Errors
  import opened Text
  import opened Radix

  /** The variables of decStr2real's backwards scan. */
  datatype DecState = DecState(out: real, dotEncountered: bool, counter: nat, eValue: real, negative: bool)

  const Start: DecState := DecState(0.0, false, 0, 0.0, false)

  /** The error for a second '.' (the message is spelled as in the source). */
  function DotError(): CalcError {
    CalcError("Unexptected '.'", UnexpectedToken, [], [])
  }

  /** The mantissa read so far, with its sign. */
  function Signed(st: DecState): real {
    if st.negative then -st.out else st.out
  }

  /** A digit's contribution with k digits to its right: d × 10^k. */
  function Weighted(d: nat, k: nat): real {
    d as real * Pow(10.0, k)
  }

  /** A digit read: it adds d × 10^counter and counts. */
  function ReadDigit(st: DecState, d: nat): DecState {
    st.(out := st.out + Weighted(d, st.counter), counter := st.counter + 1)
  }

  /** The first dot read: what was read becomes the fraction. */
  function ReadDot(st: DecState): DecState {
    st.(out := st.out / Pow(10.0, st.counter), counter := 0, dotEncountered := true)
  }

  /** An exponent marker read: what was read becomes the exponent and the mantissa starts over. */
  function ReadExponent(st: DecState): DecState {
    DecState(0.0, false, 0, Signed(st), false)
  }

  /** One character of the backwards scan. */
  function DecStep(st: DecState, c: char, throwError: bool): Result<DecState, CalcError> {
    if IsDigit(c) then Ok(ReadDigit(st, DigitValue(c)))
    else if c == '.' then
      if !st.dotEncountered then Ok(ReadDot(st))
      else if throwError then Err(DotError())
      else Ok(st)
    else if c == 'e' || c == 'E' then Ok(ReadExponent(st))
    else if c == '-' then Ok(st.(negative := true))
    else if throwError then Err(UnknownTokenError(c))
    else Ok(st)
  }

  /** The scan of s from its last character to its first, starting in st. */
  function Scan(s: string, st: DecState, throwError: bool): Result<DecState, CalcError>
    decreases |s|
  {
    if s == [] then Ok(st)
    else match Scan(s[1..], st, throwError)
      case Err(e) => Err(e)
      case Ok(next) => DecStep(next, s[0], throwError)
  }

  /** 10^e for an integer exponent. */
  function Pow10(e: int): (p: real)
    ensures p > 0.0
  {
    if e >= 0 then Pow(10.0, e) else 1.0 / Pow(10.0, -e)
  }

  /** std::pow(10, e): exact for an integral exponent, the library's value otherwise. */
  function TenToThe(e: real, m: Libm): real {
    if e == e.Floor as real then Pow10(e.Floor) else m.pow(10.0, e)
  }

  /** What decStr2real returns once the scan is over. */
  function Finish(st: DecState, m: Libm): real {
    var v := st.out * TenToThe(st.eValue, m);
    if st.negative then -v else v
  }

  /** decStr2real(s, throwError) */
  function DecParse(s: string, throwError: bool, m: Libm): Result<real, CalcError> {
    match Scan(s, Start, throwError)
    case Err(e) => Err(e)
    case Ok(st) => Ok(Finish(st, m))
  }

  /** Without throwError the scan never fails: stray characters and extra dots are skipped. */
  lemma {:induction false} LenientScan(s: string, st: DecState)
    ensures Scan(s, st, false).Ok?
    decreases |s|
  {
    if s != [] {
      LenientScan(s[1..], st);
    }
  }

  /** An error raised at some point of the scan is the scan's result. */
  lemma {:induction false} ScanErrorSticks(s: string, i: nat, throwError: bool)
    requires i <= |s| && Scan(s[i..], Start, throwError).Err?
    ensures Scan(s, Start, throwError) == Scan(s[i..], Start, throwError)
    decreases i
  {
    if i > 0 {
      assert s[i - 1..][1..] == s[i..];
      ScanErrorSticks(s, i - 1, throwError);
    } else {
      assert s[0..] == s;
    }
  }

  /** decStr2real's loop. */
  method DecStr2Real(s: string, throwError: bool, m: Libm) returns (res: Result<real, CalcError>)
    ensures res == DecParse(s, throwError, m)
  {
    var out := 0.0;
    var dotEncountered := false;
    var counter: nat := 0;
    var eValue := 0.0;
    var negative := false;
    var i := |s|;
    while i > 0
      invariant 0 <= i <= |s|
      invariant Scan(s[i..], Start, throwError) == Ok(DecState(out, dotEncountered, counter, eValue, negative))
    {
      i := i - 1;
      assert s[i..][0] == s[i] && s[i..][1..] == s[i + 1..];
      var c := s[i];
      if IsDigit(c) {
        out := out + Weighted(DigitValue(c), counter);
        counter := counter + 1;
      } else if c == '.' {
        if !dotEncountered {
          out := out / Pow(10.0, counter);
          counter := 0;
          dotEncountered := true;
        } else if throwError {
          ScanErrorSticks(s, i, throwError);
          return Err(DotError());
        }
      } else if c == 'e' || c == 'E' {
        eValue := if negative then -out else out;
        out, counter := 0.0, 0;
        negative, dotEncountered := false, false;
      } else if c == '-' {
        negative := true;
      } else if throwError {
        ScanErrorSticks(s, i, throwError);
        return Err(UnknownTokenError(c));
      }
    }
    assert s[0..] == s;
    var v := Scale(out, eValue, negative, m, dotEncountered, counter);
    return Ok(v);
  }

  /** The end of decStr2real: the mantissa times 10^eValue, negated when a '-' was read. */
  method Scale(out: real, eValue: real, negative: bool, m: Libm, ghost dot: bool, ghost counter: nat) returns (v: real)
    ensures v == Finish(DecState(out, dot, counter, eValue, negative), m)
  {
    v := out * TenToThe(eValue, m);
    if negative {
      v := -v;
    }
  }

  // ---------------------------------------------------------------------------
  // Properties of the scan

  /** Scanning a + b is scanning b and then a. */
  lemma {:induction false} ScanAppend(a: string, b: string, st: DecState, throwError: bool)
    ensures Scan(a + b, st, throwError) ==
      match Scan(b, st, throwError)
      case Err(e) => Err(e)
      case Ok(next) => Scan(a, next, throwError)
    decreases |a|
  {
    if a == [] {
      assert a + b == b;
    } else {
      assert (a + b)[0] == a[0];
      assert (a + b)[1..] == a[1..] + b;
      ScanAppend(a[1..], b, st, throwError);
    }
  }

  predicate NoExponent(s: string) {
    forall i :: 0 <= i < |s| ==> s[i] != 'e' && s[i] != 'E'
  }

  /** Without an exponent marker the scan never touches eValue. */
  lemma {:induction false} ScanKeepsExponent(s: string, st: DecState, v: real)
    requires NoExponent(s)
    ensures Scan(s, st.(eValue := v), false).Ok? && Scan(s, st, false).Ok?
    ensures Scan(s, st.(eValue := v), false).value == Scan(s, st, false).value.(eValue := v)
    decreases |s|
  {
    if s != [] {
      ScanKeepsExponent(s[1..], st, v);
    }
  }

  /**
    Scientific notation: when a parses as va and x as vx and neither holds
    an exponent marker, a + "e" + x parses as va times ten to vx.
  */
  lemma ExponentSplits(a: string, x: string, va: real, vx: real, m: Libm)
    requires NoExponent(a) && NoExponent(x)
    requires DecParse(a, false, m) == Ok(va) && DecParse(x, false, m) == Ok(vx)
    ensures DecParse(a + "e" + x, false, m) == Ok(va * TenToThe(vx, m))
  {
    PlainValue(a, m);
    PlainValue(x, m);
    ExponentParse(a, x, Scan(a, Start, false).value, va, vx, m);
  }

  /** a + "e" + x parses as the signed mantissa read from a times ten to the number read from x. */
  lemma ExponentParse(a: string, x: string, sa: DecState, va: real, e: real, m: Libm)
    requires NoExponent(a) && NoExponent(x)
    requires Scan(a, Start, false) == Ok(sa) && Scan(x, Start, false).Ok?
    requires va == Signed(sa) && e == Signed(Scan(x, Start, false).value)
    ensures DecParse(a + "e" + x, false, m) == Ok(va * TenToThe(e, m))
  {
    ExponentScan(a, x);
    ParseOfScan(a + "e" + x, sa.(eValue := e), m);
    FinishScaled(sa, e, va, e, m);
  }

  /** A scan that ends in st parses as Finish(st). */
  lemma ParseOfScan(s: string, st: DecState, m: Libm)
    requires Scan(s, Start, false).Ok? && Scan(s, Start, false).value == st
    ensures DecParse(s, false, m) == Ok(Finish(st, m))
  {
  }

  /** Finishing with exponent e scales the signed mantissa by 10^e. */
  lemma FinishScaled(st: DecState, e: real, mantissa: real, exponent: real, m: Libm)
    requires mantissa == Signed(st) && exponent == e
    ensures Finish(st.(eValue := e), m) == mantissa * TenToThe(exponent, m)
  {
  }

  /** Without an exponent marker the exponent stays 0 and the value is the signed mantissa. */
  lemma PlainValue(x: string, m: Libm)
    requires NoExponent(x)
    ensures Scan(x, Start, false).Ok? && Scan(x, Start, false).value.eValue == 0.0
    ensures DecParse(x, false, m).Ok? && DecParse(x, false, m).value == Signed(Scan(x, Start, false).value)
  {
    LenientScan(x, Start);
    ScanKeepsExponent(x, Start, 0.0);
    assert Start.(eValue := 0.0) == Start;
    assert TenToThe(0.0, m) == 1.0;
  }

  /** Reading a + "e" + x: x becomes the exponent and a is read as a plain number. */
  lemma ExponentScan(a: string, x: string)
    requires NoExponent(a) && NoExponent(x)
    ensures Scan(a + "e" + x, Start, false).Ok? && Scan(a, Start, false).Ok? && Scan(x, Start, false).Ok?
    ensures Scan(a + "e" + x, Start, false).value
      == Scan(a, Start, false).value.(eValue := Signed(Scan(x, Start, false).value))
  {
    LenientScan(x, Start);
    var sx := Scan(x, Start, false).value;
    ScanAppend("e", x, Start, false);
    var se := Start.(eValue := Signed(sx));
    assert Scan("e" + x, Start, false) == Ok(se);
    ScanAppend(a, "e" + x, Start, false);
    assert a + ("e" + x) == a + "e" + x;
    ScanKeepsExponent(a, Start, Signed(sx));
  }

  predicate DigitsOrMinus(s: string) {
    forall i :: 0 <= i < |s| ==> IsDigit(s[i]) || s[i] == '-'
  }

  /** Digits and minus signs never raise and leave the dot flag alone. */
  lemma {:induction false} ScanPlain(s: string, st: DecState)
    requires DigitsOrMinus(s)
    ensures Scan(s, st, true).Ok?
    ensures Scan(s, st, true).value.dotEncountered == st.dotEncountered
    decreases |s|
  {
    if s != [] {
      ScanPlain(s[1..], st);
    }
  }

  /**
    With throwError set, a number whose last two dots have only digits and
    minus signs after and between them is refused with the '.' error.
  */
  lemma SecondDotRaises(s: string, i: nat, j: nat, m: Libm)
    requires i < j < |s| && s[i] == '.' && s[j] == '.'
    requires forall k :: i < k < |s| && k != j ==> IsDigit(s[k]) || s[k] == '-'
    ensures DecParse(s, true, m) == Err(DotError())
  {
    var tail := s[j + 1..];
    var mid := s[i + 1..j];
    assert DigitsOrMinus(tail) by {
      forall k | 0 <= k < |tail| ensures IsDigit(tail[k]) || tail[k] == '-' {
        assert tail[k] == s[j + 1 + k];
      }
    }
    assert DigitsOrMinus(mid) by {
      forall k | 0 <= k < |mid| ensures IsDigit(mid[k]) || mid[k] == '-' {
        assert mid[k] == s[i + 1 + k];
      }
    }
    ScanPlain(tail, Start);
    var st1 := Scan(tail, Start, true).value;
    assert s[j..] == ['.'] + tail;
    ScanAppend(['.'], tail, Start, true);
    assert Scan(['.'], st1, true) == DecStep(st1, '.', true);
    var st2 := Scan(s[j..], Start, true).value;
    assert st2.dotEncountered;
    ScanPlain(mid, st2);
    assert s[i + 1..] == mid + s[j..];
    ScanAppend(mid, s[j..], Start, true);
    var st3 := Scan(s[i + 1..], Start, true).value;
    assert st3.dotEncountered;
    assert s[i..] == ['.'] + s[i + 1..];
    ScanAppend(['.'], s[i + 1..], Start, true);
    assert Scan(['.'], st3, true) == Err(DotError());
    ScanErrorSticks(s, i, true);
  }

  /** The leading digit of a digit string is worth its value times 10^(length of the rest). */
  lemma {:induction false} DecimalValueCons(s: string)
    requires |s| > 0 && AllDigits(s)
    ensures DecimalValue(s) == DigitValue(s[0]) * PowNat(10, |s| - 1) + DecimalValue(s[1..])
    decreases |s|
  {
    if |s| > 1 {
      var init := s[..|s| - 1];
      assert init[0] == s[0];
      assert init[1..] == s[1..][..|s[1..]| - 1];
      DecimalValueCons(init);
      assert s[1..][|s[1..]| - 1] == s[|s| - 1];
      ShiftDigit(DigitValue(s[0]), PowNat(10, |s| - 2), PowNat(10, |s| - 1), DecimalValue(init[1..]),
                 DigitValue(s[|s| - 1]), DecimalValue(s), DecimalValue(s[1..]));
    } else {
      assert s[..0] == [];
      assert s[1..] == [];
    }
  }

  /** The arithmetic of DecimalValueCons: one more digit behind multiplies the leading digit's weight by ten. */
  lemma ShiftDigit(d: int, p: int, pw: int, rest: int, last: int, whole: int, tail: int)
    requires pw == 10 * p && whole == 10 * (d * p + rest) + last && tail == 10 * rest + last
    ensures whole == d * pw + tail
  {
  }

  function PowNat(b: nat, k: nat): nat {
    if k == 0 then 1 else b * PowNat(b, k - 1)
  }

  lemma {:induction false} PowNatIsPow(b: nat, k: nat)
    ensures PowNat(b, k) as real == Pow(b as real, k)
    decreases k
  {
    if k > 0 {
      PowNatIsPow(b, k - 1);
    }
  }

  /** A plain natural number parses as its value. */
  lemma DigitsParse(s: string, throwError: bool, m: Libm)
    requires AllDigits(s)
    ensures DecParse(s, throwError, m) == Ok(DecimalValue(s) as real)
  {
    ScanDigitRun(s, Start);
    ScanMode(s, Start);
    assert TenToThe(0.0, m) == 1.0;
  }

  /** A scan that succeeds with throwError set gives the same state without it. */
  lemma {:induction false} ScanMode(s: string, st: DecState)
    requires Scan(s, st, true).Ok?
    ensures Scan(s, st, false) == Scan(s, st, true)
    decreases |s|
  {
    if s != [] {
      ScanMode(s[1..], st);
    }
  }

  /** A number with a fractional part: the digits after the dot count 10^-k each. */
  lemma FractionParse(a: string, b: string, throwError: bool, m: Libm)
    requires AllDigits(a) && AllDigits(b)
    ensures DecParse(a + "." + b, throwError, m).Ok?
    ensures DecParse(a + "." + b, throwError, m).value == DecimalValue(a) as real + DecimalValue(b) as real / Pow(10.0, |b|)
  {
    var t := ['.'] + b;
    var sd := DecState(DecimalValue(b) as real / Pow(10.0, |b|), true, 0, 0.0, false);
    FractionPart(b);
    assert Scan(t, Start, true) == Ok(sd) by {
      assert Scan(t, Start, true).value == sd;
    }
    ScanAppend(a, t, Start, true);
    assert Scan(a + t, Start, true) == Scan(a, sd, true);
    ScanDigitRun(a, sd);
    assert Scan(a, sd, true) == Ok(sd.(out := sd.out + DecimalValue(a) as real, counter := |a|));
    var fin := DecState(sd.out + DecimalValue(a) as real, true, |a|, 0.0, false);
    assert sd.(out := sd.out + DecimalValue(a) as real, counter := |a|) == fin;
    assert Scan(a + t, Start, true) == Ok(fin);
    ScanMode(a + t, Start);
    assert Scan(a + t, Start, throwError) == Ok(fin);
    assert TenToThe(0.0, m) == 1.0;
    assert Finish(fin, m) == fin.out;
    assert DecParse(a + t, throwError, m) == Ok(fin.out);
    assert fin.out == DecimalValue(a) as real + DecimalValue(b) as real / Pow(10.0, |b|);
    calc {
      DecParse(a + "." + b, throwError, m);
      { assert a + "." + b == a + t; }
      DecParse(a + t, throwError, m);
    }
  }

  /** The digits behind the dot become a fraction. */
  lemma FractionPart(b: string)
    requires AllDigits(b)
    ensures Scan(['.'] + b, Start, true).Ok?
    ensures Scan(['.'] + b, Start, true).value == DecState(DecimalValue(b) as real / Pow(10.0, |b|), true, 0, 0.0, false)
  {
    ScanDigitRun(b, Start);
    var st := Start.(out := DecimalValue(b) as real, counter := |b|);
    ScanAppend(['.'], b, Start, true);
    assert Scan(['.'] + b, Start, true) == Scan(['.'], st, true);
    assert Scan(['.'], st, true) == Ok(ReadDot(st));
  }

  lemma WeightedNat(d: nat, k: nat)
    ensures Weighted(d, k) == (d * PowNat(10, k)) as real
  {
    PowNatIsPow(10, k);
  }

  /** A run of digits adds the number it denotes to what was read, and counts its digits. */
  lemma {:induction false} ScanDigitRun(s: string, st: DecState)
    requires AllDigits(s) && st.counter == 0
    ensures Scan(s, st, true) == Ok(st.(out := st.out + DecimalValue(s) as real, counter := |s|))
    decreases |s|
  {
    if s != [] {
      ScanDigitRun(s[1..], st);
      DecimalValueCons(s);
      WeightedNat(DigitValue(s[0]), |s| - 1);
      var prev := st.(out := st.out + DecimalValue(s[1..]) as real, counter := |s| - 1);
      assert Scan(s, st, true) == Ok(ReadDigit(prev, DigitValue(s[0])));
    }
  }
}
