/**
  Conversions between numbers and text (calc/calc.cpp: str2real,
  timestr2real, real2str; calc/calc_private.cpp: real2decStr, real2timeStr).
  The stream formatting std::ostringstream performs is a parameter.
*/
module Numbers {
  import opened Wrappers
  import opened Errors
  import opened Text
  import opened Radix
  import opened Decimal

  /** calc::realOutputType */
  datatype OutputType = AutoOutput | ScientificOutput | BinOutput | OctOutput | DecOutput | HexOutput | TimeOutput

  /**
    What std::ostringstream prints for a value with the given notation and
    setprecision; real2decStr's clean-up is modelled, the stream is not.
  */
  type Stream = (real, OutputType, int) -> string

  /** std::numeric_limits<double>::digits10 */
  const DIGITS10: int := 15

  // ---------------------------------------------------------------------------
  // Text to number

  /** The index just after an optional leading minus sign. */
  function Lead(s: string): nat {
    if |s| > 0 && s[0] == '-' then 1 else 0
  }

  /** str2real chooses hexadecimal when the first "0x" comes right after the optional sign. */
  predicate IsHexText(s: string) {
    OccursAt(s, "0x", Lead(s))
  }

  /** str2real chooses octal when the first '0' comes right after the sign and no '.' follows it. */
  predicate IsOctText(s: string) {
    Lead(s) < |s| && s[Lead(s)] == '0' && (Lead(s) + 1 == |s| || s[Lead(s) + 1] != '.')
  }

  /** What str2real(s, throwError) returns. */
  function ParseNumber(s: string, throwError: bool, m: Libm): Result<real, CalcError> {
    if IsHexText(s) then RadixParse(Hexadecimal, s, throwError)
    else if IsOctText(s) then RadixParse(Octal, s, throwError)
    else DecParse(s, throwError, m)
  }

  /** str2real without throwError always yields a number. */
  lemma LenientParse(s: string, m: Libm)
    ensures ParseNumber(s, false, m).Ok?
  {
    LenientScan(s, Start);
  }

  /** str2real */
  method Str2Real(s: string, throwError: bool, m: Libm) returns (res: Result<real, CalcError>)
    ensures res == ParseNumber(s, throwError, m)
  {
    if IsHexText(s) {
      res := HexStr2Real(s, throwError);
    } else if IsOctText(s) {
      res := OctStr2Real(s, throwError);
    } else {
      res := DecStr2Real(s, throwError, m);
    }
  }

  /** The pieces between the colons of s; the last piece is kept only when it is not empty. */
  function Pieces(s: string): (ps: seq<string>)
    decreases |s|
  {
    var k := IndexOf(s, ':');
    if k == |s| then (if s == [] then [] else [s])
    else [s[..k]] + Pieces(s[k + 1..])
  }

  /** No piece holds a colon. */
  lemma {:induction false} PiecesHaveNoColon(s: string)
    ensures forall i, j :: 0 <= i < |Pieces(s)| && 0 <= j < |Pieces(s)[i]| ==> Pieces(s)[i][j] != ':'
    decreases |s|
  {
    var k := IndexOf(s, ':');
    IndexOfFirst(s, ':');
    if k < |s| {
      PiecesHaveNoColon(s[k + 1..]);
      var ps := Pieces(s);
      assert ps == [s[..k]] + Pieces(s[k + 1..]);
      forall i, j | 0 <= i < |ps| && 0 <= j < |ps[i]| ensures ps[i][j] != ':' {
        if i == 0 {
          assert ps[0][j] == s[j];
        } else {
          assert ps[i] == Pieces(s[k + 1..])[i - 1];
        }
      }
    }
  }

  /** Each piece parsed in turn; the first error is the result. */
  function ParseAll(ps: seq<string>, throwError: bool, m: Libm): (r: Result<seq<real>, CalcError>)
    ensures r.Ok? ==> |r.value| == |ps|
  {
    if ps == [] then Ok([])
    else match DecParse(ps[0], throwError, m)
      case Err(e) => Err(e)
      case Ok(v) => Prepend([v], ParseAll(ps[1..], throwError, m))
  }

  function Prepend(vs: seq<real>, r: Result<seq<real>, CalcError>): Result<seq<real>, CalcError> {
    match r
    case Err(e) => Err(e)
    case Ok(ws) => Ok(vs + ws)
  }

  /** The sum of the first k parts, part i counting 60^(2-i) seconds. */
  function WeighPrefix(vs: seq<real>, k: nat): real
    requires k <= |vs| <= 3
  {
    if k == 0 then 0.0 else WeighPrefix(vs, k - 1) + vs[k - 1] * Pow(60.0, 2 - (k - 1))
  }

  function TimeError(): CalcError {
    CalcError("Invalid time string", InvalidExpression, [], [])
  }

  /** What timestr2real(s, throwError) returns. */
  function TimeParse(s: string, throwError: bool, m: Libm): Result<real, CalcError> {
    match ParseAll(Pieces(s[Lead(s)..]), throwError, m)
    case Err(e) => Err(e)
    case Ok(vs) =>
      if |vs| > 3 && throwError then Err(TimeError())
      else
        var kept := if |vs| > 3 then vs[..3] else vs;
        var out := WeighPrefix(kept, |kept|);
        Ok(if Lead(s) == 1 then -out else out)
  }

  lemma PrependPrepend(a: seq<real>, b: seq<real>, r: Result<seq<real>, CalcError>)
    ensures Prepend(a, Prepend(b, r)) == Prepend(a + b, r)
  {
    if r.Ok? {
      assert a + (b + r.value) == (a + b) + r.value;
    }
  }

  /** The piece up to the next colon, and the pieces after it. */
  lemma PiecesStep(s: string, from: nat, pos: nat)
    requires from <= pos < |s| && pos == from + IndexOf(s[from..], ':')
    ensures Pieces(s[from..]) == [s[from..pos]] + Pieces(s[pos + 1..])
  {
    PiecesUnfold(s[from..], pos - from);
    SliceAround(s, from, pos);
  }

  lemma PiecesUnfold(t: string, k: nat)
    requires k == IndexOf(t, ':') && k < |t|
    ensures Pieces(t) == [t[..k]] + Pieces(t[k + 1..])
  {
  }

  lemma SliceAround(s: string, from: nat, pos: nat)
    requires from <= pos < |s|
    ensures s[from..][..pos - from] == s[from..pos]
    ensures s[from..][pos - from + 1..] == s[pos + 1..]
  {
  }

  /** One piece more: the pieces before the colon at pos, parsed, and the pieces after it. */
  lemma SplitStep(s: string, from: nat, pos: nat, throwError: bool, m: Libm)
    requires from <= pos < |s| && pos == from + IndexOf(s[from..], ':')
    ensures ParseAll(Pieces(s[from..]), throwError, m) ==
      match DecParse(s[from..pos], throwError, m)
      case Err(e) => Err(e)
      case Ok(v) => Prepend([v], ParseAll(Pieces(s[pos + 1..]), throwError, m))
  {
    PiecesStep(s, from, pos);
    var ps := Pieces(s[from..]);
    assert ps[0] == s[from..pos] && ps[1..] == Pieces(s[pos + 1..]);
  }

  /** The last piece, kept when it is not empty. */
  lemma SplitLast(s: string, from: nat, throwError: bool, m: Libm)
    requires from <= |s| && from + IndexOf(s[from..], ':') == |s|
    ensures ParseAll(Pieces(s[from..]), throwError, m) ==
      if from == |s| then Ok([])
      else match DecParse(s[from..], throwError, m)
        case Err(e) => Err(e)
        case Ok(v) => Ok([v])
  {
    if from < |s| {
      assert Pieces(s[from..]) == [s[from..]];
      assert [s[from..]][1..] == [];
      if DecParse(s[from..], throwError, m).Ok? {
        assert [DecParse(s[from..], throwError, m).value] + [] == [DecParse(s[from..], throwError, m).value];
      }
    } else {
      assert s[from..] == [];
    }
  }

  /** The pieces of s before from are parsed as done; the pieces from there on are still to be read. */
  ghost predicate ReadUpTo(s: string, done: seq<real>, from: nat, throwError: bool, m: Libm) {
    && Lead(s) <= from <= |s|
    && ParseAll(Pieces(s[Lead(s)..]), throwError, m) == Prepend(done, ParseAll(Pieces(s[from..]), throwError, m))
  }

  /** Parsing the pieces of s fails with e. */
  ghost predicate FailsWith(s: string, e: CalcError, throwError: bool, m: Libm) {
    ParseAll(Pieces(s[Lead(s)..]), throwError, m) == Err(e)
  }

  /** Before the loop nothing is read. */
  lemma ReadNothing(s: string, throwError: bool, m: Libm)
    ensures ReadUpTo(s, [], Lead(s), throwError, m)
  {
    PrependEmpty(ParseAll(Pieces(s[Lead(s)..]), throwError, m));
  }

  /** The colon loop's invariant carries over to the next piece, or the error is the result. */
  lemma SplitAdvance(s: string, parts: seq<real>, prevPos: nat, pos: nat, piece: Result<real, CalcError>,
                     throwError: bool, m: Libm)
    requires prevPos <= pos < |s| && pos == prevPos + IndexOf(s[prevPos..], ':')
    requires ReadUpTo(s, parts, prevPos, throwError, m)
    requires piece == DecParse(s[prevPos..pos], throwError, m)
    ensures piece.Err? ==> FailsWith(s, piece.error, throwError, m)
    ensures piece.Ok? ==> ReadUpTo(s, parts + [piece.value], pos + 1, throwError, m)
  {
    SplitStep(s, prevPos, pos, throwError, m);
    if piece.Ok? {
      PrependPrepend(parts, [piece.value], ParseAll(Pieces(s[pos + 1..]), throwError, m));
    }
  }

  lemma PrependEmpty(r: Result<seq<real>, CalcError>)
    ensures Prepend([], r) == r
  {
    if r.Ok? {
      assert [] + r.value == r.value;
    }
  }

  predicate NoColon(s: string) {
    forall j :: 0 <= j < |s| ==> s[j] != ':'
  }

  /** A colon-free piece and a colon: the piece comes first, then the pieces of the rest. */
  lemma PiecesCons(a: string, b: string)
    requires NoColon(a)
    ensures Pieces(a + ":" + b) == [a] + Pieces(b)
  {
    var t := a + ":" + b;
    IndexOfAt(t, ':', |a|);
    PiecesUnfold(t, |a|);
    assert t[..|a|] == a;
    assert t[|a| + 1..] == b;
  }

  /** A piece that parses as v, followed by more pieces. */
  lemma ParseAllCons(p: string, rest: seq<string>, v: real, throwError: bool, m: Libm)
    requires DecParse(p, throwError, m).Ok? && DecParse(p, throwError, m).value == v
    ensures ParseAll([p] + rest, throwError, m) == Prepend([v], ParseAll(rest, throwError, m))
  {
    assert ([p] + rest)[0] == p && ([p] + rest)[1..] == rest;
  }

  /** h:mm:ss counts the first piece as hours, the second as minutes and the third as seconds. */
  lemma HoursMinutesSeconds(h: string, mi: string, sec: string, throwError: bool, m: Libm,
                            vh: real, vm: real, vs: real)
    requires NoColon(h) && NoColon(mi) && NoColon(sec) && |sec| > 0
    requires |h| == 0 || h[0] != '-'
    requires DecParse(h, throwError, m).Ok? && DecParse(h, throwError, m).value == vh
    requires DecParse(mi, throwError, m).Ok? && DecParse(mi, throwError, m).value == vm
    requires DecParse(sec, throwError, m).Ok? && DecParse(sec, throwError, m).value == vs
    ensures TimeParse(h + ":" + mi + ":" + sec, throwError, m).Ok?
    ensures TimeParse(h + ":" + mi + ":" + sec, throwError, m).value == vh * 3600.0 + vm * 60.0 + vs
  {
    var s := h + ":" + mi + ":" + sec;
    assert Lead(s) == 0 && s[Lead(s)..] == s;
    ThreePieces(h, mi, sec);
    ParseThree(h, mi, sec, throwError, m, vh, vm, vs);
    WeighAll([vh, vm, vs]);
  }

  lemma ThreePieces(h: string, mi: string, sec: string)
    requires NoColon(h) && NoColon(mi) && NoColon(sec) && |sec| > 0
    ensures Pieces(h + ":" + mi + ":" + sec) == [h, mi, sec]
  {
    var t := mi + ":" + sec;
    assert h + ":" + mi + ":" + sec == h + ":" + t;
    PiecesCons(h, t);
    PiecesCons(mi, sec);
    PiecesSingle(sec);
  }

  /** A non-empty colon-free text is one piece. */
  lemma PiecesSingle(a: string)
    requires NoColon(a) && |a| > 0
    ensures Pieces(a) == [a]
  {
    assert IndexOf(a, ':') == |a|;
  }

  lemma ParseThree(h: string, mi: string, sec: string, throwError: bool, m: Libm, vh: real, vm: real, vs: real)
    requires DecParse(h, throwError, m).Ok? && DecParse(h, throwError, m).value == vh
    requires DecParse(mi, throwError, m).Ok? && DecParse(mi, throwError, m).value == vm
    requires DecParse(sec, throwError, m).Ok? && DecParse(sec, throwError, m).value == vs
    ensures ParseAll([h, mi, sec], throwError, m) == Ok([vh, vm, vs])
  {
    ParseAllCons(sec, [], vs, throwError, m);
    assert [sec] + [] == [sec] && [vs] + [] == [vs];
    ParseAllCons(mi, [sec], vm, throwError, m);
    assert [mi] + [sec] == [mi, sec];
    ParseAllCons(h, [mi, sec], vh, throwError, m);
    assert [h] + [mi, sec] == [h, mi, sec];
    assert [vh] + ([vm] + [vs]) == [vh, vm, vs];
  }

  /** With two pieces the first still counts hours and the second minutes: the weights run from the left. */
  lemma HoursMinutes(h: string, mi: string, throwError: bool, m: Libm, vh: real, vm: real)
    requires NoColon(h) && NoColon(mi) && |mi| > 0
    requires |h| == 0 || h[0] != '-'
    requires DecParse(h, throwError, m).Ok? && DecParse(h, throwError, m).value == vh
    requires DecParse(mi, throwError, m).Ok? && DecParse(mi, throwError, m).value == vm
    ensures TimeParse(h + ":" + mi, throwError, m).Ok?
    ensures TimeParse(h + ":" + mi, throwError, m).value == vh * 3600.0 + vm * 60.0
  {
    var s := h + ":" + mi;
    assert Lead(s) == 0 && s[Lead(s)..] == s;
    PiecesCons(h, mi);
    PiecesSingle(mi);
    assert Pieces(s) == [h] + [mi];
    ParseAllCons(mi, [], vm, throwError, m);
    assert [mi] + [] == [mi] && [vm] + [] == [vm];
    assert ParseAll([mi], throwError, m) == Ok([vm]);
    ParseAllCons(h, [mi], vh, throwError, m);
    assert [vh] + [vm] == [vh, vm];
    assert ParseAll(Pieces(s), throwError, m) == Ok([vh, vm]);
    WeighAll([vh, vm]);
  }

  /** The weights of timestr2real: 3600 for the first part, 60 for the second, 1 for the third. */
  lemma WeighAll(vs: seq<real>)
    requires |vs| <= 3
    ensures WeighPrefix(vs, |vs|) == (if |vs| > 0 then vs[0] * 3600.0 else 0.0)
                                  + (if |vs| > 1 then vs[1] * 60.0 else 0.0)
                                  + (if |vs| > 2 then vs[2] else 0.0)
  {
    SixtyPower(2);
    SixtyPower(1);
    SixtyPower(0);
    if |vs| > 0 { assert WeighPrefix(vs, 1) == vs[0] * 3600.0; }
    if |vs| > 1 { assert WeighPrefix(vs, 2) == vs[0] * 3600.0 + vs[1] * 60.0; }
  }

  /** A leading minus sign negates the time. */
  lemma NegatedTime(t: string, throwError: bool, m: Libm)
    requires |t| == 0 || t[0] != '-'
    requires TimeParse(t, throwError, m).Ok?
    ensures TimeParse("-" + t, throwError, m).Ok?
    ensures TimeParse("-" + t, throwError, m).value == -TimeParse(t, throwError, m).value
  {
    var s := "-" + t;
    assert Lead(s) == 1 && s[Lead(s)..] == t;
    assert Lead(t) == 0 && t[Lead(t)..] == t;
  }

  /** timestr2real's loop over the colons: every piece parsed by decStr2real. */
  method SplitTime(s: string, throwError: bool, m: Libm) returns (res: Result<seq<real>, CalcError>)
    ensures res == ParseAll(Pieces(s[Lead(s)..]), throwError, m)
  {
    var parts, prevPos := ColonLoop(s, throwError, m);
    if prevPos == -1 {
      return Err(parts.1);
    }
    res := LastPiece(s, parts.0, prevPos, throwError, m);
  }

  /**
    The colon loop: the pieces before the last colon, parsed, and where the
    last piece starts; -1 and the error when a piece fails.
  */
  method ColonLoop(s: string, throwError: bool, m: Libm) returns (parts: (seq<real>, CalcError), prevPos: int)
    ensures prevPos == -1 ==> FailsWith(s, parts.1, throwError, m)
    ensures prevPos != -1 ==> 0 <= prevPos <= |s| && prevPos + IndexOf(s[prevPos..], ':') == |s|
    ensures prevPos != -1 ==> ReadUpTo(s, parts.0, prevPos, throwError, m)
  {
    var done: seq<real> := [];
    var from := Lead(s);
    var pos := from + IndexOf(s[from..], ':');
    ReadNothing(s, throwError, m);
    while pos < |s|
      invariant from <= pos <= |s| && pos == from + IndexOf(s[from..], ':')
      invariant ReadUpTo(s, done, from, throwError, m)
      decreases |s| - from
    {
      var piece := NextPiece(s, done, from, pos, throwError, m);
      if piece.Err? {
        return (done, piece.error), -1;
      }
      done := done + [piece.value];
      from := pos + 1;
      pos := from + IndexOf(s[from..], ':');
    }
    return (done, TimeError()), from;
  }

  /** After the loop: the last piece is parsed unless it is empty. */
  method LastPiece(s: string, parts: seq<real>, prevPos: nat, throwError: bool, m: Libm)
    returns (res: Result<seq<real>, CalcError>)
    requires prevPos <= |s| && prevPos + IndexOf(s[prevPos..], ':') == |s|
    ensures res == Prepend(parts, ParseAll(Pieces(s[prevPos..]), throwError, m))
  {
    SplitLast(s, prevPos, throwError, m);
    if prevPos < |s| {
      var piece := DecStr2Real(s[prevPos..], throwError, m);
      if piece.Err? {
        return Err(piece.error);
      }
      return Ok(parts + [piece.value]);
    }
    assert parts + [] == parts;
    return Ok(parts);
  }

  /** One pass of timestr2real's colon loop: decStr2real on the piece from prevPos to the colon at pos. */
  method NextPiece(s: string, parts: seq<real>, prevPos: nat, pos: nat, throwError: bool, m: Libm)
    returns (piece: Result<real, CalcError>)
    requires prevPos <= pos < |s| && pos == prevPos + IndexOf(s[prevPos..], ':')
    requires ReadUpTo(s, parts, prevPos, throwError, m)
    ensures piece.Err? ==> FailsWith(s, piece.error, throwError, m)
    ensures piece.Ok? ==> ReadUpTo(s, parts + [piece.value], pos + 1, throwError, m)
  {
    piece := DecStr2Real(s[prevPos..pos], throwError, m);
    SplitAdvance(s, parts, prevPos, pos, piece, throwError, m);
  }

  /** The weighted sum of timestr2real: part i counts 60^(2-i) seconds. */
  method Weigh(parts: seq<real>) returns (out: real)
    requires |parts| <= 3
    ensures out == WeighPrefix(parts, |parts|)
  {
    out := 0.0;
    var i := 0;
    while i < |parts|
      invariant 0 <= i <= |parts|
      invariant out == WeighPrefix(parts, i)
    {
      out := out + parts[i] * Pow(60.0, 2 - i);
      i := i + 1;
    }
  }

  /** timestr2real: the pieces, at most three of them, weighed as hours, minutes and seconds. */
  method TimeStr2Real(s: string, throwError: bool, m: Libm) returns (res: Result<real, CalcError>)
    ensures res == TimeParse(s, throwError, m)
  {
    var split := SplitTime(s, throwError, m);
    if split.Err? {
      return Err(split.error);
    }
    var parts := split.value;
    if |parts| > 3 {
      if throwError {
        return Err(TimeError());
      }
      parts := parts[..3];
    }
    var out := Weigh(parts);
    if Lead(s) == 1 {
      out := -out;
    }
    return Ok(out);
  }

  // ---------------------------------------------------------------------------
  // Number to text

  /** The first index at or after from holding 'e' or 'E', or |s|. */
  function ExponentAt(s: string, from: nat): (k: nat)
    requires from <= |s|
    ensures from <= k <= |s|
    ensures k < |s| ==> s[k] == 'e' || s[k] == 'E'
    ensures forall j :: from <= j < k ==> s[j] != 'e' && s[j] != 'E'
    decreases |s| - from
  {
    if from == |s| then from
    else if s[from] == 'e' || s[from] == 'E' then from
    else ExponentAt(s, from + 1)
  }

  /**
    s without the zeros that end its fraction, and without the point at p
    when no digit is left behind it.
  */
  function CutZeros(s: string, p: nat): (r: string)
    requires p < |s|
    ensures p <= |r| <= |s|
    decreases |s|
  {
    if |s| > p + 1 && s[|s| - 1] == '0' then CutZeros(s[..|s| - 1], p)
    else if |s| == p + 1 then s[..p]
    else s
  }

  /**
    CutZeros keeps a prefix that does not end with the point or with a zero
    of the fraction, and everything it drops is a zero (or the point).
  */
  lemma {:induction false} CutZerosSpec(s: string, p: nat)
    requires p < |s|
    ensures var r := CutZeros(s, p);
      && r == s[..|r|]
      && |r| != p + 1
      && (forall j :: |r| <= j < |s| && j != p ==> s[j] == '0')
      && (|r| > p ==> s[|r| - 1] != '0')
    decreases |s|
  {
    if |s| > p + 1 && s[|s| - 1] == '0' {
      var t := s[..|s| - 1];
      CutZerosSpec(t, p);
      var r := CutZeros(t, p);
      assert r == s[..|r|];
    }
  }

  /** The exponent digits without '+' signs and leading zeros; minus signs are kept. */
  function CleanExponent(t: string): (r: string)
    ensures |r| <= |t|
  {
    if t == [] then []
    else if t[0] == '-' then "-" + CleanExponent(t[1..])
    else if t[0] == '+' || t[0] == '0' then CleanExponent(t[1..])
    else t
  }

  /** What real2decStr makes of the stream's text. */
  function Trimmed(out: string, precision: int): string {
    var p := IndexOf(out, '.');
    if precision == 0 || p == |out| then out
    else TrimmedAfter(out, p, ExponentAt(out, p + 1))
  }

  /** The clean-up of a text with its point at p and its exponent (or its end) at e. */
  function TrimmedAfter(out: string, p: nat, e: nat): string
    requires p < e <= |out|
  {
    var mant := CutZeros(out[..e], p);
    if e == |out| then mant
    else NoTrailingE(mant + "e" + CleanExponent(out[e + 1..]))
  }

  /** A mantissa followed by an empty exponent loses the 'e'. */
  function NoTrailingE(r: string): string {
    if r != [] && r[|r| - 1] == 'e' then r[..|r| - 1] else r
  }

  lemma CutZerosStep(s: string, p: nat, pos: nat)
    requires p < pos < |s|
    ensures s[..pos + 1][..pos] == s[..pos]
    ensures s[pos] == '0' ==> CutZeros(s[..pos + 1], p) == CutZeros(s[..pos], p)
    ensures s[pos] != '0' ==> CutZeros(s[..pos + 1], p) == s[..pos + 1]
  {
    assert s[..pos + 1][..pos] == s[..pos];
  }

  /**
    real2decStr's scan of the fraction: the position of the 'e' or 'E' if
    there is one, and where the zeros ending the mantissa start (-1 for none).
  */
  method ScanFraction(out: string, p: nat) returns (zeroFrom: int, eFound: bool, pos: nat)
    requires p < |out|
    ensures pos == ExponentAt(out, p + 1)
    ensures eFound <==> pos < |out|
    ensures eFound ==> zeroFrom == |CutZeros(out[..pos], p)|
    ensures !eFound ==> zeroFrom == -1 || zeroFrom == |CutZeros(out, p)|
    ensures !eFound && zeroFrom == -1 ==> CutZeros(out, p) == out
  {
    zeroFrom := p;
    eFound := false;
    pos := p + 1;
    assert out[..p + 1][..p] == out[..p];
    while pos < |out|
      invariant p + 1 <= pos <= |out|
      invariant forall j :: p + 1 <= j < pos ==> out[j] != 'e' && out[j] != 'E'
      invariant zeroFrom == -1 ==> CutZeros(out[..pos], p) == out[..pos]
      invariant zeroFrom != -1 ==> zeroFrom == |CutZeros(out[..pos], p)|
    {
      CutZerosStep(out, p, pos);
      if out[pos] == '0' && zeroFrom == -1 {
        zeroFrom := pos;
      } else if out[pos] != '0' {
        if out[pos] == 'e' || out[pos] == 'E' {
          if zeroFrom == -1 {
            zeroFrom := pos;
          }
          eFound := true;
          ExponentAtFirst(out, p + 1, pos);
          return;
        } else {
          zeroFrom := -1;
        }
      }
      pos := pos + 1;
    }
    ExponentAtFirst(out, p + 1, pos);
    assert out[..pos] == out;
  }

  lemma {:induction false} ExponentAtFirst(s: string, from: nat, k: nat)
    requires from <= k <= |s|
    requires k < |s| ==> s[k] == 'e' || s[k] == 'E'
    requires forall j :: from <= j < k ==> s[j] != 'e' && s[j] != 'E'
    ensures ExponentAt(s, from) == k
    decreases |s| - from
  {
    if from < k {
      ExponentAtFirst(s, from + 1, k);
    }
  }

  /** real2decStr's exponent loop: '+' signs and leading zeros are skipped, minus signs kept. */
  method TidyExponent(head: string, tmp: string) returns (r: string)
    ensures r == head + CleanExponent(tmp)
  {
    r := head;
    var tmpPos := 0;
    while tmpPos < |tmp|
      invariant 0 <= tmpPos <= |tmp|
      invariant r + CleanExponent(tmp[tmpPos..]) == head + CleanExponent(tmp)
    {
      assert tmp[tmpPos..][1..] == tmp[tmpPos + 1..];
      if tmp[tmpPos] == '-' {
        r := r + "-";
      } else if tmp[tmpPos] == '+' || tmp[tmpPos] == '0' {
      } else {
        r := r + tmp[tmpPos..];
        return;
      }
      tmpPos := tmpPos + 1;
    }
  }

  /** Trimmed when the fraction is followed by an exponent at pos. */
  lemma TrimmedWithExponent(out: string, precision: int, p: nat, pos: nat, zeroFrom: int)
    requires precision != 0 && p == IndexOf(out, '.') < |out|
    requires pos == ExponentAt(out, p + 1) < |out|
    requires zeroFrom == |CutZeros(out[..pos], p)|
    ensures 0 <= zeroFrom <= pos
    ensures Trimmed(out, precision) == NoTrailingE(out[..zeroFrom] + "e" + CleanExponent(out[pos + 1..]))
  {
    CutZerosSpec(out[..pos], p);
    assert CutZeros(out[..pos], p) == out[..zeroFrom];
    TrimmedAt(out, precision, p, pos, out[..zeroFrom]);
  }

  /** Trimmed unfolded for a text with a point at p and an exponent at e. */
  lemma TrimmedAt(out: string, precision: int, p: nat, e: nat, mant: string)
    requires precision != 0 && p == IndexOf(out, '.') < |out|
    requires e == ExponentAt(out, p + 1) < |out|
    requires mant == CutZeros(out[..e], p)
    ensures Trimmed(out, precision) == NoTrailingE(mant + "e" + CleanExponent(out[e + 1..]))
  {
    assert Trimmed(out, precision) == TrimmedAfter(out, p, e);
    TrimmedAfterExponent(out, p, e, mant);
  }

  lemma TrimmedAfterExponent(out: string, p: nat, e: nat, mant: string)
    requires p < e < |out| && mant == CutZeros(out[..e], p)
    ensures TrimmedAfter(out, p, e) == NoTrailingE(mant + "e" + CleanExponent(out[e + 1..]))
  {
  }

  /** Trimmed when there is no exponent: the text up to zeroFrom, or all of it. */
  lemma TrimmedPlain(out: string, precision: int, p: nat, zeroFrom: int)
    requires precision != 0 && p == IndexOf(out, '.') < |out|
    requires ExponentAt(out, p + 1) == |out|
    requires zeroFrom == -1 || zeroFrom == |CutZeros(out, p)|
    requires zeroFrom == -1 ==> CutZeros(out, p) == out
    ensures 0 <= zeroFrom ==> zeroFrom <= |out|
    ensures Trimmed(out, precision) == if zeroFrom == -1 then out else out[..zeroFrom]
  {
    assert out[..|out|] == out;
    CutZerosSpec(out, p);
  }

  /** real2decStr's clean-up: drop the zeros ending the fraction and tidy the exponent. */
  method StripZeros(out: string, precision: int) returns (r: string)
    ensures r == Trimmed(out, precision)
  {
    var p := IndexOf(out, '.');
    if precision == 0 || p == |out| {
      return out;
    }
    var zeroFrom, eFound, pos := ScanFraction(out, p);
    if eFound {
      TrimmedWithExponent(out, precision, p, pos, zeroFrom);
      var res := TidyExponent(out[..zeroFrom] + "e", out[pos + 1..]);
      return if res != [] && res[|res| - 1] == 'e' then res[..|res| - 1] else res;
    } else {
      TrimmedPlain(out, precision, p, zeroFrom);
      return if zeroFrom == -1 then out else out[..zeroFrom];
    }
  }

  /** real2decStr: the stream's text, cleaned up. */
  method Real2DecStr(val: real, outputType: OutputType, precision: int, stream: Stream) returns (r: string)
    ensures r == Trimmed(stream(val, outputType, precision), precision)
  {
    var out := stream(val, outputType, precision);
    r := StripZeros(out, precision);
  }

  /** One field of a time string: a padding zero below ten, then the number. */
  function TimeField(x: real, precision: int, stream: Stream): string {
    (if x < 10.0 then "0" else "") + Trimmed(stream(x, DecOutput, precision), precision)
  }

  /** Hours, minutes and seconds of a non-negative number of seconds, as real2timeStr splits it. */
  function TimeParts(v: real): (hms: (real, real, real))
    requires v >= 0.0
    ensures hms.0 == hms.0.Floor as real && hms.0 >= 0.0
    ensures hms.1 == hms.1.Floor as real && 0.0 <= hms.1 < 60.0
    ensures 0.0 <= hms.2 < 60.0
    ensures hms.0 * 3600.0 + hms.1 * 60.0 + hms.2 == v
  {
    var h := (v / 3600.0).Floor as real;
    var rest := v - h * 3600.0;
    var mi := (rest / 60.0).Floor as real;
    (h, mi, rest - mi * 60.0)
  }

  /** std::pow(60, i) for the three steps of real2timeStr. */
  function Unit(i: int): real {
    if i == 2 then 3600.0 else if i == 1 then 60.0 else 1.0
  }

  /** What real2timeStr prints at step i with val seconds left: the whole units, or all of val at the last step. */
  function StepValue(val: real, i: int): real {
    if i == 0 then val else (val / Unit(i)).Floor as real
  }

  /** The text step i of real2timeStr appends with val seconds left: the field, and a colon unless it is the last. */
  function StepText(val: real, i: int, stream: Stream): string {
    TimeField(StepValue(val, i), if i == 0 then 3 else 0, stream) + (if i == 0 then "" else ":")
  }

  /** The seconds left after step i. */
  function StepRest(val: real, i: int): real {
    val - StepValue(val, i) * Unit(i)
  }

  /**
    The text real2timeStr's loop appends from step i down to step 0 with
    val seconds left: the whole number of 60^i units, then the rest at the
    next step; the last step prints the seconds with three decimals.
  */
  function TimeTail(val: real, i: int, stream: Stream): string
    requires i <= 2
    decreases i + 1
  {
    if i < 0 then "" else StepText(val, i, stream) + TimeTail(StepRest(val, i), i - 1, stream)
  }

  /** "hh:mm:ss.sss" for a non-negative number of seconds, split as TimeParts does. */
  function TimeText(v: real, stream: Stream): string
    requires v >= 0.0
  {
    var hms := TimeParts(v);
    TimeField(hms.0, 0, stream) + ":" + (TimeField(hms.1, 0, stream) + ":" + TimeField(hms.2, 3, stream))
  }

  /** The loop's text is hours, minutes and seconds as TimeParts splits the value. */
  lemma TimeTailIsParts(v: real, stream: Stream)
    requires v >= 0.0
    ensures TimeTail(v, 2, stream) == TimeText(v, stream)
  {
    var hms := TimeParts(v);
    assert StepValue(v, 2) == hms.0;
    var r1 := StepRest(v, 2);
    assert StepValue(r1, 1) == hms.1;
    var r0 := StepRest(r1, 1);
    assert r0 == hms.2;
    assert StepText(v, 2, stream) == TimeField(hms.0, 0, stream) + ":";
    assert StepText(r1, 1, stream) == TimeField(hms.1, 0, stream) + ":";
    assert TimeTail(r0, 0, stream) == TimeField(hms.2, 3, stream) by {
      assert TimeTail(r0, 0, stream) == StepText(r0, 0, stream) + "";
    }
  }

  /** real2timeStr */
  method Real2TimeStr(v: real, stream: Stream) returns (r: string)
    ensures r == (if v < 0.0 then "-" else "") + TimeText(if v < 0.0 then -v else v, stream)
  {
    var val := v;
    var out := "";
    if val < 0.0 {
      out := out + "-";
      val := -val;
    }
    ghost var sign := if v < 0.0 then "-" else "";
    ghost var start := if v < 0.0 then -v else v;
    assert out == sign && val == start;
    TimeTailIsParts(start, stream);
    ghost var goal := sign + TimeText(start, stream);
    var i := 2;
    while i >= 0
      invariant -1 <= i <= 2
      invariant out + TimeTail(val, i, stream) == goal
    {
      var field, next := TimeStep(val, i, stream);
      TimeLoopStep(out, field, val, next, i, stream);
      out := out + field;
      val := next;
      i := i - 1;
    }
    assert out + "" == out;
    return out;
  }

  /** Step i of real2timeStr's loop: the field it appends and the seconds left after it. */
  method TimeStep(val: real, i: int, stream: Stream) returns (field: string, next: real)
    requires 0 <= i <= 2
    ensures field == StepText(val, i, stream) && next == StepRest(val, i)
  {
    var unit := Pow(60.0, i);
    SixtyPower(i);
    var x := if i == 0 then val else (val / unit).Floor as real;
    field := TimeFieldText(x, if i == 0 then 3 else 0, stream);
    if i != 0 {
      field := field + ":";
    }
    next := val - x * unit;
  }

  /** std::pow(60, i) is exact for the three steps. */
  lemma SixtyPower(i: int)
    requires 0 <= i <= 2
    ensures Pow(60.0, i) == Unit(i)
  {
    assert Pow(60.0, 1) == 60.0;
  }

  /** One field of real2timeStr's output, as the loop body renders it. */
  method TimeFieldText(x: real, precision: int, stream: Stream) returns (f: string)
    ensures f == TimeField(x, precision, stream)
  {
    var digits := Real2DecStr(x, DecOutput, precision, stream);
    f := (if x < 10.0 then "0" else "") + digits;
  }

  /** Appending step i's field keeps the loop's text plus what is left to print unchanged. */
  lemma TimeLoopStep(out: string, field: string, val: real, next: real, i: int, stream: Stream)
    requires 0 <= i <= 2
    requires field == StepText(val, i, stream) && next == StepRest(val, i)
    ensures (out + field) + TimeTail(next, i - 1, stream) == out + TimeTail(val, i, stream)
  {
    assert (out + field) + TimeTail(next, i - 1, stream) == out + (field + TimeTail(next, i - 1, stream));
  }

  /** real2str: the notation chosen by outputType; a negative precision means digits10. */
  method Real2Str(val: real, outputType: OutputType, precision: int, stream: Stream) returns (r: Result<string, FormatError>)
    ensures outputType == BinOutput ==> (r.Err? <==> Overflows(val))
    ensures outputType == BinOutput && r.Ok? ==> r.value == BinText(val)
    ensures outputType == TimeOutput ==>
      r.Ok? && r.value == (if val < 0.0 then "-" else "") + TimeText(if val < 0.0 then -val else val, stream)
    ensures outputType == OctOutput ==> r == Real2OctStr(val)
    ensures outputType == HexOutput ==> r == Real2HexStr(val)
    ensures outputType != BinOutput && outputType != OctOutput && outputType != HexOutput ==> r.Ok?
    ensures outputType !in {BinOutput, OctOutput, HexOutput, TimeOutput} ==>
      r.value == Trimmed(stream(val, outputType, if precision < 0 then DIGITS10 else precision),
                         if precision < 0 then DIGITS10 else precision)
  {
    match outputType
    case TimeOutput =>
      var s := Real2TimeStr(val, stream);
      r := Ok(s);
    case BinOutput =>
      r := Real2BinStr(val);
    case OctOutput =>
      r := Real2OctStr(val);
    case HexOutput =>
      r := Real2HexStr(val);
    case _ =>
      var s := Real2DecStr(val, outputType, if precision < 0 then DIGITS10 else precision, stream);
      r := Ok(s);
  }
}
