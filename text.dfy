/**
  Character classes of the C library in the "C" locale and decimal
  rendering of natural numbers, shared by every component.
*/
module Text {
  import opened Wrappers

  predicate IsDigit(c: char) { '0' <= c <= '9' }

  predicate IsLower(c: char) { 'a' <= c <= 'z' }

  predicate IsUpper(c: char) { 'A' <= c <= 'Z' }

  /** std::isalpha */
  predicate IsAlpha(c: char) { IsLower(c) || IsUpper(c) }

  /** std::isalnum */
  predicate IsAlnum(c: char) { IsAlpha(c) || IsDigit(c) }

  /** std::isxdigit */
  predicate IsXDigit(c: char) { IsDigit(c) || 'a' <= c <= 'f' || 'A' <= c <= 'F' }

  /** std::isspace: space, \t, \n, \v, \f and \r */
  predicate IsSpace(c: char) { c == ' ' || '\t' <= c <= '\r' }

  /** calcPrivate::isNameChar: '_' or a letter, and digits too when not first. */
  predicate IsNameChar(c: char, firstChar: bool) {
    c == '_' || (if firstChar then IsAlpha(c) else IsAlnum(c))
  }

  /** A name in the engine's sense: non-empty, '_' or a letter first, then letters, digits or '_'. */
  predicate IsIdentifier(s: string) {
    s != [] && forall i :: 0 <= i < |s| ==> IsNameChar(s[i], i == 0)
  }

  /** The value of a decimal digit. */
  function DigitValue(c: char): (d: nat)
    requires IsDigit(c)
    ensures d < 10
  {
    (c as int) - ('0' as int)
  }

  /** The decimal digit for d. */
  function DigitChar(d: nat): (c: char)
    requires d < 10
    ensures IsDigit(c) && DigitValue(c) == d
  {
    (('0' as int) + d) as char
  }

  predicate AllDigits(s: string) {
    forall i :: 0 <= i < |s| ==> IsDigit(s[i])
  }

  /** The natural number a string of decimal digits denotes (most significant first). */
  function DecimalValue(s: string): nat
    requires AllDigits(s)
  {
    if s == [] then 0 else 10 * DecimalValue(s[..|s| - 1]) + DigitValue(s[|s| - 1])
  }

  /** Decimal rendering without leading zeros, "0" for zero (QString::number, std::ostream). */
  function NatToString(n: nat): (s: string)
    ensures |s| > 0 && AllDigits(s)
    decreases n
  {
    if n < 10 then [DigitChar(n)] else NatToString(n / 10) + [DigitChar(n % 10)]
  }

  /** Reading back a rendered number gives the number. */
  lemma {:induction false} DecimalOfNatToString(n: nat)
    ensures DecimalValue(NatToString(n)) == n
    decreases n
  {
    var s := NatToString(n);
    if n >= 10 {
      DecimalOfNatToString(n / 10);
      assert s[..|s| - 1] == NatToString(n / 10);
    }
  }

  /** Distinct numbers are rendered as distinct strings. */
  lemma NatToStringInjective(m: nat, n: nat)
    requires NatToString(m) == NatToString(n)
    ensures m == n
  {
    DecimalOfNatToString(m);
    DecimalOfNatToString(n);
  }

  /** A rendered number has no leading zero unless it is zero itself. */
  lemma {:induction false} NatToStringNoLeadingZero(n: nat)
    ensures NatToString(n)[0] == '0' <==> n == 0
    decreases n
  {
    if n >= 10 {
      NatToStringNoLeadingZero(n / 10);
    }
  }

  const USHORT_MAX: nat := 65535

  /** The value of s read as decimal digits, None when s holds anything else ("" reads as 0). */
  function DigitsValue(s: string): Option<nat> {
    if s == [] then Some(0)
    else if !IsDigit(s[|s| - 1]) then None
    else match DigitsValue(s[..|s| - 1])
      case None => None
      case Some(x) => Some(10 * x + DigitValue(s[|s| - 1]))
  }

  /** DigitsValue reads exactly the all-digit strings, and reads their decimal value. */
  lemma {:induction false} DigitsValueIsDecimal(s: string)
    ensures DigitsValue(s).Some? <==> AllDigits(s)
    ensures AllDigits(s) ==> DigitsValue(s) == Some(DecimalValue(s))
  {
    if s != [] {
      var init := s[..|s| - 1];
      DigitsValueIsDecimal(init);
      if AllDigits(s) {
        assert AllDigits(init);
      } else if IsDigit(s[|s| - 1]) {
        var i :| 0 <= i < |s| && !IsDigit(s[i]);
        assert init[i] == s[i];
      }
    }
  }

  /**
    QString::toUShort for text made of ASCII characters: the decimal value
    of a non-empty run of digits that fits in 16 bits, None otherwise.
  */
  function UShortValue(s: string): (r: Option<nat>)
    ensures r.Some? ==> 0 <= r.value <= USHORT_MAX
  {
    if s == [] then None
    else match DigitsValue(s)
      case Some(x) => if x <= USHORT_MAX then Some(x) else None
      case None => None
  }

  /** toUShort succeeds exactly on non-empty digit runs of value at most 65535, and gives that value. */
  lemma UShortValueMeaning(s: string)
    ensures UShortValue(s).Some? <==> s != [] && AllDigits(s) && DecimalValue(s) <= USHORT_MAX
    ensures UShortValue(s).Some? ==> UShortValue(s).value == DecimalValue(s)
  {
    DigitsValueIsDecimal(s);
  }

  /** A number in range is read back from its rendering. */
  lemma UShortOfNatToString(n: nat)
    requires n <= USHORT_MAX
    ensures UShortValue(NatToString(n)) == Some(n)
  {
    DecimalOfNatToString(n);
    UShortValueMeaning(NatToString(n));
  }

  /** sub occurs in s starting at index i */
  predicate OccursAt(s: string, sub: string, i: int) {
    0 <= i <= |s| - |sub| && s[i..i + |sub|] == sub
  }

  /** std::string::find(sub) != npos */
  predicate Contains(s: string, sub: string) {
    exists i | 0 <= i <= |s| - |sub| :: OccursAt(s, sub, i)
  }

  predicate StartsWith(s: string, prefix: string) {
    |prefix| <= |s| && s[..|prefix|] == prefix
  }

  /** The first index of c in s, or |s| when c does not occur. */
  function IndexOf(s: string, c: char): (k: nat)
    ensures k <= |s|
    ensures k < |s| ==> s[k] == c
  {
    if s == [] then 0 else if s[0] == c then 0 else 1 + IndexOf(s[1..], c)
  }

  /** No occurrence of c comes before IndexOf(s, c). */
  lemma {:induction false} IndexOfFirst(s: string, c: char)
    ensures forall j :: 0 <= j < IndexOf(s, c) ==> s[j] != c
  {
    if s != [] && s[0] != c {
      IndexOfFirst(s[1..], c);
      forall j | 0 < j < IndexOf(s, c) ensures s[j] != c {
        assert s[j] == s[1..][j - 1];
      }
    }
  }

  /** The first occurrence of c is at k when s[k] is c and no earlier character is. */
  lemma {:induction false} IndexOfAt(s: string, c: char, k: nat)
    requires k < |s| && s[k] == c
    requires forall j :: 0 <= j < k ==> s[j] != c
    ensures IndexOf(s, c) == k
  {
    if k > 0 {
      IndexOfAt(s[1..], c, k - 1);
    }
  }
}
