/**
  Version numbers of the update checker (updatechecker.cpp): reading
  "major.minor.revision.build[ beta]" into a version object, printing it
  back, and the ordering used to decide whether a newer release exists.
*/
module Versions {
  import opened Wrappers
  import opened Text

  /** The five fields of updates::version; the numbers are unsigned shorts. */
  datatype VersionValue = VersionValue(major: nat, minor: nat, revision: nat, build: nat, beta: bool)

  predicate InRange(v: VersionValue) {
    v.major <= USHORT_MAX && v.minor <= USHORT_MAX && v.revision <= USHORT_MAX && v.build <= USHORT_MAX
  }

  /** QString::count(c) */
  function CountOf(s: string, c: char): nat {
    if s == [] then 0 else (if s[0] == c then 1 else 0) + CountOf(s[1..], c)
  }

  lemma {:induction false} CountOfAppend(a: string, b: string, c: char)
    ensures CountOf(a + b, c) == CountOf(a, c) + CountOf(b, c)
  {
    if a == [] {
      assert a + b == b;
    } else {
      assert (a + b)[1..] == a[1..] + b;
      CountOfAppend(a[1..], b, c);
    }
  }

  /** The end of the run of digits starting at from. */
  function DigitsEnd(s: string, from: nat): (k: nat)
    requires from <= |s|
    ensures from <= k <= |s|
    ensures k < |s| ==> !IsDigit(s[k])
    decreases |s| - from
  {
    if from < |s| && IsDigit(s[from]) then DigitsEnd(s, from + 1) else from
  }

  lemma {:induction false} DigitsBeforeEnd(s: string, from: nat)
    requires from <= |s|
    ensures AllDigits(s[from..DigitsEnd(s, from)])
    decreases |s| - from
  {
    if from < |s| && IsDigit(s[from]) {
      var k := DigitsEnd(s, from + 1);
      DigitsBeforeEnd(s, from + 1);
      assert s[from..k] == [s[from]] + s[from + 1..k];
    }
  }

  /**
    One of fromString's four field loops over the text t that is left: None
    when it meets a character that is neither a digit nor stop; otherwise
    where it stopped (at stop or at the end) and the unsigned short read,
    None when toUShort fails.
  */
  function ReadField(t: string, stop: char): (r: Option<(nat, Option<nat>)>)
    ensures r.Some? ==> r.value.0 <= |t|
    ensures r.Some? ==> r.value.0 < |t| ==> t[r.value.0] == stop
  {
    var k := DigitsEnd(t, 0);
    if k < |t| && t[k] != stop then None
    else Some((k, UShortValue(t[..k])))
  }

  /**
    What version::fromString(s) returns and leaves in the object that held
    prev: the text needs at least 7 characters and exactly three dots, then
    the four fields are read in turn.
  */
  function FromStringSpec(s: string, prev: VersionValue): (bool, VersionValue) {
    if |s| < 7 || CountOf(s, '.') != 3 then (false, prev)
    else Fields(s, 0, prev)
  }

  /** The object with field k (0 major, 1 minor, 2 revision, 3 build) set to n. */
  function SetField(v: VersionValue, k: nat, n: nat): VersionValue {
    if k == 0 then v.(major := n)
    else if k == 1 then v.(minor := n)
    else if k == 2 then v.(revision := n)
    else v.(build := n)
  }

  /**
    fromString from field k on, with t the text not yet read: a field is
    assigned as soon as it is read, 0 when toUShort fails, and then the
    call fails; after the build a space and the character after it give
    the beta flag (past the end QString holds its terminating NUL).
  */
  function Fields(t: string, k: nat, v: VersionValue): (bool, VersionValue)
    requires k <= 3
    decreases 3 - k
  {
    var stop := if k == 3 then ' ' else '.';
    match ReadField(t, stop)
    case None => (false, v)
    case Some((p, n)) =>
      var w := SetField(v, k, if n.Some? then n.value else 0);
      if n.None? then (false, w)
      else if k == 3 then (true, if p == |t| then w else w.(beta := p + 1 < |t| && t[p + 1] == '1'))
      else if p == |t| then (false, w) // excluded by the three-dot check, see FieldsStep
      else Fields(t[p + 1..], k + 1, w)
  }

  /**
    With a dot left in t, a field read with stop '.' ends at a dot, and
    one dot fewer is left after it.
  */
  lemma FieldStopsAtDot(t: string)
    requires CountOf(t, '.') >= 1 && ReadField(t, '.').Some?
    ensures var p := ReadField(t, '.').value.0;
      p < |t| && CountOf(t[p + 1..], '.') == CountOf(t, '.') - 1
  {
    var p := ReadField(t, '.').value.0;
    DigitsBeforeEnd(t, 0);
    DotAfterDigits(t, p);
  }

  /** Digits up to p and then a dot or the end: with a dot in t, the end is not reached. */
  lemma DotAfterDigits(t: string, p: nat)
    requires p <= |t| && AllDigits(t[0..p]) && CountOf(t, '.') >= 1
    requires p < |t| ==> t[p] == '.'
    ensures p < |t| && CountOf(t[p + 1..], '.') == CountOf(t, '.') - 1
  {
    assert t == t[0..p] + t[p..];
    CountOfAppend(t[0..p], t[p..], '.');
    NoDotsInDigits(t[0..p]);
    if p < |t| {
      assert t[p..] == [t[p]] + t[p + 1..];
      CountOfAppend([t[p]], t[p + 1..], '.');
    }
  }

  /** One field of Fields: a failed read, or the field assigned and the rest read after the dot. */
  lemma FieldsStep(t: string, k: nat, v: VersionValue)
    requires k < 3 && CountOf(t, '.') == 3 - k
    ensures ReadField(t, '.').None? ==> Fields(t, k, v) == (false, v)
    ensures ReadField(t, '.').Some? ==>
      var (p, n) := ReadField(t, '.').value;
      && p < |t| && CountOf(t[p + 1..], '.') == 3 - (k + 1)
      && (n.None? ==> Fields(t, k, v) == (false, SetField(v, k, 0)))
      && (n.Some? ==> Fields(t, k, v) == Fields(t[p + 1..], k + 1, SetField(v, k, n.value)))
  {
    if ReadField(t, '.').Some? {
      FieldStopsAtDot(t);
    }
  }

  /** version::toString: the four numbers joined by dots; the beta flag is not printed. */
  function ToString(v: VersionValue): (s: string)
    ensures CountOf(s, '.') == 3 && |s| >= 7
  {
    var s := NatToString(v.major) + "." + NatToString(v.minor) + "." + NatToString(v.revision) + "." + NatToString(v.build);
    NoDotsInNumber(v.major);
    NoDotsInNumber(v.minor);
    NoDotsInNumber(v.revision);
    NoDotsInNumber(v.build);
    CountOfAppend(NatToString(v.major) + "." + NatToString(v.minor) + "." + NatToString(v.revision) + ".", NatToString(v.build), '.');
    CountOfAppend(NatToString(v.major) + "." + NatToString(v.minor) + "." + NatToString(v.revision), ".", '.');
    CountOfAppend(NatToString(v.major) + "." + NatToString(v.minor) + ".", NatToString(v.revision), '.');
    CountOfAppend(NatToString(v.major) + "." + NatToString(v.minor), ".", '.');
    CountOfAppend(NatToString(v.major) + ".", NatToString(v.minor), '.');
    CountOfAppend(NatToString(v.major), ".", '.');
    s
  }

  lemma {:induction false} NoDotsInDigits(s: string)
    requires AllDigits(s)
    ensures CountOf(s, '.') == 0
  {
    if s != [] {
      NoDotsInDigits(s[1..]);
    }
  }

  lemma NoDotsInNumber(n: nat)
    ensures CountOf(NatToString(n), '.') == 0
  {
    NoDotsInDigits(NatToString(n));
  }

  /** version::operator< : lexicographic on the numbers; at equal numbers a beta comes first. */
  predicate Less(a: VersionValue, b: VersionValue) {
    a.major < b.major
    || (a.major == b.major
      && (a.minor < b.minor
        || (a.minor == b.minor
          && (a.revision < b.revision
            || (a.revision == b.revision
              && (a.build < b.build || (a.build == b.build && a.beta && !b.beta)))))))
  }

  /** version::operator> */
  predicate Greater(a: VersionValue, b: VersionValue) {
    a.major > b.major
    || (a.major == b.major
      && (a.minor > b.minor
        || (a.minor == b.minor
          && (a.revision > b.revision
            || (a.revision == b.revision
              && (a.build > b.build || (a.build == b.build && !a.beta && b.beta)))))))
  }

  /** version::operator<= */
  predicate LessEq(a: VersionValue, b: VersionValue) {
    a == b || Less(a, b)
  }

  /** version::operator>= */
  predicate GreaterEq(a: VersionValue, b: VersionValue) {
    a == b || Greater(a, b)
  }

  /** updateChecker::newVersionAvailable: the offered version is greater than the running one. */
  predicate NewVersionAvailable(current: VersionValue, offered: VersionValue) {
    Greater(offered, current)
  }

  /** > is < with the operands swapped. */
  lemma GreaterMirrorsLess(a: VersionValue, b: VersionValue)
    ensures Greater(a, b) <==> Less(b, a)
  {
  }

  /** Exactly one of a < b, a == b and a > b holds (== compares all five fields). */
  lemma Trichotomy(a: VersionValue, b: VersionValue)
    ensures Less(a, b) || a == b || Greater(a, b)
    ensures !(Less(a, b) && a == b) && !(Less(a, b) && Greater(a, b)) && !(a == b && Greater(a, b))
  {
  }

  lemma LessTransitive(a: VersionValue, b: VersionValue, c: VersionValue)
    requires Less(a, b) && Less(b, c)
    ensures Less(a, c)
  {
  }

  /** <= and >= are the complements of > and <. */
  lemma LessEqIsNotGreater(a: VersionValue, b: VersionValue)
    ensures LessEq(a, b) <==> !Greater(a, b)
    ensures GreaterEq(a, b) <==> !Less(a, b)
  {
  }

  /** A release is announced exactly when the running version is older. */
  lemma NewVersionIffOlder(current: VersionValue, offered: VersionValue)
    ensures NewVersionAvailable(current, offered) <==> Less(current, offered)
    ensures NewVersionAvailable(current, offered) ==> current != offered
  {
    GreaterMirrorsLess(offered, current);
  }

  /** Reading a field that holds the digits d of the number n, followed by stop or the end. */
  lemma ReadDigits(t: string, d: string, n: nat, stop: char)
    requires UShortValue(d) == Some(n) && !IsDigit(stop)
    requires |d| <= |t| && t[..|d|] == d
    requires |d| < |t| ==> t[|d|] == stop
    ensures ReadField(t, stop) == Some((|d|, Some(n)))
  {
    UShortValueMeaning(d);
    assert t[0..|d|] == d;
    DigitsRunEnd(t, 0, |d|);
  }

  lemma {:induction false} DigitsRunEnd(s: string, from: nat, len: nat)
    requires from + len <= |s| && AllDigits(s[from..from + len])
    requires from + len < |s| ==> !IsDigit(s[from + len])
    ensures DigitsEnd(s, from) == from + len
    decreases len
  {
    if len > 0 {
      assert IsDigit(s[from..from + len][0]);
      assert s[from + 1..from + len] == s[from..from + len][1..];
      DigitsRunEnd(s, from + 1, len - 1);
    }
  }

  /** A field holding the digits d of n, then a dot: n is assigned and reading goes on with the rest r. */
  lemma FieldsPiece(d: string, r: string, k: nat, v: VersionValue, n: nat)
    requires k < 3 && UShortValue(d) == Some(n)
    ensures Fields(d + "." + r, k, v) == Fields(r, k + 1, SetField(v, k, n))
  {
    var t := d + "." + r;
    assert t[..|d|] == d;
    ReadDigits(t, d, n, '.');
    assert t[|d| + 1..] == r;
  }

  /** A build field that is all digits succeeds and leaves beta alone. */
  lemma FieldsLast(d: string, v: VersionValue, n: nat)
    requires UShortValue(d) == Some(n)
    ensures Fields(d, 3, v) == (true, SetField(v, 3, n))
  {
    assert d[..|d|] == d;
    ReadDigits(d, d, n, ' ');
  }

  /** The revision and build read from c + "." + d. */
  lemma FieldsTwoRuns(c: string, d: string, v: VersionValue, nc: nat, nd: nat)
    requires UShortValue(c) == Some(nc) && UShortValue(d) == Some(nd)
    ensures Fields(c + "." + d, 2, v) == (true, v.(revision := nc, build := nd))
  {
    FieldsPiece(c, d, 2, v, nc);
    FieldsLast(d, SetField(v, 2, nc), nd);
  }

  /** The minor number, the revision and the build read from b + "." + (c + "." + d). */
  lemma FieldsThreeRuns(b: string, c: string, d: string, v: VersionValue, nb: nat, nc: nat, nd: nat)
    requires UShortValue(b) == Some(nb) && UShortValue(c) == Some(nc) && UShortValue(d) == Some(nd)
    ensures Fields(b + "." + (c + "." + d), 1, v) == (true, v.(minor := nb, revision := nc, build := nd))
  {
    FieldsPiece(b, c + "." + d, 1, v, nb);
    FieldsTwoRuns(c, d, SetField(v, 1, nb), nc, nd);
  }

  /** fromString of four digit runs joined by dots reads the four numbers; beta keeps its previous value. */
  lemma FromDigitRuns(a: string, b: string, c: string, d: string, v: VersionValue, prev: VersionValue)
    requires UShortValue(a) == Some(v.major) && UShortValue(b) == Some(v.minor)
    requires UShortValue(c) == Some(v.revision) && UShortValue(d) == Some(v.build)
    requires var s := a + "." + (b + "." + (c + "." + d)); |s| >= 7 && CountOf(s, '.') == 3
    ensures FromStringSpec(a + "." + (b + "." + (c + "." + d)), prev) == (true, v.(beta := prev.beta))
  {
    FieldsPiece(a, b + "." + (c + "." + d), 0, prev, v.major);
    FieldsThreeRuns(b, c, d, SetField(prev, 0, v.major), v.minor, v.revision, v.build);
  }

  /** fromString reads back what toString printed; beta keeps its previous value. */
  lemma FromToString(v: VersionValue, prev: VersionValue)
    requires InRange(v)
    ensures FromStringSpec(ToString(v), prev) == (true, v.(beta := prev.beta))
  {
    UShortOfNatToString(v.major);
    UShortOfNatToString(v.minor);
    UShortOfNatToString(v.revision);
    UShortOfNatToString(v.build);
    var a, b, c, d := NatToString(v.major), NatToString(v.minor), NatToString(v.revision), NatToString(v.build);
    assert ToString(v) == a + "." + (b + "." + (c + "." + d));
    FromDigitRuns(a, b, c, d, v, prev);
  }

  /** A character other than a digit or a dot before the first dot makes fromString fail. */
  lemma BadMajorFails(s: string, prev: VersionValue, i: nat)
    requires i < |s| && !IsDigit(s[i]) && s[i] != '.'
    requires forall j :: 0 <= j < i ==> IsDigit(s[j])
    ensures !FromStringSpec(s, prev).0
    ensures FromStringSpec(s, prev).1 == prev
  {
    DigitsRunEnd(s, 0, i);
  }

  /** updates::version; fromString updates the fields in place. */
  class Version {
    var major: nat
    var minor: nat
    var revision: nat
    var build: nat
    var beta: bool

    function Value(): VersionValue
      reads this
    {
      VersionValue(major, minor, revision, build, beta)
    }

    /** version(major, minor, revision, build, beta), by default 1.0.0.0 */
    constructor (v: VersionValue)
      ensures Value() == v
    {
      major, minor, revision, build, beta := v.major, v.minor, v.revision, v.build, v.beta;
    }

    /** version::fromString */
    method FromString(s: string) returns (ok: bool)
      modifies this
      ensures (ok, Value()) == FromStringSpec(s, old(Value()))
    {
      var dots := Count(s, '.');
      if |s| < 7 || dots != 3 {
        return false;
      }
      assert s[0..] == s;
      var pos := ReadNumber(s, 0, 0);
      if pos == -1 {
        return false;
      }
      pos := ReadNumber(s, pos, 1);
      if pos == -1 {
        return false;
      }
      pos := ReadNumber(s, pos, 2);
      if pos == -1 {
        return false;
      }
      var p4, bu := ScanField(s, pos, ' ');
      if p4 == -1 {
        return false;
      }
      build := if bu.Some? then bu.value else 0;
      if bu.None? {
        return false;
      }
      if p4 != |s| {
        assert s[pos..][p4 - pos + 1..] == s[p4 + 1..];
        beta := p4 + 1 < |s| && s[p4 + 1] == '1';
      }
      return true;
    }

    /** The assignment of field k (major, minor, revision) that fromString makes after reading it. */
    method SetNumber(k: nat, x: nat)
      requires k < 3
      modifies this
      ensures Value() == SetField(old(Value()), k, x)
    {
      if k == 0 {
        major := x;
      } else if k == 1 {
        minor := x;
      } else {
        revision := x;
      }
    }

    /**
      The major, minor or revision loop of fromString (k = 0, 1, 2): reads
      the field ending at a dot, assigns it, and gives the index after the
      dot, or -1 when fromString returns false.
    */
    method ReadNumber(s: string, from: nat, k: nat) returns (next: int)
      requires from <= |s| && k < 3 && CountOf(s[from..], '.') == 3 - k
      modifies this
      ensures next == -1 ==> Fields(s[from..], k, old(Value())) == (false, Value())
      ensures next != -1 ==> from < next <= |s| && CountOf(s[next..], '.') == 3 - (k + 1)
      ensures next != -1 ==> Fields(s[from..], k, old(Value())) == Fields(s[next..], k + 1, Value())
    {
      var p, n := ScanField(s, from, '.');
      FieldsStep(s[from..], k, Value());
      if p == -1 {
        return -1;
      }
      assert s[from..][p - from + 1..] == s[p + 1..];
      var x := if n.Some? then n.value else 0;
      SetNumber(k, x);
      if n.None? {
        return -1;
      }
      return p + 1;
    }
  }

  /** QString::count(c), as a loop. */
  method Count(s: string, c: char) returns (n: nat)
    ensures n == CountOf(s, c)
  {
    n := 0;
    var i := |s|;
    while i > 0
      invariant 0 <= i <= |s|
      invariant n == CountOf(s[i..], c)
    {
      i := i - 1;
      assert s[i..][1..] == s[i + 1..];
      n := n + if s[i] == c then 1 else 0;
    }
  }

  /**
    One field loop of fromString from index from: the digits are collected
    until stop or the end; -1 when another character comes first.
  */
  method ScanField(s: string, from: nat, stop: char) returns (pos: int, value: Option<nat>)
    requires from <= |s|
    ensures pos >= -1
    ensures pos == -1 <==> ReadField(s[from..], stop).None?
    ensures pos != -1 ==> from <= pos && ReadField(s[from..], stop) == Some((pos - from, value))
  {
    ghost var t := s[from..];
    var buffer := "";
    pos := from;
    while pos < |s|
      invariant from <= pos <= |s|
      invariant buffer == s[from..pos]
      invariant DigitsEnd(t, 0) == DigitsEnd(t, pos - from)
      decreases |s| - pos
    {
      assert t[pos - from] == s[pos];
      if IsDigit(s[pos]) {
        buffer := buffer + [s[pos]];
      } else if s[pos] == stop {
        break;
      } else {
        return -1, None;
      }
      pos := pos + 1;
    }
    assert t[..pos - from] == buffer;
    value := UShortValue(buffer);
  }
}
