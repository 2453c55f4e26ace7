/**
  The two name helpers of the variable and function editors: checkName,
  which sanitises what the user typed into an identifier-like name
  (tags/release-2.1.1.4/funcwidget.cpp, trunk/varwidget.cpp), and findName,
  which picks a name not yet in a list by appending a number to a base name
  (trunk/funcswidget.cpp, tags/release-2.1.1.4/varswidget.cpp). Both widget
  pairs carry identical copies of these routines.
*/
module Naming {
  import opened Wrappers
  import opened Text

  // ---------------------------------------------------------------------
  // checkName
  // ---------------------------------------------------------------------

  /** checkName keeps '_' and ASCII letters, and digits unless they are the input's first character. */
  predicate Kept(c: char, atStart: bool) {
    c == '_' || IsAlpha(c) || (!atStart && IsDigit(c))
  }

  /** The characters of name[..n] that checkName keeps, in order. */
  function KeptChars(name: string, n: nat): (r: string)
    requires n <= |name|
    ensures |r| <= n
  {
    if n == 0 then ""
    else KeptChars(name, n - 1) + (if Kept(name[n - 1], n - 1 == 0) then [name[n - 1]] else "")
  }

  /** The name checkName returns: the kept characters, or "noName" when none are kept. */
  function CheckNameSpec(name: string): (r: string)
    ensures r != ""
  {
    var kept := KeptChars(name, |name|);
    if |kept| == 0 then "noName" else kept
  }

  /** Whatever checkName keeps is a letter, a digit or '_'. */
  lemma {:induction false} KeptAreNameChars(name: string, n: nat)
    requires n <= |name|
    ensures forall i :: 0 <= i < |KeptChars(name, n)| ==> IsNameChar(KeptChars(name, n)[i], false)
  {
    if n > 0 {
      KeptAreNameChars(name, n - 1);
    }
  }

  lemma CheckNameGivesNameChars(name: string)
    ensures forall i :: 0 <= i < |CheckNameSpec(name)| ==> IsNameChar(CheckNameSpec(name)[i], false)
  {
    KeptAreNameChars(name, |name|);
  }

  /**
    checkName (both widget copies); with corrected set, the rule of
    CheckNameFixed, which the editors use.
  */
  method CheckName(name: string, corrected: bool) returns (out: string)
    ensures out == if corrected then CheckNameFixed(name) else CheckNameSpec(name)
  {
    out := "";
    var i := 0;
    while i < |name|
      invariant 0 <= i <= |name|
      invariant out == if corrected then KeptCharsFixed(name, i) else KeptChars(name, i)
    {
      var c := name[i];
      var keep := if corrected then c == '_' || IsAlpha(c) || (out != "" && IsDigit(c)) else Kept(c, i == 0);
      if keep {
        out := out + [c];
      }
      i := i + 1;
    }
    if |out| == 0 {
      out := "noName";
    }
  }

  /** A name that already is an identifier passes through checkName unchanged. */
  lemma {:induction false} IdentifierKept(name: string, n: nat)
    requires IsIdentifier(name) && n <= |name|
    ensures KeptChars(name, n) == name[..n]
  {
    if n > 0 {
      IdentifierKept(name, n - 1);
      assert name[..n] == name[..n - 1] + [name[n - 1]];
    }
  }

  lemma IdentifierUnchanged(name: string)
    requires IsIdentifier(name)
    ensures CheckNameSpec(name) == name
  {
    IdentifierKept(name, |name|);
    assert name[..|name|] == name;
  }

  /**
    As written, only the digit at input position 0 is dropped: a digit that
    follows a dropped character leads the result, which is then no
    identifier, and sanitising it once more gives "noName".
  */
  lemma CheckNameLeadingDigit()
    ensures CheckNameSpec("-1") == "1"
    ensures !IsIdentifier(CheckNameSpec("-1"))
    ensures CheckNameSpec(CheckNameSpec("-1")) == "noName"
  {
    assert KeptChars("-1", 1) == "";
    assert KeptChars("-1", 2) == "1";
    assert KeptChars("1", 1) == "";
  }

  /** The evidently intended rule: a digit is kept only when something has been kept before it. */
  function KeptCharsFixed(name: string, n: nat): (r: string)
    requires n <= |name|
    ensures |r| <= n
    ensures r == "" || IsIdentifier(r)
  {
    if n == 0 then ""
    else
      var prev := KeptCharsFixed(name, n - 1);
      var c := name[n - 1];
      if c == '_' || IsAlpha(c) || (prev != "" && IsDigit(c)) then prev + [c] else prev
  }

  function CheckNameFixed(name: string): (r: string)
    ensures IsIdentifier(r)
  {
    var kept := KeptCharsFixed(name, |name|);
    if kept == "" then "noName" else kept
  }

  /** The corrected sanitiser agrees with the one as written whenever the input's first character is kept. */
  lemma {:induction false} FixedAgrees(name: string, n: nat)
    requires 0 < n <= |name| && Kept(name[0], true)
    ensures KeptCharsFixed(name, n) == KeptChars(name, n)
    ensures KeptChars(name, n) != ""
  {
    if n > 1 {
      FixedAgrees(name, n - 1);
    }
  }

  lemma CheckNameFixedAgrees(name: string)
    requires name != [] && Kept(name[0], true)
    ensures CheckNameFixed(name) == CheckNameSpec(name)
  {
    FixedAgrees(name, |name|);
  }

  /** The corrected sanitiser is idempotent: its result is an identifier, which it keeps as it is. */
  lemma {:induction false} FixedKeepsIdentifier(name: string, n: nat)
    requires IsIdentifier(name) && n <= |name|
    ensures KeptCharsFixed(name, n) == name[..n]
  {
    if n > 0 {
      FixedKeepsIdentifier(name, n - 1);
      assert name[..n] == name[..n - 1] + [name[n - 1]];
    }
  }

  /** The corrected sanitiser leaves an identifier as it is. */
  lemma FixedIdentifierUnchanged(name: string)
    requires IsIdentifier(name)
    ensures CheckNameFixed(name) == name
  {
    FixedKeepsIdentifier(name, |name|);
    assert name[..|name|] == name;
  }

  lemma CheckNameFixedIdempotent(name: string)
    ensures CheckNameFixed(CheckNameFixed(name)) == CheckNameFixed(name)
  {
    FixedIdentifierUnchanged(CheckNameFixed(name));
  }

  // ---------------------------------------------------------------------
  // findName
  // ---------------------------------------------------------------------

  predicate Sorted(ns: seq<nat>) {
    forall i, j :: 0 <= i < j < |ns| ==> ns[i] <= ns[j]
  }

  predicate StrictlySorted(ns: seq<nat>) {
    forall i, j :: 0 <= i < j < |ns| ==> ns[i] < ns[j]
  }

  /** The index of the first element greater than x, |ns| when there is none. */
  function FirstGreater(ns: seq<nat>, x: nat): (k: nat)
    ensures k <= |ns|
    ensures k < |ns| ==> x < ns[k]
    ensures forall j :: 0 <= j < k ==> ns[j] <= x
  {
    if ns == [] then 0 else if x < ns[0] then 0 else 1 + FirstGreater(ns[1..], x)
  }

  /**
    How findName records a suffix number in numbersInUse: appended when it
    exceeds the last one, otherwise inserted before the first greater one,
    and dropped when there is none.
  */
  function InsertNumber(ns: seq<nat>, x: nat): seq<nat> {
    if ns == [] || x > ns[|ns| - 1] then ns + [x]
    else
      var k := FirstGreater(ns, x);
      if k == |ns| then ns else ns[..k] + [x] + ns[k..]
  }

  /** numbersInUse stays in ascending order, and afterwards holds x besides what it held. */
  lemma InsertKeepsSorted(ns: seq<nat>, x: nat)
    requires Sorted(ns)
    ensures Sorted(InsertNumber(ns, x))
    ensures x in InsertNumber(ns, x)
    ensures multiset(ns) <= multiset(InsertNumber(ns, x)) <= multiset(ns) + multiset{x}
    ensures |InsertNumber(ns, x)| <= |ns| + 1
    ensures forall e :: e in InsertNumber(ns, x) ==> e in ns || e == x
  {
    InsertOrdered(ns, x);
    InsertContents(ns, x);
  }

  lemma InsertOrdered(ns: seq<nat>, x: nat)
    requires Sorted(ns)
    ensures Sorted(InsertNumber(ns, x))
  {
    if ns != [] && x <= ns[|ns| - 1] {
      var k := FirstGreater(ns, x);
      if k < |ns| {
        var r := ns[..k] + [x] + ns[k..];
        InsertAtIndices(ns, x, k, r);
        InsertAtSorted(ns, x, k, r);
      }
    }
  }

  lemma InsertContents(ns: seq<nat>, x: nat)
    requires forall j :: 0 <= j < |ns| ==> ns[j] <= ns[|ns| - 1]
    ensures x in InsertNumber(ns, x)
    ensures multiset(ns) <= multiset(InsertNumber(ns, x)) <= multiset(ns) + multiset{x}
    ensures |InsertNumber(ns, x)| <= |ns| + 1
    ensures forall e :: e in InsertNumber(ns, x) ==> e in ns || e == x
  {
    if ns != [] && x <= ns[|ns| - 1] {
      var k := FirstGreater(ns, x);
      if k == |ns| {
        assert ns[|ns| - 1] == x;
      } else {
        var r := ns[..k] + [x] + ns[k..];
        assert ns == ns[..k] + ns[k..];
        assert multiset(r) == multiset(ns) + multiset{x};
      }
    }
  }

  lemma InsertAtIndices(ns: seq<nat>, x: nat, k: nat, r: seq<nat>)
    requires k <= |ns| && r == ns[..k] + [x] + ns[k..]
    ensures |r| == |ns| + 1 && r[k] == x
    ensures forall i :: 0 <= i < k ==> r[i] == ns[i]
    ensures forall i :: k < i < |r| ==> r[i] == ns[i - 1]
  { }

  lemma InsertAtSorted(ns: seq<nat>, x: nat, k: nat, r: seq<nat>)
    requires Sorted(ns) && k < |ns| && x < ns[k] && forall j :: 0 <= j < k ==> ns[j] <= x
    requires |r| == |ns| + 1 && r[k] == x
    requires forall i :: 0 <= i < k ==> r[i] == ns[i]
    requires forall i :: k < i < |r| ==> r[i] == ns[i - 1]
    ensures Sorted(r)
  {
    forall i, j | 0 <= i < j < |r| ensures r[i] <= r[j] {
      if j < k || i > k {
      } else if i == k {
        assert r[j] == ns[j - 1];
      } else if j == k {
        assert r[i] == ns[i];
      } else {
        assert r[i] == ns[i] && r[j] == ns[j - 1];
      }
    }
  }

  /** The corrected recording: a number already in use is not recorded twice. */
  function Record(ns: seq<nat>, x: nat, dedupe: bool): seq<nat> {
    if dedupe && x in ns then ns else InsertNumber(ns, x)
  }

  lemma RecordKeepsStrict(ns: seq<nat>, x: nat)
    requires StrictlySorted(ns)
    ensures StrictlySorted(Record(ns, x, true))
  {
    if x !in ns {
      InsertKeepsSorted(ns, x);
      var r := Record(ns, x, true);
      forall i, j | 0 <= i < j < |r| ensures r[i] < r[j] {
        if r[i] == r[j] {
          StrictInsertDistinct(ns, x, i, j);
        }
      }
    }
  }

  lemma StrictInsertDistinct(ns: seq<nat>, x: nat, i: nat, j: nat)
    requires StrictlySorted(ns) && x !in ns
    requires i < j < |InsertNumber(ns, x)|
    ensures InsertNumber(ns, x)[i] != InsertNumber(ns, x)[j]
  {
    var r := InsertNumber(ns, x);
    if ns == [] || x > ns[|ns| - 1] {
      if j == |ns| {
        assert r[i] == ns[i];
      }
    } else {
      var k := FirstGreater(ns, x);
      assert k < |ns|;
      if j < k || i > k {
      } else if i == k {
        assert r[j] == ns[j - 1];
      } else if j == k {
        assert r[i] == ns[i];
      } else {
        assert r[i] == ns[i] && r[j] == ns[j - 1];
      }
    }
  }

  /** What findName knows after looking at some of the names. */
  datatype ScanState = ScanState(mayExistOnce: bool, count: nat, numbers: seq<nat>)

  /** The number after the base name, with toUShort's 0 for text that is not a number. */
  function SuffixNumber(name: string, baseName: string): (x: nat)
    requires StartsWith(name, baseName)
    ensures x <= USHORT_MAX
  {
    match UShortValue(name[|baseName|..])
    case Some(v) => v
    case None => 0
  }

  /** One iteration of findName's first loop. */
  function Step(st: ScanState, name: string, baseName: string, dedupe: bool): ScanState {
    if name == baseName then
      (if st.mayExistOnce then st.(mayExistOnce := false) else st.(count := 1))
    else if StartsWith(name, baseName) && SuffixNumber(name, baseName) != 0 then
      st.(numbers := Record(st.numbers, SuffixNumber(name, baseName), dedupe))
    else st
  }

  /** The state after the first loop over names. */
  function Scan(names: seq<string>, baseName: string, mayExistOnce: bool, dedupe: bool): ScanState {
    if names == [] then ScanState(mayExistOnce, 0, [])
    else Step(Scan(names[..|names| - 1], baseName, mayExistOnce, dedupe), names[|names| - 1], baseName, dedupe)
  }

  /** The second loop: count climbs while numbersInUse holds count at the next place. */
  function Walk(ns: seq<nat>, count: nat): (r: nat)
    ensures count <= r <= count + |ns|
  {
    if ns == [] then count else if ns[0] == count then Walk(ns[1..], count + 1) else count
  }

  function NameFor(baseName: string, count: nat): string {
    if count != 0 then baseName + NatToString(count) else baseName
  }

  /** What findName returns, as written. */
  function FindNameSpec(names: seq<string>, baseName: string, mayExistOnce: bool): string {
    var st := Scan(names, baseName, mayExistOnce, false);
    NameFor(baseName, Walk(st.numbers, st.count))
  }

  /** findName with the corrected recording of suffix numbers. */
  function FindNameFixed(names: seq<string>, baseName: string, mayExistOnce: bool): string {
    var st := Scan(names, baseName, mayExistOnce, true);
    NameFor(baseName, Walk(st.numbers, st.count))
  }

  /** How often name occurs in names. */
  function Occurrences(names: seq<string>, name: string): nat {
    if names == [] then 0
    else Occurrences(names[..|names| - 1], name) + (if names[|names| - 1] == name then 1 else 0)
  }

  /** How many occurrences of the base name findName tolerates. */
  function Allowed(mayExistOnce: bool): nat {
    if mayExistOnce then 1 else 0
  }

  /**
    The facts the first loop keeps: count is 1 exactly when the base name
    occurs more often than tolerated, the flag is still set only when it
    has not occurred, numbersInUse is ascending (strictly, when
    deduplicating), holds only non-zero 16-bit numbers, no more of them
    than names looked at.
  */
  lemma ScanFacts(names: seq<string>, baseName: string, mayExistOnce: bool, dedupe: bool)
    ensures var st := Scan(names, baseName, mayExistOnce, dedupe);
      && st.count == (if Occurrences(names, baseName) > Allowed(mayExistOnce) then 1 else 0)
      && st.mayExistOnce == (mayExistOnce && Occurrences(names, baseName) == 0)
      && Sorted(st.numbers)
      && (dedupe ==> StrictlySorted(st.numbers))
      && (forall e :: e in st.numbers ==> 0 < e <= USHORT_MAX)
      && |st.numbers| <= |names|
  {
    ScanFlags(names, baseName, mayExistOnce, dedupe);
    ScanNumbers(names, baseName, mayExistOnce, dedupe);
  }

  lemma {:induction false} ScanFlags(names: seq<string>, baseName: string, mayExistOnce: bool, dedupe: bool)
    ensures var st := Scan(names, baseName, mayExistOnce, dedupe);
      && st.count == (if Occurrences(names, baseName) > Allowed(mayExistOnce) then 1 else 0)
      && st.mayExistOnce == (mayExistOnce && Occurrences(names, baseName) == 0)
  {
    if names != [] {
      ScanFlags(names[..|names| - 1], baseName, mayExistOnce, dedupe);
    }
  }

  lemma {:induction false} ScanNumbers(names: seq<string>, baseName: string, mayExistOnce: bool, dedupe: bool)
    ensures var ns := Scan(names, baseName, mayExistOnce, dedupe).numbers;
      && Sorted(ns)
      && (dedupe ==> StrictlySorted(ns))
      && (forall e :: e in ns ==> 0 < e <= USHORT_MAX)
      && |ns| <= |names|
  {
    if names != [] {
      var init := names[..|names| - 1];
      ScanNumbers(init, baseName, mayExistOnce, dedupe);
      var ns := Scan(init, baseName, mayExistOnce, dedupe).numbers;
      var name := names[|names| - 1];
      if name != baseName && StartsWith(name, baseName) && SuffixNumber(name, baseName) != 0 {
        var x := SuffixNumber(name, baseName);
        InsertKeepsSorted(ns, x);
        if dedupe {
          RecordKeepsStrict(ns, x);
        }
      }
    }
  }

  /** Recording x keeps every number already recorded and holds x afterwards. */
  lemma RecordKeeps(ns: seq<nat>, x: nat, y: nat, dedupe: bool)
    requires Sorted(ns) && (y in ns || y == x)
    ensures y in Record(ns, x, dedupe)
  {
    if !(dedupe && x in ns) {
      InsertKeepsSorted(ns, x);
      if y in ns {
        assert y in multiset(ns);
      }
    }
  }

  /** Every non-zero suffix number of a name that extends the base name is recorded. */
  lemma {:induction false} ScanRecords(names: seq<string>, baseName: string, mayExistOnce: bool, dedupe: bool, i: nat)
    requires i < |names| && names[i] != baseName && StartsWith(names[i], baseName)
    requires SuffixNumber(names[i], baseName) != 0
    ensures SuffixNumber(names[i], baseName) in Scan(names, baseName, mayExistOnce, dedupe).numbers
  {
    var init := names[..|names| - 1];
    var last := names[|names| - 1];
    var ns := Scan(init, baseName, mayExistOnce, dedupe).numbers;
    var x := SuffixNumber(names[i], baseName);
    ScanNumbers(init, baseName, mayExistOnce, dedupe);
    if i < |names| - 1 {
      assert init[i] == names[i];
      ScanRecords(init, baseName, mayExistOnce, dedupe, i);
      if last != baseName && StartsWith(last, baseName) && SuffixNumber(last, baseName) != 0 {
        RecordKeeps(ns, SuffixNumber(last, baseName), x, dedupe);
      }
    } else {
      RecordKeeps(ns, x, x, dedupe);
    }
  }

  /** Starting at 0 the walk never moves, since only non-zero numbers are recorded. */
  lemma WalkFromZero(ns: seq<nat>)
    requires forall e :: e in ns ==> 0 < e
    ensures Walk(ns, 0) == 0
  {
    if ns != [] {
      assert ns[0] in ns;
    }
  }

  /** The walk passes through consecutive numbers: every number from count up to its result is recorded. */
  lemma {:induction false} WalkConsecutive(ns: seq<nat>, count: nat)
    ensures forall k :: count <= k < Walk(ns, count) ==> k in ns
  {
    if ns != [] && ns[0] == count {
      WalkConsecutive(ns[1..], count + 1);
      assert forall e :: e in ns[1..] ==> e in ns;
    }
  }

  /** Over distinct ascending numbers, none below count, the walk stops at a number that is not recorded. */
  lemma {:induction false} WalkStopsOnFree(ns: seq<nat>, count: nat)
    requires StrictlySorted(ns) && forall e :: e in ns ==> count <= e
    ensures Walk(ns, count) !in ns
  {
    if ns != [] {
      if ns[0] == count {
        var rest := ns[1..];
        forall e | e in rest ensures count + 1 <= e {
          var j :| 0 <= j < |rest| && rest[j] == e;
          assert ns[j + 1] == e;
        }
        WalkStopsOnFree(rest, count + 1);
        assert count + 1 <= Walk(rest, count + 1);
        assert ns == [ns[0]] + rest;
      } else {
        assert ns[0] in ns;
        forall e | e in ns ensures count < e {
          var j :| 0 <= j < |ns| && ns[j] == e;
          assert ns[0] <= ns[j];
        }
      }
    }
  }

  /** findName returns the base name itself exactly when it does not occur more often than tolerated. */
  lemma FindNameKeepsBase(names: seq<string>, baseName: string, mayExistOnce: bool)
    ensures FindNameSpec(names, baseName, mayExistOnce) == baseName
        <==> Occurrences(names, baseName) <= Allowed(mayExistOnce)
  {
    var st := Scan(names, baseName, mayExistOnce, false);
    ScanFacts(names, baseName, mayExistOnce, false);
    if st.count == 0 {
      WalkFromZero(st.numbers);
    } else {
      assert Walk(st.numbers, st.count) >= 1;
      assert |baseName + NatToString(Walk(st.numbers, st.count))| > |baseName|;
    }
  }

  /** When the base name is taken, findName appends the first number of the run 1, 2, ... that is not recorded. */
  lemma FindNameCounts(names: seq<string>, baseName: string, mayExistOnce: bool)
    requires Occurrences(names, baseName) > Allowed(mayExistOnce)
    ensures var c := Walk(Scan(names, baseName, mayExistOnce, false).numbers, 1);
      && FindNameSpec(names, baseName, mayExistOnce) == baseName + NatToString(c)
      && (forall k :: 1 <= k < c ==> k in Scan(names, baseName, mayExistOnce, false).numbers)
  {
    ScanFacts(names, baseName, mayExistOnce, false);
    WalkConsecutive(Scan(names, baseName, mayExistOnce, false).numbers, 1);
  }

  /**
    The corrected findName always returns a free name: the base name only
    when it is not taken beyond what is tolerated, and otherwise a
    numbered name no entry carries.
  */
  lemma FindNameFixedIsFree(names: seq<string>, baseName: string, mayExistOnce: bool)
    requires |names| < USHORT_MAX
    ensures var r := FindNameFixed(names, baseName, mayExistOnce);
      && (r == baseName <==> Occurrences(names, baseName) <= Allowed(mayExistOnce))
      && (r != baseName ==> r !in names)
  {
    var st := Scan(names, baseName, mayExistOnce, true);
    ScanFacts(names, baseName, mayExistOnce, true);
    var c := Walk(st.numbers, st.count);
    var r := FindNameFixed(names, baseName, mayExistOnce);
    if st.count == 0 {
      WalkFromZero(st.numbers);
    } else {
      assert |r| > |baseName|;
      WalkStopsOnFree(st.numbers, 1);
      if r in names {
        var i :| 0 <= i < |names| && names[i] == r;
        assert r[..|baseName|] == baseName;
        assert r[|baseName|..] == NatToString(c);
        UShortOfNatToString(c);
        ScanRecords(names, baseName, mayExistOnce, true, i);
      }
    }
  }
  /** A name occurs nowhere exactly when it is not in the list. */
  lemma {:induction false} NoOccurrences(names: seq<string>, name: string)
    ensures Occurrences(names, name) == 0 <==> name !in names
  {
    if names != [] {
      var init := names[..|names| - 1];
      NoOccurrences(init, name);
      assert names == init + [names[|names| - 1]];
    }
  }

  /** The corrected findName, with nothing tolerated, proposes a name that is not in use. */
  lemma FindNameFixedUnused(names: seq<string>, baseName: string)
    requires |names| < USHORT_MAX
    ensures FindNameFixed(names, baseName, false) !in names
  {
    FindNameFixedIsFree(names, baseName, false);
    NoOccurrences(names, baseName);
  }

  /** Digits after an identifier leave an identifier: findName's proposals for an identifier are identifiers. */
  lemma NameForIdentifier(baseName: string, count: nat)
    requires IsIdentifier(baseName)
    ensures IsIdentifier(NameFor(baseName, count))
  {
    if count != 0 {
      var r := baseName + NatToString(count);
      forall i | 0 <= i < |r| ensures IsNameChar(r[i], i == 0) {
        if i >= |baseName| {
          assert r[i] == NatToString(count)[i - |baseName|];
        }
      }
    }
  }

  /** The corrected findName proposes an identifier for an identifier base name. */
  lemma FindNameFixedIdentifier(names: seq<string>, baseName: string, mayExistOnce: bool)
    requires IsIdentifier(baseName)
    ensures IsIdentifier(FindNameFixed(names, baseName, mayExistOnce))
  {
    var st := Scan(names, baseName, mayExistOnce, true);
    NameForIdentifier(baseName, Walk(st.numbers, st.count));
  }


  /**
    As written, findName can return a name that is taken: "newVar01" and
    "newVar1" both record the number 1, and the walk stops at the second 1
    before reaching 2.
  */
  lemma FindNameDuplicateSuffix()
    ensures FindNameSpec(["newVar", "newVar2", "newVar1", "newVar01"], "newVar", false) == "newVar2"
    ensures "newVar2" in ["newVar", "newVar2", "newVar1", "newVar01"]
  {
    var n3 := ["newVar", "newVar2", "newVar1"];
    var n4 := n3 + ["newVar01"];
    assert n4 == ["newVar", "newVar2", "newVar1", "newVar01"];
    ExampleFirstThree();
    ExampleLastStep();
    assert n4[..3] == n3;
    var st := Scan(n4, "newVar", false, false);
    assert st == Step(ScanState(false, 1, [1, 2]), "newVar01", "newVar", false);
    assert Walk([1, 1, 2], 1) == 2;
    assert NatToString(2) == "2";
  }

  lemma ExampleLastStep()
    ensures Step(ScanState(false, 1, [1, 2]), "newVar01", "newVar", false) == ScanState(false, 1, [1, 1, 2])
  {
    SuffixesOfExample();
    assert FirstGreater([1, 2], 1) == 1;
    assert InsertNumber([1, 2], 1) == [1, 1, 2];
  }

  lemma ExampleFirstThree()
    ensures Scan(["newVar", "newVar2", "newVar1"], "newVar", false, false) == ScanState(false, 1, [1, 2])
  {
    var n1 := ["newVar"];
    var n2 := n1 + ["newVar2"];
    var n3 := n2 + ["newVar1"];
    assert n3 == ["newVar", "newVar2", "newVar1"];
    SuffixesOfExample();
    assert n1[..0] == [];
    assert Scan(n1, "newVar", false, false) == ScanState(false, 1, []);
    assert n2[..1] == n1;
    assert Scan(n2, "newVar", false, false) == ScanState(false, 1, [2]);
    assert n3[..2] == n2;
  }

  lemma SuffixesOfExample()
    ensures StartsWith("newVar2", "newVar") && SuffixNumber("newVar2", "newVar") == 2
    ensures StartsWith("newVar1", "newVar") && SuffixNumber("newVar1", "newVar") == 1
    ensures StartsWith("newVar01", "newVar") && SuffixNumber("newVar01", "newVar") == 1
  {
    assert "newVar2"[6..] == "2" && "newVar1"[6..] == "1" && "newVar01"[6..] == "01";
    assert "01"[..1] == "0";
    assert DigitsValue("01") == Some(1);
  }

  /**
    findName (both list widgets): names are the names of the entries in
    list order, mayExistOnce tolerates one entry named baseName (the entry
    being renamed). With dedupe set, a number already in use is not
    recorded again: the corrected findName, which the editors use.
  */
  method FindName(names: seq<string>, baseName: string, mayExistOnce: bool, dedupe: bool) returns (r: string)
    ensures r == if dedupe then FindNameFixed(names, baseName, mayExistOnce) else FindNameSpec(names, baseName, mayExistOnce)
  {
    var may := mayExistOnce;
    var count := 0;
    var numbersInUse: seq<nat> := [];
    var i := 0;
    while i < |names|
      invariant 0 <= i <= |names|
      invariant ScanState(may, count, numbersInUse) == Scan(names[..i], baseName, mayExistOnce, dedupe)
    {
      assert names[..i + 1][..i] == names[..i];
      var name := names[i];
      if name == baseName {
        if may {
          may := false;
        } else {
          count := 1;
        }
      } else if StartsWith(name, baseName) {
        var x := SuffixNumber(name, baseName);
        if x != 0 && !(dedupe && x in numbersInUse) {
          numbersInUse := InsertSorted(numbersInUse, x);
        }
      }
      i := i + 1;
    }
    assert names[..|names|] == names;
    var j := 0;
    ghost var start := count;
    while j < |numbersInUse|
      invariant 0 <= j <= |numbersInUse|
      invariant Walk(numbersInUse[j..], count) == Walk(numbersInUse, start)
    {
      if numbersInUse[j] == count {
        assert numbersInUse[j..][1..] == numbersInUse[j + 1..];
        count := count + 1;
        j := j + 1;
      } else {
        break;
      }
    }
    if count != 0 {
      r := baseName + NatToString(count);
    } else {
      r := baseName;
    }
  }

  /** The insertion into numbersInUse inside findName's first loop. */
  method InsertSorted(ns: seq<nat>, x: nat) returns (r: seq<nat>)
    ensures r == InsertNumber(ns, x)
  {
    if |ns| == 0 || x > ns[|ns| - 1] {
      return ns + [x];
    }
    var k := 0;
    while k < |ns|
      invariant 0 <= k <= |ns|
      invariant forall j :: 0 <= j < k ==> ns[j] <= x
      invariant k <= FirstGreater(ns, x)
    {
      if x < ns[k] {
        return ns[..k] + [x] + ns[k..];
      }
      k := k + 1;
    }
    return ns;
  }
}
