/**
  The saved settings (calc::settingHandler in calc/settinghandler.cpp): a
  map from a prefixed name ("v" for a variable, "f" for a user-defined
  function) to a text, filled from the calculator, copied back into it,
  and written to and read from the version 1 file layout: the byte 1,
  then for every entry its name, a NUL byte, its text and a NUL byte.
*/
module Settings {
  import opened Wrappers
  import opened Errors
  import opened Text
  import opened Numbers
  import opened MathFunctions
  import opened Engine

  newtype byte = b: int | 0 <= b < 256

  const VERSION: byte := 1
  const NUL: byte := 0

  // ---------------------------------------------------------------- names

  /** What the loader accepts as an entry's name: a known prefix and an identifier after it. */
  predicate IsSettingName(name: string) {
    |name| > 1 && (name[0] == 'v' || name[0] == 'f') && IsIdentifier(name[1..])
  }

  /** An entry for a variable; an empty name reads as the NUL character, which is no prefix. */
  predicate IsVarKey(key: string) {
    |key| > 0 && key[0] == 'v'
  }

  /** key.substr(1): the name after the prefix, empty for an empty key. */
  function NameOf(key: string): (name: string)
    ensures |key| > 0 ==> [key[0]] + name == key
  {
    if key == [] then [] else key[1..]
  }

  /** An entry for a user-defined function. */
  predicate IsFuncKey(key: string) {
    |key| > 0 && key[0] == 'f'
  }

  /** settingHandler::isValidName: non-empty, and every character a name character where it stands. */
  method IsValidName(name: string) returns (ok: bool)
    ensures ok <==> IsIdentifier(name)
  {
    var firstChar := true;
    var i := 0;
    while i < |name|
      invariant i <= |name| && firstChar == (i == 0)
      invariant forall j :: 0 <= j < i ==> IsNameChar(name[j], j == 0)
    {
      if !IsNameChar(name[i], firstChar) {
        return false;
      }
      firstChar := false;
      i := i + 1;
    }
    ok := |name| > 0;
  }

  // ---------------------------------------------------------------- bytes

  /** A text every character of which fits in a byte, as the characters of a std::string do. */
  predicate IsByteText(s: string) {
    forall i :: 0 <= i < |s| ==> s[i] as int < 256
  }

  function ToBytes(s: string): (bs: seq<byte>)
    requires IsByteText(s)
    ensures |bs| == |s|
  {
    seq(|s|, i requires 0 <= i < |s| => s[i] as int as byte)
  }

  function FromBytes(bs: seq<byte>): (s: string)
    ensures |s| == |bs| && IsByteText(s)
  {
    seq(|bs|, i requires 0 <= i < |bs| => bs[i] as int as char)
  }

  lemma BytesRoundTrip(s: string)
    requires IsByteText(s)
    ensures FromBytes(ToBytes(s)) == s
  {
  }

  /** A text without the NUL character. */
  predicate NoNul(s: string) {
    forall i :: 0 <= i < |s| ==> s[i] != '\0'
  }

  // ---------------------------------------------------------------- the version 1 layout

  /** One entry as saveToFileV1 writes it. */
  function Record(name: string, value: string): seq<byte>
    requires IsByteText(name) && IsByteText(value)
  {
    ToBytes(name) + [NUL] + ToBytes(value) + [NUL]
  }

  /** Entries that can be written: their names and texts are byte texts. */
  predicate Writable(entries: map<string, string>) {
    forall k :: k in entries ==> IsByteText(k) && IsByteText(entries[k])
  }

  /** The entries named in order, one after the other. */
  function Records(entries: map<string, string>, order: seq<string>): seq<byte>
    requires Writable(entries)
    requires forall i :: 0 <= i < |order| ==> order[i] in entries
  {
    if order == [] then []
    else Record(order[0], entries[order[0]]) + Records(entries, order[1..])
  }

  /** order lists every key of the entries exactly once (the map's iteration order). */
  predicate Enumerates<V>(entries: map<string, V>, order: seq<string>) {
    && Covers(entries, order)
    && (forall i, j :: 0 <= i < j < |order| ==> order[i] != order[j])
  }

  /** order names keys of the entries only, and every one of them. */
  predicate Covers<V>(entries: map<string, V>, order: seq<string>) {
    && (forall i :: 0 <= i < |order| ==> order[i] in entries)
    && (forall k :: k in entries ==> k in order)
  }

  /** The file saveToFileV1 writes: the version byte, then the entries in order. */
  function Encode(entries: map<string, string>, order: seq<string>): seq<byte>
    requires Writable(entries) && Covers(entries, order)
  {
    [VERSION] + Records(entries, order)
  }

  /** How many bytes come before the first NUL (all of them when there is none). */
  function FieldLength(bs: seq<byte>): (n: nat)
    ensures n <= |bs|
    ensures forall i :: 0 <= i < n ==> bs[i] != NUL
    ensures n < |bs| ==> bs[n] == NUL
  {
    if bs == [] || bs[0] == NUL then 0 else 1 + FieldLength(bs[1..])
  }

  /**
    getline(in, field, '\0'): the bytes up to the first NUL, and what
    follows the NUL (nothing when the field ran to the end).
  */
  function Field(bs: seq<byte>): (r: (seq<byte>, seq<byte>))
    ensures bs != [] ==> |r.1| < |bs|
  {
    var n := FieldLength(bs);
    (bs[..n], if n < |bs| then bs[n + 1..] else [])
  }

  /** Why the loader gives up: parseError's message. */
  datatype LoadError = UnknownVersion | CorruptedFile

  /**
    The entry loop of fileParserV1 on what follows the version byte: a name
    is read while anything is left; a name with nothing after it, or one
    that is not a setting name, makes the file corrupted; a name already
    read keeps its first text (std::map::insert). The entries read before
    an error stay.
  */
  function LoadRecords(bs: seq<byte>, acc: map<string, string>): (map<string, string>, Option<LoadError>)
    decreases |bs|
  {
    if bs == [] then (acc, None)
    else
      var (nameBytes, rest) := Field(bs);
      if rest == [] then (acc, Some(CorruptedFile))
      else
        var (valueBytes, next) := Field(rest);
        var name := FromBytes(nameBytes);
        if !IsSettingName(name) then (acc, Some(CorruptedFile))
        else LoadRecords(next, if name in acc then acc else acc[name := FromBytes(valueBytes)])
  }

  /** loadFromFile on the file's bytes: the entries read, and the error that stopped the reading. */
  function Load(bs: seq<byte>): (map<string, string>, Option<LoadError>) {
    if bs == [] || bs[0] != VERSION then (map[], Some(UnknownVersion))
    else LoadRecords(bs[1..], map[])
  }

  /** The field written first ends where its NUL stands. */
  lemma {:induction false} FieldLengthOfWritten(s: string, tail: seq<byte>)
    requires IsByteText(s) && NoNul(s)
    ensures FieldLength(ToBytes(s) + [NUL] + tail) == |s|
    decreases |s|
  {
    var bs := ToBytes(s) + [NUL] + tail;
    if s == [] {
      assert bs[0] == NUL;
    } else {
      assert bs[0] != NUL;
      assert bs[1..] == ToBytes(s[1..]) + [NUL] + tail;
      FieldLengthOfWritten(s[1..], tail);
    }
  }

  /** A field written with its NUL is read back, and reading goes on after the NUL. */
  lemma FieldOfWritten(s: string, tail: seq<byte>)
    requires IsByteText(s) && NoNul(s)
    ensures Field(ToBytes(s) + [NUL] + tail) == (ToBytes(s), tail)
  {
    var bs := ToBytes(s) + [NUL] + tail;
    FieldLengthOfWritten(s, tail);
    assert bs[..|s|] == ToBytes(s);
    assert bs[|s| + 1..] == tail;
  }

  /** A setting name holds no NUL: its prefix is a letter and the rest an identifier. */
  lemma SettingNameNoNul(name: string)
    requires IsSettingName(name)
    ensures NoNul(name)
  {
    forall i | 1 <= i < |name| ensures name[i] != '\0' {
      assert name[i] == name[1..][i - 1];
    }
  }

  /** The entries whose names are listed in order. */
  function Listed<V>(entries: map<string, V>, order: seq<string>): map<string, V>
    requires forall i :: 0 <= i < |order| ==> order[i] in entries
  {
    if order == [] then map[] else Listed(entries, order[1..])[order[0] := entries[order[0]]]
  }

  /** A listed entry is one named in order, with its text. */
  lemma {:induction false} ListedHolds<V>(entries: map<string, V>, order: seq<string>, k: string)
    requires forall i :: 0 <= i < |order| ==> order[i] in entries
    ensures k in Listed(entries, order) <==> k in order
    ensures k in Listed(entries, order) ==> Listed(entries, order)[k] == entries[k]
  {
    if order != [] {
      ListedHolds(entries, order[1..], k);
      assert k in order <==> k == order[0] || k in order[1..];
    }
  }

  /** Listing every key gives back the entries. */
  lemma ListedAll<V>(entries: map<string, V>, order: seq<string>)
    requires Enumerates(entries, order)
    ensures map[] + Listed(entries, order) == entries
  {
    forall k ensures k in Listed(entries, order) <==> k in entries {
      ListedHolds(entries, order, k);
    }
    forall k | k in entries ensures Listed(entries, order)[k] == entries[k] {
      ListedHolds(entries, order, k);
    }
  }

  /** Entries that are saved so that the loader takes them back: setting names and texts without NUL. */
  predicate Loadable(entries: map<string, string>) {
    && Writable(entries)
    && forall k :: k in entries ==> IsSettingName(k) && NoNul(entries[k])
  }

  /** The first written record is read back and added, and reading goes on with the rest. */
  lemma LoadFirstRecord(entries: map<string, string>, order: seq<string>, acc: map<string, string>)
    requires Loadable(entries) && order != []
    requires forall i :: 0 <= i < |order| ==> order[i] in entries
    requires order[0] !in acc
    ensures LoadRecords(Records(entries, order), acc)
         == LoadRecords(Records(entries, order[1..]), acc[order[0] := entries[order[0]]])
  {
    var name := order[0];
    var value := entries[name];
    var tail := Records(entries, order[1..]);
    assert Records(entries, order) == ToBytes(name) + [NUL] + (ToBytes(value) + [NUL] + tail);
    SettingNameNoNul(name);
    LoadRecordStep(Records(entries, order), name, value, tail, acc);
  }

  /** A written name and value are read back as one record, and loading goes on after them. */
  lemma LoadRecordStep(bs: seq<byte>, name: string, value: string, tail: seq<byte>, acc: map<string, string>)
    requires IsSettingName(name) && NoNul(name) && IsByteText(name) && IsByteText(value) && NoNul(value)
    requires name !in acc
    requires bs == ToBytes(name) + [NUL] + (ToBytes(value) + [NUL] + tail)
    ensures LoadRecords(bs, acc) == LoadRecords(tail, acc[name := value])
  {
    FieldOfWritten(name, ToBytes(value) + [NUL] + tail);
    FieldOfWritten(value, tail);
    BytesRoundTrip(name);
    BytesRoundTrip(value);
  }

  /** Adding the first listed entry to acc, then the others, adds them all. */
  lemma ListedFirst(entries: map<string, string>, order: seq<string>, acc: map<string, string>)
    requires order != [] && forall i :: 0 <= i < |order| ==> order[i] in entries
    requires order[0] !in order[1..]
    ensures acc[order[0] := entries[order[0]]] + Listed(entries, order[1..]) == acc + Listed(entries, order)
  {
    var rest := Listed(entries, order[1..]);
    ListedHolds(entries, order[1..], order[0]);
    UpdateUnion(acc, rest, order[0], entries[order[0]]);
    assert acc[order[0] := entries[order[0]]] + rest == (acc + rest)[order[0] := entries[order[0]]];
  }

  /** Reading the written records adds exactly the entries they hold. */
  lemma {:induction false} LoadRecordsOfRecords(entries: map<string, string>, order: seq<string>, acc: map<string, string>)
    requires Loadable(entries)
    requires forall i :: 0 <= i < |order| ==> order[i] in entries && order[i] !in acc
    requires forall i, j :: 0 <= i < j < |order| ==> order[i] != order[j]
    ensures LoadRecords(Records(entries, order), acc) == (acc + Listed(entries, order), None)
    decreases |order|
  {
    if order == [] {
      assert Records(entries, order) == [];
      assert acc + Listed(entries, order) == acc;
    } else {
      LoadFirstRecord(entries, order, acc);
      LoadRecordsOfRecords(entries, order[1..], acc[order[0] := entries[order[0]]]);
      ListedFirst(entries, order, acc);
    }
  }

  /** Saving and loading again gives back the same entries, without an error. */
  lemma LoadEncoded(entries: map<string, string>, order: seq<string>)
    requires Loadable(entries) && Enumerates(entries, order)
    ensures Load(Encode(entries, order)) == (entries, None)
  {
    LoadRecordsOfRecords(entries, order, map[]);
    ListedAll(entries, order);
    assert Encode(entries, order)[1..] == Records(entries, order);
  }

  /** A file that does not start with the version byte is refused before any entry is read. */
  lemma UnknownVersionRefused(bs: seq<byte>)
    requires bs == [] || bs[0] != VERSION
    ensures Load(bs) == (map[], Some(UnknownVersion))
  {
  }

  /** A name that is not a setting name makes the file corrupted, whatever follows. */
  lemma BadNameRefused(name: string, value: string, tail: seq<byte>)
    requires IsByteText(name) && NoNul(name) && IsByteText(value) && NoNul(value)
    requires !IsSettingName(name)
    ensures Load([VERSION] + Record(name, value) + tail) == (map[], Some(CorruptedFile))
  {
    var bs := [VERSION] + Record(name, value) + tail;
    assert bs[1..] == ToBytes(name) + [NUL] + (ToBytes(value) + [NUL] + tail);
    FieldOfWritten(name, ToBytes(value) + [NUL] + tail);
    BytesRoundTrip(name);
  }

  // ---------------------------------------------------------------- to and from the calculator

  /** real2str(v) with the automatic notation and the default precision. */
  function ValueText(v: real, stream: Stream): string {
    Trimmed(stream(v, AutoOutput, DIGITS10), DIGITS10)
  }

  /** str2real(s): never an error, since it does not ask for them. */
  function Lenient(s: string, m: Libm): real {
    LenientParse(s, m);
    ParseNumber(s, false, m).value
  }

  /** Whether every entry has a known prefix. */
  predicate AllKnown(entries: map<string, string>) {
    forall k :: k in entries ==> IsVarKey(k) || IsFuncKey(k)
  }

  /**
    What settingsFromSource makes: an entry "v"+name for every variable,
    with its value as real2str prints it, an entry "f"+name for every
    user-defined function, with its expression, and nothing else.
  */
  predicate FromSource(entries: map<string, string>, vars: map<string, real>, funcs: map<string, MathFunction>, stream: Stream) {
    && (forall name :: name in vars ==> "v" + name in entries && entries["v" + name] == ValueText(vars[name], stream))
    && (forall name :: name in funcs && funcs[name].UserDefined? ==>
          "f" + name in entries && entries["f" + name] == funcs[name].expression)
    && AllKnown(entries)
    && (forall key {:trigger NameOf(key)} :: key in entries && IsVarKey(key) ==> NameOf(key) in vars)
    && (forall key {:trigger NameOf(key)} :: key in entries && IsFuncKey(key) ==>
          NameOf(key) in funcs && funcs[NameOf(key)].UserDefined?)
  }

  /**
    The variables after copyToCalculator: every "v" entry sets the variable
    it names to its text read by str2real; the other variables stay.
  */
  predicate VarsCopied(before: map<string, real>, after: map<string, real>, entries: map<string, string>, m: Libm) {
    && (forall key {:trigger NameOf(key)} :: key in entries && IsVarKey(key) ==> NameOf(key) in after && after[NameOf(key)] == Lenient(entries[key], m))
    && (forall name :: name in after ==> name in before || "v" + name in entries)
    && (forall name :: name in before && "v" + name !in entries ==> name in after && after[name] == before[name])
  }

  /** The functions after copyToCalculator: every "f" entry sets a user-defined function; the others stay. */
  ghost predicate FuncsCopied(before: map<string, MathFunction>, after: map<string, MathFunction>, entries: map<string, string>) {
    && (forall key {:trigger NameOf(key)} :: key in entries && IsFuncKey(key) ==> NameOf(key) in after && after[NameOf(key)] == UserDefined(entries[key]))
    && (forall name :: name in after ==> name in before || "f" + name in entries)
    && (forall name :: name in before && "f" + name !in entries ==> name in after && after[name] == before[name])
  }

  /** One entry applied to the variables: a "v" entry sets the variable it names. */
  function ApplyVar(vars: map<string, real>, key: string, text: string, m: Libm): map<string, real> {
    if IsVarKey(key) then vars[NameOf(key) := Lenient(text, m)] else vars
  }

  /** One entry applied to the functions: an "f" entry sets the user-defined function it names. */
  function ApplyFunc(funcs: map<string, MathFunction>, key: string, text: string): map<string, MathFunction> {
    if IsFuncKey(key) then funcs[NameOf(key) := UserDefined(text)] else funcs
  }

  /** The variables after the entries named in order are applied, one after the other. */
  function CopiedVars(vars: map<string, real>, entries: map<string, string>, order: seq<string>, m: Libm): map<string, real>
    requires forall i :: 0 <= i < |order| ==> order[i] in entries
  {
    if order == [] then vars
    else
      var last := order[|order| - 1];
      ApplyVar(CopiedVars(vars, entries, order[..|order| - 1], m), last, entries[last], m)
  }

  /** The functions after the entries named in order are applied, one after the other. */
  function CopiedFuncs(funcs: map<string, MathFunction>, entries: map<string, string>, order: seq<string>): map<string, MathFunction>
    requires forall i :: 0 <= i < |order| ==> order[i] in entries
  {
    if order == [] then funcs
    else
      var last := order[|order| - 1];
      ApplyFunc(CopiedFuncs(funcs, entries, order[..|order| - 1]), last, entries[last])
  }

  /** Listing one more name adds its entry. */
  lemma ListedSnoc<V>(entries: map<string, V>, order: seq<string>)
    requires order != [] && forall i :: 0 <= i < |order| ==> order[i] in entries
    ensures Listed(entries, order)
         == Listed(entries, order[..|order| - 1])[order[|order| - 1] := entries[order[|order| - 1]]]
  {
    var init := order[..|order| - 1];
    var last := order[|order| - 1];
    var a := Listed(entries, order);
    var b := Listed(entries, init)[last := entries[last]];
    forall k ensures (k in a <==> k in b) && (k in a ==> a[k] == b[k]) {
      ListedHolds(entries, order, k);
      ListedHolds(entries, init, k);
      assert order == init + [last];
      assert k in order <==> k in init || k == last;
    }
  }

  /**
    Applying distinct entries one after the other sets every variable a
    "v" entry names and keeps the others.
  */
  lemma {:induction false} CopiedVarsHolds(vars: map<string, real>, entries: map<string, string>, order: seq<string>, m: Libm)
    requires forall i :: 0 <= i < |order| ==> order[i] in entries
    requires forall i, j :: 0 <= i < j < |order| ==> order[i] != order[j]
    ensures VarsCopied(vars, CopiedVars(vars, entries, order, m), Listed(entries, order), m)
    decreases |order|
  {
    if order == [] {
      assert Listed(entries, order) == map[];
    } else {
      var init := order[..|order| - 1];
      var last := order[|order| - 1];
      CopiedVarsHolds(vars, entries, init, m);
      ListedHolds(entries, init, last);
      assert last !in init;
      ListedSnoc(entries, order);
      CopyVarStep(vars, CopiedVars(vars, entries, init, m), Listed(entries, init), last, entries[last], m);
    }
  }

  /**
    Applying distinct entries one after the other sets every function an
    "f" entry names and keeps the others.
  */
  lemma {:induction false} CopiedFuncsHolds(funcs: map<string, MathFunction>, entries: map<string, string>, order: seq<string>)
    requires forall i :: 0 <= i < |order| ==> order[i] in entries
    requires forall i, j :: 0 <= i < j < |order| ==> order[i] != order[j]
    ensures FuncsCopied(funcs, CopiedFuncs(funcs, entries, order), Listed(entries, order))
    decreases |order|
  {
    if order == [] {
      assert Listed(entries, order) == map[];
    } else {
      var init := order[..|order| - 1];
      var last := order[|order| - 1];
      CopiedFuncsHolds(funcs, entries, init);
      ListedHolds(entries, init, last);
      assert last !in init;
      ListedSnoc(entries, order);
      CopyFuncStep(funcs, CopiedFuncs(funcs, entries, init), Listed(entries, init), last, entries[last]);
    }
  }

  /** What copyToCalculator leaves, entry by entry: the entries set what they name, and the rest stays. */
  lemma CopiedHolds(vars: map<string, real>, funcs: map<string, MathFunction>, entries: map<string, string>, order: seq<string>, m: Libm)
    requires Enumerates(entries, order)
    ensures VarsCopied(vars, CopiedVars(vars, entries, order, m), entries, m)
    ensures FuncsCopied(funcs, CopiedFuncs(funcs, entries, order), entries)
  {
    CopiedVarsHolds(vars, entries, order, m);
    CopiedFuncsHolds(funcs, entries, order);
    ListedAll(entries, order);
    assert Listed(entries, order) == entries;
  }

  /** The prefix and the name after it make up a key. */
  lemma Unprefixed(c: char, name: string)
    ensures ([c] + name)[0] == c && NameOf([c] + name) == name
  {
  }

  /**
    Copying settings made from a calculator into a calculator restores
    every variable name and every user-defined function, and reports
    success.
  */
  lemma SourceCopiedBack(e: map<string, string>, vars: map<string, real>, funcs: map<string, MathFunction>, stream: Stream,
                         vb: map<string, real>, va: map<string, real>, fb: map<string, MathFunction>, fa: map<string, MathFunction>, m: Libm)
    requires FromSource(e, vars, funcs, stream)
    requires VarsCopied(vb, va, e, m) && FuncsCopied(fb, fa, e)
    ensures AllKnown(e)
    ensures va.Keys == vb.Keys + vars.Keys
    ensures forall name :: name in funcs && funcs[name].UserDefined? ==> name in fa && fa[name] == funcs[name]
    ensures forall name :: name in fa ==> name in fb || (name in funcs && funcs[name].UserDefined?)
  {
    forall name | name in vb ensures name in va {
      Unprefixed('v', name);
      assert "v" + name == ['v'] + name;
    }
    forall name | name in vars ensures name in va {
      Unprefixed('v', name);
      assert "v" + name == ['v'] + name;
    }
    forall name | name in va && name !in vb ensures name in vars {
      Unprefixed('v', name);
      assert "v" + name == ['v'] + name;
    }
    forall name | name in funcs && funcs[name].UserDefined? ensures name in fa && fa[name] == funcs[name] {
      Unprefixed('f', name);
      assert "f" + name == ['f'] + name;
    }
    forall name | name in fa && name !in fb ensures name in funcs && funcs[name].UserDefined? {
      Unprefixed('f', name);
      assert "f" + name == ['f'] + name;
    }
  }

  /** real2str(v) as settingsFromSource calls it: the automatic notation, the default precision. */
  method WriteValue(v: real, stream: Stream) returns (text: string)
    ensures text == ValueText(v, stream)
  {
    var r := Real2Str(v, AutoOutput, -1, stream);
    text := r.value;
  }

  /** str2real(text) as copyToCalculator calls it: without errors. */
  method ReadValue(text: string, m: Libm) returns (v: real)
    ensures v == Lenient(text, m)
  {
    var r := Str2Real(text, false, m);
    LenientParse(text, m);
    v := r.value;
  }

  /** One entry applied by copyToCalculator: whether its prefix is known. */
  method CopyEntry(session: Session, key: string, text: string, m: Libm) returns (known: bool)
    modifies session
    ensures known <==> IsVarKey(key) || IsFuncKey(key)
    ensures session.vars == ApplyVar(old(session.vars), key, text, m)
    ensures session.funcs == ApplyFunc(old(session.funcs), key, text)
    ensures session.callStack == old(session.callStack)
  {
    known := true;
    if IsVarKey(key) {
      var v := ReadValue(text, m);
      var _ := session.SetVar(NameOf(key), v);
    } else if IsFuncKey(key) {
      session.SetFunction(NameOf(key), UserDefined(text));
    } else {
      known := false;
    }
  }

  /**
    settingsFromSource on one calculator, then copyToCalculator into
    another: every variable name arrives, every user-defined function
    arrives as it was, nothing else is added, and the copy reports success.
  */
  lemma SettingsRoundTrip(vars: map<string, real>, funcs: map<string, MathFunction>, stream: Stream,
                          varOrder: seq<string>, funcOrder: seq<string>, order: seq<string>,
                          vb: map<string, real>, fb: map<string, MathFunction>, m: Libm)
    requires Enumerates(vars, varOrder) && Enumerates(funcs, funcOrder)
    requires Enumerates(FuncEntries(VarEntries(map[], vars, varOrder, stream), funcs, funcOrder), order)
    ensures var e := FuncEntries(VarEntries(map[], vars, varOrder, stream), funcs, funcOrder);
      && AllKnown(e)
      && CopiedVars(vb, e, order, m).Keys == vb.Keys + vars.Keys
      && (forall name :: name in funcs && funcs[name].UserDefined? ==>
            name in CopiedFuncs(fb, e, order) && CopiedFuncs(fb, e, order)[name] == funcs[name])
      && (forall name :: name in CopiedFuncs(fb, e, order) ==> name in fb || (name in funcs && funcs[name].UserDefined?))
  {
    var e := FuncEntries(VarEntries(map[], vars, varOrder, stream), funcs, funcOrder);
    FromSourceHolds(vars, funcs, stream, varOrder, funcOrder);
    CopiedHolds(vb, fb, e, order, m);
    SourceCopiedBack(e, vars, funcs, stream, vb, CopiedVars(vb, e, order, m), fb, CopiedFuncs(fb, e, order), m);
  }

  // ---------------------------------------------------------------- the handler

  /** A settingHandler: the map it is. */
  class SettingHandler {
    var entries: map<string, string>

    constructor ()
      ensures entries == map[]
    {
      entries := map[];
    }

    /**
      settingsFromSource: cleared, then an entry for every variable and
      then for every user-defined function, each table in its map's order.
    */
    method SettingsFromSource(session: Session, stream: Stream, varOrder: seq<string>, funcOrder: seq<string>)
      requires Covers(session.vars, varOrder) && Covers(session.funcs, funcOrder)
      modifies this
      ensures entries == FuncEntries(VarEntries(map[], session.vars, varOrder, stream), session.funcs, funcOrder)
    {
      entries := map[];
      for i := 0 to |varOrder|
        invariant entries == VarEntries(map[], session.vars, varOrder[..i], stream)
      {
        var name := varOrder[i];
        var text := WriteValue(session.vars[name], stream);
        entries := entries["v" + name := text];
        assert varOrder[..i + 1][..i] == varOrder[..i];
      }
      assert varOrder[..|varOrder|] == varOrder;
      ghost var fromVars := entries;
      for i := 0 to |funcOrder|
        invariant entries == FuncEntries(fromVars, session.funcs, funcOrder[..i])
      {
        var name := funcOrder[i];
        if session.funcs[name].UserDefined? {
          entries := entries["f" + name := session.funcs[name].expression];
        }
        assert funcOrder[..i + 1][..i] == funcOrder[..i];
      }
      assert funcOrder[..|funcOrder|] == funcOrder;
    }

    /**
      copyToCalculator: every "v" entry sets a variable and every "f" entry
      a user-defined function, in the map's order; an entry with any other
      prefix makes the result false, and the others are applied all the
      same.
    */
    method CopyToCalculator(session: Session, m: Libm, order: seq<string>) returns (success: bool)
      requires Covers(entries, order)
      modifies session
      ensures session.vars == CopiedVars(old(session.vars), entries, order, m)
      ensures session.funcs == CopiedFuncs(old(session.funcs), entries, order)
      ensures success <==> AllKnown(entries)
      ensures session.callStack == old(session.callStack)
    {
      success := true;
      for i := 0 to |order|
        invariant session.vars == CopiedVars(old(session.vars), entries, order[..i], m)
        invariant session.funcs == CopiedFuncs(old(session.funcs), entries, order[..i])
        invariant success <==> forall j :: 0 <= j < i ==> IsVarKey(order[j]) || IsFuncKey(order[j])
        invariant session.callStack == old(session.callStack)
      {
        var key := order[i];
        var known := CopyEntry(session, key, entries[key], m);
        success := success && known;
        assert order[..i + 1][..i] == order[..i];
      }
      assert order[..|order|] == order;
    }

    /** loadFromFile on the file's bytes: cleared, then the entry loop of fileParserV1. */
    method LoadFromBytes(bs: seq<byte>) returns (error: Option<LoadError>)
      modifies this
      ensures (entries, error) == Load(bs)
    {
      entries := map[];
      if bs == [] || bs[0] != VERSION {
        return Some(UnknownVersion);
      }
      var p := 1;
      while p < |bs|
        invariant 1 <= p <= |bs|
        invariant LoadRecords(bs[p..], entries) == Load(bs)
        decreases |bs| - p
      {
        var name, afterName := ReadField(bs, p);
        if afterName == |bs| {
          return Some(CorruptedFile);
        }
        var value, afterValue := ReadField(bs, afterName);
        var key := FromBytes(name);
        if !IsSettingName(key) {
          return Some(CorruptedFile);
        }
        if key !in entries {
          entries := entries[key := FromBytes(value)];
        }
        p := afterValue;
      }
      error := None;
    }

    /** getline(in, field, '\0') from position p: the field, and where reading goes on. */
    static method ReadField(bs: seq<byte>, p: nat) returns (field: seq<byte>, next: nat)
      requires p < |bs|
      ensures p < next <= |bs|
      ensures (field, bs[next..]) == Field(bs[p..])
    {
      var q := p;
      while q < |bs| && bs[q] != NUL
        invariant p <= q <= |bs|
        invariant FieldLength(bs[p..]) == (q - p) + FieldLength(bs[q..])
      {
        assert bs[q..][1..] == bs[q + 1..];
        q := q + 1;
      }
      field := bs[p..q];
      assert field == bs[p..][..FieldLength(bs[p..])];
      if q < |bs| {
        next := q + 1;
        assert bs[p..][q - p + 1..] == bs[next..];
      } else {
        next := q;
      }
    }

    /** saveToFileV1 on bytes: the version byte, then every entry in the map's order. */
    method SaveToBytes(order: seq<string>) returns (bs: seq<byte>)
      requires Writable(entries) && Covers(entries, order)
      ensures bs == Encode(entries, order)
    {
      bs := [VERSION];
      var i := 0;
      while i < |order|
        invariant i <= |order|
        invariant bs + Records(entries, order[i..]) == Encode(entries, order)
      {
        assert order[i..][1..] == order[i + 1..];
        bs := bs + Record(order[i], entries[order[i]]);
        i := i + 1;
      }
    }
  }

  /** One more variable, with its entry, keeps what settingsFromSource makes. */
  lemma FromSourceAddVar(entries: map<string, string>, vars: map<string, real>, funcs: map<string, MathFunction>,
                         stream: Stream, name: string, value: real)
    requires FromSource(entries, vars, funcs, stream) && name !in vars
    ensures FromSource(entries["v" + name := ValueText(value, stream)], vars[name := value], funcs, stream)
  {
    var key := "v" + name;
    Unprefixed('v', name);
    assert key == ['v'] + name;
    forall n | n in vars ensures "v" + n != key {
      Unprefixed('v', n);
      assert "v" + n == ['v'] + n;
    }
    forall n | n in funcs && funcs[n].UserDefined? ensures "f" + n != key {
      Unprefixed('f', n);
      assert "f" + n == ['f'] + n;
    }
  }

  /** One more function, with its entry when user-defined, keeps what settingsFromSource makes. */
  lemma FromSourceAddFunc(entries: map<string, string>, vars: map<string, real>, funcs: map<string, MathFunction>,
                          stream: Stream, name: string, f: MathFunction)
    requires FromSource(entries, vars, funcs, stream) && name !in funcs
    ensures FromSource(if f.UserDefined? then entries["f" + name := f.expression] else entries, vars, funcs[name := f], stream)
  {
    var key := "f" + name;
    Unprefixed('f', name);
    assert key == ['f'] + name;
    forall n | n in vars ensures "v" + n != key {
      Unprefixed('v', n);
      assert "v" + n == ['v'] + n;
    }
    forall n | n in funcs && funcs[n].UserDefined? ensures "f" + n != key {
      Unprefixed('f', n);
      assert "f" + n == ['f'] + n;
    }
  }

  /** The entries for the variables named in order, added one after the other. */
  function VarEntries(entries: map<string, string>, vars: map<string, real>, order: seq<string>, stream: Stream): map<string, string>
    requires forall i :: 0 <= i < |order| ==> order[i] in vars
  {
    if order == [] then entries
    else
      var last := order[|order| - 1];
      VarEntries(entries, vars, order[..|order| - 1], stream)["v" + last := ValueText(vars[last], stream)]
  }

  /** The entries for the user-defined functions named in order, added one after the other. */
  function FuncEntries(entries: map<string, string>, funcs: map<string, MathFunction>, order: seq<string>): map<string, string>
    requires forall i :: 0 <= i < |order| ==> order[i] in funcs
  {
    if order == [] then entries
    else
      var last := order[|order| - 1];
      var before := FuncEntries(entries, funcs, order[..|order| - 1]);
      if funcs[last].UserDefined? then before["f" + last := funcs[last].expression] else before
  }

  /** The entries for distinct variables are what settingsFromSource makes of those variables. */
  lemma {:induction false} VarEntriesHold(vars: map<string, real>, order: seq<string>, stream: Stream)
    requires forall i :: 0 <= i < |order| ==> order[i] in vars
    requires forall i, j :: 0 <= i < j < |order| ==> order[i] != order[j]
    ensures FromSource(VarEntries(map[], vars, order, stream), Listed(vars, order), map[], stream)
    decreases |order|
  {
    if order == [] {
      assert Listed(vars, order) == map[];
    } else {
      var init := order[..|order| - 1];
      var last := order[|order| - 1];
      VarEntriesHold(vars, init, stream);
      ListedHolds(vars, init, last);
      assert last !in init;
      ListedSnoc(vars, order);
      FromSourceAddVar(VarEntries(map[], vars, init, stream), Listed(vars, init), map[], stream, last, vars[last]);
    }
  }

  /** Adding the entries for distinct functions to those of the variables keeps what settingsFromSource makes. */
  lemma {:induction false} FuncEntriesHold(entries: map<string, string>, vars: map<string, real>,
                                           funcs: map<string, MathFunction>, order: seq<string>, stream: Stream)
    requires FromSource(entries, vars, map[], stream)
    requires forall i :: 0 <= i < |order| ==> order[i] in funcs
    requires forall i, j :: 0 <= i < j < |order| ==> order[i] != order[j]
    ensures FromSource(FuncEntries(entries, funcs, order), vars, Listed(funcs, order), stream)
    decreases |order|
  {
    if order == [] {
      assert Listed(funcs, order) == map[];
    } else {
      var init := order[..|order| - 1];
      var last := order[|order| - 1];
      FuncEntriesHold(entries, vars, funcs, init, stream);
      ListedHolds(funcs, init, last);
      assert last !in init;
      ListedSnoc(funcs, order);
      FromSourceAddFunc(FuncEntries(entries, funcs, init), vars, Listed(funcs, init), stream, last, funcs[last]);
    }
  }

  /**
    What settingsFromSource leaves: an entry per variable with its printed
    value, an entry per user-defined function with its expression, and no
    other entry.
  */
  lemma FromSourceHolds(vars: map<string, real>, funcs: map<string, MathFunction>, stream: Stream,
                        varOrder: seq<string>, funcOrder: seq<string>)
    requires Enumerates(vars, varOrder) && Enumerates(funcs, funcOrder)
    ensures FromSource(FuncEntries(VarEntries(map[], vars, varOrder, stream), funcs, funcOrder), vars, funcs, stream)
  {
    VarEntriesHold(vars, varOrder, stream);
    ListedAll(vars, varOrder);
    assert Listed(vars, varOrder) == vars;
    FuncEntriesHold(VarEntries(map[], vars, varOrder, stream), vars, funcs, funcOrder, stream);
    ListedAll(funcs, funcOrder);
    assert Listed(funcs, funcOrder) == funcs;
  }

  /** Applying one more entry to the variables keeps what copyToCalculator promises for them. */
  lemma CopyVarStep(before: map<string, real>, after: map<string, real>, done: map<string, string>,
                    key: string, text: string, m: Libm)
    requires VarsCopied(before, after, done, m) && key !in done
    ensures IsVarKey(key) ==> VarsCopied(before, after[NameOf(key) := Lenient(text, m)], done[key := text], m)
    ensures !IsVarKey(key) ==> VarsCopied(before, after, done[key := text], m)
  {
    if IsVarKey(key) {
      assert "v" + NameOf(key) == key;
      forall k | k in done && IsVarKey(k) ensures NameOf(k) != NameOf(key) {
      }
    } else {
      forall n ensures "v" + n != key {
        Unprefixed('v', n);
        assert "v" + n == ['v'] + n;
      }
    }
  }

  /** Applying one more entry to the functions keeps what copyToCalculator promises for them. */
  lemma CopyFuncStep(before: map<string, MathFunction>, after: map<string, MathFunction>, done: map<string, string>,
                     key: string, text: string)
    requires FuncsCopied(before, after, done) && key !in done
    ensures IsFuncKey(key) ==> FuncsCopied(before, after[NameOf(key) := UserDefined(text)], done[key := text])
    ensures !IsFuncKey(key) ==> FuncsCopied(before, after, done[key := text])
  {
    if IsFuncKey(key) {
      assert "f" + NameOf(key) == key;
      forall k | k in done && IsFuncKey(k) ensures NameOf(k) != NameOf(key) {
      }
    } else {
      forall n ensures "f" + n != key {
        Unprefixed('f', n);
        assert "f" + n == ['f'] + n;
      }
    }
  }
}
