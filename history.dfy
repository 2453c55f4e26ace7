/**
  The expression history of the calculator window (trunk/calchistorydialog.cpp):
  a bounded list of earlier expressions, oldest first, and a cursor that the
  Up and Down keys move through it. The cursor is -1 when nothing is selected,
  an index into the list, or the list's size for the expression that was being
  typed when browsing started.
*/
module History {
  import opened Wrappers

  /** The history with s appended, after dropping the oldest entry when the list is full. */
  function Appended(h: seq<string>, s: string, maxSize: int): (r: seq<string>)
    requires |h| > 0 || maxSize > 0
    ensures |h| + 1 <= maxSize ==> r == h + [s]
    ensures |h| + 1 > maxSize ==> r == h[1..] + [s]
    ensures |r| > 0 && r[|r| - 1] == s
  {
    if |h| + 1 > maxSize then h[1..] + [s] else h + [s]
  }

  lemma AppendedBounded(h: seq<string>, s: string, maxSize: int)
    requires 0 < maxSize && |h| <= maxSize
    ensures |Appended(h, s, maxSize)| <= maxSize
    ensures |Appended(h, s, maxSize)| == if |h| < maxSize then |h| + 1 else maxSize
  { }

  /** Adding the expressions of xs one after the other. */
  function AddAll(h: seq<string>, xs: seq<string>, maxSize: int): seq<string>
    requires 0 < maxSize
    decreases |xs|
  {
    if xs == [] then h else AddAll(Appended(h, xs[0], maxSize), xs[1..], maxSize)
  }

  /** The last n elements of s, or all of s when it is shorter. */
  function Newest(s: seq<string>, n: nat): (r: seq<string>)
    ensures |r| == if |s| <= n then |s| else n
    ensures s == s[..|s| - |r|] + r
  {
    if |s| <= n then s else s[|s| - n..]
  }

  /** A bounded history always holds the maxSize most recent expressions, in order. */
  lemma {:induction false} AddAllKeepsNewest(h: seq<string>, xs: seq<string>, maxSize: int)
    requires 0 < maxSize && |h| <= maxSize
    ensures AddAll(h, xs, maxSize) == Newest(h + xs, maxSize)
    decreases |xs|
  {
    if xs == [] {
      assert h + xs == h;
    } else {
      var h' := Appended(h, xs[0], maxSize);
      var s := h + [xs[0]];
      AppendedIsNewest(h, xs[0], maxSize);
      AddAllKeepsNewest(h', xs[1..], maxSize);
      SplitFirst(h, xs);
      NewestShift(s, h', xs[1..], maxSize);
    }
  }

  lemma SplitFirst(h: seq<string>, xs: seq<string>)
    requires xs != []
    ensures h + xs == (h + [xs[0]]) + xs[1..]
  {
    assert xs == [xs[0]] + xs[1..];
  }

  lemma AppendedIsNewest(h: seq<string>, x: string, maxSize: int)
    requires 0 < maxSize && |h| <= maxSize
    ensures Appended(h, x, maxSize) == Newest(h + [x], maxSize)
    ensures |Appended(h, x, maxSize)| <= maxSize
  {
    if |h| + 1 > maxSize {
      assert (h + [x])[|h + [x]| - maxSize..] == h[1..] + [x];
    }
  }

  lemma NewestShift(s: seq<string>, h': seq<string>, rest: seq<string>, n: nat)
    requires 0 < n && |s| <= n + 1
    requires h' == Newest(s, n)
    ensures Newest(h' + rest, n) == Newest(s + rest, n)
  {
    if |s| == n + 1 {
      var t := s + rest;
      assert h' + rest == t[1..];
      assert t[1..][|t| - 1 - n..] == t[|t| - n..];
    }
  }

  /** The cursor after newer: from -1 to the oldest entry, and past the current expression back to the oldest. */
  function NewerPos(pos: int, size: nat): (r: int)
    requires -1 <= pos <= size
    ensures 0 <= r <= size
    ensures pos != -1 && pos < size ==> r == pos + 1
    ensures pos == -1 || pos == size ==> r == 0
  {
    if pos == -1 then 0 else if pos + 1 > size then 0 else pos + 1
  }

  /** The cursor after older: from -1 to the newest entry, and below the oldest to the current expression. */
  function OlderPos(pos: int, size: nat): (r: int)
    requires -1 <= pos <= size && size > 0
    ensures 0 <= r <= size
    ensures pos > 0 ==> r == pos - 1
    ensures pos == -1 ==> r == size - 1
    ensures pos == 0 ==> r == size
  {
    if pos == -1 then size - 1 else if pos - 1 < 0 then size else pos - 1
  }

  /** Once browsing, newer undoes older and older undoes newer. */
  lemma NewerUndoesOlder(pos: int, size: nat)
    requires 0 <= pos <= size && size > 0
    ensures NewerPos(OlderPos(pos, size), size) == pos
    ensures OlderPos(NewerPos(pos, size), size) == pos
  { }

  /** Repeating newer k times from position pos. */
  function NewerTimes(pos: int, size: nat, k: nat): (r: int)
    requires 0 <= pos <= size
    ensures 0 <= r <= size
    decreases k
  {
    if k == 0 then pos else NewerTimes(NewerPos(pos, size), size, k - 1)
  }

  /** Browsing is a cycle through the entries and the current expression: size + 1 steps come back. */
  lemma {:induction false} NewerCycles(pos: int, size: nat, k: nat)
    requires 0 <= pos <= size && k <= size + 1
    ensures NewerTimes(pos, size, k) == if pos + k <= size then pos + k else pos + k - (size + 1)
    decreases k
  {
    if k > 0 {
      NewerCycles(NewerPos(pos, size), size, k - 1);
    }
  }

  lemma NewerReturns(pos: int, size: nat)
    requires 0 <= pos <= size
    ensures NewerTimes(pos, size, size + 1) == pos
  {
    NewerCycles(pos, size, size + 1);
  }

  /** The entries of a saved section: its history_size (None when it is not an integer) and its history<i> texts. */
  datatype IniSection = IniSection(historySize: Option<int>, entry: nat -> string)

  /** The number of entries fromDiniSection loads. */
  function LoadCount(section: IniSection, maxSize: int): (n: nat)
    ensures n <= maxSize || n == 0
    ensures section.historySize.Some? && 0 < section.historySize.value && 0 < maxSize ==> 0 < n
  {
    match section.historySize
    case None => 0
    case Some(k) => if k < maxSize then (if k < 0 then 0 else k) else (if maxSize < 0 then 0 else maxSize)
  }

  class HistoryDialog {
    var history: seq<string>
    var currPos: int
    /** The text of the button for the expression typed before browsing started. */
    var currExpr: string
    const maxSize: int

    ghost predicate Valid()
      reads this
    {
      -1 <= currPos <= |history| && |history| <= maxSize
    }

    constructor (maxSize: int)
      requires 0 <= maxSize
      ensures this.maxSize == maxSize && history == [] && currPos == -1 && currExpr == ""
      ensures Valid()
    {
      this.maxSize := maxSize;
      history, currPos, currExpr := [], -1, "";
    }

    /** addPrivate: erasing the first element of an empty vector is undefined, hence the requires. */
    method AddPrivate(s: string)
      requires |history| > 0 || maxSize > 0
      modifies this
      ensures history == Appended(old(history), s, maxSize)
      ensures currPos == old(currPos) && currExpr == old(currExpr)
    {
      if |history| + 1 > maxSize {
        history := history[1..];
      }
      history := history + [s];
    }

    method ResetPos()
      modifies this
      ensures currPos == -1 && currExpr == "" && history == old(history)
    {
      currPos := -1;
      currExpr := "";
    }

    method Add(s: string)
      requires Valid() && maxSize > 0
      modifies this
      ensures history == Appended(old(history), s, maxSize)
      ensures currPos == -1 && currExpr == ""
      ensures Valid()
    {
      AddPrivate(s);
      AppendedBounded(old(history), s, maxSize);
      ResetPos();
    }

    function Get(): (r: string)
      requires Valid()
      reads this
      ensures currPos == -1 ==> r == ""
      ensures currPos == |history| ==> r == currExpr
      ensures 0 <= currPos < |history| ==> r == history[currPos]
    {
      if currPos == -1 then ""
      else if currPos == |history| then currExpr
      else history[currPos]
    }

    method Clear()
      requires Valid()
      modifies this
      ensures history == [] && currPos == -1 && currExpr == ""
      ensures Valid()
    {
      history := [];
      ResetPos();
    }

    method Newer(typed: string) returns (moved: bool)
      requires Valid()
      modifies this
      ensures history == old(history) && Valid()
      ensures moved == (history != [])
      ensures !moved ==> currPos == old(currPos) && currExpr == old(currExpr)
      ensures moved ==> currPos == NewerPos(old(currPos), |history|)
      ensures moved ==> currExpr == if old(currPos) == -1 then typed else old(currExpr)
    {
      if history == [] {
        return false;
      }
      if currPos == -1 {
        currExpr := typed;
        currPos := 0;
      } else {
        currPos := currPos + 1;
        if currPos > |history| {
          currPos := 0;
        }
      }
      return true;
    }

    method Older(typed: string) returns (moved: bool)
      requires Valid()
      modifies this
      ensures history == old(history) && Valid()
      ensures moved == (history != [])
      ensures !moved ==> currPos == old(currPos) && currExpr == old(currExpr)
      ensures moved ==> currPos == OlderPos(old(currPos), |history|)
      ensures moved ==> currExpr == if old(currPos) == -1 then typed else old(currExpr)
    {
      if history == [] {
        return false;
      }
      if currPos == -1 {
        currExpr := typed;
        currPos := |history| - 1;
      } else {
        currPos := currPos - 1;
        if currPos < 0 {
          currPos := |history|;
        }
      }
      return true;
    }

    /** fromDiniSection: clears, then loads history<i> while i < history_size and i < maxSize. */
    method FromDiniSection(section: IniSection)
      requires Valid()
      modifies this
      ensures |history| == LoadCount(section, maxSize)
      ensures forall i :: 0 <= i < |history| ==> history[i] == section.entry(i)
      ensures currPos == -1 && currExpr == ""
      ensures Valid()
    {
      Clear();
      if section.historySize.Some? {
        var historySize := section.historySize.value;
        var i := 0;
        while i < historySize && i < maxSize
          invariant 0 <= i && (i <= historySize || i == 0) && (i <= maxSize || i == 0)
          invariant |history| == i && currPos == -1 && currExpr == "" && |history| <= maxSize
          invariant forall j :: 0 <= j < i ==> history[j] == section.entry(j)
        {
          history := history + [section.entry(i)];
          i := i + 1;
        }
      }
    }
  }
}
