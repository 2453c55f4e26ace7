/**
  calc::searchForErrors (calc/calc.cpp): a scan over the tokens that keeps
  the set of token types accepted next and collects every error instead of
  stopping at the first. It also retypes a name followed by an opening
  bracket into the start of a function call.
*/
module Validator {
  import opened Wrappers
  import opened Errors
  import opened Tokens

  /** The scan's state: the tokens (names get retyped), the errors so far and the grammar state. */
  datatype CheckState = CheckState(
    tokens: seq<Token>,
    errors: seq<CalcError>,
    accepted: set<TokenType>,
    openBrackets: int,
    functionsOpen: seq<int>,
    last: Option<nat>,
    textPos: nat)

  /** lastToken points into the tokens. */
  predicate Valid(st: CheckState) {
    st.last.Some? ==> st.last.value < |st.tokens|
  }

  /** What may come first, and after an operator, a comma or '='. */
  function OperandStart(): set<TokenType> {
    {Real, RealReal, Name, OpenBracket}
  }

  /** What may follow an operand: an operator, a comma inside a call, ')' inside a bracket. */
  function AfterOperand(openBrackets: int, functionsOpen: seq<int>): set<TokenType> {
    {Operator} + (if |functionsOpen| > 0 then {Comma} else {}) + (if openBrackets >= 1 then {CloseBracket} else {})
  }

  function EmptyError(): CalcError {
    CalcError("Empty expression", EmptyExpression, [], [])
  }

  function UnknownTokenError(t: Token, at: int): CalcError {
    CalcError("Unknown token", UnknownToken, [t.str], [at as real])
  }

  function UnexpectedTokenError(t: Token, at: int): CalcError {
    CalcError("Unexpected token", UnexpectedToken, [t.str], [at as real])
  }

  function UnclosedError(openBrackets: int): CalcError {
    CalcError("Unclosed bracket(s)", UnclosedBracket, [], [openBrackets as real])
  }

  function Init(ts: seq<Token>): CheckState {
    CheckState(ts, if ts == [] then [EmptyError()] else [], OperandStart(), 0, [], None, 0)
  }

  /** The scan's handling of an accepted token at index i. */
  function Accept(st: CheckState, i: nat): (r: CheckState)
    requires Valid(st) && i < |st.tokens|
    ensures Valid(r) && |r.tokens| == |st.tokens| && r.errors == st.errors && r.textPos == st.textPos
  {
    var t := st.tokens[i];
    match t.kind
    case OpenBracket =>
      var ob := st.openBrackets + 1;
      if st.last.Some? && st.tokens[st.last.value].kind == Name then
        var j := st.last.value;
        st.(tokens := st.tokens[j := st.tokens[j].(kind := FunctionStart)], openBrackets := ob,
            functionsOpen := st.functionsOpen + [ob],
            accepted := {Real, RealReal, Name, CloseBracket, OpenBracket}, last := Some(i))
      else
        st.(openBrackets := ob, accepted := {Real, RealReal, Name, CloseBracket, OpenBracket}, last := Some(i))
    case CloseBracket =>
      var fo := st.functionsOpen;
      var fo' := if |fo| > 0 && fo[|fo| - 1] == st.openBrackets then fo[..|fo| - 1] else fo;
      var ob := st.openBrackets - 1;
      st.(openBrackets := ob, functionsOpen := fo', accepted := AfterOperand(ob, fo'), last := Some(i))
    case Real => st.(accepted := AfterOperand(st.openBrackets, st.functionsOpen), last := Some(i))
    case RealReal => st.(accepted := AfterOperand(st.openBrackets, st.functionsOpen), last := Some(i))
    case Name =>
      st.(accepted := {OpenBracket, AssignmentOperator} + AfterOperand(st.openBrackets, st.functionsOpen), last := Some(i))
    case _ => st.(accepted := OperandStart(), last := Some(i))
  }

  /** One iteration of searchForErrors' loop, on the token at index i. */
  function CheckStep(st: CheckState, i: nat): (r: CheckState)
    requires Valid(st) && i < |st.tokens|
    ensures Valid(r) && |r.tokens| == |st.tokens|
  {
    var t := st.tokens[i];
    var st1 := st.(textPos := st.textPos + |t.str|);
    var at := st1.textPos - |t.str|;
    if t.kind == Whitespace then st1
    else if t.kind == TokenType.Unknown then st1.(errors := st1.errors + [UnknownTokenError(t, at)])
    else if t.kind !in st1.accepted then st1.(errors := st1.errors + [UnexpectedTokenError(t, at)])
    else Accept(st1, i)
  }

  function CheckFrom(st: CheckState, i: nat): (r: CheckState)
    requires Valid(st) && i <= |st.tokens|
    ensures Valid(r) && |r.tokens| == |st.tokens|
    decreases |st.tokens| - i
  {
    if i == |st.tokens| then st else CheckFrom(CheckStep(st, i), i + 1)
  }

  /** The checks after the loop: a trailing operator, '=' or comma, and brackets left open. */
  function Finish(st: CheckState): seq<CalcError>
    requires Valid(st)
  {
    var errs :=
      if st.last.Some? && st.tokens[st.last.value].kind in {Operator, AssignmentOperator, Comma} then
        var t := st.tokens[st.last.value];
        st.errors + [UnexpectedTokenError(t, st.textPos - |t.str|)]
      else st.errors;
    if st.openBrackets >= 1 then errs + [UnclosedError(st.openBrackets)] else errs
  }

  /** searchForErrors: the retyped tokens and every error found, in order. */
  function Validate(ts: seq<Token>): (seq<Token>, seq<CalcError>) {
    var st := CheckFrom(Init(ts), 0);
    (st.tokens, Finish(st))
  }

  // ---------------------------------------------------------------------------
  // Properties of the scan

  /** A token outside the accepted set is reported and changes nothing else: the accepted set stays as it was. */
  lemma UnexpectedKeepsState(st: CheckState, i: nat)
    requires Valid(st) && i < |st.tokens|
    requires st.tokens[i].kind != Whitespace && st.tokens[i].kind != TokenType.Unknown && st.tokens[i].kind !in st.accepted
    ensures CheckStep(st, i) == st.(errors := st.errors + [UnexpectedTokenError(st.tokens[i], st.textPos)],
                                    textPos := st.textPos + |st.tokens[i].str|)
  { }

  /** An unknown token is reported with its text and position, and the scan goes on as if it were not there. */
  lemma UnknownReported(st: CheckState, i: nat)
    requires Valid(st) && i < |st.tokens| && st.tokens[i].kind == TokenType.Unknown
    ensures CheckStep(st, i) == st.(errors := st.errors + [UnknownTokenError(st.tokens[i], st.textPos)],
                                    textPos := st.textPos + |st.tokens[i].str|)
  { }

  /**
    An accepted '(' right after a name makes the name the start of a call and
    records the depth of the call's bracket; no other token changes.
  */
  lemma NameBeforeBracketIsCall(st: CheckState, i: nat)
    requires Valid(st) && i < |st.tokens| && st.tokens[i].kind == OpenBracket && OpenBracket in st.accepted
    requires st.last.Some? && st.tokens[st.last.value].kind == Name
    ensures var r := CheckStep(st, i);
      && r.tokens[st.last.value].kind == FunctionStart
      && r.tokens[st.last.value].str == st.tokens[st.last.value].str
      && (forall j :: 0 <= j < |st.tokens| && j != st.last.value ==> r.tokens[j] == st.tokens[j])
      && r.functionsOpen == st.functionsOpen + [st.openBrackets + 1]
      && r.openBrackets == st.openBrackets + 1
      && r.errors == st.errors
  { }

  /** A ')' that closes the innermost call's bracket ends the call; either way the depth drops by one. */
  lemma CloseBracketEndsCall(st: CheckState, i: nat)
    requires Valid(st) && i < |st.tokens| && st.tokens[i].kind == CloseBracket && CloseBracket in st.accepted
    ensures var r := CheckStep(st, i);
      && r.openBrackets == st.openBrackets - 1
      && r.functionsOpen == (if |st.functionsOpen| > 0 && st.functionsOpen[|st.functionsOpen| - 1] == st.openBrackets
                             then st.functionsOpen[..|st.functionsOpen| - 1] else st.functionsOpen)
      && r.accepted == AfterOperand(r.openBrackets, r.functionsOpen)
  { }

  /** One step only turns names into function starts and only adds errors. */
  lemma StepRetypes(st: CheckState, i: nat)
    requires Valid(st) && i < |st.tokens|
    ensures var r := CheckStep(st, i);
      && st.errors <= r.errors
      && forall j :: 0 <= j < |st.tokens| ==>
           r.tokens[j] == st.tokens[j] || (st.tokens[j].kind == Name && r.tokens[j] == st.tokens[j].(kind := FunctionStart))
  { }

  lemma {:induction false} CheckFromRetypes(st: CheckState, i: nat)
    requires Valid(st) && i <= |st.tokens|
    ensures var r := CheckFrom(st, i);
      && st.errors <= r.errors
      && forall j :: 0 <= j < |st.tokens| ==>
           r.tokens[j] == st.tokens[j] || (st.tokens[j].kind == Name && r.tokens[j] == st.tokens[j].(kind := FunctionStart))
    decreases |st.tokens| - i
  {
    if i < |st.tokens| {
      var st' := CheckStep(st, i);
      StepRetypes(st, i);
      CheckFromRetypes(st', i + 1);
    }
  }

  /** An unknown token still ahead of the scan is reported. */
  lemma {:induction false} CheckFromReportsUnknown(st: CheckState, i: nat, j: nat)
    requires Valid(st) && i <= j < |st.tokens| && st.tokens[j].kind == TokenType.Unknown
    ensures |CheckFrom(st, i).errors| > |st.errors|
    decreases |st.tokens| - i
  {
    var st' := CheckStep(st, i);
    StepRetypes(st, i);
    if i < j {
      assert st'.tokens[j].kind == TokenType.Unknown;
      CheckFromReportsUnknown(st', i + 1, j);
    } else {
      assert |st'.errors| > |st.errors|;
      CheckFromRetypes(st', i + 1);
    }
  }

  /** Finish adds an error for a trailing operator, '=' or comma, then one carrying the depth of open brackets. */
  lemma FinishReports(st: CheckState)
    requires Valid(st)
    ensures var trailing := st.last.Some? && st.tokens[st.last.value].kind in {Operator, AssignmentOperator, Comma};
      var open := st.openBrackets >= 1;
      var errs := Finish(st);
      && st.errors <= errs
      && |errs| == |st.errors| + (if trailing then 1 else 0) + (if open then 1 else 0)
      && (trailing ==> errs[|st.errors|].kind == UnexpectedToken && errs[|st.errors|].strs == [st.tokens[st.last.value].str])
      && (open ==> errs[|errs| - 1] == UnclosedError(st.openBrackets))
  { }

  /** searchForErrors keeps every token and only retypes names into function starts. */
  lemma ValidateRetypesOnlyNames(ts: seq<Token>)
    ensures |Validate(ts).0| == |ts|
    ensures forall j :: 0 <= j < |ts| ==>
      Validate(ts).0[j] == ts[j] || (ts[j].kind == Name && Validate(ts).0[j] == ts[j].(kind := FunctionStart))
  {
    CheckFromRetypes(Init(ts), 0);
  }

  /** An expression without errors is not empty and holds no unknown token. */
  lemma NoErrorsMeansKnownTokens(ts: seq<Token>)
    requires Validate(ts).1 == []
    ensures ts != []
    ensures forall j :: 0 <= j < |ts| ==> ts[j].kind != TokenType.Unknown
  {
    var st := CheckFrom(Init(ts), 0);
    CheckFromRetypes(Init(ts), 0);
    FinishReports(st);
    forall j | 0 <= j < |ts|
      ensures ts[j].kind != TokenType.Unknown
    {
      if ts[j].kind == TokenType.Unknown {
        CheckFromReportsUnknown(Init(ts), 0, j);
      }
    }
  }

  // ---------------------------------------------------------------------------
  // The loop

  /** The switch of searchForErrors for an accepted token: the new accepted set and bracket bookkeeping. */
  method AcceptToken(ts: seq<Token>, errors: seq<CalcError>, accepted: set<TokenType>, openBrackets: int,
                     functionsOpen: seq<int>, last: Option<nat>, textPos: nat, i: nat)
    returns (ts': seq<Token>, accepted': set<TokenType>, openBrackets': int, functionsOpen': seq<int>)
    requires Valid(CheckState(ts, errors, accepted, openBrackets, functionsOpen, last, textPos)) && i < |ts|
    ensures CheckState(ts', errors, accepted', openBrackets', functionsOpen', Some(i), textPos)
         == Accept(CheckState(ts, errors, accepted, openBrackets, functionsOpen, last, textPos), i)
  {
    ts', openBrackets', functionsOpen' := ts, openBrackets, functionsOpen;
    match ts[i].kind {
      case OpenBracket =>
        openBrackets' := openBrackets + 1;
        if last.Some? && ts[last.value].kind == Name {
          ts' := ts[last.value := ts[last.value].(kind := FunctionStart)];
          functionsOpen' := functionsOpen + [openBrackets'];
        }
        accepted' := {Real, RealReal, Name, CloseBracket, OpenBracket};
      case CloseBracket =>
        if |functionsOpen| > 0 && functionsOpen[|functionsOpen| - 1] == openBrackets {
          functionsOpen' := functionsOpen[..|functionsOpen| - 1];
        }
        openBrackets' := openBrackets - 1;
        accepted' := AfterOperand(openBrackets', functionsOpen');
      case Real =>
        accepted' := AfterOperand(openBrackets, functionsOpen);
      case RealReal =>
        accepted' := AfterOperand(openBrackets, functionsOpen);
      case Name =>
        accepted' := {OpenBracket, AssignmentOperator} + AfterOperand(openBrackets, functionsOpen);
      case _ =>
        accepted' := OperandStart();
    }
  }

  /** One iteration of searchForErrors' loop: skip whitespace, report unknown and unexpected tokens, accept the rest. */
  method CheckToken(ts: seq<Token>, errors: seq<CalcError>, accepted: set<TokenType>, openBrackets: int,
                    functionsOpen: seq<int>, last: Option<nat>, textPos: nat, i: nat)
    returns (ts': seq<Token>, errors': seq<CalcError>, accepted': set<TokenType>, openBrackets': int,
             functionsOpen': seq<int>, last': Option<nat>, textPos': nat)
    requires Valid(CheckState(ts, errors, accepted, openBrackets, functionsOpen, last, textPos)) && i < |ts|
    ensures CheckState(ts', errors', accepted', openBrackets', functionsOpen', last', textPos')
         == CheckStep(CheckState(ts, errors, accepted, openBrackets, functionsOpen, last, textPos), i)
  {
    ts', errors', accepted', openBrackets', functionsOpen', last' := ts, errors, accepted, openBrackets, functionsOpen, last;
    var t := ts[i];
    textPos' := textPos + |t.str|;
    if t.kind == Whitespace {
    } else if t.kind == TokenType.Unknown {
      errors' := errors + [UnknownTokenError(t, textPos' - |t.str|)];
    } else if t.kind !in accepted {
      errors' := errors + [UnexpectedTokenError(t, textPos' - |t.str|)];
    } else {
      ts', accepted', openBrackets', functionsOpen' := AcceptToken(ts, errors, accepted, openBrackets, functionsOpen, last, textPos', i);
      last' := Some(i);
    }
  }

  /** searchForErrors */
  method SearchForErrors(tokens: seq<Token>) returns (ts: seq<Token>, errors: seq<CalcError>)
    ensures (ts, errors) == Validate(tokens)
  {
    ts := tokens;
    errors := if tokens == [] then [EmptyError()] else [];
    var openBrackets := 0;
    var last: Option<nat> := None;
    var functionsOpen: seq<int> := [];
    var textPos: nat := 0;
    var accepted := OperandStart();
    var i := 0;
    while i < |ts|
      invariant i <= |ts| == |tokens|
      invariant Valid(CheckState(ts, errors, accepted, openBrackets, functionsOpen, last, textPos))
      invariant CheckFrom(CheckState(ts, errors, accepted, openBrackets, functionsOpen, last, textPos), i) == CheckFrom(Init(tokens), 0)
      decreases |ts| - i
    {
      ts, errors, accepted, openBrackets, functionsOpen, last, textPos :=
        CheckToken(ts, errors, accepted, openBrackets, functionsOpen, last, textPos, i);
      i := i + 1;
    }
    errors := Finish(CheckState(ts, errors, accepted, openBrackets, functionsOpen, last, textPos));
  }
}
