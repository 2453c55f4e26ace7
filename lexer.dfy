/**
  The lexer of calc::forceParse (calc/calc.cpp): one pass over the
  characters of the expression with a pending real or name in a buffer.
  The step function below is the specification; Tokenize is the loop.

  As written, a whitespace character right after a name is not recognised as
  whitespace and becomes an Unknown token; the step takes a flag selecting
  that behaviour (asWritten) or the evidently intended one, in which
  whitespace after a name ends the name and is a Whitespace token.
*/
module Lexer {
  import opened Text
  import opened Tokens

  /** The tokens so far, what is being read (Unknown: nothing, Real or Name) with its text, and the position. */
  datatype LexState = LexState(tokens: seq<Token>, mode: TokenType, buffer: string, pos: nat)

  /** The text of a name token: a unary minus or a name start, then name characters. */
  predicate NameText(s: string) {
    s != [] && (s[0] == '-' || IsNameChar(s[0], true)) && forall i :: 1 <= i < |s| ==> IsNameChar(s[i], false)
  }

  /** A pending token is a real or a name with its non-empty text; nothing is pending otherwise. */
  predicate Valid(st: LexState) {
    || (st.mode == Unknown && st.buffer == [])
    || (st.mode == Real && st.buffer != [])
    || (st.mode == Name && NameText(st.buffer))
  }

  function Start(): LexState {
    LexState([], Unknown, "", 0)
  }

  /** The text of a real read so far without its sign, as isReal receives it. */
  function Unsigned(buffer: string): string {
    if |buffer| > 0 && buffer[0] == '-' then buffer[1..] else buffer
  }

  /** calc::isReal(chr, firstStrPart): whether chr can follow firstStrPart in a real. */
  predicate IsRealChar(c: char, first: string) {
    if first == [] then c == '.' || c == ':' || IsDigit(c)
    else if first[0] == '0' && |first| == 1 then
      c == 'x' || c == 'X' || c == '.' || c == ':' || c == 'e' || c == 'E' || IsDigit(c)
    else if first[0] == '0' && (first[1] == 'x' || first[1] == 'X') then IsXDigit(c)
    else c == '.' || c == ':' || c == 'e' || c == 'E' || IsDigit(c)
  }

  /** A real goes on with c: c belongs to it, or c is a sign right after its exponent letter. */
  predicate ContinuesReal(c: char, buffer: string)
    requires buffer != []
  {
    IsRealChar(c, Unsigned(buffer)) || ((c == '-' || c == '+') && (buffer[|buffer| - 1] == 'e' || buffer[|buffer| - 1] == 'E'))
  }

  /** A minus is unary at the start and after an operator, a comma, an opening bracket or '='. */
  predicate UnaryContext(tokens: seq<Token>) {
    tokens == [] || (var k := tokens[|tokens| - 1].kind; k == Operator || k == Comma || k == OpenBracket || k == AssignmentOperator)
  }

  /** The first index at or after i that does not hold whitespace, or |e|. */
  function SkipSpace(e: string, i: nat): (k: nat)
    requires i <= |e|
    ensures i <= k <= |e|
    ensures k < |e| ==> !IsSpace(e[k])
    decreases |e| - i
  {
    if i == |e| || !IsSpace(e[i]) then i else SkipSpace(e, i + 1)
  }

  /** Only whitespace lies between i and SkipSpace(e, i). */
  lemma {:induction false} SkipSpaceSkipsSpace(e: string, i: nat)
    requires i <= |e|
    ensures forall j :: i <= j < SkipSpace(e, i) ==> IsSpace(e[j])
    decreases |e| - i
  {
    if i < |e| && IsSpace(e[i]) {
      SkipSpaceSkipsSpace(e, i + 1);
    }
  }

  function Push(st: LexState, t: Token, next: nat): LexState {
    st.(tokens := st.tokens + [t], pos := next)
  }

  /** The pending real or name becomes a token. */
  function EndPending(st: LexState): LexState {
    LexState(st.tokens + [Tok(st.mode, st.buffer)], Unknown, "", st.pos)
  }

  /** A character no token starts with: forceParse turns it into an Unknown token of its own. */
  predicate Stray(c: char) {
    !IsOperator(c) && !IsRealChar(c, "") && !IsNameChar(c, true) && c != '(' && c != ')' && c != ','
  }

  /** Reading the character at st.pos with nothing pending: operators, the unary minus and token starts. */
  function Begin(e: string, st: LexState): (r: LexState)
    requires st.pos < |e| && st.mode == Unknown && st.buffer == []
    ensures Valid(r) && st.pos < r.pos <= |e|
  {
    var c := e[st.pos];
    var next := st.pos + 1;
    if IsOperator(c) then
      if c == '-' then
        if !UnaryContext(st.tokens) then Push(st, Tok(Operator, "-"), next)
        else
          var k := SkipSpace(e, next);
          if k == |e| then Push(st, Tok(Operator, "-"), next)
          else if IsRealChar(e[k], "") then st.(mode := Real, buffer := "-", pos := next)
          else if IsNameChar(e[k], true) then st.(mode := Name, buffer := "-", pos := next)
          else if e[k] == '(' then Push(st, Tok(OpenBracket, "-("), k + 1)
          else Push(st, Tok(Operator, "-"), next)
      else if c == '=' then Push(st, Tok(AssignmentOperator, "="), next)
      else Push(st, Tok(Operator, [c]), next)
    else if IsRealChar(c, "") then st.(mode := Real, buffer := [c], pos := next)
    else if IsNameChar(c, true) then st.(mode := Name, buffer := [c], pos := next)
    else if c == '(' then Push(st, Tok(OpenBracket, "("), next)
    else if c == ')' then Push(st, Tok(CloseBracket, ")"), next)
    else if c == ',' then Push(st, Tok(Comma, ","), next)
    else Push(st, Tok(Unknown, [c]), next)
  }

  /** One iteration of forceParse's loop. */
  function Step(e: string, st: LexState, asWritten: bool): (r: LexState)
    requires Valid(st) && st.pos < |e|
    ensures Valid(r) && st.pos < r.pos <= |e|
  {
    var c := e[st.pos];
    if st.mode == Name && IsNameChar(c, false) then
      st.(buffer := st.buffer + [c], pos := st.pos + 1)
    else
      var st1 := if st.mode == Name then EndPending(st) else st;
      if IsSpace(c) && (st.mode != Name || !asWritten) then Push(st1, Tok(Whitespace, [c]), st.pos + 1)
      else if st1.mode == Real && ContinuesReal(c, st1.buffer) then st1.(buffer := st1.buffer + [c], pos := st.pos + 1)
      else Begin(e, if st1.mode == Real then EndPending(st1) else st1)
  }

  /** The pending token, if any, is added when the expression ends. */
  function Flush(st: LexState): seq<Token> {
    if st.mode != Unknown then st.tokens + [Tok(st.mode, st.buffer)] else st.tokens
  }

  function Run(e: string, st: LexState, asWritten: bool): seq<Token>
    requires Valid(st) && st.pos <= |e|
    decreases |e| - st.pos
  {
    if st.pos == |e| then Flush(st) else Run(e, Step(e, st, asWritten), asWritten)
  }

  /** The tokens of e, whitespace after a name being whitespace. */
  function Lex(e: string): seq<Token> {
    Run(e, Start(), false)
  }

  /** The tokens forceParse produces for e as written. */
  function LexAsWritten(e: string): seq<Token> {
    Run(e, Start(), true)
  }

  // ---------------------------------------------------------------------------
  // What the lexer produces

  /** The shapes of the tokens the lexer makes; it never makes a RealReal or a FunctionStart. */
  predicate LexToken(t: Token, asWritten: bool) {
    match t.kind
    case Unknown => |t.str| == 1 && Stray(t.str[0]) && (asWritten || !IsSpace(t.str[0]))
    case Whitespace => |t.str| == 1 && IsSpace(t.str[0])
    case Operator => |t.str| == 1 && IsOperator(t.str[0]) && t.str[0] != '='
    case AssignmentOperator => t.str == "="
    case OpenBracket => t.str == "(" || t.str == "-("
    case CloseBracket => t.str == ")"
    case Comma => t.str == ","
    case Name => NameText(t.str)
    case Real => t.str != []
    case RealReal => false
    case FunctionStart => false
  }

  predicate AllLexTokens(ts: seq<Token>, asWritten: bool) {
    forall i :: 0 <= i < |ts| ==> LexToken(ts[i], asWritten)
  }

  lemma AppendLexToken(ts: seq<Token>, t: Token, asWritten: bool)
    requires AllLexTokens(ts, asWritten) && LexToken(t, asWritten)
    ensures AllLexTokens(ts + [t], asWritten)
  {
    assert forall i :: 0 <= i < |ts| ==> (ts + [t])[i] == ts[i];
  }

  lemma BeginShapes(e: string, st: LexState, asWritten: bool)
    requires st.pos < |e| && st.mode == Unknown && st.buffer == []
    requires asWritten || !IsSpace(e[st.pos])
    requires AllLexTokens(st.tokens, asWritten)
    ensures AllLexTokens(Begin(e, st).tokens, asWritten)
  {
    var c := e[st.pos];
    var r := Begin(e, st);
    if r.tokens != st.tokens {
      assert r.tokens == st.tokens + [r.tokens[|r.tokens| - 1]];
      if !IsOperator(c) && !IsRealChar(c, "") && !IsNameChar(c, true) && c != '(' && c != ')' && c != ',' {
        assert r.tokens[|r.tokens| - 1] == Tok(Unknown, [c]);
      }
      AppendLexToken(st.tokens, r.tokens[|r.tokens| - 1], asWritten);
    }
  }

  lemma StepShapes(e: string, st: LexState, asWritten: bool)
    requires Valid(st) && st.pos < |e| && AllLexTokens(st.tokens, asWritten)
    ensures AllLexTokens(Step(e, st, asWritten).tokens, asWritten)
  {
    var c := e[st.pos];
    if !(st.mode == Name && IsNameChar(c, false)) {
      var st1 := if st.mode == Name then EndPending(st) else st;
      if st.mode == Name {
        AppendLexToken(st.tokens, Tok(Name, st.buffer), asWritten);
      }
      if IsSpace(c) && (st.mode != Name || !asWritten) {
        AppendLexToken(st1.tokens, Tok(Whitespace, [c]), asWritten);
      } else if !(st1.mode == Real && ContinuesReal(c, st1.buffer)) {
        var st2 := if st1.mode == Real then EndPending(st1) else st1;
        if st1.mode == Real {
          AppendLexToken(st1.tokens, Tok(Real, st1.buffer), asWritten);
        }
        BeginShapes(e, st2, asWritten);
      }
    }
  }

  lemma {:induction false} RunShapes(e: string, st: LexState, asWritten: bool)
    requires Valid(st) && st.pos <= |e| && AllLexTokens(st.tokens, asWritten)
    ensures AllLexTokens(Run(e, st, asWritten), asWritten)
    decreases |e| - st.pos
  {
    if st.pos == |e| {
      if st.mode != Unknown {
        AppendLexToken(st.tokens, Tok(st.mode, st.buffer), asWritten);
      }
    } else {
      StepShapes(e, st, asWritten);
      RunShapes(e, Step(e, st, asWritten), asWritten);
    }
  }

  /**
    Lexing never fails and only makes tokens of the shapes above: in
    particular an Unknown token is a single character no other token starts
    with, and with whitespace after names handled, never whitespace.
  */
  lemma LexShapes(e: string)
    ensures AllLexTokens(Lex(e), false)
    ensures AllLexTokens(LexAsWritten(e), true)
  {
    RunShapes(e, Start(), false);
    RunShapes(e, Start(), true);
  }

  /** With nothing pending, a character no token starts with becomes an Unknown token of its own. */
  lemma StrayIsUnknown(e: string, st: LexState, asWritten: bool)
    requires Valid(st) && st.pos < |e| && st.mode == Unknown
    requires Stray(e[st.pos]) && !IsSpace(e[st.pos])
    ensures Step(e, st, asWritten) == Push(st, Tok(Unknown, [e[st.pos]]), st.pos + 1)
  { }

  /** Outside a unary context a minus is a binary operator token. */
  lemma MinusIsBinary(e: string, st: LexState, asWritten: bool)
    requires Valid(st) && st.pos < |e| && e[st.pos] == '-' && st.mode == Unknown
    requires !UnaryContext(st.tokens)
    ensures Step(e, st, asWritten) == Push(st, Tok(Operator, "-"), st.pos + 1)
  { }

  /** A minus right after a name, or after a real that does not end in an exponent letter, is binary. */
  lemma MinusAfterOperand(e: string, st: LexState, asWritten: bool)
    requires Valid(st) && st.pos < |e| && e[st.pos] == '-'
    requires st.mode == Name || (st.mode == Real && st.buffer[|st.buffer| - 1] != 'e' && st.buffer[|st.buffer| - 1] != 'E')
    ensures Step(e, st, asWritten) == Push(EndPending(st), Tok(Operator, "-"), st.pos + 1)
  {
    assert !IsRealChar('-', Unsigned(st.buffer));
  }

  /**
    In a unary context a minus followed (possibly after whitespace) by a
    real, a name or '(' is not a token of its own: it starts the real or the
    name, or makes the bracket a "-(" bracket. Otherwise it is an operator.
  */
  lemma MinusIsUnary(e: string, st: LexState, asWritten: bool)
    requires Valid(st) && st.pos < |e| && e[st.pos] == '-' && st.mode == Unknown
    requires UnaryContext(st.tokens)
    ensures var k := SkipSpace(e, st.pos + 1);
      var r := Step(e, st, asWritten);
      if k < |e| && (IsRealChar(e[k], "") || IsNameChar(e[k], true)) then
        r.tokens == st.tokens && r.buffer == "-" && r.pos == st.pos + 1 &&
        r.mode == (if IsRealChar(e[k], "") then Real else Name)
      else if k < |e| && e[k] == '(' then
        r == Push(st, Tok(OpenBracket, "-("), k + 1)
      else
        r == Push(st, Tok(Operator, "-"), st.pos + 1)
  {
    assert Step(e, st, asWritten) == Begin(e, st);
    var k := SkipSpace(e, st.pos + 1);
    if k == |e| {
      assert Begin(e, st) == Push(st, Tok(Operator, "-"), st.pos + 1);
    } else if IsRealChar(e[k], "") {
      assert Begin(e, st) == st.(mode := Real, buffer := "-", pos := st.pos + 1);
    } else if IsNameChar(e[k], true) {
      assert Begin(e, st) == st.(mode := Name, buffer := "-", pos := st.pos + 1);
    }
  }

  /**
    As written, "a +1" holds an Unknown token where the space is, so the
    expression is rejected.
  */
  lemma SpaceAfterNameAsWritten()
    ensures LexAsWritten("a +1") == [Tok(Name, "a"), Tok(Unknown, " "), Tok(Operator, "+"), Tok(Real, "1")]
  {
    var e := "a +1";
    var s1 := LexState([], Name, "a", 1);
    assert Step(e, Start(), true) == s1;
    var s2 := LexState([Tok(Name, "a"), Tok(Unknown, " ")], Unknown, "", 2);
    assert Step(e, s1, true) == s2;
    var s3 := Push(s2, Tok(Operator, "+"), 3);
    assert Step(e, s2, true) == s3;
    var s4 := s3.(mode := Real, buffer := "1", pos := 4);
    assert Step(e, s3, true) == s4;
  }

  /** With whitespace after names handled, the space in "a +1" is whitespace. */
  lemma SpaceAfterNameFixed()
    ensures Lex("a +1") == [Tok(Name, "a"), Tok(Whitespace, " "), Tok(Operator, "+"), Tok(Real, "1")]
  {
    var e := "a +1";
    var s1 := LexState([], Name, "a", 1);
    assert Step(e, Start(), false) == s1;
    var s2 := LexState([Tok(Name, "a"), Tok(Whitespace, " ")], Unknown, "", 2);
    assert Step(e, s1, false) == s2;
    var s3 := Push(s2, Tok(Operator, "+"), 3);
    assert Step(e, s2, false) == s3;
    var s4 := s3.(mode := Real, buffer := "1", pos := 4);
    assert Step(e, s3, false) == s4;
  }

  // ---------------------------------------------------------------------------
  // The loop

  /** The classification part of forceParse's loop body, with the unary-minus look-ahead. */
  method ReadToken(e: string, tokens: seq<Token>, pos: nat) returns (tokens': seq<Token>, mode: TokenType, buffer: string, next: nat)
    requires pos < |e|
    ensures LexState(tokens', mode, buffer, next) == Begin(e, LexState(tokens, Unknown, "", pos))
  {
    var c := e[pos];
    tokens', mode, buffer, next := tokens, Unknown, "", pos + 1;
    if IsOperator(c) {
      if c == '-' {
        var unary := tokens == [];
        if !unary {
          var kind := tokens[|tokens| - 1].kind;
          if kind == Operator || kind == Comma || kind == OpenBracket || kind == AssignmentOperator {
            unary := true;
          } else {
            tokens' := tokens + [Tok(Operator, "-")];
          }
        }
        if unary {
          var k := pos + 1;
          while k < |e| && IsSpace(e[k])
            invariant pos + 1 <= k <= |e|
            invariant SkipSpace(e, k) == SkipSpace(e, pos + 1)
          {
            k := k + 1;
          }
          if k == |e| {
            tokens' := tokens + [Tok(Operator, "-")];
          } else if IsRealChar(e[k], "") {
            mode, buffer := Real, "-";
          } else if IsNameChar(e[k], true) {
            mode, buffer := Name, "-";
          } else if e[k] == '(' {
            tokens' := tokens + [Tok(OpenBracket, "-(")];
            next := k + 1;
          } else {
            tokens' := tokens + [Tok(Operator, "-")];
          }
        }
      } else if c == '=' {
        tokens' := tokens + [Tok(AssignmentOperator, "=")];
      } else {
        tokens' := tokens + [Tok(Operator, [c])];
      }
    } else if IsRealChar(c, "") {
      mode, buffer := Real, [c];
    } else if IsNameChar(c, true) {
      mode, buffer := Name, [c];
    } else if c == '(' {
      tokens' := tokens + [Tok(OpenBracket, "(")];
    } else if c == ')' {
      tokens' := tokens + [Tok(CloseBracket, ")")];
    } else if c == ',' {
      tokens' := tokens + [Tok(Comma, ",")];
    } else {
      tokens' := tokens + [Tok(Unknown, [c])];
    }
  }

  /** forceParse's lexing loop, whitespace after a name ending the name. */
  method Tokenize(e: string) returns (tokens: seq<Token>)
    ensures tokens == Lex(e)
  {
    tokens := [];
    var mode := Unknown;
    var buffer := "";
    var pos := 0;
    while pos < |e|
      invariant pos <= |e| && Valid(LexState(tokens, mode, buffer, pos))
      invariant Run(e, LexState(tokens, mode, buffer, pos), false) == Lex(e)
      decreases |e| - pos
    {
      ghost var st := LexState(tokens, mode, buffer, pos);
      var c := e[pos];
      if mode == Name {
        if IsNameChar(c, false) {
          buffer := buffer + [c];
          pos := pos + 1;
          assert LexState(tokens, mode, buffer, pos) == Step(e, st, false);
          continue;
        }
        tokens := tokens + [Tok(Name, buffer)];
        mode := Unknown;
        buffer := "";
      }
      if IsSpace(c) {
        tokens := tokens + [Tok(Whitespace, [c])];
        pos := pos + 1;
        assert LexState(tokens, mode, buffer, pos) == Step(e, st, false);
        continue;
      }
      if mode == Real {
        if ContinuesReal(c, buffer) {
          buffer := buffer + [c];
          pos := pos + 1;
          assert LexState(tokens, mode, buffer, pos) == Step(e, st, false);
          continue;
        }
        tokens := tokens + [Tok(Real, buffer)];
        mode := Unknown;
        buffer := "";
      }
      tokens, mode, buffer, pos := ReadToken(e, tokens, pos);
      assert LexState(tokens, mode, buffer, pos) == Step(e, st, false);
    }
    if mode != Unknown {
      tokens := tokens + [Tok(mode, buffer)];
    }
  }
}
