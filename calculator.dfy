/**
  A calculator object (calc::calc in calc/calc.h): an expression, whether
  it has been parsed, the tokens and the errors parsing produced. The
  variables and functions every calculator shares are the Session it
  refers to.
*/
module Calculator {
  import opened Wrappers
  import opened Errors
  import opened Tokens
  import opened Passes
  import opened Engine
  import Lexer
  import Validator

  /** What forceParse produces for an expression: the checked tokens and the errors found. */
  function Parsed(e: string): (seq<Token>, seq<CalcError>) {
    Validator.Validate(Lexer.Lex(e))
  }

  class Calc {
    var expr: string
    var parsed: bool
    var tokens: seq<Token>
    var errors: seq<CalcError>
    const session: Session

    /** The tokens and errors are those of the expression once it is parsed, and empty before. */
    ghost predicate Valid()
      reads this
    {
      && (parsed ==> (tokens, errors) == Parsed(expr))
      && (!parsed ==> tokens == [] && errors == [])
    }

    /** calc(expr): not parsed yet. */
    constructor (session: Session, expr: string)
      ensures Valid()
      ensures this.expr == expr && !parsed && tokens == [] && errors == []
      ensures this.session == session
    {
      this.expr := expr;
      parsed := false;
      tokens := [];
      errors := [];
      this.session := session;
    }

    /** setExpression: a new expression, to be parsed again. */
    method SetExpression(e: string)
      modifies this
      ensures Valid()
      ensures expr == e && !parsed && tokens == [] && errors == []
    {
      expr := e;
      parsed := false;
      errors := [];
      tokens := [];
    }

    /** forceParse: the expression split into tokens and checked. */
    method ForceParse()
      modifies this
      ensures Valid() && parsed && expr == old(expr)
      ensures (tokens, errors) == Parsed(expr)
    {
      tokens := [];
      errors := [];
      var lexed := Lexer.Tokenize(expr);
      tokens, errors := Validator.SearchForErrors(lexed);
      parsed := true;
    }

    /** parse: forceParse unless the expression is parsed already. */
    method Parse()
      requires Valid()
      modifies this
      ensures Valid() && parsed && expr == old(expr)
      ensures old(parsed) ==> tokens == old(tokens) && errors == old(errors)
    {
      if !parsed {
        ForceParse();
      }
    }

    /** isValidExpression: parsed, and parsing found no error. */
    predicate IsValidExpression()
      requires Valid()
      reads this
      ensures IsValidExpression() <==> parsed && Parsed(expr).1 == []
    {
      parsed && errors == []
    }

    /**
      calculate(): the expression is parsed if needed; the first parse
      error is raised without touching the variables; otherwise the tokens,
      without whitespace, go through the bracket and function passes and
      then the operator passes, the assignments and the last token. The
      calculator's own tokens are left as parsing produced them. An
      expression without brackets and function calls yields Flat.
    */
    method Calculate() returns (r: Result<real, CalcError>)
      requires Valid()
      modifies this, session
      ensures Valid() && parsed && expr == old(expr)
      ensures (tokens, errors) == Parsed(expr)
      ensures session.funcs == old(session.funcs)
      ensures errors != [] ==>
        r == Err(errors[0]) && session.vars == old(session.vars) && session.callStack == old(session.callStack)
      ensures r.Ok? ==> session.callStack == old(session.callStack)
      ensures r.Err? ==> session.callStack == old(session.callStack) || session.callStack == []
      ensures errors == [] && Plain(NoWhitespace(tokens)) ==>
        r == Flat(NoWhitespace(tokens), old(session.vars), session.libm).0
        && session.vars == Flat(NoWhitespace(tokens), old(session.vars), session.libm).1
    {
      Parse();
      if errors != [] {
        return Err(errors[0]);
      }
      var ts := DropWhitespace(tokens);
      var flat := session.Resolve(ts);
      if flat.Err? {
        return Err(flat.error);
      }
      r := session.Arithmetic(flat.value);
    }

    /** calculate(newExpr): setExpression, then calculate. */
    method CalculateExpression(e: string) returns (r: Result<real, CalcError>)
      requires Valid()
      modifies this, session
      ensures Valid() && parsed && expr == e
      ensures (tokens, errors) == Parsed(e)
      ensures session.funcs == old(session.funcs)
      ensures errors != [] ==>
        r == Err(errors[0]) && session.vars == old(session.vars) && session.callStack == old(session.callStack)
      ensures errors == [] && Plain(NoWhitespace(tokens)) ==>
        r == Flat(NoWhitespace(tokens), old(session.vars), session.libm).0
        && session.vars == Flat(NoWhitespace(tokens), old(session.vars), session.libm).1
    {
      SetExpression(e);
      r := Calculate();
    }
  }
}
