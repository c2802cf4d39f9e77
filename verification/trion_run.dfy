/**
 * `run_trion` (trion/__init__.py): lex, parse and interpret a source text,
 * stopping at the first stage that reports errors. The result is the
 * program's value, or `None` with the errors that stage prints.
 */
module TrionRun {
  import opened Common
  import opened TrionErrors
  import opened TrionTokens
  import opened TrionLexer
  import opened TrionAst
  import opened TrionParser
  import opened TrionEnv
  import opened TrionOps
  import opened TrionInterp

  /** The returned value and the errors printed on the way. */
  datatype Answer = Answer(value: Value, printed: seq<TrionError>) | Beyond(why: Stuck)

  /** The lexer's token list always satisfies what the parser relies on. */
  lemma TokensAreParsable(src: string, fname: Option<string>)
    ensures Valid(Ctx(Tokenize(src, fname).tokens, fname))
  {
  }

  function RunTrion(fuel: nat, src: string, filename: string, host: Builtins): (r: Answer)
    ensures r.Answer? && r.printed != [] ==> r.value == VNull
  {
    var lx := Tokenize(src, Some(filename));
    if HasErrors(lx.reporter) then Answer(VNull, lx.reporter.errors)
    else
      TokensAreParsable(src, Some(filename));
      var (prog, errors) := Parse(Ctx(lx.tokens, Some(filename)));
      if |errors| > 0 || prog.None? then Answer(VNull, errors)
      else
        match Interpret(fuel, prog.value, host)
        case Finished(v, errs) => Answer(if errs == [] then v else VNull, errs)
        case Unmodelled(why) => Beyond(why)
  }

  /** Lexer errors stop the run: they are printed alone and the answer is `None`. */
  lemma LexErrorsStop(fuel: nat, src: string, filename: string, host: Builtins)
    ensures var lx := Tokenize(src, Some(filename));
      HasErrors(lx.reporter) ==> RunTrion(fuel, src, filename, host) == Answer(VNull, lx.reporter.errors)
  {
  }

  /** After a clean lex, parser errors stop the run: they are printed alone and the answer is `None`. */
  lemma ParseErrorsStop(fuel: nat, src: string, filename: string, host: Builtins)
    ensures var lx := Tokenize(src, Some(filename));
      var p := Parse(Ctx(lx.tokens, Some(filename)));
      !HasErrors(lx.reporter) && |p.1| > 0 ==> RunTrion(fuel, src, filename, host) == Answer(VNull, p.1)
  {
    TokensAreParsable(src, Some(filename));
  }

  /**
   * When neither the lexer nor the parser reports anything, the parser has a
   * program and the answer is the interpreter's, from a fresh globals frame.
   */
  lemma InterpreterAnswers(fuel: nat, src: string, filename: string, host: Builtins)
    ensures var lx := Tokenize(src, Some(filename));
      var p := Parse(Ctx(lx.tokens, Some(filename)));
      !HasErrors(lx.reporter) && p.1 == [] ==>
        p.0.Some? &&
        (var i := Interpret(fuel, p.0.value, host);
         i.Finished? ==> RunTrion(fuel, src, filename, host) == Answer(if i.errors == [] then i.value else VNull, i.errors))
  {
    TokensAreParsable(src, Some(filename));
  }

  /** A run prints at most one error from the interpreter, and errors always mean `None`. */
  lemma ErrorsMeanNone(fuel: nat, src: string, filename: string, host: Builtins)
    ensures var r := RunTrion(fuel, src, filename, host);
      r.Answer? && r.printed != [] ==> r.value == VNull
    ensures var lx := Tokenize(src, Some(filename));
      var p := Parse(Ctx(lx.tokens, Some(filename)));
      var r := RunTrion(fuel, src, filename, host);
      !HasErrors(lx.reporter) && p.1 == [] && r.Answer? ==> |r.printed| <= 1
  {
    TokensAreParsable(src, Some(filename));
  }
}
