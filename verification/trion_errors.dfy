/**
 * Trion diagnostics (trion/errors.py): the error classes, their text
 * rendering (`TrionError.__str__`) and the `ErrorReporter` that collects them.
 */
module TrionErrors {
  import opened Common

  /** `TrionError` and its seven subclasses. */
  datatype ErrorClass =
    | BaseError | LexerError | SyntaxError | TypeError | RuntimeError
    | NameError | ValueError | ImportError

  function ClassName(c: ErrorClass): string {
    match c
    case BaseError => "TrionError"
    case LexerError => "LexerError"
    case SyntaxError => "SyntaxError"
    case TypeError => "TypeError"
    case RuntimeError => "RuntimeError"
    case NameError => "NameError"
    case ValueError => "ValueError"
    case ImportError => "ImportError"
  }

  /** An error object; each location part is optional, as in the constructor's defaults. */
  datatype TrionError = TrionError(
    cls: ErrorClass,
    message: string,
    line: Option<int>,
    column: Option<int>,
    filename: Option<string>)

  /** The location text built by `__str__`; an empty file name counts as absent. */
  function Location(e: TrionError): string {
    (if e.filename.Some? && e.filename.value != "" then "File \"" + e.filename.value + "\"" else "")
    + (if e.line.Some? then ", line " + IntToString(e.line.value) else "")
    + (if e.column.Some? then ", column " + IntToString(e.column.value) else "")
  }

  predicate HasLocation(e: TrionError) {
    (e.filename.Some? && e.filename.value != "") || e.line.Some? || e.column.Some?
  }

  /** `str(error)`. */
  function Render(e: TrionError): string {
    var loc := Location(e);
    if loc != "" then ClassName(e.cls) + ": " + loc + "\n  " + e.message
    else ClassName(e.cls) + ": " + e.message
  }

  /** The short form "Class: message" is produced exactly when no location part is present. */
  lemma RenderShortFormIffNoLocation(e: TrionError)
    ensures Render(e) == ClassName(e.cls) + ": " + e.message <==> !HasLocation(e)
  {
    if HasLocation(e) {
      assert Location(e) != "" by {
        if e.filename.Some? && e.filename.value != "" {
          assert |Location(e)| >= 7;
        } else if e.line.Some? {
          assert |Location(e)| >= 7;
        } else {
          assert |Location(e)| >= 9;
        }
      }
      assert |Render(e)| > |ClassName(e.cls) + ": " + e.message|;
    } else {
      assert Location(e) == "";
    }
  }

  /** Whatever the location, the rendering starts with the class name and ends with the message. */
  lemma RenderFrame(e: TrionError)
    ensures ClassName(e.cls) + ": " <= Render(e)
    ensures |e.message| <= |Render(e)| && Render(e)[|Render(e)| - |e.message|..] == e.message
  {
    var r := Render(e);
    if Location(e) != "" {
      assert r == (ClassName(e.cls) + ": ") + (Location(e) + "\n  " + e.message);
      assert r == (ClassName(e.cls) + ": " + Location(e) + "\n  ") + e.message;
    } else {
      assert r == (ClassName(e.cls) + ": ") + e.message;
    }
  }

  /** `ErrorReporter`: the errors and warnings recorded so far, oldest first. */
  datatype Reporter = Reporter(errors: seq<TrionError>, warnings: seq<TrionError>)

  const EmptyReporter := Reporter([], [])

  /**
   * `error`, `syntax_error`, `type_error` and `runtime_error`: each builds an
   * error of its class, appends it to the errors and returns it.
   */
  function Report(rep: Reporter, cls: ErrorClass, message: string, line: Option<int>,
                  column: Option<int>, filename: Option<string>): (r: (Reporter, TrionError))
    requires cls in {BaseError, SyntaxError, TypeError, RuntimeError}
    ensures |r.0.errors| == |rep.errors| + 1
    ensures r.0.errors[..|rep.errors|] == rep.errors && r.0.errors[|rep.errors|] == r.1
    ensures r.0.warnings == rep.warnings
    ensures r.1 == TrionError(cls, message, line, column, filename)
  {
    var e := TrionError(cls, message, line, column, filename);
    (Reporter(rep.errors + [e], rep.warnings), e)
  }

  /** `warning`: a base-class error appended to the warnings only. */
  function Warn(rep: Reporter, message: string, line: Option<int>, column: Option<int>,
                filename: Option<string>): (r: (Reporter, TrionError))
    ensures r.0.errors == rep.errors
    ensures r.0.warnings == rep.warnings + [r.1] && r.1.cls == BaseError && r.1.message == message
  {
    var w := TrionError(BaseError, message, line, column, filename);
    (Reporter(rep.errors, rep.warnings + [w]), w)
  }

  predicate HasErrors(rep: Reporter) { |rep.errors| > 0 }

  predicate HasWarnings(rep: Reporter) { |rep.warnings| > 0 }

  function Clear(rep: Reporter): (r: Reporter)
    ensures !HasErrors(r) && !HasWarnings(r)
  {
    EmptyReporter
  }

  /** After any report `has_errors` holds and `has_warnings` is unchanged; a warning never sets `has_errors`. */
  lemma ReportingAndQueries(rep: Reporter, cls: ErrorClass, m: string, l: Option<int>, c: Option<int>,
                            f: Option<string>)
    requires cls in {BaseError, SyntaxError, TypeError, RuntimeError}
    ensures HasErrors(Report(rep, cls, m, l, c, f).0)
    ensures HasWarnings(Report(rep, cls, m, l, c, f).0) == HasWarnings(rep)
    ensures HasErrors(Warn(rep, m, l, c, f).0) == HasErrors(rep) && HasWarnings(Warn(rep, m, l, c, f).0)
  {
  }
}
