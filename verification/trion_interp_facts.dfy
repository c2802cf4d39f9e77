/**
 * Properties of the Trion evaluator: scoping, assignment, calls, the
 * try/catch/finally protocol, `throw`, loops and the top-level report.
 */
module TrionInterpFacts {
  import opened Common
  import opened TrionErrors
  import opened TrionAst
  import opened TrionEnv
  import opened TrionOps
  import opened TrionInterp

  /** The text of an error without location is "Class: message". */
  lemma RenderBare(cls: ErrorClass, m: string)
    ensures Render(TrionError(cls, m, None, None, None)) == ClassName(cls) + ": " + m
  {
    assert Location(TrionError(cls, m, None, None, None)) == "";
  }

  lemma UndefinedText(name: string)
    ensures Render(Undefined(name)) == "NameError: Undefined variable '" + name + "'."
  {
    RenderBare(NameError, "Undefined variable '" + name + "'.");
    assert "NameError" + ": " + "Undefined variable '" == "NameError: Undefined variable '";
  }

  lemma ConstantText(name: string)
    ensures Render(ConstantAssigned(name)) == "RuntimeError: Cannot assign to constant '" + name + "'."
  {
    RenderBare(RuntimeError, "Cannot assign to constant '" + name + "'.");
    assert "RuntimeError" + ": " + "Cannot assign to constant '" == "RuntimeError: Cannot assign to constant '";
  }

  /**
   * An identifier evaluates to the binding of the innermost frame that binds
   * it; with no binding in the chain it raises NameError at the identifier.
   */
  lemma IdentifierReadsInnermost(fuel: nat, s: Store, env: nat, name: string, line: int, column: int, host: Builtins)
    requires Fresh(s) && env in s.frames
    ensures var r := EvalExpr(fuel, s, env, Identifier(name, line, column), host);
      r.store == s &&
      (Unbound(s, env, name) ==>
        r.sig == Faulted(Trion(TrionError(NameError, "NameError: Undefined variable '" + name + "'.", Some(line), Some(column), None)))) &&
      (!Unbound(s, env, name) ==>
        exists k: nat :: Innermost(s, env, name, k) && r.sig == Normal(s.frames[Chain(s, env)[k]].values[name]))
  {
    GetFindsInnermost(s, env, name);
    UndefinedText(name);
  }

  /** What `visit_assignment` does once its value is computed. */
  lemma AssignmentSteps(fuel: nat, s: Store, env: nat, name: string, x: Expr, line: int, column: int, host: Builtins)
    requires Fresh(s) && env in s.frames
    requires EvalExpr(fuel, s, env, x, host).sig.Normal?
    ensures var a := EvalExpr(fuel, s, env, x, host);
      var w := Assign(a.store, env, name, a.sig.v);
      EvalExpr(fuel, s, env, Assignment(name, x, line, column), host) ==
        if w.Ok? then Outcome(a.sig, w.value) else Outcome(Faulted(RuntimeAt(Render(w.error), line, column)), a.store)
  {
  }

  /** A constant cannot be reassigned: the RuntimeError is raised at the assignment and the store is left as it was. */
  lemma AssigningConstantFails(fuel: nat, s: Store, env: nat, name: string, x: Expr, line: int, column: int, host: Builtins)
    requires Fresh(s) && env in s.frames
    requires EvalExpr(fuel, s, env, x, host).sig.Normal?
    ensures var a := EvalExpr(fuel, s, env, x, host);
      (exists k: nat :: Innermost(a.store, env, name, k) && name in a.store.frames[Chain(a.store, env)[k]].constants) <==>
        EvalExpr(fuel, s, env, Assignment(name, x, line, column), host) ==
          Outcome(Faulted(RuntimeAt("RuntimeError: Cannot assign to constant '" + name + "'.", line, column)), a.store)
  {
    var a := EvalExpr(fuel, s, env, x, host);
    AssignmentSteps(fuel, s, env, name, x, line, column, host);
    AssignConstantIffInnermostConstant(a.store, env, name, a.sig.v);
    ConstantText(name);
    UndefinedText(name);
    assert Render(Undefined(name)) != Render(ConstantAssigned(name)) by {
      assert Render(Undefined(name))[0] == 'N' && Render(ConstantAssigned(name))[0] == 'R';
    }
  }

  /** Assigning a name no frame binds raises a RuntimeError carrying the NameError text. */
  lemma AssigningUnboundFails(fuel: nat, s: Store, env: nat, name: string, x: Expr, line: int, column: int, host: Builtins)
    requires Fresh(s) && env in s.frames
    requires EvalExpr(fuel, s, env, x, host).sig.Normal?
    ensures var a := EvalExpr(fuel, s, env, x, host);
      Unbound(a.store, env, name) <==>
        EvalExpr(fuel, s, env, Assignment(name, x, line, column), host) ==
          Outcome(Faulted(RuntimeAt("NameError: Undefined variable '" + name + "'.", line, column)), a.store)
  {
    var a := EvalExpr(fuel, s, env, x, host);
    AssignmentSteps(fuel, s, env, name, x, line, column, host);
    AssignUndefinedIffUnbound(a.store, env, name, a.sig.v);
    ConstantText(name);
    UndefinedText(name);
    assert Render(Undefined(name)) != Render(ConstantAssigned(name)) by {
      assert Render(Undefined(name))[0] == 'N' && Render(ConstantAssigned(name))[0] == 'R';
    }
  }

  /** A successful assignment yields the assigned value, and reading the name afterwards gives it back. */
  lemma AssignmentReadsBack(fuel: nat, s: Store, env: nat, name: string, x: Expr, line: int, column: int, host: Builtins)
    requires Fresh(s) && env in s.frames
    requires EvalExpr(fuel, s, env, x, host).sig.Normal?
    ensures var a := EvalExpr(fuel, s, env, x, host);
      var r := EvalExpr(fuel, s, env, Assignment(name, x, line, column), host);
      r.sig.Normal? ==> r.sig == a.sig && EvalExpr(fuel, r.store, env, Identifier(name, line, column), host).sig == a.sig
  {
    var a := EvalExpr(fuel, s, env, x, host);
    AssignmentSteps(fuel, s, env, name, x, line, column, host);
    if Assign(a.store, env, name, a.sig.v).Ok? {
      AssignThenGet(a.store, env, name, a.sig.v);
    }
  }

  /**
   * Declaring a variable binds it in the current frame, shadowing any outer
   * binding. `const` makes the name constant, and a name once constant stays
   * constant even when declared again with `var`.
   */
  lemma DeclarationBindsHere(fuel: nat, s: Store, env: nat, name: string, isConst: bool, line: int, column: int,
                             host: Builtins)
    requires Fresh(s) && env in s.frames
    ensures var r := Exec(fuel, s, env, VarDecl(name, None, isConst, line, column), host);
      r.sig == Normal(VNull) && Get(r.store, env, name) == Ok(VNull) &&
      (isConst || name in s.frames[env].constants ==> name in r.store.frames[env].constants) &&
      (!isConst ==> r.store.frames[env].constants == s.frames[env].constants)
  {
  }

  /**
   * A block runs in a frame of its own, so its declarations never reach the
   * enclosing frames: no pre-existing frame gains a name or a constant.
   */
  lemma BlockDoesNotLeak(fuel: nat, s: Store, env: nat, b: seq<Option<Stmt>>, host: Builtins)
    requires Fresh(s) && env in s.frames
    ensures Keeps(s, Exec(fuel, s, env, Block(b), host).store, {})
  {
    var (s1, frame) := NewFrame(s, Some(env));
    var t := ExecList(fuel, s1, frame, b, VNull, host);
    assert frame !in s.frames;
    assert Keeps(s1, t.store, {frame});
  }

  /**
   * `visit_function_declaration` binds the name in the current frame to a
   * function whose closure is that frame.
   */
  lemma DeclaredFunctionClosesOverFrame(fuel: nat, s: Store, env: nat, name: string, params: seq<string>, body: Stmt,
                                        line: int, column: int, host: Builtins)
    requires Fresh(s) && env in s.frames
    ensures var r := Exec(fuel, s, env, FuncDecl(name, params, body, line, column), host);
      r.sig.Normal? && r.sig.v.VFunc? && r.sig.v.closure == env && r.sig.v.params == params && r.sig.v.body == body &&
      Get(r.store, env, name) == Ok(r.sig.v)
  {
  }

  /** A call with the wrong number of arguments raises before anything is bound. */
  lemma CallChecksArity(fuel: nat, s: Store, f: Value, args: seq<Value>, line: int, column: int, host: Builtins)
    requires Fresh(s) && f.VFunc? && |args| != |f.params|
    ensures CallValue(fuel, s, f, args, line, column, host) ==
      Outcome(Faulted(RuntimeAt("Error calling function: " + ("RuntimeError: " + ("Expected " + NatToString(|f.params|) +
                                " arguments but got " + NatToString(|args|) + ".")), line, column)), s)
  {
    var m := "Expected " + NatToString(|f.params|) + " arguments but got " + NatToString(|args|) + ".";
    assert CallValue(fuel, s, f, args, line, column, host) == Outcome(Faulted(CallFault(RuntimeBare(m), line, column)), s);
    RenderBare(RuntimeError, m);
    assert "RuntimeError" + ": " == "RuntimeError: ";
  }

  /** Calling a value that is neither a function nor a builtin raises "not callable", rewrapped at the call. */
  lemma CallingNonFunction(fuel: nat, s: Store, f: Value, args: seq<Value>, line: int, column: int, host: Builtins)
    requires Fresh(s) && !f.VFunc? && !f.VBuiltin?
    ensures CallValue(fuel, s, f, args, line, column, host) ==
      Outcome(Faulted(RuntimeAt("Error calling function: " + ("TypeError: " + ("'" + TypeName(f) + "' object is not callable")),
                                line, column)), s)
  {
    var m := "'" + TypeName(f) + "' object is not callable";
    var e := TrionError(TypeError, m, None, None, None);
    assert CallValue(fuel, s, f, args, line, column, host) == Outcome(Faulted(CallFault(Trion(e), line, column)), s);
    RenderBare(TypeError, m);
    assert "TypeError" + ": " == "TypeError: ";
  }

  /**
   * The frame a call runs in is new, has the closure as parent, binds
   * exactly the parameters, each to its argument (the last one wins when a
   * name repeats), and holds no constant.
   */
  lemma CallFrameBindsParameters(s: Store, closure: nat, params: seq<string>, args: seq<Value>)
    requires Fresh(s) && |params| == |args|
    ensures var r := CallFrame(s, closure, params, args);
      r.frames[s.next].parent == Some(closure) && r.frames[s.next].constants == {} &&
      r.frames[s.next].values.Keys == (set p | p in params) &&
      forall k :: 0 <= k < |args| && params[k] !in params[k + 1..] ==> r.frames[s.next].values[params[k]] == args[k]
  {
    BindParamsBinds(NewFrame(s, Some(closure)).0, s.next, params, args);
  }

  /** `return v` in a function body makes the call's value `v`, falling off the end makes it `None`, and an exception is rewrapped. */
  lemma CallReturnsBodyValue(fuel: nat, s: Store, f: Value, args: seq<Value>, line: int, column: int, host: Builtins)
    requires Fresh(s) && f.VFunc? && |args| == |f.params| && fuel > 0 && f.body.Block?
    ensures var body := ExecList(fuel - 1, CallFrame(s, f.closure, f.params, args), s.next, f.body.stmts, VNull, host);
      var r := CallValue(fuel, s, f, args, line, column, host);
      (body.sig.Returning? ==> r == Outcome(Normal(body.sig.rv), body.store)) &&
      (body.sig.Normal? ==> r == Outcome(Normal(VNull), body.store)) &&
      (body.sig.Faulted? ==> r == Outcome(Faulted(CallFault(body.sig.f, line, column)), body.store)) &&
      (body.sig.Halted? ==> r == body)
  {
  }

  /** A `return` inside a try block passes through the catch clauses; a quiet finally block keeps it. */
  lemma ReturnPassesThroughTry(fuel: nat, s: Store, env: nat, t: Stmt, cs: seq<Catch>, fin: Option<Stmt>, host: Builtins)
    requires Fresh(s) && env in s.frames
    requires Exec(fuel, s, env, t, host).sig.Returning?
    ensures var a := Exec(fuel, s, env, t, host);
      var r := Exec(fuel, s, env, Try(t, cs, fin), host);
      (fin.None? ==> r == a) &&
      (fin.Some? && Exec(fuel, a.store, env, fin.value, host).sig.Normal? ==> r.sig == a.sig)
  {
  }

  /**
   * An exception in the try block runs the first catch clause only; when it
   * names a variable, the body runs in a new frame binding that variable to
   * the exception object.
   */
  lemma CatchBindsException(fuel: nat, s: Store, env: nat, t: Stmt, cs: seq<Catch>, host: Builtins)
    requires Fresh(s) && env in s.frames
    requires Exec(fuel, s, env, t, host).sig.Faulted?
    requires |cs| > 0 && cs[0].variable.Some? && cs[0].variable.value != "" && cs[0].body.Block?
    ensures var a := Exec(fuel, s, env, t, host);
      var (s2, frame) := CatchScope(a.store, env, cs[0].variable.value, a.sig.f);
      s2.frames[frame] == Frame(map[cs[0].variable.value := VError(a.sig.f)], {}, Some(env)) &&
      Exec(fuel, s, env, Try(t, cs, None), host) == ExecList(fuel, s2, frame, cs[0].body.stmts, VNull, host)
  {
    TryRunsFirstCatch(fuel, s, env, t, cs, host);
  }

  lemma TryRunsFirstCatch(fuel: nat, s: Store, env: nat, t: Stmt, cs: seq<Catch>, host: Builtins)
    requires Fresh(s) && env in s.frames
    requires Exec(fuel, s, env, t, host).sig.Faulted? && |cs| > 0
    ensures var a := Exec(fuel, s, env, t, host);
      Exec(fuel, s, env, Try(t, cs, None), host) == RunCatch(fuel, a.store, env, cs[0], a.sig.f, host)
  {
    assert Exec(fuel, s, env, Try(t, cs, None), host) == ExecTry(fuel, s, env, Try(t, cs, None), host);
  }

  /** Without catch clauses an exception is swallowed and the statement's value is `None`. */
  lemma UncaughtIsSwallowed(fuel: nat, s: Store, env: nat, t: Stmt, host: Builtins)
    requires Fresh(s) && env in s.frames
    requires Exec(fuel, s, env, t, host).sig.Faulted?
    ensures Exec(fuel, s, env, Try(t, [], None), host) == Outcome(Normal(VNull), Exec(fuel, s, env, t, host).store)
  {
  }

  /** A finally block that raises or returns overrides whatever the try and catch parts produced. */
  lemma FinallyOverrides(fuel: nat, s: Store, env: nat, t: Stmt, cs: seq<Catch>, fin: Stmt, host: Builtins)
    requires Fresh(s) && env in s.frames
    requires Exec(fuel, s, env, t, host).sig.Normal?
    requires var z := Exec(fuel, Exec(fuel, s, env, t, host).store, env, fin, host); z.sig.Faulted? || z.sig.Returning?
    ensures var a := Exec(fuel, s, env, t, host);
      Exec(fuel, s, env, Try(t, cs, Some(fin)), host) == Exec(fuel, a.store, env, fin, host)
  {
    assert Exec(fuel, s, env, Try(t, cs, Some(fin)), host) == ExecTry(fuel, s, env, Try(t, cs, Some(fin)), host);
  }

  /** `throw` of a string raises a RuntimeError carrying that text at line 0, column 0. */
  lemma ThrowCarriesText(fuel: nat, s: Store, env: nat, m: string, line: int, column: int, host: Builtins)
    requires Fresh(s) && env in s.frames
    ensures Exec(fuel, s, env, Throw(Literal(LStr(m), line, column)), host) ==
      Outcome(Faulted(Trion(TrionError(RuntimeError, m, Some(0), Some(0), None))), s)
  {
    var st := Throw(Literal(LStr(m), line, column));
    assert EvalExpr(fuel, s, env, Literal(LStr(m), line, column), host) == Outcome(Normal(VStr(m)), s);
    assert Exec(fuel, s, env, st, host) == ExecValued(fuel, s, env, st, host);
  }

  /** A while loop whose condition is false at once runs no iteration and yields `None`. */
  lemma WhileFalseSkipsBody(fuel: nat, s: Store, env: nat, c: Expr, body: Stmt, host: Builtins)
    requires Fresh(s) && env in s.frames
    requires EvalExpr(fuel, s, env, c, host).sig.Normal? && !IsTruthy(EvalExpr(fuel, s, env, c, host).sig.v)
    ensures Exec(fuel, s, env, While(c, body), host) == Outcome(Normal(VNull), EvalExpr(fuel, s, env, c, host).store)
  {
  }

  /** Only strings are iterable: any other value raises Python's TypeError, which no Trion handler rewraps. */
  lemma ForNeedsString(fuel: nat, s: Store, env: nat, x: string, it: Expr, body: Stmt, host: Builtins)
    requires Fresh(s) && env in s.frames
    requires EvalExpr(fuel, s, env, it, host).sig.Normal? && !EvalExpr(fuel, s, env, it, host).sig.v.VStr?
    ensures var a := EvalExpr(fuel, s, env, it, host);
      Exec(fuel, s, env, For(x, it, body), host) ==
        Outcome(Faulted(Host("TypeError", "'" + TypeName(a.sig.v) + "' object is not iterable")), a.store)
  {
  }

  /**
   * `interpret` reports a Trion runtime, name, type or value error by its
   * text, and any other escaping exception as "Unexpected error"; a normal
   * run reports nothing and returns the last statement's value.
   */
  lemma InterpretReports(fuel: nat, prog: Program, host: Builtins)
    ensures var o := ExecList(fuel, Globals(), 0, Lift(prog.stmts), VNull, host);
      var r := Interpret(fuel, prog, host);
      (o.sig.Normal? <==> r.Finished? && r.errors == []) &&
      (o.sig.Normal? ==> r.value == o.sig.v) &&
      (o.sig.Faulted? && o.sig.f.Trion? && o.sig.f.err.cls in {RuntimeError, NameError, TypeError, ValueError} ==>
        r == Finished(VNull, [TrionError(RuntimeError, Render(o.sig.f.err), None, None, None)])) &&
      (o.sig.Faulted? && o.sig.f.Host? ==>
        r == Finished(VNull, [TrionError(RuntimeError, "Unexpected error: " + o.sig.f.text, None, None, None)]))
  {
  }
}
