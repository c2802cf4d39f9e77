/**
 * The tree-walking evaluator of trion/interpreter.py.
 *
 * Each `visit_*` method becomes a case of a pure function that takes the
 * store of frames and the id of the current frame (`self.environment`) and
 * returns an `Outcome`: a signal and the new store. Python exceptions become
 * `Faulted`, the `ReturnException` becomes `Returning`, and `Halted` marks a
 * run the model does not follow: a float, a class, attribute access, or a
 * run that exhausts its fuel. Fuel is spent on each call of a user function
 * and each iteration of a `while` loop, so every evaluation terminates.
 *
 * The six builtins (`print`, `len`, `type`, `str`, `int`, `float`) are Python
 * functions; the evaluator asks `host` for their reply.
 */
module TrionInterp {
  import opened Common
  import opened TrionErrors
  import opened TrionAst
  import opened TrionEnv
  import opened TrionOps

  datatype Outcome = Outcome(sig: Signal, store: Store)

  /** The reply of a builtin: a value, a raised exception, or a case outside the model. */
  datatype HostReply = HostValue(v: Value) | HostRaise(f: Fault) | HostUnknown

  type Builtins = (string, seq<Value>) -> HostReply

  /** Argument lists evaluate left to right and stop at the first non-normal signal. */
  datatype Evals = Values(vals: seq<Value>, store: Store) | Stopped(stop: Outcome)

  /**
   * What every step preserves: the allocator never reuses an id, no frame
   * disappears or changes its parent, no binding or constant is removed, and
   * only the frames in `open` gain new names.
   */
  predicate Keeps(s: Store, t: Store, open: set<nat>) {
    Fresh(t) && s.next <= t.next &&
    forall id :: id in s.frames ==>
      id in t.frames && t.frames[id].parent == s.frames[id].parent &&
      s.frames[id].values.Keys <= t.frames[id].values.Keys &&
      s.frames[id].constants <= t.frames[id].constants &&
      (id !in open ==> t.frames[id].values.Keys == s.frames[id].values.Keys &&
                       t.frames[id].constants == s.frames[id].constants)
  }

  /** The `RuntimeError` that `visit_function_call` wraps around anything the call raises. */
  function CallFault(f: Fault, line: int, column: int): Fault {
    RuntimeAt("Error calling function: " + FaultText(f), line, column)
  }

  function LiteralValue(lit: Lit): Signal {
    match lit
    case LNull => Normal(VNull)
    case LBool(b) => Normal(VBool(b))
    case LInt(i) => Normal(VInt(i))
    case LStr(t) => Normal(VStr(t))
    case LFloat(_) => Halted(OutOfModel("float literal"))
  }

  /** The parameter loop of `TrionFunction.call`: each parameter is defined in order in the call frame. */
  function BindParams(s: Store, frame: nat, params: seq<string>, args: seq<Value>): (r: Store)
    requires frame in s.frames && |params| == |args|
    ensures r.next == s.next && r.frames.Keys == s.frames.Keys
    ensures r.frames[frame].parent == s.frames[frame].parent
    ensures r.frames[frame].constants == s.frames[frame].constants
    ensures r.frames[frame].values.Keys == s.frames[frame].values.Keys + set p | p in params
    ensures forall o :: o in s.frames && o != frame ==> r.frames[o] == s.frames[o]
    decreases |params|
  {
    if params == [] then s
    else BindParams(Define(s, frame, params[0], args[0], false), frame, params[1..], args[1..])
  }

  /**
   * Each parameter is bound to its argument; when a name repeats, the last
   * occurrence wins. Names that are not parameters keep their binding.
   */
  lemma {:induction false} BindParamsBinds(s: Store, frame: nat, params: seq<string>, args: seq<Value>)
    requires frame in s.frames && |params| == |args|
    ensures var r := BindParams(s, frame, params, args);
      forall k :: 0 <= k < |params| && params[k] !in params[k + 1..] ==> r.frames[frame].values[params[k]] == args[k]
    ensures var r := BindParams(s, frame, params, args);
      forall n :: n in s.frames[frame].values && n !in params ==> r.frames[frame].values[n] == s.frames[frame].values[n]
    decreases |params|
  {
    if params != [] {
      var s1 := Define(s, frame, params[0], args[0], false);
      BindParamsBinds(s1, frame, params[1..], args[1..]);
      forall k | 1 <= k < |params| ensures params[k] == params[1..][k - 1] && params[k + 1..] == params[1..][k..] { }
    }
  }

  /** `Environment(self.closure)` with the parameters bound: the frame a call runs in, under the id `s.next`. */
  function CallFrame(s: Store, closure: nat, params: seq<string>, args: seq<Value>): (r: Store)
    requires Fresh(s) && |params| == |args|
    ensures Fresh(r) && r.next == s.next + 1 && s.next in r.frames && s.next !in s.frames
    ensures r.frames.Keys == s.frames.Keys + {s.next}
    ensures forall o :: o in s.frames ==> r.frames[o] == s.frames[o]
  {
    var (s1, frame) := NewFrame(s, Some(closure));
    BindParams(s1, frame, params, args)
  }

  function EvalExpr(fuel: nat, s: Store, env: nat, e: Expr, host: Builtins): (r: Outcome)
    requires Fresh(s) && env in s.frames
    decreases fuel, ExprSize(e), 1
    ensures Keeps(s, r.store, {}) && !r.sig.Returning?
  {
    match e
    case Literal(lit, _, _) => Outcome(LiteralValue(lit), s)
    case Identifier(name, line, column) =>
      var g := Get(s, env, name);
      if g.Ok? then Outcome(Normal(g.value), s)
      else Outcome(Faulted(Trion(TrionError(NameError, Render(g.error), Some(line), Some(column), None))), s)
    case BinaryOp(_, _, _, _, _) => EvalPair(fuel, s, env, e, host)
    case UnaryOp(op, x, _, _) =>
      var a := EvalExpr(fuel, s, env, x, host);
      if !a.sig.Normal? then a else Outcome(UnOp(op, a.sig.v), a.store)
    case Assignment(_, _, _, _) => EvalAssign(fuel, s, env, e, host)
    case Call(_, _, _, _) => EvalCall(fuel, s, env, e, host)
    case Index(_, _) => EvalPair(fuel, s, env, e, host)
    case Member(o, _, _, _) =>
      var a := EvalExpr(fuel, s, env, o, host);
      if !a.sig.Normal? then a else Outcome(Halted(OutOfModel("attribute access")), a.store)
  }

  /** A binary operation or an indexing: both operands left to right, then the operator. */
  function EvalPair(fuel: nat, s: Store, env: nat, e: Expr, host: Builtins): (r: Outcome)
    requires Fresh(s) && env in s.frames && (e.BinaryOp? || e.Index?)
    decreases fuel, ExprSize(e), 0
    ensures Keeps(s, r.store, {}) && !r.sig.Returning?
  {
    var (l, rt) := match e case BinaryOp(x, _, y, _, _) => (x, y) case Index(x, y) => (x, y);
    var a := EvalExpr(fuel, s, env, l, host);
    if !a.sig.Normal? then a
    else
      var b := EvalExpr(fuel, a.store, env, rt, host);
      if !b.sig.Normal? then b
      else if e.BinaryOp? then Outcome(BinOp(e.op, a.sig.v, b.sig.v, e.line, e.column), b.store)
      else Outcome(IndexValue(a.sig.v, b.sig.v), b.store)
  }

  /** `visit_assignment`: the value first, then the assignment in the scope chain. */
  function EvalAssign(fuel: nat, s: Store, env: nat, e: Expr, host: Builtins): (r: Outcome)
    requires Fresh(s) && env in s.frames && e.Assignment?
    decreases fuel, ExprSize(e), 0
    ensures Keeps(s, r.store, {}) && !r.sig.Returning?
  {
    var a := EvalExpr(fuel, s, env, e.value, host);
    if !a.sig.Normal? then a
    else
      var w := Assign(a.store, env, e.target, a.sig.v);
      if w.Ok? then Outcome(a.sig, w.value) else Outcome(Faulted(RuntimeAt(Render(w.error), e.line, e.column)), a.store)
  }

  /** `visit_function_call`: the callee, the arguments left to right, then the call. */
  function EvalCall(fuel: nat, s: Store, env: nat, e: Expr, host: Builtins): (r: Outcome)
    requires Fresh(s) && env in s.frames && e.Call?
    decreases fuel, ExprSize(e), 0
    ensures Keeps(s, r.store, {}) && !r.sig.Returning?
  {
    var f := EvalExpr(fuel, s, env, e.callee, host);
    if !f.sig.Normal? then f
    else
      var xs := EvalArgs(fuel, f.store, env, e.args, host);
      if xs.Stopped? then xs.stop else CallValue(fuel, xs.store, f.sig.v, xs.vals, e.line, e.column, host)
  }

  function EvalArgs(fuel: nat, s: Store, env: nat, args: seq<Expr>, host: Builtins): (r: Evals)
    requires Fresh(s) && env in s.frames
    decreases fuel, ArgsSize(args), 0
    ensures r.Values? ==> |r.vals| == |args| && Keeps(s, r.store, {})
    ensures r.Stopped? ==> Keeps(s, r.stop.store, {}) && !r.stop.sig.Normal? && !r.stop.sig.Returning?
  {
    if args == [] then Values([], s)
    else
      var a := EvalExpr(fuel, s, env, args[0], host);
      if !a.sig.Normal? then Stopped(a)
      else
        var rest := EvalArgs(fuel, a.store, env, args[1..], host);
        if rest.Stopped? then rest else Values([a.sig.v] + rest.vals, rest.store)
  }

  /**
   * The `try` block of `visit_function_call`: a user function runs its body
   * in a new frame under its closure; a builtin replies through `host`;
   * anything else is not callable. Every exception is rewrapped.
   */
  function CallValue(fuel: nat, s: Store, f: Value, args: seq<Value>, line: int, column: int,
                     host: Builtins): (r: Outcome)
    requires Fresh(s)
    decreases fuel, 0, 0
    ensures Keeps(s, r.store, {}) && !r.sig.Returning?
  {
    match f
    case VFunc(_, _, params, body, closure) =>
      if |args| != |params| then
        var m := "Expected " + NatToString(|params|) + " arguments but got " + NatToString(|args|) + ".";
        Outcome(Faulted(CallFault(RuntimeBare(m), line, column)), s)
      else if fuel == 0 then Outcome(Halted(OutOfFuel), s)
      else
        var s2 := CallFrame(s, closure, params, args);
        if !body.Block? then
          Outcome(Faulted(CallFault(Host("AttributeError", "object has no attribute 'statements'"), line, column)), s2)
        else
          var r := ExecList(fuel - 1, s2, s.next, body.stmts, VNull, host);
          (match r.sig
           case Normal(_) => Outcome(Normal(VNull), r.store)
           case Returning(v) => Outcome(Normal(v), r.store)
           case Faulted(x) => Outcome(Faulted(CallFault(x, line, column)), r.store)
           case Halted(_) => r)
    case VBuiltin(name) =>
      (match host(name, args)
       case HostValue(v) => Outcome(Normal(v), s)
       case HostRaise(x) => Outcome(Faulted(CallFault(x, line, column)), s)
       case HostUnknown => Outcome(Halted(OutOfModel("builtin " + name)), s))
    case _ =>
      var notCallable := TrionError(TypeError, "'" + TypeName(f) + "' object is not callable", None, None, None);
      Outcome(Faulted(CallFault(Trion(notCallable), line, column)), s)
  }

  /** `execute_block`: statements in order, `None` holes skipped; the value is the last statement's. */
  function ExecList(fuel: nat, s: Store, env: nat, b: seq<Option<Stmt>>, last: Value, host: Builtins): (r: Outcome)
    requires Fresh(s) && env in s.frames
    decreases fuel, BodySize(b), 0
    ensures Keeps(s, r.store, {env})
  {
    if b == [] then Outcome(Normal(last), s)
    else if b[0].None? then ExecList(fuel, s, env, b[1..], last, host)
    else
      assert StmtSize(b[0].value) < BodySize(b);
      var a := Exec(fuel, s, env, b[0].value, host);
      if !a.sig.Normal? then a else ExecList(fuel, a.store, env, b[1..], a.sig.v, host)
  }

  function Exec(fuel: nat, s: Store, env: nat, st: Stmt, host: Builtins): (r: Outcome)
    requires Fresh(s) && env in s.frames
    decreases fuel, StmtSize(st), 1
    ensures Keeps(s, r.store, {env})
  {
    match st
    case ExprStmt(e) => EvalExpr(fuel, s, env, e, host)
    case Block(b) =>
      var (s1, frame) := NewFrame(s, Some(env));
      ExecList(fuel, s1, frame, b, VNull, host)
    case VarDecl(_, _, _, _, _) => ExecValued(fuel, s, env, st, host)
    case If(c, t, elifs, els) =>
      var a := EvalExpr(fuel, s, env, c, host);
      if !a.sig.Normal? then a
      else if IsTruthy(a.sig.v) then Exec(fuel, a.store, env, t, host)
      else ElifChain(fuel, a.store, env, elifs, els, host)
    case While(c, body) => WhileLoop(fuel, s, env, c, body, VNull, host)
    case For(_, _, _) => ExecFor(fuel, s, env, st, host)
    case Return(_) => ExecValued(fuel, s, env, st, host)
    case FuncDecl(name, params, body, _, _) =>
      var f := VFunc(s.next, name, params, body, env);
      Outcome(Normal(f), Define(s.(next := s.next + 1), env, name, f, false))
    case ClassDecl(_, _, _, _, _) => Outcome(Halted(OutOfModel("class declaration")), s)
    case Try(_, _, _) => ExecTry(fuel, s, env, st, host)
    case Throw(_) => ExecValued(fuel, s, env, st, host)
    case Import(m, _, _) => Outcome(Normal(VNull), Define(s, env, m, VStr("Module: " + m), false))
  }

  /**
   * The statements built around one optional expression: a variable
   * declaration defines its value (null without an initialiser), `return`
   * passes its value up (null without one), and `throw` raises a runtime
   * error with the value's text.
   */
  function ExecValued(fuel: nat, s: Store, env: nat, st: Stmt, host: Builtins): (r: Outcome)
    requires Fresh(s) && env in s.frames && (st.VarDecl? || st.Return? || st.Throw?)
    decreases fuel, StmtSize(st), 0
    ensures Keeps(s, r.store, {env})
  {
    match st
    case VarDecl(name, init, isConst, _, _) =>
      if init.None? then Outcome(Normal(VNull), Define(s, env, name, VNull, isConst))
      else
        var a := EvalExpr(fuel, s, env, init.value, host);
        if !a.sig.Normal? then a else Outcome(a.sig, Define(a.store, env, name, a.sig.v, isConst))
    case Return(v) =>
      if v.None? then Outcome(Returning(VNull), s)
      else
        var a := EvalExpr(fuel, s, env, v.value, host);
        if !a.sig.Normal? then a else Outcome(Returning(a.sig.v), a.store)
    case Throw(x) =>
      var a := EvalExpr(fuel, s, env, x, host);
      if !a.sig.Normal? then a
      else
        var text := PyStr(a.sig.v);
        if text.Some? then Outcome(Faulted(RuntimeAt(text.value, 0, 0)), a.store)
        else Outcome(Halted(OutOfModel("str() of a function object")), a.store)
  }

  /** The elif branches of `visit_if_statement`, then the else branch. */
  function ElifChain(fuel: nat, s: Store, env: nat, elifs: seq<Elif>, els: Option<Stmt>, host: Builtins): (r: Outcome)
    requires Fresh(s) && env in s.frames
    decreases fuel, ElifsSize(elifs) + OptStmtSize(els) + 1, 0
    ensures Keeps(s, r.store, {env})
  {
    if elifs == [] then
      assert els.Some? ==> StmtSize(els.value) == OptStmtSize(els);
      if els.Some? then Exec(fuel, s, env, els.value, host) else Outcome(Normal(VNull), s)
    else
      assert ExprSize(elifs[0].cond) + StmtSize(elifs[0].body) < ElifsSize(elifs);
      var a := EvalExpr(fuel, s, env, elifs[0].cond, host);
      if !a.sig.Normal? then a
      else if IsTruthy(a.sig.v) then Exec(fuel, a.store, env, elifs[0].body, host)
      else ElifChain(fuel, a.store, env, elifs[1..], els, host)
  }

  /** `visit_while_statement`; each iteration costs one unit of fuel. */
  function WhileLoop(fuel: nat, s: Store, env: nat, c: Expr, body: Stmt, last: Value, host: Builtins): (r: Outcome)
    requires Fresh(s) && env in s.frames
    decreases fuel, ExprSize(c) + StmtSize(body) + 1, 0
    ensures Keeps(s, r.store, {env})
  {
    var a := EvalExpr(fuel, s, env, c, host);
    if !a.sig.Normal? then a
    else if !IsTruthy(a.sig.v) then Outcome(Normal(last), a.store)
    else if fuel == 0 then Outcome(Halted(OutOfFuel), a.store)
    else
      var b := Exec(fuel, a.store, env, body, host);
      if !b.sig.Normal? then b else WhileLoop(fuel - 1, b.store, env, c, body, b.sig.v, host)
  }

  /**
   * `visit_for_statement`. Only strings are iterable among Trion values; a
   * Trion `TypeError` escaping the loop is rewrapped as "not iterable" at the
   * node's position, which the parser leaves at 0.
   */
  function ExecFor(fuel: nat, s: Store, env: nat, st: Stmt, host: Builtins): (r: Outcome)
    requires Fresh(s) && env in s.frames && st.For?
    decreases fuel, StmtSize(st), 0
    ensures Keeps(s, r.store, {env})
  {
    var a := EvalExpr(fuel, s, env, st.iterable, host);
    if !a.sig.Normal? then a
    else if a.sig.v.VStr? then
      var r := ForLoop(fuel, a.store, env, st.variable, a.sig.v.s, st.forBody, VNull, host);
      if r.sig.Faulted? && r.sig.f.Trion? && r.sig.f.err.cls == TypeError then
        Outcome(Faulted(RuntimeAt("'str' object is not iterable", 0, 0)), r.store)
      else r
    else Outcome(HostType("'" + TypeName(a.sig.v) + "' object is not iterable"), a.store)
  }

  /** One iteration per character: a loop frame binds the variable, then the body runs under it. */
  function ForLoop(fuel: nat, s: Store, env: nat, x: string, chars: string, body: Stmt, last: Value,
                   host: Builtins): (r: Outcome)
    requires Fresh(s) && env in s.frames
    decreases fuel, StmtSize(body) + 1, |chars|
    ensures Keeps(s, r.store, {env})
  {
    if chars == [] then Outcome(Normal(last), s)
    else
      var (s1, frame) := NewFrame(s, Some(env));
      var b := Exec(fuel, Define(s1, frame, x, VStr([chars[0]]), false), frame, body, host);
      if !b.sig.Normal? then b else ForLoop(fuel, b.store, env, x, chars[1..], body, b.sig.v, host)
  }

  /**
   * `visit_try_statement`: a `return` passes through; any exception runs the
   * first catch clause, or is dropped when there is none; the finally block
   * runs last and its own exception or `return` replaces the pending result.
   */
  function ExecTry(fuel: nat, s: Store, env: nat, st: Stmt, host: Builtins): (r: Outcome)
    requires Fresh(s) && env in s.frames && st.Try?
    decreases fuel, StmtSize(st), 0
    ensures Keeps(s, r.store, {env})
  {
    assert st.catches != [] ==> CatchSize(st.catches[0]) < CatchesSize(st.catches);
    assert st.finallyBlock.Some? ==> StmtSize(st.finallyBlock.value) == OptStmtSize(st.finallyBlock);
    var a := Exec(fuel, s, env, st.tryBlock, host);
    if a.sig.Halted? then a
    else
      var mid :=
        if !a.sig.Faulted? then a
        else if st.catches == [] then Outcome(Normal(VNull), a.store)
        else RunCatch(fuel, a.store, env, st.catches[0], a.sig.f, host);
      if mid.sig.Halted? || st.finallyBlock.None? then mid
      else
        var z := Exec(fuel, mid.store, env, st.finallyBlock.value, host);
        if z.sig.Normal? then Outcome(mid.sig, z.store) else z
  }

  /** A catch clause with a variable binds the exception in a frame of its own. */
  function RunCatch(fuel: nat, s: Store, env: nat, c: Catch, f: Fault, host: Builtins): (r: Outcome)
    requires Fresh(s) && env in s.frames
    decreases fuel, CatchSize(c), 0
    ensures Keeps(s, r.store, {env})
  {
    if c.variable.Some? && c.variable.value != "" then
      var (s2, frame) := CatchScope(s, env, c.variable.value, f);
      assert c.body.Block? ==> BodySize(c.body.stmts) < StmtSize(c.body);
      if c.body.Block? then ExecList(fuel, s2, frame, c.body.stmts, VNull, host)
      else Outcome(Faulted(Host("AttributeError", "object has no attribute 'statements'")), s2)
    else Exec(fuel, s, env, c.body, host)
  }

  /** The frame a catch clause runs in: new, under `env`, binding the exception to `name`. */
  function CatchScope(s: Store, env: nat, name: string, f: Fault): (r: (Store, nat))
    requires Fresh(s) && env in s.frames
    ensures Fresh(r.0) && r.1 in r.0.frames && r.1 !in s.frames && Keeps(s, r.0, {})
    ensures r.0.frames[r.1] == Frame(map[name := VError(f)], {}, Some(env))
  {
    var (s1, frame) := NewFrame(s, Some(env));
    (Define(s1, frame, name, VError(f), false), frame)
  }

  const BuiltinNames: seq<string> := ["print", "len", "type", "str", "int", "float"]

  /** `Interpreter.__init__`: frame 0 is the globals, holding the six builtins. */
  function Globals(): (r: Store)
    ensures Fresh(r) && 0 in r.frames && r.frames[0].parent.None? && r.frames[0].constants == {}
    ensures forall n :: n in BuiltinNames <==> n in r.frames[0].values
    ensures forall n :: n in BuiltinNames ==> Get(r, 0, n) == Ok(VBuiltin(n))
  {
    var values := map["print" := VBuiltin("print"), "len" := VBuiltin("len"), "type" := VBuiltin("type"),
                       "str" := VBuiltin("str"), "int" := VBuiltin("int"), "float" := VBuiltin("float")];
    Store(map[0 := Frame(values, {}, None)], 1)
  }

  /** A program's statements as a block body without holes. */
  function Lift(stmts: seq<Stmt>): (r: seq<Option<Stmt>>)
    ensures |r| == |stmts| && forall i :: 0 <= i < |stmts| ==> r[i] == Some(stmts[i])
  {
    if stmts == [] then [] else [Some(stmts[0])] + Lift(stmts[1..])
  }

  /** The result of `interpret` with the errors its reporter holds afterwards. */
  datatype Run = Finished(value: Value, errors: seq<TrionError>) | Unmodelled(why: Stuck)

  /**
   * The `except Exception` of `interpret`: the four runtime classes are
   * reported by their text, anything else as "Unexpected error".
   */
  function Reported(f: Fault): (e: TrionError)
    ensures e.cls == RuntimeError && e.line.None? && e.column.None? && e.filename.None?
  {
    if f.Trion? && f.err.cls in {RuntimeError, NameError, TypeError, ValueError} then
      TrionError(RuntimeError, Render(f.err), None, None, None)
    else TrionError(RuntimeError, "Unexpected error: " + FaultText(f), None, None, None)
  }

  /**
   * `interpret` on a fresh interpreter: `visit_program` runs the statements in
   * the globals frame; an escaping exception becomes exactly one reported
   * error and the result `None`.
   */
  function Interpret(fuel: nat, prog: Program, host: Builtins): (r: Run)
    ensures r.Finished? ==> |r.errors| <= 1
    ensures r.Finished? && |r.errors| == 1 ==> r.value == VNull && r.errors[0].cls == RuntimeError
  {
    var o := ExecList(fuel, Globals(), 0, Lift(prog.stmts), VNull, host);
    match o.sig
    case Normal(v) => Finished(v, [])
    case Faulted(f) => Finished(VNull, [Reported(f)])
    case Returning(v) =>
      var text := PyStr(v);
      if text.Some? then Finished(VNull, [Reported(Host("ReturnException", text.value))])
      else Unmodelled(OutOfModel("str() of a function object"))
    case Halted(w) => Unmodelled(w)
  }
}
