/**
 * The Trion syntax tree (trion/ast_nodes.py). Every node class becomes a
 * constructor; the `line`/`column` pair is kept only on the nodes whose
 * creators set it, and `Line`/`Column` give the default 0 for the rest.
 */
module TrionAst {
  import opened Common

  /** The Python values a `Literal` can hold. A float keeps its source text. */
  datatype Lit = LNull | LBool(b: bool) | LInt(i: int) | LFloat(text: string) | LStr(s: string)

  datatype Expr =
    | Literal(lit: Lit, line: int, column: int)
    | Identifier(name: string, line: int, column: int)
    | BinaryOp(left: Expr, op: string, right: Expr, line: int, column: int)
    | UnaryOp(op: string, operand: Expr, line: int, column: int)
      /** The target is always an `Identifier`; only its name is kept. */
    | Assignment(target: string, value: Expr, line: int, column: int)
    | Call(callee: Expr, args: seq<Expr>, line: int, column: int)
    | Index(array: Expr, index: Expr)
    | Member(obj: Expr, member: string, line: int, column: int)

  /**
   * A statement. `Block` bodies may hold `None`: a declaration that failed
   * with an exception leaves a hole in its block.
   */
  datatype Stmt =
    | ExprStmt(expr: Expr)
    | Block(stmts: seq<Option<Stmt>>)
    | VarDecl(name: string, init: Option<Expr>, isConst: bool, line: int, column: int)
    | If(cond: Expr, thenBranch: Stmt, elifs: seq<Elif>, elseBranch: Option<Stmt>)
    | While(cond: Expr, loopBody: Stmt)
    | For(variable: string, iterable: Expr, forBody: Stmt)
    | Return(value: Option<Expr>)
    | FuncDecl(name: string, params: seq<string>, fbody: Stmt, line: int, column: int)
    | ClassDecl(name: string, superclass: Option<string>, methods: seq<Stmt>, line: int, column: int)
    | Try(tryBlock: Stmt, catches: seq<Catch>, finallyBlock: Option<Stmt>)
    | Throw(exception: Expr)
    | Import(moduleName: string, alias: Option<string>, items: Option<seq<string>>)

  datatype Elif = Elif(cond: Expr, body: Stmt)

  /** A catch clause: the optional type name, the optional binding and the block. */
  datatype Catch = Catch(excType: Option<string>, variable: Option<string>, body: Stmt)

  datatype Program = Program(stmts: seq<Stmt>)

  function ExprLine(e: Expr): int {
    if e.Index? then 0 else e.line
  }

  function ExprColumn(e: Expr): int {
    if e.Index? then 0 else e.column
  }

  function StmtLine(s: Stmt): int {
    if s.VarDecl? || s.FuncDecl? || s.ClassDecl? then s.line else 0
  }

  function StmtColumn(s: Stmt): int {
    if s.VarDecl? || s.FuncDecl? || s.ClassDecl? then s.column else 0
  }

  /** Sizes, for termination arguments over the tree. */
  function ExprSize(e: Expr): nat {
    match e
    case Literal(_, _, _) => 1
    case Identifier(_, _, _) => 1
    case BinaryOp(l, _, r, _, _) => ExprSize(l) + ExprSize(r) + 1
    case UnaryOp(_, x, _, _) => ExprSize(x) + 1
    case Assignment(_, v, _, _) => ExprSize(v) + 1
    case Call(f, args, _, _) => ExprSize(f) + ArgsSize(args) + 1
    case Index(a, i) => ExprSize(a) + ExprSize(i) + 1
    case Member(o, _, _, _) => ExprSize(o) + 1
  }

  function ArgsSize(args: seq<Expr>): nat {
    if args == [] then 0 else ExprSize(args[0]) + ArgsSize(args[1..]) + 1
  }

  function OptExprSize(e: Option<Expr>): nat {
    if e.None? then 0 else ExprSize(e.value)
  }

  function StmtSize(s: Stmt): nat {
    match s
    case ExprStmt(e) => ExprSize(e) + 1
    case Block(b) => BodySize(b) + 1
    case VarDecl(_, init, _, _, _) => OptExprSize(init) + 1
    case If(c, t, elifs, els) =>
      ExprSize(c) + StmtSize(t) + ElifsSize(elifs) + OptStmtSize(els) + 1
    case While(c, b) => ExprSize(c) + StmtSize(b) + 2
    case For(_, it, b) => ExprSize(it) + StmtSize(b) + 2
    case Return(v) => OptExprSize(v) + 1
    case FuncDecl(_, _, _, _, _) => 1
    case ClassDecl(_, _, _, _, _) => 1
    case Try(t, cs, f) => StmtSize(t) + CatchesSize(cs) + OptStmtSize(f) + 1
    case Throw(e) => ExprSize(e) + 1
    case Import(_, _, _) => 1
  }

  function OptStmtSize(o: Option<Stmt>): nat {
    if o.None? then 0 else StmtSize(o.value)
  }

  function BodySize(b: seq<Option<Stmt>>): nat {
    if b == [] then 0 else OptStmtSize(b[0]) + BodySize(b[1..]) + 1
  }

  function ElifSize(e: Elif): nat {
    ExprSize(e.cond) + StmtSize(e.body) + 1
  }

  function ElifsSize(es: seq<Elif>): nat {
    if es == [] then 0 else ElifSize(es[0]) + ElifsSize(es[1..]) + 1
  }

  function CatchSize(c: Catch): nat {
    StmtSize(c.body) + 1
  }

  function CatchesSize(cs: seq<Catch>): nat {
    if cs == [] then 0 else CatchSize(cs[0]) + CatchesSize(cs[1..]) + 1
  }
}
