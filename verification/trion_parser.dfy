/**
 * The Trion recursive-descent parser (trion/parser.py). Parser state is the
 * cursor into the token list and the parser's own error list; every parse
 * function returns the node it built and the state after it, or `Raised`
 * when a literal conversion (`int()`/`float()`) threw, which only
 * `declaration` catches.
 */
module TrionParser {
  import opened Common
  import opened TrionTokens
  import opened TrionErrors
  import opened TrionAst

  /** The token list and the file name the parser was built with. */
  datatype Ctx = Ctx(toks: seq<Token>, file: Option<string>)

  /** The parser relies on the lexer's guarantee: the list ends in EOF. */
  predicate Valid(cx: Ctx) {
    |cx.toks| > 0 && cx.toks[|cx.toks| - 1].kind == EOF
  }

  datatype PState = PState(pos: nat, errors: seq<TrionError>)

  datatype Res<T> = Parsed(value: T, st: PState) | Raised(st: PState)

  predicate In(cx: Ctx, st: PState) {
    Valid(cx) && st.pos < |cx.toks|
  }

  /** A later parser state: the cursor has not moved back and errors were only appended. */
  predicate Moves(cx: Ctx, st: PState, st2: PState) {
    st.pos <= st2.pos < |cx.toks| && st.errors <= st2.errors
  }

  /** A parse step that starts on a real token consumes it. */
  predicate Progress(cx: Ctx, st: PState, st2: PState)
    requires st.pos < |cx.toks|
  {
    cx.toks[st.pos].kind != EOF ==> st2.pos > st.pos
  }

  function Peek(cx: Ctx, st: PState): Token
    requires In(cx, st)
  {
    cx.toks[st.pos]
  }

  predicate AtEnd(cx: Ctx, st: PState)
    requires In(cx, st)
  {
    Peek(cx, st).kind == EOF
  }

  /** `previous`: index -1 wraps to the last token, as Python indexing does. */
  function Previous(cx: Ctx, st: PState): Token
    requires In(cx, st)
  {
    if st.pos == 0 then cx.toks[|cx.toks| - 1] else cx.toks[st.pos - 1]
  }

  /** `advance`: the cursor never moves past the EOF token. */
  function Advance(cx: Ctx, st: PState): (r: PState)
    requires In(cx, st)
    ensures In(cx, r) && Moves(cx, st, r) && r.errors == st.errors
    ensures r.pos == if AtEnd(cx, st) then st.pos else st.pos + 1
  {
    if AtEnd(cx, st) then st else PState(st.pos + 1, st.errors)
  }

  predicate Check(cx: Ctx, st: PState, t: TokenType)
    requires In(cx, st)
  {
    !AtEnd(cx, st) && Peek(cx, st).kind == t
  }

  /** `match(*types)`: whether the current token has one of the kinds (`advance` is done by the caller). */
  predicate Matches(cx: Ctx, st: PState, ks: set<TokenType>)
    requires In(cx, st)
  {
    !AtEnd(cx, st) && Peek(cx, st).kind in ks
  }

  function SyntaxErr(cx: Ctx, st: PState, message: string, at: Token): (r: PState)
    ensures r.pos == st.pos && r.errors == st.errors + [TrionError(SyntaxError, message, Some(at.line), Some(at.column), cx.file)]
  {
    PState(st.pos, st.errors + [TrionError(SyntaxError, message, Some(at.line), Some(at.column), cx.file)])
  }

  /**
   * `consume`: on a match the token is taken; otherwise exactly one syntax
   * error is recorded at the current token, which is returned without advancing.
   */
  function Consume(cx: Ctx, st: PState, t: TokenType, message: string): (r: (Token, PState))
    requires In(cx, st)
    ensures In(cx, r.1) && Moves(cx, st, r.1) && r.0 == Peek(cx, st)
    ensures Check(cx, st, t) ==> r.1 == PState(st.pos + 1, st.errors)
    ensures !Check(cx, st, t) ==> r.1.pos == st.pos
    ensures !Check(cx, st, t) ==> r.1.errors == st.errors + [TrionError(SyntaxError, message, Some(r.0.line), Some(r.0.column), cx.file)]
  {
    if Check(cx, st, t) then (Peek(cx, st), Advance(cx, st))
    else (Peek(cx, st), SyntaxErr(cx, st, message, Peek(cx, st)))
  }

  /** The kinds `synchronize` stops in front of. */
  const SyncKinds: set<TokenType> := {CLASS, FUNCTION, LET, CONST, FOR, IF, WHILE, RETURN, TRY}

  /** Where `synchronize` may stop: at EOF, just after a `;`, or before a statement keyword. */
  predicate SyncStop(cx: Ctx, k: nat)
    requires Valid(cx) && k < |cx.toks|
  {
    var prev := if k == 0 then cx.toks[|cx.toks| - 1] else cx.toks[k - 1];
    cx.toks[k].kind == EOF || prev.kind == SEMICOLON || cx.toks[k].kind in SyncKinds
  }

  function SyncLoop(cx: Ctx, st: PState): (r: PState)
    requires In(cx, st)
    ensures In(cx, r) && Moves(cx, st, r) && r.errors == st.errors
    ensures SyncStop(cx, r.pos)
    ensures forall k :: st.pos <= k < r.pos ==> !SyncStop(cx, k)
    decreases |cx.toks| - st.pos
  {
    if SyncStop(cx, st.pos) then st else SyncLoop(cx, Advance(cx, st))
  }

  /**
   * `synchronize`: skip at least one token (unless at EOF), then stop at the
   * first position after a `;`, before a statement keyword, or at EOF.
   */
  function Synchronize(cx: Ctx, st: PState): (r: PState)
    requires In(cx, st)
    ensures In(cx, r) && Moves(cx, st, r) && r.errors == st.errors && Progress(cx, st, r)
    ensures SyncStop(cx, r.pos)
    ensures forall k :: Advance(cx, st).pos <= k < r.pos ==> !SyncStop(cx, k)
  {
    SyncLoop(cx, Advance(cx, st))
  }

  // ---------------------------------------------------------------------
  // Literal conversions

  /** The index of the first exponent letter, or the length. */
  function ExponentAt(s: string): (r: nat)
    ensures r <= |s| && (r < |s| ==> s[r] in "eE") && forall i :: 0 <= i < r ==> s[i] !in "eE"
  {
    if s == [] then 0 else if s[0] in "eE" then 0 else ExponentAt(s[1..]) + 1
  }

  function DotCount(s: string): nat {
    if s == [] then 0 else (if s[0] == '.' then 1 else 0) + DotCount(s[1..])
  }

  /**
   * The texts `float()` accepts among those made of digits, dots and an
   * exponent: a mantissa with at least one digit and at most one dot, and an
   * optional exponent with an optional sign and at least one digit.
   */
  predicate FloatText(s: string) {
    var e := ExponentAt(s);
    var mant := s[..e];
    (forall i :: 0 <= i < |mant| ==> IsDigit(mant[i]) || mant[i] == '.')
    && DotCount(mant) <= 1 && mant != [] && mant != "."
    && (e < |s| ==>
          var ex := if e + 1 < |s| && s[e + 1] in "+-" then s[e + 2..] else s[e + 1..];
          ex != [] && AllDigits(ex))
  }

  predicate IntText(s: string) { s != [] && AllDigits(s) }

  // ---------------------------------------------------------------------
  // Expressions

  const AssignKinds: set<TokenType> := {ASSIGN, PLUS_ASSIGN, MINUS_ASSIGN, MULTIPLY_ASSIGN, DIVIDE_ASSIGN}

  /** The operator kinds of the left-associative levels, loosest (0: `or`) to tightest (5: `* / %`). */
  function LevelKinds(k: nat): set<TokenType>
    requires k <= 5
  {
    match k
    case 0 => {OR}
    case 1 => {AND}
    case 2 => {EQUAL, NOT_EQUAL}
    case 3 => {GREATER_THAN, GREATER_EQUAL, LESS_THAN, LESS_EQUAL}
    case 4 => {MINUS, PLUS}
    case 5 => {DIVIDE, MULTIPLY, MODULO}
  }

  function Expression(cx: Ctx, st: PState): (r: Res<Expr>)
    requires In(cx, st)
    ensures In(cx, r.st) && Moves(cx, st, r.st) && Progress(cx, st, r.st)
    decreases |cx.toks| - st.pos, 25
  {
    AssignExpr(cx, st)
  }

  /**
   * `assignment`: `=` and the compound operators all build the same node, so
   * the compound operator is dropped; a target that is not a bare identifier
   * records "Invalid assignment target." and the left side is kept.
   */
  function AssignExpr(cx: Ctx, st: PState): (r: Res<Expr>)
    requires In(cx, st)
    ensures In(cx, r.st) && Moves(cx, st, r.st) && Progress(cx, st, r.st)
    decreases |cx.toks| - st.pos, 24
  {
    var a := BinLevel(cx, st, 0);
    if a.Raised? || !Matches(cx, a.st, AssignKinds) then a
    else
      var op := Peek(cx, a.st);
      var v := AssignExpr(cx, Advance(cx, a.st));
      if v.Raised? then v
      else if a.value.Identifier? then Parsed(TrionAst.Assignment(a.value.name, v.value, op.line, op.column), v.st)
      else Parsed(a.value, SyntaxErr(cx, v.st, "Invalid assignment target.", op))
  }

  /** `logical_or` (k = 0) down to `factor` (k = 5): one operand, then a loop over the level's operators. */
  function BinLevel(cx: Ctx, st: PState, k: nat): (r: Res<Expr>)
    requires In(cx, st) && k <= 5
    ensures In(cx, r.st) && Moves(cx, st, r.st) && Progress(cx, st, r.st)
    decreases |cx.toks| - st.pos, 12 + 2 * (5 - k) + 1
  {
    var l := Operand(cx, st, k);
    if l.Raised? then l else BinRest(cx, l.value, l.st, k)
  }

  function Operand(cx: Ctx, st: PState, k: nat): (r: Res<Expr>)
    requires In(cx, st) && k <= 5
    ensures In(cx, r.st) && Moves(cx, st, r.st) && Progress(cx, st, r.st)
    decreases |cx.toks| - st.pos, 12 + 2 * (5 - k)
  {
    if k == 5 then Power(cx, st) else BinLevel(cx, st, k + 1)
  }

  function BinRest(cx: Ctx, left: Expr, st: PState, k: nat): (r: Res<Expr>)
    requires In(cx, st) && k <= 5
    ensures In(cx, r.st) && Moves(cx, st, r.st)
    ensures r.Parsed? && !Matches(cx, st, LevelKinds(k)) ==> r.value == left && r.st == st
    decreases |cx.toks| - st.pos, 12 + 2 * (5 - k)
  {
    if !Matches(cx, st, LevelKinds(k)) then Parsed(left, st)
    else
      var op := Peek(cx, st);
      var right := Operand(cx, Advance(cx, st), k);
      if right.Raised? then Raised(right.st)
      else BinRest(cx, BinaryOp(left, op.value, right.value, op.line, op.column), right.st, k)
  }

  /** `power`: `**` is right-associative and its left operand is a unary expression. */
  function Power(cx: Ctx, st: PState): (r: Res<Expr>)
    requires In(cx, st)
    ensures In(cx, r.st) && Moves(cx, st, r.st) && Progress(cx, st, r.st)
    decreases |cx.toks| - st.pos, 10
  {
    var u := Unary(cx, st);
    if u.Raised? || !Matches(cx, u.st, {POWER}) then u
    else
      var op := Peek(cx, u.st);
      var right := Power(cx, Advance(cx, u.st));
      if right.Raised? then Raised(right.st)
      else Parsed(BinaryOp(u.value, op.value, right.value, op.line, op.column), right.st)
  }

  function Unary(cx: Ctx, st: PState): (r: Res<Expr>)
    requires In(cx, st)
    ensures In(cx, r.st) && Moves(cx, st, r.st) && Progress(cx, st, r.st)
    decreases |cx.toks| - st.pos, 9
  {
    if Matches(cx, st, {NOT, MINUS}) then
      var op := Peek(cx, st);
      var operand := Unary(cx, Advance(cx, st));
      if operand.Raised? then Raised(operand.st)
      else Parsed(UnaryOp(op.value, operand.value, op.line, op.column), operand.st)
    else CallExpr(cx, st)
  }

  /** `call`: a primary followed by any number of calls, indexings and member accesses. */
  function CallExpr(cx: Ctx, st: PState): (r: Res<Expr>)
    requires In(cx, st)
    ensures In(cx, r.st) && Moves(cx, st, r.st) && Progress(cx, st, r.st)
    decreases |cx.toks| - st.pos, 8
  {
    var p := Primary(cx, st);
    if p.Raised? then p else CallRest(cx, p.value, p.st)
  }

  function CallRest(cx: Ctx, e: Expr, st: PState): (r: Res<Expr>)
    requires In(cx, st)
    ensures In(cx, r.st) && Moves(cx, st, r.st)
    decreases |cx.toks| - st.pos, 7
  {
    if Matches(cx, st, {LEFT_PAREN}) then
      var c := FinishCall(cx, e, Advance(cx, st));
      if c.Raised? then c else CallRest(cx, c.value, c.st)
    else if Matches(cx, st, {LEFT_BRACKET}) then IndexSuffix(cx, e, Advance(cx, st))
    else if Matches(cx, st, {DOT}) then
      var (name, st2) := Consume(cx, Advance(cx, st), IDENTIFIER, "Expected property name after '.'.");
      CallRest(cx, Member(e, name.value, name.line, name.column), st2)
    else Parsed(e, st)
  }

  /** After `[`: the index expression and `]`, then the rest of the call chain. */
  function IndexSuffix(cx: Ctx, e: Expr, st: PState): (r: Res<Expr>)
    requires In(cx, st)
    ensures In(cx, r.st) && Moves(cx, st, r.st)
    decreases |cx.toks| - st.pos, 26
  {
    var i := Expression(cx, st);
    if i.Raised? then Raised(i.st)
    else
      var (_, st2) := Consume(cx, i.st, RIGHT_BRACKET, "Expected ']' after array index.");
      CallRest(cx, Index(e, i.value), st2)
  }

  /** `finish_call`: comma-separated arguments; the node sits at the closing parenthesis. */
  function FinishCall(cx: Ctx, callee: Expr, st: PState): (r: Res<Expr>)
    requires In(cx, st)
    ensures In(cx, r.st) && Moves(cx, st, r.st)
    ensures r.Parsed? ==> r.value.Call? && r.value.callee == callee
    decreases |cx.toks| - st.pos, 28
  {
    var args := CallArgs(cx, st);
    if args.Raised? then Raised(args.st)
    else
      var (paren, st2) := Consume(cx, args.st, RIGHT_PAREN, "Expected ')' after arguments.");
      Parsed(Call(callee, args.value, paren.line, paren.column), st2)
  }

  /** The arguments of a call: none when `)` follows at once, otherwise a comma-separated list. */
  function CallArgs(cx: Ctx, st: PState): (r: Res<seq<Expr>>)
    requires In(cx, st)
    ensures In(cx, r.st) && Moves(cx, st, r.st)
    decreases |cx.toks| - st.pos, 27
  {
    if Check(cx, st, RIGHT_PAREN) then Parsed([], st)
    else
      var a := Expression(cx, st);
      if a.Raised? then Raised(a.st) else ArgsLoop(cx, [a.value], a.st)
  }

  function ArgsLoop(cx: Ctx, acc: seq<Expr>, st: PState): (r: Res<seq<Expr>>)
    requires In(cx, st)
    ensures In(cx, r.st) && Moves(cx, st, r.st)
    ensures r.Parsed? ==> acc <= r.value
    decreases |cx.toks| - st.pos, 26
  {
    if !Matches(cx, st, {COMMA}) then Parsed(acc, st)
    else
      var a := Expression(cx, Advance(cx, st));
      if a.Raised? then Raised(a.st) else ArgsLoop(cx, acc + [a.value], a.st)
  }

  /**
   * `primary`: literals, identifiers and parenthesised expressions; any other
   * token records "Unexpected token" and is skipped, leaving a null literal.
   */
  function Primary(cx: Ctx, st: PState): (r: Res<Expr>)
    requires In(cx, st)
    ensures In(cx, r.st) && Moves(cx, st, r.st) && Progress(cx, st, r.st)
    decreases |cx.toks| - st.pos, 5
  {
    var t := Peek(cx, st);
    var st1 := Advance(cx, st);
    if Matches(cx, st, {TRUE}) then Parsed(Literal(LBool(true), t.line, t.column), st1)
    else if Matches(cx, st, {FALSE}) then Parsed(Literal(LBool(false), t.line, t.column), st1)
    else if Matches(cx, st, {NULL_KW}) then Parsed(Literal(LNull, t.line, t.column), st1)
    else if Matches(cx, st, {INTEGER}) then
      if IntText(t.value) then Parsed(Literal(LInt(DecimalValue(t.value)), t.line, t.column), st1)
      else Raised(st1)
    else if Matches(cx, st, {FLOAT}) then
      if FloatText(t.value) then Parsed(Literal(LFloat(t.value), t.line, t.column), st1)
      else Raised(st1)
    else if Matches(cx, st, {STRING}) then Parsed(Literal(LStr(t.value), t.line, t.column), st1)
    else if Matches(cx, st, {IDENTIFIER}) then Parsed(Identifier(t.value, t.line, t.column), st1)
    else if Matches(cx, st, {LEFT_PAREN}) then
      var e := Expression(cx, st1);
      if e.Raised? then e
      else
        var (_, st2) := Consume(cx, e.st, RIGHT_PAREN, "Expected ')' after expression.");
        Parsed(e.value, st2)
    else
      var st2 := SyntaxErr(cx, st, "Unexpected token: '" + t.value + "'", t);
      Parsed(Literal(LNull, t.line, t.column), Advance(cx, st2))
  }

  // ---------------------------------------------------------------------
  // Statements

  /**
   * `declaration`: function, class or variable declarations, else a
   * statement. A conversion failure anywhere inside is caught here: the parser
   * resynchronises and the declaration is `None`, with no error recorded.
   */
  function Declaration(cx: Ctx, st: PState): (r: (Option<Stmt>, PState))
    requires In(cx, st)
    ensures In(cx, r.1) && Moves(cx, st, r.1) && Progress(cx, st, r.1)
    decreases |cx.toks| - st.pos, 45
  {
    var res :=
      if Matches(cx, st, {FUNCTION}) then FunctionDecl(cx, Advance(cx, st))
      else if Matches(cx, st, {CLASS}) then ClassDecl(cx, Advance(cx, st))
      else if Matches(cx, st, {LET, CONST}) then VariableDecl(cx, Advance(cx, st))
      else Statement(cx, st);
    if res.Raised? then (None, Synchronize(cx, res.st)) else (Some(res.value), res.st)
  }

  /** The part of `function_declaration` before the body: name, parameters and the opening brace. */
  function FunctionHeader(cx: Ctx, st: PState): (r: (Token, seq<string>, PState))
    requires In(cx, st)
    ensures In(cx, r.2) && Moves(cx, st, r.2)
  {
    var (name, st1) := Consume(cx, st, IDENTIFIER, "Expected function name.");
    var (_, st2) := Consume(cx, st1, LEFT_PAREN, "Expected '(' after function name.");
    var (params, st4) :=
      if Check(cx, st2, RIGHT_PAREN) then ([], st2)
      else
        var (p, st3) := Consume(cx, st2, IDENTIFIER, "Expected parameter name.");
        ParamLoop(cx, [p.value], st3);
    var (_, st5) := Consume(cx, st4, RIGHT_PAREN, "Expected ')' after parameters.");
    var (_, st6) := Consume(cx, st5, LEFT_BRACE, "Expected '{' before function body.");
    (name, params, st6)
  }

  function FunctionDecl(cx: Ctx, st: PState): (r: Res<Stmt>)
    requires In(cx, st)
    ensures In(cx, r.st) && Moves(cx, st, r.st)
    ensures r.Parsed? ==> r.value.FuncDecl? && r.value.fbody.Block?
    decreases |cx.toks| - st.pos, 60
  {
    var (name, params, st1) := FunctionHeader(cx, st);
    var body := BlockStmt(cx, st1);
    if body.Raised? then Raised(body.st)
    else Parsed(FuncDecl(name.value, params, body.value, name.line, name.column), body.st)
  }

  function ParamLoop(cx: Ctx, acc: seq<string>, st: PState): (r: (seq<string>, PState))
    requires In(cx, st)
    ensures In(cx, r.1) && Moves(cx, st, r.1) && acc <= r.0
    decreases |cx.toks| - st.pos
  {
    if !Matches(cx, st, {COMMA}) then (acc, st)
    else
      var (p, st1) := Consume(cx, Advance(cx, st), IDENTIFIER, "Expected parameter name.");
      ParamLoop(cx, acc + [p.value], st1)
  }

  /** The part of `class_declaration` before the body: name, optional `: Super`, and the brace. */
  function ClassHeader(cx: Ctx, st: PState): (r: (Token, Option<string>, PState))
    requires In(cx, st)
    ensures In(cx, r.2) && Moves(cx, st, r.2)
  {
    var (name, st1) := Consume(cx, st, IDENTIFIER, "Expected class name.");
    var (superclass, st2) :=
      if Matches(cx, st1, {COLON}) then
        var (s, st2) := Consume(cx, Advance(cx, st1), IDENTIFIER, "Expected superclass name.");
        (Some(s.value), st2)
      else (None, st1);
    var (_, st3) := Consume(cx, st2, LEFT_BRACE, "Expected '{' before class body.");
    (name, superclass, st3)
  }

  function ClassDecl(cx: Ctx, st: PState): (r: Res<Stmt>)
    requires In(cx, st)
    ensures In(cx, r.st) && Moves(cx, st, r.st)
    decreases |cx.toks| - st.pos, 60
  {
    var (name, superclass, st1) := ClassHeader(cx, st);
    var methods := ClassMethods(cx, st1);
    if methods.Raised? then Raised(methods.st)
    else Parsed(TrionAst.ClassDecl(name.value, superclass, methods.value, name.line, name.column), methods.st)
  }

  /** The class body and its closing brace. */
  function ClassMethods(cx: Ctx, st: PState): (r: Res<seq<Stmt>>)
    requires In(cx, st)
    ensures In(cx, r.st) && Moves(cx, st, r.st)
    decreases |cx.toks| - st.pos, 58
  {
    var methods := ClassBody(cx, [], st);
    if methods.Raised? then methods
    else
      var (_, st2) := Consume(cx, methods.st, RIGHT_BRACE, "Expected '}' after class body.");
      Parsed(methods.value, st2)
  }

  /** The class body keeps only `function` declarations and skips every other token. */
  function ClassBody(cx: Ctx, acc: seq<Stmt>, st: PState): (r: Res<seq<Stmt>>)
    requires In(cx, st)
    ensures In(cx, r.st) && Moves(cx, st, r.st)
    decreases |cx.toks| - st.pos, 57
  {
    if Check(cx, st, RIGHT_BRACE) || AtEnd(cx, st) then Parsed(acc, st)
    else if Matches(cx, st, {NEWLINE}) then ClassBody(cx, acc, Advance(cx, st))
    else if Matches(cx, st, {FUNCTION}) then
      var f := FunctionDecl(cx, Advance(cx, st));
      if f.Raised? then Raised(f.st) else ClassBody(cx, acc + [f.value], f.st)
    else ClassBody(cx, acc, Advance(cx, st))
  }

  /** `variable_declaration`: the keyword just consumed decides `isConst`. */
  function VariableDecl(cx: Ctx, st: PState): (r: Res<Stmt>)
    requires In(cx, st)
    ensures In(cx, r.st) && Moves(cx, st, r.st)
    ensures r.Parsed? ==> r.value.VarDecl? && (r.value.isConst <==> Previous(cx, st).kind == CONST)
    decreases |cx.toks| - st.pos, 30
  {
    var isConst := Previous(cx, st).kind == CONST;
    var (name, st1) := Consume(cx, st, IDENTIFIER, "Expected variable name.");
    if Matches(cx, st1, {ASSIGN}) then
      var init := Expression(cx, Advance(cx, st1));
      if init.Raised? then Raised(init.st)
      else Parsed(VarDecl(name.value, Some(init.value), isConst, name.line, name.column), init.st)
    else Parsed(VarDecl(name.value, None, isConst, name.line, name.column), st1)
  }

  function Statement(cx: Ctx, st: PState): (r: Res<Stmt>)
    requires In(cx, st)
    ensures In(cx, r.st) && Moves(cx, st, r.st) && Progress(cx, st, r.st)
    decreases |cx.toks| - st.pos, 40
  {
    if Matches(cx, st, {IF}) then IfStmt(cx, Advance(cx, st))
    else if Matches(cx, st, {WHILE}) then WhileStmt(cx, Advance(cx, st))
    else if Matches(cx, st, {FOR}) then ForStmt(cx, Advance(cx, st))
    else if Matches(cx, st, {RETURN}) then ReturnStmt(cx, Advance(cx, st))
    else if Matches(cx, st, {TRY}) then TryStmt(cx, Advance(cx, st))
    else if Matches(cx, st, {THROW}) then
      var e := Expression(cx, Advance(cx, st));
      if e.Raised? then Raised(e.st) else Parsed(Throw(e.value), e.st)
    else if Matches(cx, st, {IMPORT}) then ImportStmt(cx, Advance(cx, st))
    else if Matches(cx, st, {LEFT_BRACE}) then BlockStmt(cx, Advance(cx, st))
    else
      var e := Expression(cx, st);
      if e.Raised? then Raised(e.st) else Parsed(ExprStmt(e.value), e.st)
  }

  /** `{` then a block; the message is the one recorded when the brace is missing. */
  function BraceBlock(cx: Ctx, st: PState, message: string): (r: Res<Stmt>)
    requires In(cx, st)
    ensures In(cx, r.st) && Moves(cx, st, r.st)
    decreases |cx.toks| - st.pos, 56
  {
    var (_, st1) := Consume(cx, st, LEFT_BRACE, message);
    BlockStmt(cx, st1)
  }

  /** A condition followed by a braced block, as in `if`, `elif` and `while`. */
  function CondBlock(cx: Ctx, st: PState, message: string): (r: Res<(Expr, Stmt)>)
    requires In(cx, st)
    ensures In(cx, r.st) && Moves(cx, st, r.st)
    decreases |cx.toks| - st.pos, 58
  {
    var c := Expression(cx, st);
    if c.Raised? then Raised(c.st)
    else
      var b := BraceBlock(cx, c.st, message);
      if b.Raised? then Raised(b.st) else Parsed((c.value, b.value), b.st)
  }

  /** An optional `keyword { ... }` tail, as for `else` and `finally`. */
  function OptionalTail(cx: Ctx, st: PState, kw: TokenType, message: string): (r: Res<Option<Stmt>>)
    requires In(cx, st)
    ensures In(cx, r.st) && Moves(cx, st, r.st)
    decreases |cx.toks| - st.pos, 58
  {
    if Matches(cx, st, {kw}) then
      var b := BraceBlock(cx, Advance(cx, st), message);
      if b.Raised? then Raised(b.st) else Parsed(Some(b.value), b.st)
    else Parsed(None, st)
  }

  /** `if_statement`: elif clauses are collected in order before the optional else. */
  function IfStmt(cx: Ctx, st: PState): (r: Res<Stmt>)
    requires In(cx, st)
    ensures In(cx, r.st) && Moves(cx, st, r.st)
    decreases |cx.toks| - st.pos, 60
  {
    var head := CondBlock(cx, st, "Expected '{' after if condition.");
    if head.Raised? then Raised(head.st)
    else
      var elifs := ElifLoop(cx, [], head.st);
      if elifs.Raised? then Raised(elifs.st)
      else
        var els := OptionalTail(cx, elifs.st, ELSE, "Expected '{' after else.");
        if els.Raised? then Raised(els.st)
        else Parsed(If(head.value.0, head.value.1, elifs.value, els.value), els.st)
  }

  function ElifLoop(cx: Ctx, acc: seq<Elif>, st: PState): (r: Res<seq<Elif>>)
    requires In(cx, st)
    ensures In(cx, r.st) && Moves(cx, st, r.st)
    ensures r.Parsed? ==> acc <= r.value
    decreases |cx.toks| - st.pos, 59
  {
    if !Matches(cx, st, {ELIF}) then Parsed(acc, st)
    else
      var c := CondBlock(cx, Advance(cx, st), "Expected '{' after elif condition.");
      if c.Raised? then Raised(c.st) else ElifLoop(cx, acc + [Elif(c.value.0, c.value.1)], c.st)
  }

  function WhileStmt(cx: Ctx, st: PState): (r: Res<Stmt>)
    requires In(cx, st)
    ensures In(cx, r.st) && Moves(cx, st, r.st)
    decreases |cx.toks| - st.pos, 60
  {
    var c := CondBlock(cx, st, "Expected '{' after while condition.");
    if c.Raised? then Raised(c.st) else Parsed(While(c.value.0, c.value.1), c.st)
  }

  /** `for x in e { }`: the word after the variable may be any identifier. */
  function ForStmt(cx: Ctx, st: PState): (r: Res<Stmt>)
    requires In(cx, st)
    ensures In(cx, r.st) && Moves(cx, st, r.st)
    decreases |cx.toks| - st.pos, 60
  {
    var (v, st2) := ForHeader(cx, st);
    var c := CondBlock(cx, st2, "Expected '{' after for clause.");
    if c.Raised? then Raised(c.st) else Parsed(For(v.value, c.value.0, c.value.1), c.st)
  }

  /**
   * The loop variable and the word after it. That word stands where `in`
   * belongs, but it is consumed as any identifier.
   */
  function ForHeader(cx: Ctx, st: PState): (r: (Token, PState))
    requires In(cx, st)
    ensures In(cx, r.1) && Moves(cx, st, r.1) && r.0 == Peek(cx, st)
  {
    var (v, st1) := Consume(cx, st, IDENTIFIER, "Expected variable name in for loop.");
    var (_, st2) := Consume(cx, st1, IDENTIFIER, "Expected 'in' keyword.");
    (v, st2)
  }

  /** `return` takes a value unless a newline or `;` follows. */
  function ReturnStmt(cx: Ctx, st: PState): (r: Res<Stmt>)
    requires In(cx, st)
    ensures In(cx, r.st) && Moves(cx, st, r.st)
    decreases |cx.toks| - st.pos, 30
  {
    if !Check(cx, st, NEWLINE) && !Check(cx, st, SEMICOLON) then
      var e := Expression(cx, st);
      if e.Raised? then Raised(e.st) else Parsed(Return(Some(e.value)), e.st)
    else Parsed(Return(None), st)
  }

  function TryStmt(cx: Ctx, st: PState): (r: Res<Stmt>)
    requires In(cx, st)
    ensures In(cx, r.st) && Moves(cx, st, r.st)
    decreases |cx.toks| - st.pos, 60
  {
    var t := BraceBlock(cx, st, "Expected '{' after try.");
    if t.Raised? then t
    else
      var cs := CatchLoop(cx, [], t.st);
      if cs.Raised? then Raised(cs.st)
      else
        var f := OptionalTail(cx, cs.st, FINALLY, "Expected '{' after finally.");
        if f.Raised? then Raised(f.st) else Parsed(Try(t.value, cs.value, f.value), f.st)
  }

  /**
   * The parenthesised part of a catch clause. The first identifier is the
   * exception type and a second one the binding, so `catch (e)` binds nothing.
   */
  function CatchHeader(cx: Ctx, st: PState): (r: (Option<string>, Option<string>, PState))
    requires In(cx, st)
    ensures In(cx, r.2) && Moves(cx, st, r.2)
    ensures !Matches(cx, st, {LEFT_PAREN}) ==> r == (None, None, st)
    ensures Matches(cx, st, {LEFT_PAREN}) ==> r.0.Some?
  {
    if Matches(cx, st, {LEFT_PAREN}) then
      var (tt, st2) := Consume(cx, Advance(cx, st), IDENTIFIER, "Expected exception type.");
      var (v, st3) :=
        if Matches(cx, st2, {IDENTIFIER}) then (Some(Peek(cx, st2).value), Advance(cx, st2)) else (None, st2);
      var (_, st4) := Consume(cx, st3, RIGHT_PAREN, "Expected ')' after catch clause.");
      (Some(tt.value), v, st4)
    else (None, None, st)
  }

  function CatchLoop(cx: Ctx, acc: seq<Catch>, st: PState): (r: Res<seq<Catch>>)
    requires In(cx, st)
    ensures In(cx, r.st) && Moves(cx, st, r.st)
    ensures r.Parsed? ==> acc <= r.value
    decreases |cx.toks| - st.pos, 57
  {
    if !Matches(cx, st, {CATCH}) then Parsed(acc, st)
    else
      var c := CatchClause(cx, Advance(cx, st));
      if c.Raised? then Raised(c.st) else CatchLoop(cx, acc + [c.value], c.st)
  }

  /** One clause after `catch`: its header, then its block. */
  function CatchClause(cx: Ctx, st: PState): (r: Res<Catch>)
    requires In(cx, st)
    ensures In(cx, r.st) && Moves(cx, st, r.st)
    decreases |cx.toks| - st.pos, 57
  {
    var (ty, v, st1) := CatchHeader(cx, st);
    var b := BraceBlock(cx, st1, "Expected '{' after catch clause.");
    if b.Raised? then Raised(b.st) else Parsed(Catch(ty, v, b.value), b.st)
  }

  /** `import m [as a]`: `as` is recognised as an identifier spelled "as". */
  function ImportStmt(cx: Ctx, st: PState): (r: Res<Stmt>)
    requires In(cx, st)
    ensures In(cx, r.st) && Moves(cx, st, r.st)
    decreases |cx.toks| - st.pos, 30
  {
    var (m, st1) := Consume(cx, st, IDENTIFIER, "Expected module name.");
    if Check(cx, st1, IDENTIFIER) && Peek(cx, st1).value == "as" then
      var (a, st2) := Consume(cx, Advance(cx, st1), IDENTIFIER, "Expected alias name.");
      Parsed(Import(m.value, Some(a.value), None), st2)
    else Parsed(Import(m.value, None, None), st1)
  }

  /** `block` (entered after `{`): declarations up to `}` or EOF; newlines are skipped. */
  function BlockStmt(cx: Ctx, st: PState): (r: Res<Stmt>)
    requires In(cx, st)
    ensures In(cx, r.st) && Moves(cx, st, r.st)
    ensures r.Parsed? && r.value.Block?
    decreases |cx.toks| - st.pos, 55
  {
    var (stmts, st1) := BlockLoop(cx, [], st);
    var (_, st2) := Consume(cx, st1, RIGHT_BRACE, "Expected '}' after block.");
    Parsed(Block(stmts), st2)
  }

  function BlockLoop(cx: Ctx, acc: seq<Option<Stmt>>, st: PState): (r: (seq<Option<Stmt>>, PState))
    requires In(cx, st)
    ensures In(cx, r.1) && Moves(cx, st, r.1) && acc <= r.0
    ensures Check(cx, r.1, RIGHT_BRACE) || AtEnd(cx, r.1)
    decreases |cx.toks| - st.pos, 50
  {
    if Check(cx, st, RIGHT_BRACE) || AtEnd(cx, st) then (acc, st)
    else if Matches(cx, st, {NEWLINE}) then BlockLoop(cx, acc, Advance(cx, st))
    else
      var (d, st1) := Declaration(cx, st);
      BlockLoop(cx, acc + [d], st1)
  }

  // ---------------------------------------------------------------------
  // The program

  function ParseLoop(cx: Ctx, acc: seq<Stmt>, st: PState): (r: (seq<Stmt>, PState))
    requires In(cx, st)
    ensures In(cx, r.1) && Moves(cx, st, r.1) && acc <= r.0 && AtEnd(cx, r.1)
    decreases |cx.toks| - st.pos
  {
    if AtEnd(cx, st) then (acc, st)
    else if Matches(cx, st, {NEWLINE}) then ParseLoop(cx, acc, Advance(cx, st))
    else
      var (d, st1) := Declaration(cx, st);
      ParseLoop(cx, if d.Some? then acc + [d.value] else acc, st1)
  }

  /** `parse`: the program, or `None` when any syntax error was recorded; plus those errors. */
  function Parse(cx: Ctx): (r: (Option<Program>, seq<TrionError>))
    requires Valid(cx)
    ensures r.0.None? <==> |r.1| > 0
  {
    var (stmts, st) := ParseLoop(cx, [], PState(0, []));
    if |st.errors| > 0 then (None, st.errors) else (Some(Program(stmts)), st.errors)
  }
}
