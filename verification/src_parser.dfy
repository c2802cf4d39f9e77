/**
 * The recursive-descent parser of the `src/` front end
 * (src/parser/parser.py). The parser state is the cursor into the token
 * list. A parse function returns the node it built and the cursor after it,
 * or `Raised` with the exception and the cursor at the moment it was
 * raised: a `ParseError`, which `declaration` catches, or the `ValueError`
 * of a failed `int()`/`float()` conversion, which nothing catches.
 */
module SrcParser {
  import opened Common
  import opened SrcLexer
  import opened SrcTree

  /** The parser relies on the lexer's guarantee: the list ends in EOF. */
  predicate Valid(toks: seq<Token>) {
    |toks| > 0 && toks[|toks| - 1].kind == EOF
  }

  predicate In(toks: seq<Token>, pos: nat) {
    Valid(toks) && pos < |toks|
  }

  datatype Raise = ParseError(message: string, token: Token) | ValueError(text: string)

  datatype Res<T> = Parsed(value: T, pos: nat) | Raised(error: Raise, pos: nat)

  /** The cursor did not move back and still points at a token. */
  predicate Stays<T>(toks: seq<Token>, pos: nat, r: Res<T>) {
    pos <= r.pos < |toks|
  }

  /** As `Stays`, and a successful parse consumed at least one token. */
  predicate Consumes<T>(toks: seq<Token>, pos: nat, r: Res<T>) {
    Stays(toks, pos, r) && (r.Parsed? ==> pos < r.pos)
  }

  /** `peek`: past the end of the list it yields the last token. */
  function Peek(toks: seq<Token>, pos: nat): Token
    requires Valid(toks)
  {
    if pos >= |toks| then toks[|toks| - 1] else toks[pos]
  }

  predicate AtEnd(toks: seq<Token>, pos: nat)
    requires Valid(toks)
  {
    Peek(toks, pos).kind == EOF
  }

  /** `previous`: index -1 wraps to the last token, as Python indexing does. */
  function Previous(toks: seq<Token>, pos: nat): Token
    requires Valid(toks) && pos <= |toks|
  {
    if pos == 0 then toks[|toks| - 1] else toks[pos - 1]
  }

  /** `advance`: the cursor never moves past the EOF token. */
  function Advance(toks: seq<Token>, pos: nat): (r: nat)
    requires In(toks, pos)
    ensures pos <= r < |toks|
    ensures AtEnd(toks, pos) <==> r == pos
  {
    if AtEnd(toks, pos) then pos else pos + 1
  }

  /** `check`: false at the end, whatever kind is asked for. */
  predicate Check(toks: seq<Token>, pos: nat, t: TokenType)
    requires Valid(toks)
  {
    !AtEnd(toks, pos) && Peek(toks, pos).kind == t
  }

  /** `match(*types)`: whether the current token has one of the kinds (`advance` is done by the caller). */
  predicate Matches(toks: seq<Token>, pos: nat, ks: set<TokenType>)
    requires Valid(toks)
  {
    !AtEnd(toks, pos) && Peek(toks, pos).kind in ks
  }

  /** `consume`: the expected token is taken; otherwise `ParseError` is raised at the current token. */
  function Consume(toks: seq<Token>, pos: nat, t: TokenType, message: string): (r: Res<Token>)
    requires In(toks, pos)
    ensures Stays(toks, pos, r)
    ensures r.Parsed? <==> Check(toks, pos, t)
    ensures r.Parsed? ==> r == Parsed(toks[pos], pos + 1) && r.value.kind == t && Previous(toks, r.pos) == r.value
    ensures r.Raised? ==> r == Raised(ParseError(message, toks[pos]), pos)
  {
    if Check(toks, pos, t) then Parsed(Peek(toks, pos), Advance(toks, pos))
    else Raised(ParseError(message, Peek(toks, pos)), pos)
  }

  function Loc(t: Token): SourceLocation {
    SourceLocation(t.line, t.column)
  }

  // ---------------------------------------------------------------------
  // Recovery

  /** The kinds `synchronize` stops in front of. */
  const SyncKinds: set<TokenType> := {FN, LET, IF, WHILE, FOR, RETURN, STRUCT, ENUM}

  /** Where `synchronize` may stop: at EOF, just after a `;`, or before a statement keyword. */
  predicate SyncStop(toks: seq<Token>, k: nat)
    requires In(toks, k)
  {
    AtEnd(toks, k) || Previous(toks, k).kind == SEMICOLON || Peek(toks, k).kind in SyncKinds
  }

  function SyncLoop(toks: seq<Token>, pos: nat): (r: nat)
    requires In(toks, pos)
    ensures pos <= r < |toks| && SyncStop(toks, r)
    ensures forall k :: pos <= k < r ==> !SyncStop(toks, k)
    decreases |toks| - pos
  {
    if SyncStop(toks, pos) then pos else SyncLoop(toks, Advance(toks, pos))
  }

  /**
   * `synchronize`: skip one token (unless at EOF), then stop at the first
   * position after a `;`, before a statement keyword, or at EOF.
   */
  function Synchronize(toks: seq<Token>, pos: nat): (r: nat)
    requires In(toks, pos)
    ensures pos <= r < |toks| && SyncStop(toks, r)
    ensures !AtEnd(toks, pos) ==> pos < r
    ensures forall k :: Advance(toks, pos) <= k < r ==> !SyncStop(toks, k)
  {
    SyncLoop(toks, Advance(toks, pos))
  }

  /** `skip_newlines`. */
  function SkipNewlines(toks: seq<Token>, pos: nat): (r: nat)
    requires In(toks, pos)
    ensures pos <= r < |toks| && !Check(toks, r, NEWLINE)
    ensures forall k :: pos <= k < r ==> toks[k].kind == NEWLINE
    decreases |toks| - pos
  {
    if Check(toks, pos, NEWLINE) then SkipNewlines(toks, Advance(toks, pos)) else pos
  }

  // ---------------------------------------------------------------------
  // Literal conversions

  /** The end of the run of decimal digits starting at `i`. */
  function DigitRun(s: string, i: nat): (r: nat)
    requires i <= |s|
    ensures i <= r <= |s| && (r < |s| ==> !IsDigit(s[r]))
    ensures forall k :: i <= k < r ==> IsDigit(s[k])
    decreases |s| - i
  {
    if i < |s| && IsDigit(s[i]) then DigitRun(s, i + 1) else i
  }

  /**
   * What `int()` accepts among the spellings an INTEGER token can have: a
   * nonempty digit run. `int()` also takes a sign, `_` between digits and
   * surrounding blanks (`"+5"`, `"1_0"`), but the lexer's INTEGER tokens
   * never hold those, so the narrower test decides the same on them.
   */
  predicate IntText(s: string) {
    s != [] && AllDigits(s)
  }

  /** An exponent's tail from `k`: an optional sign, then one or more digits, then the end. */
  predicate ExponentDigits(s: string, k: nat)
    requires k <= |s|
  {
    var d := if k < |s| && (s[k] == '+' || s[k] == '-') then k + 1 else k;
    var m := DigitRun(s, d);
    d < m && m == |s|
  }

  /**
   * What `float()` accepts among texts of digits, `.`, `e`/`E` and signs:
   * digits with an optional fraction (at least one digit on some side of
   * the point), then an optional exponent that has digits.
   */
  predicate FloatSyntax(s: string) {
    var i := DigitRun(s, 0);
    var j := if i < |s| && s[i] == '.' then DigitRun(s, i + 1) else i;
    (0 < i || i + 1 < j)
    && (j == |s| || ((s[j] == 'e' || s[j] == 'E') && ExponentDigits(s, j + 1)))
  }

  // ---------------------------------------------------------------------
  // Expressions

  /** The kinds each binary level loops over: 0 `||` ... 5 `* / %`. */
  function LevelKinds(k: nat): set<TokenType>
    requires k <= 5
  {
    match k
    case 0 => {OR}
    case 1 => {AND}
    case 2 => {TokenType.EQUAL, TokenType.NOT_EQUAL}
    case 3 => {GREATER, TokenType.GREATER_EQUAL, LESS, TokenType.LESS_EQUAL}
    case 4 => {TokenType.PLUS, TokenType.MINUS}
    case 5 => {TokenType.MULTIPLY, TokenType.DIVIDE, TokenType.MODULO}
  }

  /** The node operator each level builds for its token kinds. */
  function BinaryOf(t: TokenType): BinaryOperator {
    match t
    case OR => LOGICAL_OR
    case AND => LOGICAL_AND
    case EQUAL => BinaryOperator.EQUAL
    case NOT_EQUAL => BinaryOperator.NOT_EQUAL
    case GREATER => GREATER_THAN
    case GREATER_EQUAL => BinaryOperator.GREATER_EQUAL
    case LESS => LESS_THAN
    case LESS_EQUAL => BinaryOperator.LESS_EQUAL
    case PLUS => ADD
    case MINUS => SUBTRACT
    case MULTIPLY => BinaryOperator.MULTIPLY
    case DIVIDE => BinaryOperator.DIVIDE
    case _ => BinaryOperator.MODULO
  }

  function UnaryOf(t: TokenType): UnaryOperator {
    match t
    case NOT => LOGICAL_NOT
    case MINUS => UnaryOperator.MINUS
    case _ => UnaryOperator.PLUS
  }

  function Expression(toks: seq<Token>, pos: nat): (r: Res<Expr>)
    requires In(toks, pos)
    ensures Consumes(toks, pos, r)
    decreases |toks| - pos, 23
  {
    Assignment(toks, pos)
  }

  /** `assignment`: right-associative, and any expression is accepted as the target. */
  function Assignment(toks: seq<Token>, pos: nat): (r: Res<Expr>)
    requires In(toks, pos)
    ensures Consumes(toks, pos, r)
    decreases |toks| - pos, 22
  {
    var l := BinLevel(toks, pos, 0);
    if l.Raised? || !Matches(toks, l.pos, {ASSIGN}) then l
    else
      var eq := Peek(toks, l.pos);
      var v := Assignment(toks, Advance(toks, l.pos));
      if v.Raised? then v
      else Parsed(AssignmentExpression(l.value, v.value, Loc(eq)), v.pos)
  }

  /** `logical_or` (k = 0) down to `factor` (k = 5): one operand, then a loop over the level's operators. */
  function BinLevel(toks: seq<Token>, pos: nat, k: nat): (r: Res<Expr>)
    requires In(toks, pos) && k <= 5
    ensures Consumes(toks, pos, r)
    decreases |toks| - pos, 10 + 2 * (5 - k) + 1
  {
    var l := Operand(toks, pos, k);
    if l.Raised? then l else BinRest(toks, l.value, l.pos, k)
  }

  function Operand(toks: seq<Token>, pos: nat, k: nat): (r: Res<Expr>)
    requires In(toks, pos) && k <= 5
    ensures Consumes(toks, pos, r)
    decreases |toks| - pos, 10 + 2 * (5 - k)
  {
    if k == 5 then Unary(toks, pos) else BinLevel(toks, pos, k + 1)
  }

  /** The loop of one level: each operator joins the tree built so far with the next operand, to the left. */
  function BinRest(toks: seq<Token>, left: Expr, pos: nat, k: nat): (r: Res<Expr>)
    requires In(toks, pos) && k <= 5
    ensures Stays(toks, pos, r)
    ensures !Matches(toks, pos, LevelKinds(k)) ==> r == Parsed(left, pos)
    decreases |toks| - pos, 10 + 2 * (5 - k)
  {
    if !Matches(toks, pos, LevelKinds(k)) then Parsed(left, pos)
    else
      var op := Peek(toks, pos);
      var right := Operand(toks, Advance(toks, pos), k);
      if right.Raised? then right
      else BinRest(toks, BinaryExpression(left, BinaryOf(op.kind), right.value, left.loc), right.pos, k)
  }

  /** `unary`: `!`, `-` and `+` prefix a unary expression; the node sits at the operator. */
  function Unary(toks: seq<Token>, pos: nat): (r: Res<Expr>)
    requires In(toks, pos)
    ensures Consumes(toks, pos, r)
    decreases |toks| - pos, 9
  {
    if Matches(toks, pos, {NOT, TokenType.MINUS, TokenType.PLUS}) then
      var op := Peek(toks, pos);
      var operand := Unary(toks, Advance(toks, pos));
      if operand.Raised? then operand
      else Parsed(UnaryExpression(UnaryOf(op.kind), operand.value, Loc(op)), operand.pos)
    else CallExpr(toks, pos)
  }

  /** `call`: a primary followed by any number of calls, member accesses and indexings. */
  function CallExpr(toks: seq<Token>, pos: nat): (r: Res<Expr>)
    requires In(toks, pos)
    ensures Consumes(toks, pos, r)
    decreases |toks| - pos, 8
  {
    var p := Primary(toks, pos);
    if p.Raised? then p else CallRest(toks, p.value, p.pos)
  }

  function CallRest(toks: seq<Token>, e: Expr, pos: nat): (r: Res<Expr>)
    requires In(toks, pos)
    ensures Stays(toks, pos, r)
    decreases |toks| - pos, 7
  {
    if Matches(toks, pos, {LPAREN}) then
      var c := FinishCall(toks, e, Advance(toks, pos));
      if c.Raised? then c else CallRest(toks, c.value, c.pos)
    else if Matches(toks, pos, {DOT}) then
      var n := Consume(toks, Advance(toks, pos), IDENTIFIER, "Expected property name after '.'");
      if n.Raised? then Raised(n.error, n.pos)
      else CallRest(toks, MemberExpression(e, n.value.value, Loc(n.value), e.loc), n.pos)
    else if Matches(toks, pos, {LBRACKET}) then
      var i := Expression(toks, Advance(toks, pos));
      if i.Raised? then i
      else
        var c := Consume(toks, i.pos, RBRACKET, "Expected ']' after index");
        if c.Raised? then Raised(c.error, c.pos)
        else CallRest(toks, IndexExpression(e, i.value, e.loc), c.pos)
    else Parsed(e, pos)
  }

  /** `finish_call`: comma-separated arguments, at most 255; the node sits at the callee. */
  function FinishCall(toks: seq<Token>, callee: Expr, pos: nat): (r: Res<Expr>)
    requires In(toks, pos)
    ensures Stays(toks, pos, r)
    ensures r.Parsed? ==> r.value.CallExpression? && r.value.callee == callee && |r.value.arguments| <= 255
    decreases |toks| - pos, 28
  {
    var args :=
      if Check(toks, pos, RPAREN) then Parsed([], pos)
      else
        var a := Expression(toks, pos);
        if a.Raised? then Raised(a.error, a.pos) else ArgumentLoop(toks, [a.value], a.pos);
    if args.Raised? then Raised(args.error, args.pos)
    else
      var paren := Consume(toks, args.pos, RPAREN, "Expected ')' after arguments");
      if paren.Raised? then Raised(paren.error, paren.pos)
      else Parsed(CallExpression(callee, args.value, callee.loc), paren.pos)
  }

  /** The argument loop: a comma seen when 255 arguments are already collected raises. */
  function ArgumentLoop(toks: seq<Token>, acc: seq<Expr>, pos: nat): (r: Res<seq<Expr>>)
    requires In(toks, pos) && |acc| <= 255
    ensures Stays(toks, pos, r)
    ensures r.Parsed? ==> acc <= r.value && |r.value| <= 255
    decreases |toks| - pos, 27
  {
    if !Matches(toks, pos, {COMMA}) then Parsed(acc, pos)
    else
      var p1 := Advance(toks, pos);
      if |acc| >= 255 then Raised(ParseError("Can't have more than 255 arguments", Peek(toks, p1)), p1)
      else
        var a := Expression(toks, p1);
        if a.Raised? then Raised(a.error, a.pos) else ArgumentLoop(toks, acc + [a.value], a.pos)
  }

  /**
   * `primary`: literals, identifiers and parenthesised expressions (which
   * keep the inner node); a literal `int()`/`float()` rejects raises
   * `ValueError`, and any other token raises "Expected expression".
   */
  function Primary(toks: seq<Token>, pos: nat): (r: Res<Expr>)
    requires In(toks, pos)
    ensures Consumes(toks, pos, r)
    decreases |toks| - pos, 5
  {
    var t := Peek(toks, pos);
    var p1 := Advance(toks, pos);
    if Matches(toks, pos, {TRUE}) then Parsed(BooleanLiteral(true, Loc(t)), p1)
    else if Matches(toks, pos, {FALSE}) then Parsed(BooleanLiteral(false, Loc(t)), p1)
    else if Matches(toks, pos, {INTEGER}) then
      if IntText(t.value) then Parsed(IntegerLiteral(DecimalValue(t.value), Loc(t)), p1)
      else Raised(ValueError(t.value), p1)
    else if Matches(toks, pos, {FLOAT}) then
      if FloatSyntax(t.value) then Parsed(FloatLiteral(t.value, Loc(t)), p1)
      else Raised(ValueError(t.value), p1)
    else if Matches(toks, pos, {STRING}) then Parsed(StringLiteral(t.value, Loc(t)), p1)
    else if Matches(toks, pos, {CHAR}) then Parsed(CharLiteral(t.value, Loc(t)), p1)
    else if Matches(toks, pos, {IDENTIFIER}) then Parsed(Identifier(t.value, Loc(t)), p1)
    else if Matches(toks, pos, {LPAREN}) then
      var e := Expression(toks, p1);
      if e.Raised? then e
      else
        var c := Consume(toks, e.pos, RPAREN, "Expected ')' after expression");
        if c.Raised? then Raised(c.error, c.pos) else Parsed(e.value, c.pos)
    else Raised(ParseError("Expected expression", t), pos)
  }

  // ---------------------------------------------------------------------
  // Declarations and statements

  /**
   * `declaration`: a function or variable declaration, else a statement.
   * A `ParseError` raised anywhere inside is caught here: the parser
   * resynchronises and the declaration is `None`, with nothing reported.
   */
  function Declaration(toks: seq<Token>, pos: nat): (r: Res<Option<Stmt>>)
    requires In(toks, pos)
    ensures Stays(toks, pos, r)
    ensures r.Raised? ==> r.error.ValueError?
    ensures r.Parsed? && !AtEnd(toks, pos) ==> pos < r.pos
    ensures r.Parsed? && r.value.Some? ==> Previous(toks, r.pos).kind in {SEMICOLON, RBRACE}
    decreases |toks| - pos, 60
  {
    var res :=
      if Matches(toks, pos, {FN}) then FunctionDecl(toks, Advance(toks, pos))
      else if Matches(toks, pos, {LET}) then VariableDecl(toks, Advance(toks, pos))
      else Statement(toks, pos);
    if res.Parsed? then Parsed(Some(res.value), res.pos)
    else if res.error.ParseError? then Parsed(None, Synchronize(toks, res.pos))
    else Raised(res.error, res.pos)
  }

  /** `type_annotation`: a single identifier, never with generic arguments. */
  function TypeAnn(toks: seq<Token>, pos: nat): (r: Res<TypeAnnotation>)
    requires In(toks, pos)
    ensures Stays(toks, pos, r)
    ensures r.Parsed? ==> r.value == TypeAnnotation(toks[pos].value, []) && toks[pos].kind == IDENTIFIER
  {
    var n := Consume(toks, pos, IDENTIFIER, "Expected type name");
    if n.Raised? then Raised(n.error, n.pos) else Parsed(TypeAnnotation(n.value.value, []), n.pos)
  }

  /** An optional `: Type` at `pos`. */
  function OptionalType(toks: seq<Token>, pos: nat): (r: Res<Option<TypeAnnotation>>)
    requires In(toks, pos)
    ensures Stays(toks, pos, r)
    ensures !Matches(toks, pos, {COLON}) ==> r == Parsed(None, pos)
  {
    if !Matches(toks, pos, {COLON}) then Parsed(None, pos)
    else
      var t := TypeAnn(toks, Advance(toks, pos));
      if t.Raised? then Raised(t.error, t.pos) else Parsed(Some(t.value), t.pos)
  }

  /** `parameter`: a name and an optional type. */
  function Param(toks: seq<Token>, pos: nat): (r: Res<Parameter>)
    requires In(toks, pos)
    ensures Stays(toks, pos, r)
  {
    var n := Consume(toks, pos, IDENTIFIER, "Expected parameter name");
    if n.Raised? then Raised(n.error, n.pos)
    else
      var t := OptionalType(toks, n.pos);
      if t.Raised? then Raised(t.error, t.pos) else Parsed(Parameter(n.value.value, t.value), t.pos)
  }

  /** The parameter loop: a comma seen when 255 parameters are already collected raises. */
  function ParamLoop(toks: seq<Token>, acc: seq<Parameter>, pos: nat): (r: Res<seq<Parameter>>)
    requires In(toks, pos) && |acc| <= 255
    ensures Stays(toks, pos, r)
    ensures r.Parsed? ==> acc <= r.value && |r.value| <= 255
    decreases |toks| - pos, 1
  {
    if !Matches(toks, pos, {COMMA}) then Parsed(acc, pos)
    else
      var p1 := Advance(toks, pos);
      if |acc| >= 255 then Raised(ParseError("Can't have more than 255 parameters", Peek(toks, p1)), p1)
      else ParamNext(toks, acc, p1)
  }

  /** After a comma with room left: one more parameter, then the loop again. */
  function ParamNext(toks: seq<Token>, acc: seq<Parameter>, pos: nat): (r: Res<seq<Parameter>>)
    requires In(toks, pos) && 0 < pos && |acc| < 255
    ensures Stays(toks, pos, r)
    ensures r.Parsed? ==> acc <= r.value && |r.value| <= 255
    decreases |toks| - pos + 1, 0
  {
    var p := Param(toks, pos);
    if p.Raised? then Raised(p.error, p.pos) else ParamLoop(toks, acc + [p.value], p.pos)
  }

  /** The header of a function: everything up to and including `{`. */
  datatype Header = Header(name: Token, params: seq<Parameter>, returnType: Option<TypeAnnotation>)

  function FunctionHeader(toks: seq<Token>, pos: nat): (r: Res<Header>)
    requires In(toks, pos)
    ensures Stays(toks, pos, r)
    ensures r.Parsed? ==> pos < r.pos && Previous(toks, r.pos).kind == LBRACE && |r.value.params| <= 255
    ensures r.Parsed? ==> r.value.name == toks[pos] && toks[pos].kind == IDENTIFIER
  {
    var name := Consume(toks, pos, IDENTIFIER, "Expected function name");
    if name.Raised? then Raised(name.error, name.pos) else
    var lp := Consume(toks, name.pos, LPAREN, "Expected '(' after function name");
    if lp.Raised? then Raised(lp.error, lp.pos) else
    var ps :=
      if Check(toks, lp.pos, RPAREN) then Parsed([], lp.pos)
      else
        var p := Param(toks, lp.pos);
        if p.Raised? then Raised(p.error, p.pos) else ParamLoop(toks, [p.value], p.pos);
    if ps.Raised? then Raised(ps.error, ps.pos) else
    var rp := Consume(toks, ps.pos, RPAREN, "Expected ')' after parameters");
    if rp.Raised? then Raised(rp.error, rp.pos) else
    var ret :=
      if Matches(toks, rp.pos, {ARROW}) then
        var t := TypeAnn(toks, Advance(toks, rp.pos));
        if t.Raised? then Raised(t.error, t.pos) else Parsed(Some(t.value), t.pos)
      else Parsed(None, rp.pos);
    if ret.Raised? then Raised(ret.error, ret.pos) else
    var lb := Consume(toks, SkipNewlines(toks, ret.pos), LBRACE, "Expected '{' before function body");
    if lb.Raised? then Raised(lb.error, lb.pos)
    else Parsed(Header(name.value, ps.value, ret.value), lb.pos)
  }

  /** `function_declaration`: never `async`; the node sits at the name. */
  function FunctionDecl(toks: seq<Token>, pos: nat): (r: Res<Stmt>)
    requires In(toks, pos)
    ensures Consumes(toks, pos, r)
    ensures r.Parsed? ==>
      r.value.FunctionDeclaration? && !r.value.isAsync && r.value.body.BlockStatement? && |r.value.parameters| <= 255
    ensures r.Parsed? ==> Previous(toks, r.pos).kind == RBRACE
    decreases |toks| - pos, 50
  {
    var h := FunctionHeader(toks, pos);
    if h.Raised? then Raised(h.error, h.pos)
    else
      var body := BlockStmt(toks, h.pos);
      if body.Raised? then body
      else Parsed(FunctionDeclaration(h.value.name.value, h.value.params, h.value.returnType, body.value,
                                      false, Loc(h.value.name)), body.pos)
  }

  /** `variable_declaration`: `[mut] name [: T] [= e] ;`, the node at the name. */
  function VariableDecl(toks: seq<Token>, pos: nat): (r: Res<Stmt>)
    requires In(toks, pos)
    ensures Consumes(toks, pos, r)
    ensures r.Parsed? ==> r.value.VariableDeclaration? && Previous(toks, r.pos).kind == SEMICOLON
    decreases |toks| - pos, 50
  {
    var isMutable := Matches(toks, pos, {MUT});
    var p0 := if isMutable then Advance(toks, pos) else pos;
    var name := Consume(toks, p0, IDENTIFIER, "Expected variable name");
    if name.Raised? then Raised(name.error, name.pos) else
    var t := OptionalType(toks, name.pos);
    if t.Raised? then Raised(t.error, t.pos) else
    var init :=
      if Matches(toks, t.pos, {ASSIGN}) then
        var e := Expression(toks, Advance(toks, t.pos));
        if e.Raised? then Raised(e.error, e.pos) else Parsed(Some(e.value), e.pos)
      else Parsed(None, t.pos);
    if init.Raised? then Raised(init.error, init.pos) else
    var semi := Consume(toks, init.pos, SEMICOLON, "Expected ';' after variable declaration");
    if semi.Raised? then Raised(semi.error, semi.pos)
    else Parsed(VariableDeclaration(name.value.value, t.value, init.value, isMutable, Loc(name.value)), semi.pos)
  }

  /** `statement`: dispatch on the first token; anything else is an expression statement. */
  function Statement(toks: seq<Token>, pos: nat): (r: Res<Stmt>)
    requires In(toks, pos)
    ensures Consumes(toks, pos, r)
    ensures r.Parsed? ==> Previous(toks, r.pos).kind in {SEMICOLON, RBRACE}
    decreases |toks| - pos, 56
  {
    if Matches(toks, pos, {IF}) then IfStmt(toks, Advance(toks, pos))
    else if Matches(toks, pos, {WHILE}) then WhileStmt(toks, Advance(toks, pos))
    else if Matches(toks, pos, {RETURN}) then ReturnStmt(toks, Advance(toks, pos))
    else SimpleStatement(toks, pos)
  }

  /** The rest of `statement`'s dispatch: jumps, blocks, and expression statements. */
  function SimpleStatement(toks: seq<Token>, pos: nat): (r: Res<Stmt>)
    requires In(toks, pos)
    ensures Consumes(toks, pos, r)
    ensures r.Parsed? ==> Previous(toks, r.pos).kind in {SEMICOLON, RBRACE}
    decreases |toks| - pos, 55
  {
    if Matches(toks, pos, {BREAK}) then JumpStmt(toks, Advance(toks, pos), true)
    else if Matches(toks, pos, {CONTINUE}) then JumpStmt(toks, Advance(toks, pos), false)
    else if Matches(toks, pos, {LBRACE}) then BlockStmt(toks, Advance(toks, pos))
    else ExpressionStmt(toks, pos)
  }

  /**
   * `if_statement`: condition, newlines, then-branch, and an optional
   * `else` branch. The node sits at the last token consumed.
   */
  function IfStmt(toks: seq<Token>, pos: nat): (r: Res<Stmt>)
    requires In(toks, pos)
    ensures Stays(toks, pos, r)
    ensures r.Parsed? ==> Previous(toks, r.pos).kind in {SEMICOLON, RBRACE}
    ensures r.Parsed? ==> r.value.IfStatement? && r.value.loc == Loc(Previous(toks, r.pos))
    decreases |toks| - pos, 50
  {
    var c := Expression(toks, pos);
    if c.Raised? then Raised(c.error, c.pos) else
    var t := Statement(toks, SkipNewlines(toks, c.pos));
    if t.Raised? then t else
    var e :=
      if Matches(toks, t.pos, {ELSE}) then
        var s := Statement(toks, SkipNewlines(toks, Advance(toks, t.pos)));
        if s.Raised? then Raised(s.error, s.pos) else Parsed(Some(s.value), s.pos)
      else Parsed(None, t.pos);
    if e.Raised? then Raised(e.error, e.pos)
    else Parsed(IfStatement(c.value, t.value, e.value, Loc(Previous(toks, e.pos))), e.pos)
  }

  /** `while_statement`: the node sits at the last token consumed. */
  function WhileStmt(toks: seq<Token>, pos: nat): (r: Res<Stmt>)
    requires In(toks, pos)
    ensures Stays(toks, pos, r)
    ensures r.Parsed? ==> Previous(toks, r.pos).kind in {SEMICOLON, RBRACE}
    ensures r.Parsed? ==> r.value.WhileStatement? && r.value.loc == Loc(Previous(toks, r.pos))
    decreases |toks| - pos, 50
  {
    var c := Expression(toks, pos);
    if c.Raised? then Raised(c.error, c.pos) else
    var b := Statement(toks, SkipNewlines(toks, c.pos));
    if b.Raised? then b
    else Parsed(WhileStatement(c.value, b.value, Loc(Previous(toks, b.pos))), b.pos)
  }

  /** `return_statement`: an optional value, then a required `;`; the node sits at `return`. */
  function ReturnStmt(toks: seq<Token>, pos: nat): (r: Res<Stmt>)
    requires In(toks, pos) && 0 < pos
    ensures Stays(toks, pos, r)
    ensures r.Parsed? ==> r.value.ReturnStatement? && Previous(toks, r.pos).kind == SEMICOLON
    ensures r.Parsed? ==> r.value.loc == Loc(toks[pos - 1])
    decreases |toks| - pos, 50
  {
    var v := ReturnTail(toks, pos);
    if v.Raised? then Raised(v.error, v.pos)
    else Parsed(ReturnStatement(v.value, Loc(Previous(toks, pos))), v.pos)
  }

  /** What follows `return`: none when `;` follows at once, otherwise an expression; then the `;`. */
  function ReturnTail(toks: seq<Token>, pos: nat): (r: Res<Option<Expr>>)
    requires In(toks, pos)
    ensures Stays(toks, pos, r)
    ensures r.Parsed? ==> Previous(toks, r.pos).kind == SEMICOLON
    decreases |toks| - pos, 49
  {
    var v :=
      if Check(toks, pos, SEMICOLON) then Parsed(None, pos)
      else
        var e := Expression(toks, pos);
        if e.Raised? then Raised(e.error, e.pos) else Parsed(Some(e.value), e.pos);
    if v.Raised? then v
    else
      var semi := Consume(toks, v.pos, SEMICOLON, "Expected ';' after return value");
      if semi.Raised? then Raised(semi.error, semi.pos) else Parsed(v.value, semi.pos)
  }

  /** `break_statement` and `continue_statement`: the keyword must be followed by `;`. */
  function JumpStmt(toks: seq<Token>, pos: nat, isBreak: bool): (r: Res<Stmt>)
    requires In(toks, pos) && 0 < pos
    ensures Stays(toks, pos, r)
    ensures r.Parsed? <==> Check(toks, pos, SEMICOLON)
    ensures r.Parsed? ==> r.pos == pos + 1 && r.value == (if isBreak then BreakStatement(Loc(toks[pos - 1])) else ContinueStatement(Loc(toks[pos - 1])))
  {
    var keyword := Previous(toks, pos);
    var semi := Consume(toks, pos, SEMICOLON, if isBreak then "Expected ';' after 'break'" else "Expected ';' after 'continue'");
    if semi.Raised? then Raised(semi.error, semi.pos)
    else Parsed(if isBreak then BreakStatement(Loc(keyword)) else ContinueStatement(Loc(keyword)), semi.pos)
  }

  /** `block_statement`, entered just after `{`; the node sits at the `{`. */
  function BlockStmt(toks: seq<Token>, pos: nat): (r: Res<Stmt>)
    requires In(toks, pos)
    ensures Consumes(toks, pos, r)
    ensures r.Parsed? ==> r.value.BlockStatement? && Previous(toks, r.pos).kind == RBRACE
    ensures r.Parsed? ==> r.value.loc == Loc(Previous(toks, pos))
    decreases |toks| - pos, 63
  {
    var start := Previous(toks, pos);
    var ss := BlockLoop(toks, [], SkipNewlines(toks, pos));
    if ss.Raised? then Raised(ss.error, ss.pos) else
    var close := Consume(toks, ss.pos, RBRACE, "Expected '}' after block");
    if close.Raised? then Raised(close.error, close.pos)
    else Parsed(BlockStatement(ss.value, Loc(start)), close.pos)
  }

  /** The block loop: declarations up to `}` or EOF; dropped declarations leave nothing. */
  function BlockLoop(toks: seq<Token>, acc: seq<Stmt>, pos: nat): (r: Res<seq<Stmt>>)
    requires In(toks, pos)
    ensures Stays(toks, pos, r)
    ensures r.Parsed? ==> acc <= r.value && (Check(toks, r.pos, RBRACE) || AtEnd(toks, r.pos))
    decreases |toks| - pos, 62
  {
    if Check(toks, pos, RBRACE) || AtEnd(toks, pos) then Parsed(acc, pos)
    else
      var p1 := SkipNewlines(toks, pos);
      if Check(toks, p1, RBRACE) then BlockLoop(toks, acc, SkipNewlines(toks, p1))
      else BlockItem(toks, acc, pos, p1)
  }

  /**
   * One pass of the block loop past its newlines: a declaration at `p1`,
   * kept when it is not `None`, then the loop again.
   */
  function BlockItem(toks: seq<Token>, acc: seq<Stmt>, pos: nat, p1: nat): (r: Res<seq<Stmt>>)
    requires In(toks, p1) && pos <= p1 && (pos < p1 || !AtEnd(toks, p1))
    ensures Stays(toks, p1, r)
    ensures r.Parsed? ==> acc <= r.value && (Check(toks, r.pos, RBRACE) || AtEnd(toks, r.pos))
    decreases |toks| - pos, 61
  {
    var d := Declaration(toks, p1);
    if d.Raised? then Raised(d.error, d.pos)
    else
      var next := SkipNewlines(toks, d.pos);
      assert pos < next;
      BlockLoop(toks, acc + (if d.value.Some? then [d.value.value] else []), next)
  }

  /** `expression_statement`: an expression and a required `;`; the node sits where the expression does. */
  function ExpressionStmt(toks: seq<Token>, pos: nat): (r: Res<Stmt>)
    requires In(toks, pos)
    ensures Consumes(toks, pos, r)
    ensures r.Parsed? ==>
      r.value.ExpressionStatement? && r.value.loc == r.value.expression.loc && Previous(toks, r.pos).kind == SEMICOLON
    decreases |toks| - pos, 54
  {
    var e := Expression(toks, pos);
    if e.Raised? then Raised(e.error, e.pos) else
    var semi := Consume(toks, e.pos, SEMICOLON, "Expected ';' after expression");
    if semi.Raised? then Raised(semi.error, semi.pos)
    else Parsed(ExpressionStatement(e.value, e.value.loc), semi.pos)
  }

  /** The top-level loop of `parse`: declarations until EOF, keeping those that are not `None`. */
  function ParseLoop(toks: seq<Token>, acc: seq<Stmt>, pos: nat): (r: Result<seq<Stmt>, Raise>)
    requires In(toks, pos)
    ensures r.Ok? ==> acc <= r.value
    ensures r.Err? ==> r.error.ValueError?
    decreases |toks| - pos
  {
    if AtEnd(toks, pos) then Ok(acc)
    else
      var p1 := SkipNewlines(toks, pos);
      if AtEnd(toks, p1) then Ok(acc)
      else
        var d := Declaration(toks, p1);
        if d.Raised? then Err(d.error)
        else ParseLoop(toks, acc + (if d.value.Some? then [d.value.value] else []), d.pos)
  }

  /**
   * `parse`: never lets a `ParseError` out; only a failed literal conversion
   * escapes. The program sits at its first statement, or at 1:1 when empty.
   */
  function Parse(toks: seq<Token>): (r: Result<Program, Raise>)
    requires Valid(toks)
    ensures r.Err? ==> r.error.ValueError?
    ensures r.Ok? && r.value.statements == [] ==> r.value.loc == SourceLocation(1, 1)
    ensures r.Ok? && r.value.statements != [] ==> r.value.loc == r.value.statements[0].loc
  {
    match ParseLoop(toks, [], 0)
    case Ok(ss) => Ok(Program(ss, if ss == [] then SourceLocation(1, 1) else ss[0].loc))
    case Err(e) => Err(e)
  }
}
