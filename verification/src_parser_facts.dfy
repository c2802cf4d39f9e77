/**
 * Properties of the `src/` parser: operator precedence and associativity
 * over simple operands, assignment, the operators the lexer knows but the
 * parser does not, how a declaration with a syntax error disappears, and
 * the literal conversions that escape as `ValueError`.
 */
module SrcParserFacts {
  import opened Common
  import TextScan
  import opened SrcLexer
  import opened SrcTree
  import opened SrcParser

  /** The binary level a kind belongs to (0 = `||` ... 5 = `* / %`), or -1. */
  function Level(t: TokenType): (r: int)
    ensures -1 <= r <= 5
    ensures forall k :: 0 <= k <= 5 ==> (t in LevelKinds(k) <==> r == k)
  {
    match t
    case OR => 0
    case AND => 1
    case EQUAL => 2
    case NOT_EQUAL => 2
    case GREATER => 3
    case GREATER_EQUAL => 3
    case LESS => 3
    case LESS_EQUAL => 3
    case PLUS => 4
    case MINUS => 4
    case MULTIPLY => 5
    case DIVIDE => 5
    case MODULO => 5
    case _ => -1
  }

  /** A token `primary` turns into a leaf on its own. */
  predicate IsAtom(t: Token) {
    t.kind in {TRUE, FALSE, STRING, CHAR, IDENTIFIER}
    || (t.kind == INTEGER && IntText(t.value))
    || (t.kind == FLOAT && FloatSyntax(t.value))
  }

  function AtomOf(t: Token): Expr
    requires IsAtom(t)
  {
    match t.kind
    case TRUE => BooleanLiteral(true, Loc(t))
    case FALSE => BooleanLiteral(false, Loc(t))
    case STRING => StringLiteral(t.value, Loc(t))
    case CHAR => CharLiteral(t.value, Loc(t))
    case IDENTIFIER => Identifier(t.value, Loc(t))
    case INTEGER => IntegerLiteral(DecimalValue(t.value), Loc(t))
    case FLOAT => FloatLiteral(t.value, Loc(t))
  }

  /** An atom at `p`; it is never the final EOF, so a token follows it. */
  predicate AtomAt(toks: seq<Token>, p: nat) {
    In(toks, p) && IsAtom(toks[p]) && p + 1 < |toks|
  }

  /** A token that does not continue a call chain (`(`, `[`, `.`). */
  predicate EndsCall(t: Token) {
    t.kind !in {LPAREN, LBRACKET, DOT}
  }

  /** A token after which an expression is over: no call, no binary operator, no `=`. */
  predicate EndsExpression(t: Token) {
    EndsCall(t) && Level(t.kind) == -1 && t.kind != ASSIGN
  }

  lemma AtomHasSuccessor(toks: seq<Token>, p: nat)
    requires In(toks, p) && IsAtom(toks[p])
    ensures AtomAt(toks, p)
  {
  }

  lemma UnaryAtom(toks: seq<Token>, p: nat)
    requires AtomAt(toks, p) && EndsCall(toks[p + 1])
    ensures Unary(toks, p) == Parsed(AtomOf(toks[p]), p + 1)
  {
    var x := AtomOf(toks[p]);
    assert Primary(toks, p) == Parsed(x, p + 1);
    assert !Matches(toks, p + 1, {LPAREN}) && !Matches(toks, p + 1, {DOT}) && !Matches(toks, p + 1, {LBRACKET});
    assert CallRest(toks, x, p + 1) == Parsed(x, p + 1);
    assert !Matches(toks, p, {NOT, TokenType.MINUS, TokenType.PLUS});
  }

  /** An atom followed by a token of a looser level (or none) is a whole level-k expression. */
  lemma {:induction false} LevelAtom(toks: seq<Token>, p: nat, k: nat)
    requires AtomAt(toks, p) && EndsCall(toks[p + 1]) && Level(toks[p + 1].kind) < k <= 5
    ensures BinLevel(toks, p, k) == Parsed(AtomOf(toks[p]), p + 1)
    decreases 5 - k
  {
    if k == 5 {
      UnaryAtom(toks, p);
    } else {
      LevelAtom(toks, p, k + 1);
    }
    assert Operand(toks, p, k) == Parsed(AtomOf(toks[p]), p + 1);
    assert !Matches(toks, p + 1, LevelKinds(k));
  }

  /** The operand of level k, when the atom is followed by an operator of level k or looser. */
  lemma OperandAtom(toks: seq<Token>, p: nat, k: nat)
    requires AtomAt(toks, p) && EndsCall(toks[p + 1]) && Level(toks[p + 1].kind) <= k <= 5
    ensures Operand(toks, p, k) == Parsed(AtomOf(toks[p]), p + 1)
  {
    if k < 5 {
      LevelAtom(toks, p, k + 1);
    } else {
      UnaryAtom(toks, p);
    }
  }

  /** A level-(k+1) result whose next token is not a level-k operator is also the level-k result. */
  lemma PassLevel(toks: seq<Token>, p: nat, k: nat, x: Expr, q: nat)
    requires In(toks, p) && k < 5
    requires BinLevel(toks, p, k + 1) == Parsed(x, q) && In(toks, q)
    requires Level(Peek(toks, q).kind) != k
    ensures BinLevel(toks, p, k) == Parsed(x, q)
  {
    assert Operand(toks, p, k) == Parsed(x, q);
    assert !Matches(toks, q, LevelKinds(k));
  }

  lemma {:induction false} PassLevels(toks: seq<Token>, p: nat, lo: nat, hi: nat, x: Expr, q: nat)
    requires In(toks, p) && lo <= hi <= 5
    requires BinLevel(toks, p, hi) == Parsed(x, q) && In(toks, q)
    requires Level(Peek(toks, q).kind) < lo || Level(Peek(toks, q).kind) >= hi
    ensures BinLevel(toks, p, lo) == Parsed(x, q)
    decreases hi - lo
  {
    if lo < hi {
      PassLevels(toks, p, lo + 1, hi, x, q);
      PassLevel(toks, p, lo, x, q);
    }
  }

  /** The shape `a op1 b op2 c` followed by a token that ends the expression. */
  predicate ThreeOperands(toks: seq<Token>, p: nat) {
    Valid(toks) && p + 5 < |toks|
    && IsAtom(toks[p]) && IsAtom(toks[p + 2]) && IsAtom(toks[p + 4])
    && 0 <= Level(toks[p + 1].kind) && 0 <= Level(toks[p + 3].kind)
    && EndsExpression(toks[p + 5])
  }

  /** The node a level builds: the operator mapped from the token, located at the left operand. */
  function Bin(l: Expr, op: Token, r: Expr): Expr {
    BinaryExpression(l, BinaryOf(op.kind), r, l.loc)
  }

  /** The inner group `b op2 c` of `a op1 b op2 c`, parsed at the second operator's level. */
  lemma TightGroup(toks: seq<Token>, p: nat)
    requires ThreeOperands(toks, p)
    ensures BinLevel(toks, p + 2, Level(toks[p + 3].kind))
      == Parsed(Bin(AtomOf(toks[p + 2]), toks[p + 3], AtomOf(toks[p + 4])), p + 5)
  {
    var j: nat := Level(toks[p + 3].kind);
    var b, c := AtomOf(toks[p + 2]), AtomOf(toks[p + 4]);
    var bc := Bin(b, toks[p + 3], c);
    OperandAtom(toks, p + 2, j);
    OperandAtom(toks, p + 4, j);
    assert Matches(toks, p + 3, LevelKinds(j));
    assert BinRest(toks, bc, p + 5, j) == Parsed(bc, p + 5);
    assert BinRest(toks, b, p + 3, j) == Parsed(bc, p + 5);
  }

  /**
   * Precedence: when the second operator binds tighter than the first,
   * `a op1 b op2 c` groups as `a op1 (b op2 c)` (e.g. `1 + 2 * 3`).
   */
  lemma TighterOperatorGroupsRight(toks: seq<Token>, p: nat)
    requires ThreeOperands(toks, p)
    requires Level(toks[p + 1].kind) < Level(toks[p + 3].kind)
    ensures BinLevel(toks, p, 0)
      == Parsed(Bin(AtomOf(toks[p]), toks[p + 1], Bin(AtomOf(toks[p + 2]), toks[p + 3], AtomOf(toks[p + 4]))), p + 5)
  {
    var i: nat := Level(toks[p + 1].kind);
    var a := AtomOf(toks[p]);
    var bc := Bin(AtomOf(toks[p + 2]), toks[p + 3], AtomOf(toks[p + 4]));
    TightRightOperand(toks, p);
    OperandAtom(toks, p, i);
    var abc := Bin(a, toks[p + 1], bc);
    assert Matches(toks, p + 1, LevelKinds(i));
    assert BinRest(toks, abc, p + 5, i) == Parsed(abc, p + 5);
    assert BinRest(toks, a, p + 1, i) == Parsed(abc, p + 5);
    assert BinLevel(toks, p, i) == Parsed(abc, p + 5);
    PassLevels(toks, p, 0, i, abc, p + 5);
  }

  /** The right operand of a looser operator is the tighter group after it. */
  lemma TightRightOperand(toks: seq<Token>, p: nat)
    requires ThreeOperands(toks, p)
    requires Level(toks[p + 1].kind) < Level(toks[p + 3].kind)
    ensures Operand(toks, p + 2, Level(toks[p + 1].kind))
      == Parsed(Bin(AtomOf(toks[p + 2]), toks[p + 3], AtomOf(toks[p + 4])), p + 5)
  {
    var i: nat := Level(toks[p + 1].kind);
    var bc := Bin(AtomOf(toks[p + 2]), toks[p + 3], AtomOf(toks[p + 4]));
    TightGroup(toks, p);
    PassLevels(toks, p + 2, i + 1, Level(toks[p + 3].kind), bc, p + 5);
  }

  /**
   * Left associativity, and precedence the other way round: when the second
   * operator binds no tighter than the first, `a op1 b op2 c` groups as
   * `(a op1 b) op2 c` (e.g. `1 - 2 - 3`, `1 * 2 + 3`).
   */
  lemma LooserOperatorGroupsLeft(toks: seq<Token>, p: nat)
    requires ThreeOperands(toks, p)
    requires Level(toks[p + 1].kind) >= Level(toks[p + 3].kind)
    ensures BinLevel(toks, p, 0)
      == Parsed(Bin(Bin(AtomOf(toks[p]), toks[p + 1], AtomOf(toks[p + 2])), toks[p + 3], AtomOf(toks[p + 4])), p + 5)
  {
    var i: nat := Level(toks[p + 1].kind);
    var j: nat := Level(toks[p + 3].kind);
    var a, b, c := AtomOf(toks[p]), AtomOf(toks[p + 2]), AtomOf(toks[p + 4]);
    var ab := Bin(a, toks[p + 1], b);
    var abc := Bin(ab, toks[p + 3], c);
    if i == j {
      OperandAtom(toks, p, i);
      OperandAtom(toks, p + 2, i);
      OperandAtom(toks, p + 4, j);
      assert Matches(toks, p + 1, LevelKinds(i)) && Matches(toks, p + 3, LevelKinds(j));
      assert BinRest(toks, abc, p + 5, j) == Parsed(abc, p + 5);
      assert BinRest(toks, ab, p + 3, j) == Parsed(abc, p + 5);
      assert BinRest(toks, a, p + 1, i) == Parsed(abc, p + 5);
      assert BinLevel(toks, p, i) == Parsed(abc, p + 5);
    } else {
      LooseGroup(toks, p);
    }
    PassLevels(toks, p, 0, j, abc, p + 5);
  }

  /** `a op1 b op2 c` with `op1` strictly tighter, parsed at the level of `op2`. */
  lemma LooseGroup(toks: seq<Token>, p: nat)
    requires ThreeOperands(toks, p)
    requires Level(toks[p + 1].kind) > Level(toks[p + 3].kind)
    ensures BinLevel(toks, p, Level(toks[p + 3].kind))
      == Parsed(Bin(Bin(AtomOf(toks[p]), toks[p + 1], AtomOf(toks[p + 2])), toks[p + 3], AtomOf(toks[p + 4])), p + 5)
  {
    var i: nat := Level(toks[p + 1].kind);
    var j: nat := Level(toks[p + 3].kind);
    var a, b, c := AtomOf(toks[p]), AtomOf(toks[p + 2]), AtomOf(toks[p + 4]);
    var ab := Bin(a, toks[p + 1], b);
    var abc := Bin(ab, toks[p + 3], c);
    OperandAtom(toks, p, i);
    OperandAtom(toks, p + 2, i);
    OperandAtom(toks, p + 4, j);
    assert Matches(toks, p + 1, LevelKinds(i)) && Matches(toks, p + 3, LevelKinds(j));
    assert BinRest(toks, ab, p + 3, i) == Parsed(ab, p + 3);
    assert BinRest(toks, a, p + 1, i) == Parsed(ab, p + 3);
    assert BinLevel(toks, p, i) == Parsed(ab, p + 3);
    PassLevels(toks, p, j + 1, i, ab, p + 3);
    assert Operand(toks, p, j) == Parsed(ab, p + 3);
    assert BinRest(toks, abc, p + 5, j) == Parsed(abc, p + 5);
    assert BinRest(toks, ab, p + 3, j) == Parsed(abc, p + 5);
  }

  /** A prefix operator binds tighter than any binary one: `-a * b` is `(-a) * b`. */
  lemma PrefixBindsTighter(toks: seq<Token>, p: nat)
    requires Valid(toks) && p + 4 < |toks|
    requires toks[p].kind in {NOT, TokenType.MINUS, TokenType.PLUS} && IsAtom(toks[p + 1])
    requires Level(toks[p + 2].kind) >= 0 && IsAtom(toks[p + 3]) && EndsExpression(toks[p + 4])
    ensures BinLevel(toks, p, Level(toks[p + 2].kind))
      == Parsed(Bin(UnaryExpression(UnaryOf(toks[p].kind), AtomOf(toks[p + 1]), Loc(toks[p])), toks[p + 2],
                    AtomOf(toks[p + 3])), p + 4)
  {
    var k: nat := Level(toks[p + 2].kind);
    var u := UnaryExpression(UnaryOf(toks[p].kind), AtomOf(toks[p + 1]), Loc(toks[p]));
    var x := Bin(u, toks[p + 2], AtomOf(toks[p + 3]));
    UnaryAtom(toks, p + 1);
    assert Unary(toks, p) == Parsed(u, p + 2);
    assert Operand(toks, p, k) == Parsed(u, p + 2) by {
      if k < 5 {
        UnaryLevel(toks, p, k + 1, u);
      }
    }
    OperandAtom(toks, p + 3, k);
    assert Matches(toks, p + 2, LevelKinds(k));
    assert BinRest(toks, x, p + 4, k) == Parsed(x, p + 4);
    assert BinRest(toks, u, p + 2, k) == Parsed(x, p + 4);
  }

  /** A unary result followed by an operator of a looser level is the whole level-k expression. */
  lemma {:induction false} UnaryLevel(toks: seq<Token>, p: nat, k: nat, u: Expr)
    requires In(toks, p) && k <= 5 && Unary(toks, p) == Parsed(u, p + 2) && p + 2 < |toks|
    requires Level(toks[p + 2].kind) < k
    ensures BinLevel(toks, p, k) == Parsed(u, p + 2)
    decreases 5 - k
  {
    if k < 5 {
      UnaryLevel(toks, p, k + 1, u);
    }
    assert Operand(toks, p, k) == Parsed(u, p + 2);
    assert !Matches(toks, p + 2, LevelKinds(k));
  }

  /** An atom followed by a token that ends the expression is a whole expression. */
  lemma ExpressionAtom(toks: seq<Token>, p: nat)
    requires AtomAt(toks, p) && EndsExpression(toks[p + 1])
    ensures Expression(toks, p) == Parsed(AtomOf(toks[p]), p + 1)
  {
    LevelAtom(toks, p, 0);
    assert !Matches(toks, p + 1, {ASSIGN});
  }

  /**
   * Assignment is right-associative and takes any left-hand side, literals
   * included: `a = b = c` is `a = (b = c)`, each node at its `=`.
   */
  lemma AssignmentGroupsRight(toks: seq<Token>, p: nat)
    requires Valid(toks) && p + 5 < |toks|
    requires IsAtom(toks[p]) && IsAtom(toks[p + 2]) && IsAtom(toks[p + 4])
    requires toks[p + 1].kind == ASSIGN && toks[p + 3].kind == ASSIGN && EndsExpression(toks[p + 5])
    ensures Expression(toks, p)
      == Parsed(AssignmentExpression(AtomOf(toks[p]),
                  AssignmentExpression(AtomOf(toks[p + 2]), AtomOf(toks[p + 4]), Loc(toks[p + 3])),
                  Loc(toks[p + 1])), p + 5)
  {
    LevelAtom(toks, p, 0);
    LevelAtom(toks, p + 2, 0);
    ExpressionAtom(toks, p + 4);
    assert Matches(toks, p + 3, {ASSIGN});
    assert Assignment(toks, p + 2)
      == Parsed(AssignmentExpression(AtomOf(toks[p + 2]), AtomOf(toks[p + 4]), Loc(toks[p + 3])), p + 5);
    assert Matches(toks, p + 1, {ASSIGN});
  }

  // -------------------------------------------------------------------
  // Statements

  /** An atom followed by `;` is an expression statement located at the atom. */
  lemma ExpressionStatementAtom(toks: seq<Token>, p: nat)
    requires AtomAt(toks, p) && p + 2 < |toks| && toks[p + 1].kind == SEMICOLON
    ensures Declaration(toks, p) == Parsed(Some(ExpressionStatement(AtomOf(toks[p]), Loc(toks[p]))), p + 2)
  {
    ExpressionAtom(toks, p);
    StatementAtAtom(toks, p);
    DeclarationOfStatement(toks, p);
  }

  /** A statement that starts with an atom is an expression statement. */
  lemma StatementAtAtom(toks: seq<Token>, p: nat)
    requires AtomAt(toks, p)
    ensures Statement(toks, p) == ExpressionStmt(toks, p)
  {
    StatementOfSimple(toks, p);
    assert !Matches(toks, p, {BREAK}) && !Matches(toks, p, {CONTINUE}) && !Matches(toks, p, {LBRACE});
  }

  /**
   * An expression statement whose atom is followed by a token that neither
   * continues the expression nor is `;` raises "Expected ';' after
   * expression" there, and the declaration disappears: it is `None` and
   * the parser resynchronises from that token.
   */
  lemma MissingSemicolonDropsStatement(toks: seq<Token>, p: nat)
    requires AtomAt(toks, p) && EndsExpression(toks[p + 1]) && toks[p + 1].kind != SEMICOLON
    ensures ExpressionStmt(toks, p) == Raised(ParseError("Expected ';' after expression", toks[p + 1]), p + 1)
    ensures Declaration(toks, p) == Parsed(None, Synchronize(toks, p + 1))
  {
    MissingSemicolonRaises(toks, p);
    StatementAtAtom(toks, p);
    DeclarationOfStatement(toks, p);
  }

  lemma MissingSemicolonRaises(toks: seq<Token>, p: nat)
    requires AtomAt(toks, p) && EndsExpression(toks[p + 1]) && toks[p + 1].kind != SEMICOLON
    ensures ExpressionStmt(toks, p) == Raised(ParseError("Expected ';' after expression", toks[p + 1]), p + 1)
  {
    ExpressionAtom(toks, p);
  }

  /**
   * The bitwise kinds the lexer emits for `&`, `|`, `^` and `~` have no
   * place in the grammar: after an operand they end the expression, so
   * `a & b;` and `a ^ b;` are dropped as missing their `;`. The power,
   * compound-assignment and shift kinds are token types the lexer never
   * produces (it reads `**` as two `*` and `+=` as `+` then `=`); a token
   * list holding one is dropped the same way.
   */
  lemma UnparsedOperators(toks: seq<Token>, p: nat)
    requires AtomAt(toks, p)
    requires toks[p + 1].kind in {TokenType.POWER, PLUS_ASSIGN, MINUS_ASSIGN, MULTIPLY_ASSIGN, DIVIDE_ASSIGN,
                                  BIT_AND, BIT_OR, BIT_XOR, BIT_NOT,
                                  TokenType.LEFT_SHIFT, TokenType.RIGHT_SHIFT}
    ensures Declaration(toks, p) == Parsed(None, Synchronize(toks, p + 1))
  {
    MissingSemicolonDropsStatement(toks, p);
  }

  /** `break` or `continue` without its `;` disappears the same way. */
  lemma JumpWithoutSemicolonDropped(toks: seq<Token>, p: nat)
    requires In(toks, p) && toks[p].kind in {BREAK, CONTINUE} && toks[p + 1].kind != SEMICOLON
    ensures Declaration(toks, p) == Parsed(None, Synchronize(toks, p + 1))
  {
    StatementAtJump(toks, p);
    DeclarationOfStatement(toks, p);
  }

  /** `break;` and `continue;` are statements located at the keyword. */
  lemma JumpStatements(toks: seq<Token>, p: nat)
    requires In(toks, p) && toks[p].kind in {BREAK, CONTINUE} && toks[p + 1].kind == SEMICOLON
    ensures Declaration(toks, p)
      == Parsed(Some(if toks[p].kind == BREAK then BreakStatement(Loc(toks[p])) else ContinueStatement(Loc(toks[p]))), p + 2)
  {
    StatementAtJump(toks, p);
    DeclarationOfStatement(toks, p);
  }

  /** Past `fn` and `let`, a declaration is its statement, dropped on a syntax error. */
  lemma DeclarationOfStatement(toks: seq<Token>, p: nat)
    requires In(toks, p) && toks[p].kind !in {FN, LET}
    ensures var s := Statement(toks, p);
      Declaration(toks, p)
        == if s.Parsed? then Parsed(Some(s.value), s.pos)
           else if s.error.ParseError? then Parsed(None, Synchronize(toks, s.pos))
           else Raised(s.error, s.pos)
  {
  }

  /** `break` and `continue` dispatch to the jump statement just past the keyword. */
  lemma StatementAtJump(toks: seq<Token>, p: nat)
    requires In(toks, p) && toks[p].kind in {BREAK, CONTINUE}
    ensures Statement(toks, p) == JumpStmt(toks, p + 1, toks[p].kind == BREAK)
  {
    StatementOfSimple(toks, p);
    SimpleAtJump(toks, p);
  }

  lemma SimpleAtJump(toks: seq<Token>, p: nat)
    requires In(toks, p) && toks[p].kind in {BREAK, CONTINUE}
    ensures SimpleStatement(toks, p) == JumpStmt(toks, p + 1, toks[p].kind == BREAK)
  {
    assert Advance(toks, p) == p + 1;
    assert Matches(toks, p, {BREAK}) <==> toks[p].kind == BREAK;
  }

  /** Past `if`, `while` and `return`, `statement` dispatches as `SimpleStatement` does. */
  lemma StatementOfSimple(toks: seq<Token>, p: nat)
    requires In(toks, p) && toks[p].kind !in {IF, WHILE, RETURN}
    ensures Statement(toks, p) == SimpleStatement(toks, p)
  {
    assert !Matches(toks, p, {IF}) && !Matches(toks, p, {WHILE}) && !Matches(toks, p, {RETURN});
  }

  /**
   * Recovery after a syntax error: the declaration is dropped and parsing
   * resumes where `synchronize` stops, which is past the failing token
   * unless it is the EOF.
   */
  lemma DeclarationRecovers(toks: seq<Token>, p: nat, m: string, t: Token, q: nat)
    requires In(toks, p) && !Matches(toks, p, {FN, LET})
    requires Statement(toks, p) == Raised(ParseError(m, t), q)
    ensures Declaration(toks, p) == Parsed(None, Synchronize(toks, q))
    ensures p <= q < Declaration(toks, p).pos || (q == Declaration(toks, p).pos && AtEnd(toks, q))
  {
  }

  // -------------------------------------------------------------------
  // Limits

  /** A 256th argument is refused at the token after its comma. */
  lemma ArgumentLimit(toks: seq<Token>, acc: seq<Expr>, p: nat)
    requires In(toks, p) && |acc| == 255 && toks[p].kind == COMMA
    ensures ArgumentLoop(toks, acc, p) == Raised(ParseError("Can't have more than 255 arguments", toks[p + 1]), p + 1)
  {
  }

  /** A 256th parameter is refused at the token after its comma. */
  lemma ParameterLimit(toks: seq<Token>, acc: seq<Parameter>, p: nat)
    requires In(toks, p) && |acc| == 255 && toks[p].kind == COMMA
    ensures ParamLoop(toks, acc, p) == Raised(ParseError("Can't have more than 255 parameters", toks[p + 1]), p + 1)
  {
  }

  // -------------------------------------------------------------------
  // Literal conversions

  /** A number token whose text `int()`/`float()` rejects. */
  predicate Unconvertible(t: Token) {
    (t.kind == INTEGER && !IntText(t.value)) || (t.kind == FLOAT && !FloatSyntax(t.value))
  }

  lemma {:induction false} LevelRaises(toks: seq<Token>, p: nat, k: nat)
    requires In(toks, p) && Unconvertible(toks[p]) && k <= 5
    ensures BinLevel(toks, p, k) == Raised(ValueError(toks[p].value), p + 1)
    decreases 5 - k
  {
    if k == 5 {
      assert Primary(toks, p) == Raised(ValueError(toks[p].value), p + 1);
      assert Unary(toks, p) == CallExpr(toks, p);
    } else {
      LevelRaises(toks, p, k + 1);
    }
    assert Operand(toks, p, k) == Raised(ValueError(toks[p].value), p + 1);
  }

  /**
   * A number `int()`/`float()` rejects is not a syntax error: the
   * `ValueError` passes every `except ParseError` and ends the parse.
   */
  lemma ConversionFailureEscapes(toks: seq<Token>, p: nat)
    requires In(toks, p) && Unconvertible(toks[p])
    ensures Declaration(toks, p) == Raised(ValueError(toks[p].value), p + 1)
  {
    LevelRaises(toks, p, 0);
    assert Expression(toks, p) == Raised(ValueError(toks[p].value), p + 1);
    assert Statement(toks, p) == ExpressionStmt(toks, p);
  }

  /** The integers the lexer produces always convert: their text is a digit run. */
  lemma LexedIntegersConvert(src: string, c: TextScan.Cursor)
    requires c.pos < |src| && IsDigit(src[c.pos])
    ensures ReadNumber(src, c).kind == INTEGER ==> IntText(ReadNumber(src, c).value)
  {
    var d, f, e := NumberParts(src, c);
    var v := ReadNumber(src, c).value;
    if ReadNumber(src, c).kind == INTEGER {
      assert v == src[c.pos..d];
      assert forall i :: 0 <= i < |v| ==> v[i] == src[c.pos + i];
    }
  }

  /** The lexer reads `1e` as a FLOAT, and `float()` rejects it. */
  lemma ExponentWithoutDigits()
    ensures ReadNumber("1e", TextScan.Start) == NumberRead(FLOAT, "1e", TextScan.Cursor(2, 1, 3))
    ensures !FloatSyntax("1e") && Unconvertible(Token(FLOAT, "1e", 1, 1))
  {
    var src := "1e";
    assert TextScan.Digits(src, TextScan.Cursor(1, 1, 2)) == TextScan.Cursor(1, 1, 2);
    assert TextScan.Digits(src, TextScan.Start) == TextScan.Cursor(1, 1, 2);
    assert Fraction(src, TextScan.Cursor(1, 1, 2)) == TextScan.Cursor(1, 1, 2);
    assert TextScan.Digits(src, TextScan.Cursor(2, 1, 3)) == TextScan.Cursor(2, 1, 3);
    assert TextScan.ExponentEnd(src, TextScan.Cursor(1, 1, 2)) == TextScan.Cursor(2, 1, 3);
    assert DigitRun(src, 1) == 1;
    assert DigitRun(src, 0) == 1;
    assert DigitRun(src, 2) == 2;
  }

  /** Spellings `float()` accepts: a fraction, a bare exponent, a signed exponent, a trailing point. */
  lemma FloatSpellings()
    ensures FloatSyntax("3.14") && FloatSyntax("2E5") && FloatSyntax("1e-3") && FloatSyntax("1.")
    ensures !FloatSyntax(".") && !FloatSyntax("1e+") && !FloatSyntax("")
  {
    assert DigitRun("3.14", 4) == 4 && DigitRun("3.14", 2) == 4 && DigitRun("3.14", 0) == 1;
    assert DigitRun("2E5", 3) == 3 && DigitRun("2E5", 2) == 3 && DigitRun("2E5", 0) == 1;
    assert DigitRun("1e-3", 4) == 4 && DigitRun("1e-3", 3) == 4 && DigitRun("1e-3", 0) == 1;
    assert DigitRun("1.", 2) == 2 && DigitRun("1.", 0) == 1;
    assert DigitRun(".", 1) == 1 && DigitRun(".", 0) == 0;
    assert DigitRun("1e+", 3) == 3 && DigitRun("1e+", 0) == 1;
  }

  // -------------------------------------------------------------------
  // Programs

  /** Only newlines before the EOF: the program is empty and located at 1:1. */
  lemma {:induction false} BlankProgram(toks: seq<Token>, p: nat)
    requires In(toks, p) && forall k :: p <= k < |toks| - 1 ==> toks[k].kind == NEWLINE
    ensures ParseLoop(toks, [], p) == Ok([])
    decreases |toks| - p
  {
    if !AtEnd(toks, p) {
      assert SkipNewlines(toks, p) == |toks| - 1 by {
        SkipToEnd(toks, p);
      }
    }
  }

  lemma {:induction false} SkipToEnd(toks: seq<Token>, p: nat)
    requires In(toks, p) && forall k :: p <= k < |toks| - 1 ==> toks[k].kind == NEWLINE
    ensures SkipNewlines(toks, p) == |toks| - 1
    decreases |toks| - p
  {
    if p < |toks| - 1 {
      SkipToEnd(toks, p + 1);
    }
  }

  lemma EmptyProgram(toks: seq<Token>)
    requires Valid(toks) && forall k :: 0 <= k < |toks| - 1 ==> toks[k].kind == NEWLINE
    ensures Parse(toks) == Ok(Program([], SourceLocation(1, 1)))
  {
    BlankProgram(toks, 0);
  }

  /** A program `1e;` makes `parse` itself raise: the error is the `ValueError`, not a syntax error. */
  lemma ConversionFailureEndsParse(toks: seq<Token>)
    requires Valid(toks) && |toks| >= 2 && Unconvertible(toks[0])
    ensures Parse(toks) == Err(ValueError(toks[0].value))
  {
    ConversionFailureEscapes(toks, 0);
    assert SkipNewlines(toks, 0) == 0;
  }
}
