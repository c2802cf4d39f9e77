/**
 * Properties of the Trion parser: operator precedence and associativity over
 * simple operands, the handling of assignment targets, and how unexpected
 * tokens and failed literal conversions are reported.
 */
module TrionParserFacts {
  import opened Common
  import opened TrionTokens
  import opened TrionErrors
  import opened TrionAst
  import opened TrionParser

  /** The binary-operator level a kind belongs to (0 = `or` ... 5 = `* / %`), or -1. */
  function Level(t: TokenType): (r: int)
    ensures -1 <= r <= 5
    ensures forall k :: 0 <= k <= 5 ==> (t in LevelKinds(k) <==> r == k)
  {
    match t
    case OR => 0
    case AND => 1
    case EQUAL => 2
    case NOT_EQUAL => 2
    case GREATER_THAN => 3
    case GREATER_EQUAL => 3
    case LESS_THAN => 3
    case LESS_EQUAL => 3
    case MINUS => 4
    case PLUS => 4
    case DIVIDE => 5
    case MULTIPLY => 5
    case MODULO => 5
    case _ => -1
  }

  /** A token `primary` turns into a leaf on its own. */
  predicate IsAtom(t: Token) {
    t.kind in {TRUE, FALSE, NULL_KW, STRING, IDENTIFIER} || (t.kind == INTEGER && IntText(t.value))
  }

  function AtomOf(t: Token): Expr
    requires IsAtom(t)
  {
    match t.kind
    case TRUE => Literal(LBool(true), t.line, t.column)
    case FALSE => Literal(LBool(false), t.line, t.column)
    case NULL_KW => Literal(LNull, t.line, t.column)
    case STRING => Literal(LStr(t.value), t.line, t.column)
    case IDENTIFIER => Identifier(t.value, t.line, t.column)
    case INTEGER => Literal(LInt(DecimalValue(t.value)), t.line, t.column)
  }

  /** A token that does not continue a call chain (`(`, `[`, `.`). */
  predicate EndsCall(t: Token) {
    t.kind !in {LEFT_PAREN, LEFT_BRACKET, DOT}
  }

  lemma PrimaryAtom(cx: Ctx, p: nat, e: seq<TrionError>)
    requires Valid(cx) && p < |cx.toks| && IsAtom(cx.toks[p])
    ensures p + 1 < |cx.toks|
    ensures Primary(cx, PState(p, e)) == Parsed(AtomOf(cx.toks[p]), PState(p + 1, e))
  {
  }

  /** An atom followed by a token that ends the call chain is a whole unary expression. */
  lemma UnaryAtom(cx: Ctx, p: nat, e: seq<TrionError>)
    requires Valid(cx) && p < |cx.toks| && IsAtom(cx.toks[p])
    requires p + 1 < |cx.toks| ==> EndsCall(cx.toks[p + 1])
    ensures p + 1 < |cx.toks|
    ensures Unary(cx, PState(p, e)) == Parsed(AtomOf(cx.toks[p]), PState(p + 1, e))
  {
    var st, x := PState(p, e), AtomOf(cx.toks[p]);
    PrimaryAtom(cx, p, e);
    assert !Matches(cx, PState(p + 1, e), {LEFT_PAREN}) && !Matches(cx, PState(p + 1, e), {LEFT_BRACKET})
      && !Matches(cx, PState(p + 1, e), {DOT});
    assert CallRest(cx, x, PState(p + 1, e)) == Parsed(x, PState(p + 1, e));
    assert CallExpr(cx, st) == Parsed(x, PState(p + 1, e));
    assert !Matches(cx, st, {NOT, MINUS});
  }

  lemma PowerAtom(cx: Ctx, p: nat, e: seq<TrionError>)
    requires Valid(cx) && p < |cx.toks| && IsAtom(cx.toks[p])
    requires p + 1 < |cx.toks| ==> EndsCall(cx.toks[p + 1]) && cx.toks[p + 1].kind != POWER
    ensures p + 1 < |cx.toks|
    ensures Power(cx, PState(p, e)) == Parsed(AtomOf(cx.toks[p]), PState(p + 1, e))
  {
    UnaryAtom(cx, p, e);
  }

  /** An atom followed by a token of a looser level (or none) is a whole level-k expression. */
  lemma {:induction false} LevelAtom(cx: Ctx, p: nat, e: seq<TrionError>, k: nat)
    requires Valid(cx) && p < |cx.toks| && IsAtom(cx.toks[p]) && k <= 5
    requires p + 1 < |cx.toks| ==> EndsCall(cx.toks[p + 1]) && cx.toks[p + 1].kind != POWER
    requires p + 1 < |cx.toks| ==> Level(cx.toks[p + 1].kind) < k
    ensures p + 1 < |cx.toks|
    ensures BinLevel(cx, PState(p, e), k) == Parsed(AtomOf(cx.toks[p]), PState(p + 1, e))
    decreases 5 - k, 1
  {
    OperandAtom(cx, p, e, k);
    RestStop(cx, AtomOf(cx.toks[p]), p + 1, e, k);
  }

  /** A level-(k+1) result whose next token is not a level-k operator is also the level-k result. */
  lemma PassLevel(cx: Ctx, st: PState, k: nat, x: Expr, s2: PState)
    requires In(cx, st) && k < 5
    requires BinLevel(cx, st, k + 1) == Parsed(x, s2) && In(cx, s2)
    requires Level(Peek(cx, s2).kind) != k
    ensures BinLevel(cx, st, k) == Parsed(x, s2)
  {
    assert Operand(cx, st, k) == Parsed(x, s2);
  }

  lemma {:induction false} PassLevels(cx: Ctx, st: PState, lo: nat, hi: nat, x: Expr, s2: PState)
    requires In(cx, st) && lo <= hi <= 5
    requires BinLevel(cx, st, hi) == Parsed(x, s2) && In(cx, s2)
    requires Level(Peek(cx, s2).kind) < lo || Level(Peek(cx, s2).kind) >= hi
    ensures BinLevel(cx, st, lo) == Parsed(x, s2)
    decreases hi - lo
  {
    if lo < hi {
      PassLevels(cx, st, lo + 1, hi, x, s2);
      PassLevel(cx, st, lo, x, s2);
    }
  }

  /** An atom followed by nothing of level above `k` is the whole operand of level `k`. */
  lemma {:induction false} OperandAtom(cx: Ctx, p: nat, e: seq<TrionError>, k: nat)
    requires Valid(cx) && p < |cx.toks| && IsAtom(cx.toks[p]) && k <= 5
    requires p + 1 < |cx.toks| ==> EndsCall(cx.toks[p + 1]) && cx.toks[p + 1].kind != POWER
    requires p + 1 < |cx.toks| ==> Level(cx.toks[p + 1].kind) <= k
    ensures p + 1 < |cx.toks|
    ensures Operand(cx, PState(p, e), k) == Parsed(AtomOf(cx.toks[p]), PState(p + 1, e))
    decreases 5 - k, 0
  {
    if k < 5 { LevelAtom(cx, p, e, k + 1); } else { PowerAtom(cx, p, e); }
  }

  /** One turn of a level's operator loop: the operator and its right operand fold into the left one. */
  lemma RestStep(cx: Ctx, x: Expr, q: nat, e: seq<TrionError>, k: nat, y: Expr, q2: nat)
    requires Valid(cx) && q < q2 < |cx.toks| && k <= 5 && Level(cx.toks[q].kind) == k
    requires Operand(cx, PState(q + 1, e), k) == Parsed(y, PState(q2, e))
    ensures BinRest(cx, x, PState(q, e), k) == BinRest(cx, Bin(x, cx.toks[q], y), PState(q2, e), k)
  {
    assert Matches(cx, PState(q, e), LevelKinds(k));
    assert Advance(cx, PState(q, e)) == PState(q + 1, e);
  }

  /** The loop stops at a token that is not one of the level's operators. */
  lemma RestStop(cx: Ctx, x: Expr, q: nat, e: seq<TrionError>, k: nat)
    requires Valid(cx) && q < |cx.toks| && k <= 5 && Level(cx.toks[q].kind) != k
    ensures BinRest(cx, x, PState(q, e), k) == Parsed(x, PState(q, e))
  {
    assert !Matches(cx, PState(q, e), LevelKinds(k));
  }

  /** The shape `a op1 b op2 c` followed by a token that is no operator. */
  predicate ThreeOperands(cx: Ctx, p: nat)
    requires Valid(cx)
  {
    p + 5 < |cx.toks|
    && IsAtom(cx.toks[p]) && IsAtom(cx.toks[p + 2]) && IsAtom(cx.toks[p + 4])
    && 0 <= Level(cx.toks[p + 1].kind) && 0 <= Level(cx.toks[p + 3].kind)
    && Level(cx.toks[p + 5].kind) == -1 && EndsCall(cx.toks[p + 5]) && cx.toks[p + 5].kind != POWER
  }

  function Bin(l: Expr, op: Token, r: Expr): Expr {
    BinaryOp(l, op.value, r, op.line, op.column)
  }

  /**
   * Precedence: when the second operator binds tighter than the first,
   * `a op1 b op2 c` groups as `a op1 (b op2 c)` (e.g. `1 + 2 * 3`).
   */
  lemma TighterOperatorGroupsRight(cx: Ctx, p: nat, e: seq<TrionError>)
    requires Valid(cx) && ThreeOperands(cx, p)
    requires Level(cx.toks[p + 1].kind) < Level(cx.toks[p + 3].kind)
    ensures BinLevel(cx, PState(p, e), 0)
      == Parsed(Bin(AtomOf(cx.toks[p]), cx.toks[p + 1], Bin(AtomOf(cx.toks[p + 2]), cx.toks[p + 3], AtomOf(cx.toks[p + 4]))),
                PState(p + 5, e))
  {
    var t := cx.toks;
    var abc := Bin(AtomOf(t[p]), t[p + 1], Bin(AtomOf(t[p + 2]), t[p + 3], AtomOf(t[p + 4])));
    TightOuter(cx, p, e);
    PassLevels(cx, PState(p, e), 0, Level(t[p + 1].kind), abc, PState(p + 5, e));
  }

  /** `b op2 c` is the right operand of the looser first operator. */
  lemma TightRightOperand(cx: Ctx, p: nat, e: seq<TrionError>)
    requires Valid(cx) && ThreeOperands(cx, p)
    requires Level(cx.toks[p + 1].kind) < Level(cx.toks[p + 3].kind)
    ensures Operand(cx, PState(p + 2, e), Level(cx.toks[p + 1].kind))
      == Parsed(Bin(AtomOf(cx.toks[p + 2]), cx.toks[p + 3], AtomOf(cx.toks[p + 4])), PState(p + 5, e))
  {
    var t := cx.toks;
    var i: nat := Level(t[p + 1].kind);
    var j: nat := Level(t[p + 3].kind);
    var bc := Bin(AtomOf(t[p + 2]), t[p + 3], AtomOf(t[p + 4]));
    TightGroup(cx, p, e);
    PassLevels(cx, PState(p + 2, e), i + 1, j, bc, PState(p + 5, e));
  }

  /** `a op1 (b op2 c)` at the first operator's level. */
  lemma TightOuter(cx: Ctx, p: nat, e: seq<TrionError>)
    requires Valid(cx) && ThreeOperands(cx, p)
    requires Level(cx.toks[p + 1].kind) < Level(cx.toks[p + 3].kind)
    ensures BinLevel(cx, PState(p, e), Level(cx.toks[p + 1].kind))
      == Parsed(Bin(AtomOf(cx.toks[p]), cx.toks[p + 1], Bin(AtomOf(cx.toks[p + 2]), cx.toks[p + 3], AtomOf(cx.toks[p + 4]))),
                PState(p + 5, e))
  {
    var t := cx.toks;
    var i: nat := Level(t[p + 1].kind);
    var j: nat := Level(t[p + 3].kind);
    var a := AtomOf(t[p]);
    var bc := Bin(AtomOf(t[p + 2]), t[p + 3], AtomOf(t[p + 4]));
    TightRightOperand(cx, p, e);
    OperandAtom(cx, p, e, i);
    RestStep(cx, a, p + 1, e, i, bc, p + 5);
    RestStop(cx, Bin(a, t[p + 1], bc), p + 5, e, i);
  }

  /** The inner group `b op2 c` of `a op1 b op2 c`, parsed at the second operator's level. */
  lemma TightGroup(cx: Ctx, p: nat, e: seq<TrionError>)
    requires Valid(cx) && ThreeOperands(cx, p)
    ensures BinLevel(cx, PState(p + 2, e), Level(cx.toks[p + 3].kind))
      == Parsed(Bin(AtomOf(cx.toks[p + 2]), cx.toks[p + 3], AtomOf(cx.toks[p + 4])), PState(p + 5, e))
  {
    var t := cx.toks;
    var j: nat := Level(t[p + 3].kind);
    var b, c := AtomOf(t[p + 2]), AtomOf(t[p + 4]);
    OperandAtom(cx, p + 2, e, j);
    OperandAtom(cx, p + 4, e, j);
    RestStep(cx, b, p + 3, e, j, c, p + 5);
    RestStop(cx, Bin(b, t[p + 3], c), p + 5, e, j);
  }

  /**
   * Left associativity and precedence the other way round: when the second
   * operator binds no tighter than the first, `a op1 b op2 c` groups as
   * `(a op1 b) op2 c` (e.g. `1 - 2 - 3`, `1 * 2 + 3`).
   */
  lemma LooserOperatorGroupsLeft(cx: Ctx, p: nat, e: seq<TrionError>)
    requires Valid(cx) && ThreeOperands(cx, p)
    requires Level(cx.toks[p + 1].kind) >= Level(cx.toks[p + 3].kind)
    ensures BinLevel(cx, PState(p, e), 0)
      == Parsed(Bin(Bin(AtomOf(cx.toks[p]), cx.toks[p + 1], AtomOf(cx.toks[p + 2])), cx.toks[p + 3], AtomOf(cx.toks[p + 4])),
                PState(p + 5, e))
  {
    var t := cx.toks;
    var abc := Bin(Bin(AtomOf(t[p]), t[p + 1], AtomOf(t[p + 2])), t[p + 3], AtomOf(t[p + 4]));
    if Level(t[p + 1].kind) == Level(t[p + 3].kind) {
      LooseSameLevel(cx, p, e);
    } else {
      LooseLowerLevel(cx, p, e);
    }
    PassLevels(cx, PState(p, e), 0, Level(t[p + 3].kind), abc, PState(p + 5, e));
  }

  /** `(a op1 b) op2 c` at the shared level of two operators of one level. */
  lemma LooseSameLevel(cx: Ctx, p: nat, e: seq<TrionError>)
    requires Valid(cx) && ThreeOperands(cx, p)
    requires Level(cx.toks[p + 1].kind) == Level(cx.toks[p + 3].kind)
    ensures BinLevel(cx, PState(p, e), Level(cx.toks[p + 3].kind))
      == Parsed(Bin(Bin(AtomOf(cx.toks[p]), cx.toks[p + 1], AtomOf(cx.toks[p + 2])), cx.toks[p + 3], AtomOf(cx.toks[p + 4])),
                PState(p + 5, e))
  {
    var t := cx.toks;
    var j: nat := Level(t[p + 3].kind);
    var a, b, c := AtomOf(t[p]), AtomOf(t[p + 2]), AtomOf(t[p + 4]);
    var ab := Bin(a, t[p + 1], b);
    OperandAtom(cx, p, e, j);
    OperandAtom(cx, p + 2, e, j);
    OperandAtom(cx, p + 4, e, j);
    RestStep(cx, a, p + 1, e, j, b, p + 3);
    RestStep(cx, ab, p + 3, e, j, c, p + 5);
    RestStop(cx, Bin(ab, t[p + 3], c), p + 5, e, j);
  }

  /** `(a op1 b) op2 c` at the second operator's level when the first binds tighter. */
  lemma LooseLowerLevel(cx: Ctx, p: nat, e: seq<TrionError>)
    requires Valid(cx) && ThreeOperands(cx, p)
    requires Level(cx.toks[p + 1].kind) > Level(cx.toks[p + 3].kind)
    ensures BinLevel(cx, PState(p, e), Level(cx.toks[p + 3].kind))
      == Parsed(Bin(Bin(AtomOf(cx.toks[p]), cx.toks[p + 1], AtomOf(cx.toks[p + 2])), cx.toks[p + 3], AtomOf(cx.toks[p + 4])),
                PState(p + 5, e))
  {
    var t := cx.toks;
    var i: nat := Level(t[p + 1].kind);
    var j: nat := Level(t[p + 3].kind);
    var a, b, c := AtomOf(t[p]), AtomOf(t[p + 2]), AtomOf(t[p + 4]);
    var ab := Bin(a, t[p + 1], b);
    LooseGroup(cx, p, e);
    PassLevels(cx, PState(p, e), j + 1, i, ab, PState(p + 3, e));
    assert Operand(cx, PState(p, e), j) == Parsed(ab, PState(p + 3, e));
    OperandAtom(cx, p + 4, e, j);
    RestStep(cx, ab, p + 3, e, j, c, p + 5);
    RestStop(cx, Bin(ab, t[p + 3], c), p + 5, e, j);
  }

  /** The group `a op1 b` at the first operator's level, which the looser second operator ends. */
  lemma LooseGroup(cx: Ctx, p: nat, e: seq<TrionError>)
    requires Valid(cx) && ThreeOperands(cx, p)
    requires Level(cx.toks[p + 1].kind) > Level(cx.toks[p + 3].kind)
    ensures BinLevel(cx, PState(p, e), Level(cx.toks[p + 1].kind))
      == Parsed(Bin(AtomOf(cx.toks[p]), cx.toks[p + 1], AtomOf(cx.toks[p + 2])), PState(p + 3, e))
  {
    var t := cx.toks;
    var i: nat := Level(t[p + 1].kind);
    var a, b := AtomOf(t[p]), AtomOf(t[p + 2]);
    OperandAtom(cx, p, e, i);
    OperandAtom(cx, p + 2, e, i);
    RestStep(cx, a, p + 1, e, i, b, p + 3);
    RestStop(cx, Bin(a, t[p + 1], b), p + 3, e, i);
  }

  /** `a ** b ** c` groups as `a ** (b ** c)`. */
  lemma PowerGroupsRight(cx: Ctx, p: nat, e: seq<TrionError>)
    requires Valid(cx) && p + 5 < |cx.toks|
    requires IsAtom(cx.toks[p]) && IsAtom(cx.toks[p + 2]) && IsAtom(cx.toks[p + 4])
    requires cx.toks[p + 1].kind == POWER && cx.toks[p + 3].kind == POWER
    requires EndsCall(cx.toks[p + 5]) && cx.toks[p + 5].kind != POWER
    ensures Power(cx, PState(p, e))
      == Parsed(Bin(AtomOf(cx.toks[p]), cx.toks[p + 1], Bin(AtomOf(cx.toks[p + 2]), cx.toks[p + 3], AtomOf(cx.toks[p + 4]))),
                PState(p + 5, e))
  {
    var t := cx.toks;
    var b, c := AtomOf(t[p + 2]), AtomOf(t[p + 4]);
    PowerAtom(cx, p + 4, e);
    UnaryAtom(cx, p + 2, e);
    PowerStep(cx, p + 2, e, b, p + 3, c, p + 5);
    UnaryAtom(cx, p, e);
    PowerStep(cx, p, e, AtomOf(t[p]), p + 1, Bin(b, t[p + 3], c), p + 5);
  }

  /** A unary operand followed by `**` takes the power expression after it as its right operand. */
  lemma PowerStep(cx: Ctx, p: nat, e: seq<TrionError>, x: Expr, q1: nat, y: Expr, q: nat)
    requires Valid(cx) && p < q1 < q < |cx.toks| && cx.toks[q1].kind == POWER
    requires Unary(cx, PState(p, e)) == Parsed(x, PState(q1, e))
    requires Power(cx, PState(q1 + 1, e)) == Parsed(y, PState(q, e))
    ensures Power(cx, PState(p, e)) == Parsed(Bin(x, cx.toks[q1], y), PState(q, e))
  {
    var st1 := PState(q1, e);
    assert Matches(cx, st1, {POWER}) && Advance(cx, st1) == PState(q1 + 1, e) && Peek(cx, st1) == cx.toks[q1];
  }

  /** A prefix operator binds tighter than `**`: `-a ** b` is `(-a) ** b`. */
  lemma PrefixBindsTighterThanPower(cx: Ctx, p: nat, e: seq<TrionError>)
    requires Valid(cx) && p + 4 < |cx.toks|
    requires cx.toks[p].kind in {MINUS, NOT} && IsAtom(cx.toks[p + 1]) && cx.toks[p + 2].kind == POWER
    requires IsAtom(cx.toks[p + 3]) && EndsCall(cx.toks[p + 4]) && cx.toks[p + 4].kind != POWER
    ensures Power(cx, PState(p, e))
      == Parsed(Bin(UnaryOp(cx.toks[p].value, AtomOf(cx.toks[p + 1]), cx.toks[p].line, cx.toks[p].column),
                    cx.toks[p + 2], AtomOf(cx.toks[p + 3])),
                PState(p + 4, e))
  {
    var t := cx.toks;
    var u := UnaryOp(t[p].value, AtomOf(t[p + 1]), t[p].line, t[p].column);
    PowerAtom(cx, p + 3, e);
    UnaryPrefix(cx, p, e);
    PowerStep(cx, p, e, u, p + 2, AtomOf(t[p + 3]), p + 4);
  }

  /** A prefix operator applied to an atom is one unary expression. */
  lemma UnaryPrefix(cx: Ctx, p: nat, e: seq<TrionError>)
    requires Valid(cx) && p + 2 < |cx.toks|
    requires cx.toks[p].kind in {MINUS, NOT} && IsAtom(cx.toks[p + 1]) && EndsCall(cx.toks[p + 2])
    ensures Unary(cx, PState(p, e))
      == Parsed(UnaryOp(cx.toks[p].value, AtomOf(cx.toks[p + 1]), cx.toks[p].line, cx.toks[p].column), PState(p + 2, e))
  {
    UnaryAtom(cx, p + 1, e);
    assert Matches(cx, PState(p, e), {NOT, MINUS}) && Advance(cx, PState(p, e)) == PState(p + 1, e);
  }

  /** An operand followed by nothing that continues an expression is a whole assignment-level expression. */
  lemma ExpressionAtom(cx: Ctx, p: nat, e: seq<TrionError>)
    requires Valid(cx) && p + 1 < |cx.toks| && IsAtom(cx.toks[p])
    requires EndsCall(cx.toks[p + 1]) && cx.toks[p + 1].kind != POWER && Level(cx.toks[p + 1].kind) == -1
    requires cx.toks[p + 1].kind !in AssignKinds
    ensures AssignExpr(cx, PState(p, e)) == Parsed(AtomOf(cx.toks[p]), PState(p + 1, e))
  {
    LevelAtom(cx, p, e, 0);
    assert !Matches(cx, PState(p + 1, e), AssignKinds);
    assert AssignExpr(cx, PState(p, e)) == BinLevel(cx, PState(p, e), 0);
  }

  /**
   * `x = v` and `x += v` (and `-=`, `*=`, `/=`) build the same node: the
   * operator's kind appears nowhere in the result.
   */
  lemma CompoundAssignmentIsPlain(cx: Ctx, p: nat, e: seq<TrionError>)
    requires Valid(cx) && p + 3 < |cx.toks|
    requires cx.toks[p].kind == IDENTIFIER && cx.toks[p + 1].kind in AssignKinds && IsAtom(cx.toks[p + 2])
    requires EndsCall(cx.toks[p + 3]) && cx.toks[p + 3].kind != POWER && Level(cx.toks[p + 3].kind) == -1
    requires cx.toks[p + 3].kind !in AssignKinds
    ensures AssignExpr(cx, PState(p, e))
      == Parsed(TrionAst.Assignment(cx.toks[p].value, AtomOf(cx.toks[p + 2]), cx.toks[p + 1].line, cx.toks[p + 1].column),
                PState(p + 3, e))
  {
    LevelAtom(cx, p, e, 0);
    ExpressionAtom(cx, p + 2, e);
    AssignStep(cx, p, e, AtomOf(cx.toks[p]), p + 1, AtomOf(cx.toks[p + 2]), p + 3);
  }

  /** A level-0 operand followed by an assignment operator and a value: the operator's node or the target error. */
  lemma AssignStep(cx: Ctx, p: nat, e: seq<TrionError>, x: Expr, q1: nat, v: Expr, q: nat)
    requires Valid(cx) && p < q1 < q < |cx.toks| && cx.toks[q1].kind in AssignKinds
    requires BinLevel(cx, PState(p, e), 0) == Parsed(x, PState(q1, e))
    requires AssignExpr(cx, PState(q1 + 1, e)) == Parsed(v, PState(q, e))
    ensures AssignExpr(cx, PState(p, e))
      == if x.Identifier? then Parsed(TrionAst.Assignment(x.name, v, cx.toks[q1].line, cx.toks[q1].column), PState(q, e))
         else Parsed(x, SyntaxErr(cx, PState(q, e), "Invalid assignment target.", cx.toks[q1]))
  {
    var st1 := PState(q1, e);
    assert Matches(cx, st1, AssignKinds) && Advance(cx, st1) == PState(q1 + 1, e) && Peek(cx, st1) == cx.toks[q1];
  }

  /**
   * A target that is not a bare name: the value is still parsed, one
   * "Invalid assignment target." error is recorded at the operator, and the
   * left operand is what comes back.
   */
  lemma InvalidTargetKeepsLeftSide(cx: Ctx, p: nat, e: seq<TrionError>)
    requires Valid(cx) && p + 3 < |cx.toks|
    requires IsAtom(cx.toks[p]) && cx.toks[p].kind != IDENTIFIER
    requires cx.toks[p + 1].kind in AssignKinds && IsAtom(cx.toks[p + 2])
    requires EndsCall(cx.toks[p + 3]) && cx.toks[p + 3].kind != POWER && Level(cx.toks[p + 3].kind) == -1
    requires cx.toks[p + 3].kind !in AssignKinds
    ensures AssignExpr(cx, PState(p, e))
      == Parsed(AtomOf(cx.toks[p]),
                PState(p + 3, e + [TrionError(SyntaxError, "Invalid assignment target.",
                                              Some(cx.toks[p + 1].line), Some(cx.toks[p + 1].column), cx.file)]))
  {
    LevelAtom(cx, p, e, 0);
    ExpressionAtom(cx, p + 2, e);
    AssignStep(cx, p, e, AtomOf(cx.toks[p]), p + 1, AtomOf(cx.toks[p + 2]), p + 3);
    assert !AtomOf(cx.toks[p]).Identifier?;
  }

  // -------------------------------------------------------------------
  // Unexpected tokens

  /** The kinds some parse function claims at the start of a declaration. */
  const Claimed: set<TokenType> := {
    TRUE, FALSE, NULL_KW, INTEGER, FLOAT, STRING, IDENTIFIER, LEFT_PAREN, NOT, MINUS,
    IF, WHILE, FOR, RETURN, TRY, THROW, IMPORT, LEFT_BRACE, FUNCTION, CLASS, LET, CONST, EOF}

  function UnexpectedError(cx: Ctx, t: Token): TrionError {
    TrionError(SyntaxError, "Unexpected token: '" + t.value + "'", Some(t.line), Some(t.column), cx.file)
  }

  /** `primary` on a token it cannot use records one error, skips the token and yields a null literal. */
  lemma PrimaryUnexpected(cx: Ctx, p: nat, e: seq<TrionError>)
    requires Valid(cx) && p < |cx.toks|
    requires cx.toks[p].kind !in {TRUE, FALSE, NULL_KW, INTEGER, FLOAT, STRING, IDENTIFIER, LEFT_PAREN, EOF}
    ensures p + 1 < |cx.toks|
    ensures Primary(cx, PState(p, e))
      == Parsed(Literal(LNull, cx.toks[p].line, cx.toks[p].column), PState(p + 1, e + [UnexpectedError(cx, cx.toks[p])]))
  {
  }

  lemma {:induction false} LevelUnexpected(cx: Ctx, p: nat, e: seq<TrionError>, k: nat)
    requires Valid(cx) && p < |cx.toks| && cx.toks[p].kind !in Claimed && k <= 5
    ensures e + [UnexpectedError(cx, cx.toks[p])] <= BinLevel(cx, PState(p, e), k).st.errors
    decreases 5 - k
  {
    var st := PState(p, e);
    var pre := e + [UnexpectedError(cx, cx.toks[p])];
    if k == 5 {
      PrimaryUnexpected(cx, p, e);
      var c := Primary(cx, st);
      assert pre <= CallRest(cx, c.value, c.st).st.errors;
      assert pre <= CallExpr(cx, st).st.errors;
      assert Unary(cx, st) == CallExpr(cx, st);
      var u := Unary(cx, st);
      assert pre <= u.st.errors;
      assert pre <= Power(cx, st).st.errors;
    } else {
      LevelUnexpected(cx, p, e, k + 1);
    }
    var l := Operand(cx, st, k);
    assert pre <= l.st.errors;
  }

  /**
   * A declaration that starts with a token no parse function claims (a `;`,
   * say) records "Unexpected token" for it before anything else.
   */
  lemma DeclarationUnexpected(cx: Ctx, p: nat, e: seq<TrionError>)
    requires Valid(cx) && p < |cx.toks| && cx.toks[p].kind !in Claimed
    ensures e + [UnexpectedError(cx, cx.toks[p])] <= Declaration(cx, PState(p, e)).1.errors
  {
    var st := PState(p, e);
    var pre := e + [UnexpectedError(cx, cx.toks[p])];
    StatementUnexpected(cx, p, e);
    assert Declaration(cx, st).1.errors == Statement(cx, st).st.errors
        || Declaration(cx, st).1 == Synchronize(cx, Statement(cx, st).st);
  }

  /** The statement parser passes such a token to the expression parser, which records the error. */
  lemma StatementUnexpected(cx: Ctx, p: nat, e: seq<TrionError>)
    requires Valid(cx) && p < |cx.toks| && cx.toks[p].kind !in Claimed
    ensures e + [UnexpectedError(cx, cx.toks[p])] <= Statement(cx, PState(p, e)).st.errors
  {
    ExpressionUnexpected(cx, p, e);
    StatementFallsToExpression(cx, PState(p, e));
  }

  lemma ExpressionUnexpected(cx: Ctx, p: nat, e: seq<TrionError>)
    requires Valid(cx) && p < |cx.toks| && cx.toks[p].kind !in Claimed
    ensures e + [UnexpectedError(cx, cx.toks[p])] <= Expression(cx, PState(p, e)).st.errors
  {
    var st := PState(p, e);
    LevelUnexpected(cx, p, e, 0);
    assert BinLevel(cx, st, 0).st.errors <= AssignExpr(cx, st).st.errors;
  }

  /** A token that starts no statement keyword's rule leaves `statement` to the expression parser. */
  lemma StatementFallsToExpression(cx: Ctx, st: PState)
    requires In(cx, st) && Peek(cx, st).kind !in {IF, WHILE, FOR, RETURN, TRY, THROW, IMPORT, LEFT_BRACE}
    ensures Statement(cx, st).st == Expression(cx, st).st
    ensures Statement(cx, st).Raised? <==> Expression(cx, st).Raised?
  {
    assert !Matches(cx, st, {IF}) && !Matches(cx, st, {WHILE}) && !Matches(cx, st, {FOR});
    assert !Matches(cx, st, {RETURN}) && !Matches(cx, st, {TRY}) && !Matches(cx, st, {THROW});
    assert !Matches(cx, st, {IMPORT}) && !Matches(cx, st, {LEFT_BRACE});
    var x := Expression(cx, st);
    assert Statement(cx, st) == if x.Raised? then Raised(x.st) else Parsed(ExprStmt(x.value), x.st);
  }

  /** Declarations and expression statements leave a `;` behind, so it is reported. */
  lemma SemicolonIsUnexpected(cx: Ctx, p: nat, e: seq<TrionError>)
    requires Valid(cx) && p < |cx.toks| && cx.toks[p].kind == SEMICOLON
    ensures e + [UnexpectedError(cx, cx.toks[p])] <= Declaration(cx, PState(p, e)).1.errors
  {
    DeclarationUnexpected(cx, p, e);
  }

  // -------------------------------------------------------------------
  // Failed literal conversions

  /** A number token whose text `int()`/`float()` rejects. */
  predicate Unconvertible(t: Token) {
    (t.kind == INTEGER && !IntText(t.value)) || (t.kind == FLOAT && !FloatText(t.value))
  }

  lemma {:induction false} LevelRaises(cx: Ctx, p: nat, e: seq<TrionError>, k: nat)
    requires Valid(cx) && p < |cx.toks| && Unconvertible(cx.toks[p]) && k <= 5
    ensures p + 1 < |cx.toks|
    ensures BinLevel(cx, PState(p, e), k) == Raised(PState(p + 1, e))
    decreases 5 - k
  {
    if k == 5 {
      PowerRaises(cx, p, e);
    } else {
      LevelRaises(cx, p, e, k + 1);
    }
  }

  lemma PowerRaises(cx: Ctx, p: nat, e: seq<TrionError>)
    requires Valid(cx) && p < |cx.toks| && Unconvertible(cx.toks[p])
    ensures p + 1 < |cx.toks|
    ensures Power(cx, PState(p, e)) == Raised(PState(p + 1, e))
  {
    assert Primary(cx, PState(p, e)) == Raised(PState(p + 1, e));
    assert Unary(cx, PState(p, e)) == CallExpr(cx, PState(p, e));
  }

  /**
   * A number `int()`/`float()` rejects (the lexer reads `1e` as a FLOAT)
   * makes the enclosing declaration vanish: it becomes `None` and the parser
   * resynchronises, and no error is recorded.
   */
  lemma ConversionFailureDropsDeclaration(cx: Ctx, p: nat, e: seq<TrionError>)
    requires Valid(cx) && p < |cx.toks| && Unconvertible(cx.toks[p])
    ensures p + 1 < |cx.toks|
    ensures Declaration(cx, PState(p, e)) == (None, Synchronize(cx, PState(p + 1, e)))
    ensures Declaration(cx, PState(p, e)).1.errors == e
  {
    var st := PState(p, e);
    LevelRaises(cx, p, e, 0);
    assert AssignExpr(cx, st) == Raised(PState(p + 1, e));
    StatementFallsToExpression(cx, st);
    assert !Matches(cx, st, {FUNCTION}) && !Matches(cx, st, {CLASS}) && !Matches(cx, st, {LET, CONST});
  }

  /** `1e`, which the lexer reads as a FLOAT, is such a number: `float()` rejects it. */
  lemma DanglingExponentIsUnconvertible()
    ensures !FloatText("1e")
  {
    assert ExponentAt("1e") == 1;
  }

  // -------------------------------------------------------------------
  // Loosely parsed clauses

  /** `for x <any identifier> e { }`: the word where `in` belongs is never checked. */
  lemma ForAcceptsAnyWord(cx: Ctx, p: nat, e: seq<TrionError>)
    requires Valid(cx) && p + 2 < |cx.toks|
    requires cx.toks[p].kind == IDENTIFIER && cx.toks[p + 1].kind == IDENTIFIER
    ensures ForStmt(cx, PState(p, e)).st == CondBlock(cx, PState(p + 2, e), "Expected '{' after for clause.").st
  {
    ForHeaderAnyWord(cx, p, e);
  }

  /** A `for` loop over the variable `name`, when the parse succeeded. */
  predicate BindsVariable(r: Res<Stmt>, name: string) {
    r.Parsed? ==> r.value.For? && r.value.variable == name
  }

  /** The loop variable is the first identifier, whatever the second one is. */
  lemma ForVariable(cx: Ctx, p: nat, e: seq<TrionError>)
    requires Valid(cx) && p + 2 < |cx.toks|
    requires cx.toks[p].kind == IDENTIFIER && cx.toks[p + 1].kind == IDENTIFIER
    ensures BindsVariable(ForStmt(cx, PState(p, e)), cx.toks[p].value)
  {
    ForHeaderAnyWord(cx, p, e);
  }

  lemma ForHeaderAnyWord(cx: Ctx, p: nat, e: seq<TrionError>)
    requires Valid(cx) && p + 2 < |cx.toks|
    requires cx.toks[p].kind == IDENTIFIER && cx.toks[p + 1].kind == IDENTIFIER
    ensures ForHeader(cx, PState(p, e)) == (cx.toks[p], PState(p + 2, e))
  {
  }

  /** `catch (X)` names the exception type `X` and binds nothing. */
  lemma CatchSingleNameIsType(cx: Ctx, p: nat, e: seq<TrionError>)
    requires Valid(cx) && p + 2 < |cx.toks|
    requires cx.toks[p].kind == LEFT_PAREN && cx.toks[p + 1].kind == IDENTIFIER && cx.toks[p + 2].kind == RIGHT_PAREN
    ensures CatchHeader(cx, PState(p, e)) == (Some(cx.toks[p + 1].value), None, PState(p + 3, e))
  {
    var st, st1, st2 := PState(p, e), PState(p + 1, e), PState(p + 2, e);
    assert Matches(cx, st, {LEFT_PAREN}) && Advance(cx, st) == st1;
    assert Check(cx, st1, IDENTIFIER);
    assert Consume(cx, st1, IDENTIFIER, "Expected exception type.") == (cx.toks[p + 1], st2);
    assert !Matches(cx, st2, {IDENTIFIER}) && Check(cx, st2, RIGHT_PAREN);
    assert Consume(cx, st2, RIGHT_PAREN, "Expected ')' after catch clause.").1 == PState(p + 3, e);
  }

  /**
   * `f(a, b) {` gives the name `f` and the parameters `a` and `b` in order,
   * records no error, and leaves the cursor just inside the body.
   */
  lemma FunctionHeaderTwoParams(cx: Ctx, p: nat, e: seq<TrionError>)
    requires Valid(cx) && p + 7 < |cx.toks|
    requires cx.toks[p].kind == IDENTIFIER && cx.toks[p + 1].kind == LEFT_PAREN
    requires cx.toks[p + 2].kind == IDENTIFIER && cx.toks[p + 3].kind == COMMA && cx.toks[p + 4].kind == IDENTIFIER
    requires cx.toks[p + 5].kind == RIGHT_PAREN && cx.toks[p + 6].kind == LEFT_BRACE
    ensures FunctionHeader(cx, PState(p, e)) == (cx.toks[p], [cx.toks[p + 2].value, cx.toks[p + 4].value], PState(p + 7, e))
  {
    var a, b := cx.toks[p + 2].value, cx.toks[p + 4].value;
    assert Check(cx, PState(p, e), IDENTIFIER) && Check(cx, PState(p + 1, e), LEFT_PAREN);
    assert !Check(cx, PState(p + 2, e), RIGHT_PAREN) && Check(cx, PState(p + 2, e), IDENTIFIER);
    assert Matches(cx, PState(p + 3, e), {COMMA}) && Advance(cx, PState(p + 3, e)) == PState(p + 4, e);
    assert Check(cx, PState(p + 4, e), IDENTIFIER);
    assert Consume(cx, PState(p + 4, e), IDENTIFIER, "Expected parameter name.") == (cx.toks[p + 4], PState(p + 5, e));
    assert [a] + [b] == [a, b];
    assert !Matches(cx, PState(p + 5, e), {COMMA});
    assert ParamLoop(cx, [a, b], PState(p + 5, e)) == ([a, b], PState(p + 5, e));
    assert ParamLoop(cx, [a], PState(p + 3, e)) == ([a, b], PState(p + 5, e));
    assert Check(cx, PState(p + 5, e), RIGHT_PAREN) && Check(cx, PState(p + 6, e), LEFT_BRACE);
  }
}
