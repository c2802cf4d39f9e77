/**
 * The syntax tree of the `src/` front end and its pretty-printer
 * (src/syntax_tree/syntax_tree.py). Every node carries the source location
 * the parser gave it. The printer's `current_indent` counter becomes a
 * `depth` parameter, so a nested print cannot leave the indentation changed
 * for the statements that follow it.
 */
module SrcTree {
  import opened Common

  datatype BinaryOperator =
    | ADD | SUBTRACT | MULTIPLY | DIVIDE | MODULO | POWER
    | EQUAL | NOT_EQUAL | LESS_THAN | LESS_EQUAL | GREATER_THAN | GREATER_EQUAL
    | LOGICAL_AND | LOGICAL_OR
    | BITWISE_AND | BITWISE_OR | BITWISE_XOR | LEFT_SHIFT | RIGHT_SHIFT

  datatype UnaryOperator = PLUS | MINUS | LOGICAL_NOT | BITWISE_NOT

  datatype SourceLocation = SourceLocation(line: int, column: int)

  /** A type name with optional generic arguments; an absent list and an empty one print alike. */
  datatype TypeAnnotation = TypeAnnotation(name: string, generics: seq<TypeAnnotation>)

  datatype Parameter = Parameter(name: string, annotation: Option<TypeAnnotation>)

  /**
   * Expressions. A float literal keeps the spelling it was parsed from; a
   * member access keeps its property identifier's name and location.
   */
  datatype Expr =
    | IntegerLiteral(number: int, loc: SourceLocation)
    | FloatLiteral(text: string, loc: SourceLocation)
    | StringLiteral(text: string, loc: SourceLocation)
    | CharLiteral(text: string, loc: SourceLocation)
    | BooleanLiteral(truth: bool, loc: SourceLocation)
    | Identifier(name: string, loc: SourceLocation)
    | BinaryExpression(left: Expr, op: BinaryOperator, right: Expr, loc: SourceLocation)
    | UnaryExpression(unOp: UnaryOperator, operand: Expr, loc: SourceLocation)
    | AssignmentExpression(target: Expr, newValue: Expr, loc: SourceLocation)
    | CallExpression(callee: Expr, arguments: seq<Expr>, loc: SourceLocation)
    | MemberExpression(receiver: Expr, property: string, propertyLoc: SourceLocation, loc: SourceLocation)
    | IndexExpression(indexed: Expr, index: Expr, loc: SourceLocation)

  datatype Stmt =
    | ExpressionStatement(expression: Expr, loc: SourceLocation)
    | VariableDeclaration(name: string, annotation: Option<TypeAnnotation>, initializer: Option<Expr>,
                          isMutable: bool, loc: SourceLocation)
    | FunctionDeclaration(name: string, parameters: seq<Parameter>, returnType: Option<TypeAnnotation>,
                          body: Stmt, isAsync: bool, loc: SourceLocation)
    | BlockStatement(statements: seq<Stmt>, loc: SourceLocation)
    | IfStatement(condition: Expr, thenBranch: Stmt, elseBranch: Option<Stmt>, loc: SourceLocation)
    | WhileStatement(condition: Expr, loopBody: Stmt, loc: SourceLocation)
    | ReturnStatement(result: Option<Expr>, loc: SourceLocation)
    | BreakStatement(loc: SourceLocation)
    | ContinueStatement(loc: SourceLocation)

  datatype Program = Program(statements: seq<Stmt>, loc: SourceLocation)

  // ---------------------------------------------------------------------
  // `__str__` of type annotations and parameters

  /** `TypeAnnotation.__str__`: `Name<A, B>` when there are generic arguments, else the bare name. */
  function TypeText(t: TypeAnnotation): (r: string)
    decreases t, 1
    ensures t.name <= r
    ensures t.generics == [] <==> r == t.name
  {
    if t.generics == [] then t.name
    else t.name + "<" + Join(GenericTexts(t, 0), ", ") + ">"
  }

  function GenericTexts(t: TypeAnnotation, i: nat): (r: seq<string>)
    requires i <= |t.generics|
    decreases t, 0, |t.generics| - i
    ensures |r| == |t.generics| - i
  {
    if i == |t.generics| then [] else [TypeText(t.generics[i])] + GenericTexts(t, i + 1)
  }

  /** `Parameter.__str__`: the annotation follows a colon only when there is one. */
  function ParameterStr(p: Parameter): string {
    if p.annotation.Some? then p.name + ": " + TypeText(p.annotation.value) else p.name
  }

  /** How the printer renders a parameter: `f"{name}: {annotation}"`, which shows a missing annotation as `None`. */
  function PrintedParameter(p: Parameter): string {
    p.name + ": " + (if p.annotation.Some? then TypeText(p.annotation.value) else "None")
  }

  /** The two renderings agree exactly on annotated parameters; a bare one gains ": None" only in the printer. */
  lemma ParameterRenderings(p: Parameter)
    ensures p.annotation.Some? <==> PrintedParameter(p) == ParameterStr(p)
    ensures p.annotation.None? ==> ParameterStr(p) == p.name && PrintedParameter(p) == p.name + ": None"
  {
    if p.annotation.None? {
      assert |PrintedParameter(p)| > |ParameterStr(p)|;
    }
  }

  /** Generic arguments print comma-separated inside angle brackets, nested ones recursively. */
  lemma TypeTextExample()
    ensures TypeText(TypeAnnotation("Vec", [TypeAnnotation("T", [])])) == "Vec<T>"
    ensures TypeText(TypeAnnotation("Map", [TypeAnnotation("K", []), TypeAnnotation("V", [])])) == "Map<K, V>"
  {
    var v := TypeAnnotation("Vec", [TypeAnnotation("T", [])]);
    assert GenericTexts(v, 0) == ["T"];
    var m := TypeAnnotation("Map", [TypeAnnotation("K", []), TypeAnnotation("V", [])]);
    assert GenericTexts(m, 1) == ["V"];
    assert GenericTexts(m, 0) == ["K", "V"];
  }

  // ---------------------------------------------------------------------
  // Operators

  /** The operators the printer's `op_map` spells as symbols. */
  const SymbolicOperators: set<BinaryOperator> :=
    {ADD, SUBTRACT, MULTIPLY, DIVIDE, EQUAL, NOT_EQUAL, LESS_THAN, GREATER_THAN}

  /** The member name, as `str()` of the enum shows it after the class name. */
  function BinaryOperatorName(op: BinaryOperator): (r: string)
    ensures forall i :: 0 <= i < |r| ==> 'A' <= r[i] <= 'Z' || r[i] == '_'
  {
    match op
    case ADD => "ADD" case SUBTRACT => "SUBTRACT" case MULTIPLY => "MULTIPLY"
    case DIVIDE => "DIVIDE" case MODULO => "MODULO" case POWER => "POWER"
    case EQUAL => "EQUAL" case NOT_EQUAL => "NOT_EQUAL" case LESS_THAN => "LESS_THAN"
    case LESS_EQUAL => "LESS_EQUAL" case GREATER_THAN => "GREATER_THAN"
    case GREATER_EQUAL => "GREATER_EQUAL" case LOGICAL_AND => "LOGICAL_AND"
    case LOGICAL_OR => "LOGICAL_OR" case BITWISE_AND => "BITWISE_AND"
    case BITWISE_OR => "BITWISE_OR" case BITWISE_XOR => "BITWISE_XOR"
    case LEFT_SHIFT => "LEFT_SHIFT" case RIGHT_SHIFT => "RIGHT_SHIFT"
  }

  /** `op_map.get(op, str(op))` in `visit_binary_expression`. */
  function BinaryOperatorText(op: BinaryOperator): (r: string)
    ensures op in SymbolicOperators <==> |r| <= 2
    ensures op !in SymbolicOperators ==> r == "BinaryOperator." + BinaryOperatorName(op)
  {
    match op
    case ADD => "+" case SUBTRACT => "-" case MULTIPLY => "*" case DIVIDE => "/"
    case EQUAL => "==" case NOT_EQUAL => "!=" case LESS_THAN => "<" case GREATER_THAN => ">"
    case _ => "BinaryOperator." + BinaryOperatorName(op)
  }

  /** Reads an operator back from its printed spelling. */
  function BinaryOperatorOfText(s: string): Option<BinaryOperator> {
    if s == "+" then Some(ADD) else if s == "-" then Some(SUBTRACT)
    else if s == "*" then Some(MULTIPLY) else if s == "/" then Some(DIVIDE)
    else if s == "==" then Some(EQUAL) else if s == "!=" then Some(NOT_EQUAL)
    else if s == "<" then Some(LESS_THAN) else if s == ">" then Some(GREATER_THAN)
    else if |s| <= 15 || s[..15] != "BinaryOperator." then None
    else
      var n := s[15..];
      if n == "MODULO" then Some(MODULO) else if n == "POWER" then Some(POWER)
      else if n == "LESS_EQUAL" then Some(LESS_EQUAL) else if n == "GREATER_EQUAL" then Some(GREATER_EQUAL)
      else if n == "LOGICAL_AND" then Some(LOGICAL_AND) else if n == "LOGICAL_OR" then Some(LOGICAL_OR)
      else if n == "BITWISE_AND" then Some(BITWISE_AND) else if n == "BITWISE_OR" then Some(BITWISE_OR)
      else if n == "BITWISE_XOR" then Some(BITWISE_XOR) else if n == "LEFT_SHIFT" then Some(LEFT_SHIFT)
      else if n == "RIGHT_SHIFT" then Some(RIGHT_SHIFT)
      else None
  }

  /** Every operator's printed spelling identifies it, so no two operators print alike. */
  lemma BinaryOperatorTextRoundTrip(op: BinaryOperator)
    ensures BinaryOperatorOfText(BinaryOperatorText(op)) == Some(op)
  {
    var s := BinaryOperatorText(op);
    if op !in SymbolicOperators {
      assert s[..15] == "BinaryOperator.";
      assert s[15..] == BinaryOperatorName(op);
    }
  }

  lemma BinaryOperatorTextsDistinct(a: BinaryOperator, b: BinaryOperator)
    ensures BinaryOperatorText(a) == BinaryOperatorText(b) <==> a == b
  {
    BinaryOperatorTextRoundTrip(a);
    BinaryOperatorTextRoundTrip(b);
  }

  /** `visit_unary_expression`: `-`, `+` and `!`; the bitwise complement prints as `str()` of the enum. */
  function UnaryOperatorText(op: UnaryOperator): (r: string)
    ensures op == BITWISE_NOT <==> r == "UnaryOperator.BITWISE_NOT"
    ensures op != BITWISE_NOT ==> |r| == 1
  {
    match op
    case MINUS => "-" case PLUS => "+" case LOGICAL_NOT => "!"
    case BITWISE_NOT => "UnaryOperator.BITWISE_NOT"
  }

  // ---------------------------------------------------------------------
  // Expressions

  /** The text `accept(printer)` returns for an expression; expressions are not indented. */
  function ExprText(e: Expr): string
    decreases e, 1
  {
    match e
    case IntegerLiteral(v, _) => IntToString(v)
    case FloatLiteral(t, _) => t
    case StringLiteral(v, _) => "\"" + v + "\""
    case CharLiteral(v, _) => "'" + v + "'"
    case BooleanLiteral(b, _) => if b then "true" else "false"
    case Identifier(n, _) => n
    case BinaryExpression(l, op, r, _) => "(" + ExprText(l) + " " + BinaryOperatorText(op) + " " + ExprText(r) + ")"
    case UnaryExpression(op, x, _) => UnaryOperatorText(op) + ExprText(x)
    case AssignmentExpression(t, v, _) => ExprText(t) + " = " + ExprText(v)
    case CallExpression(c, _, _) => ExprText(c) + "(" + Join(ArgumentTexts(e, 0), ", ") + ")"
    case MemberExpression(o, p, _, _) => ExprText(o) + "." + p
    case IndexExpression(o, i, _) => ExprText(o) + "[" + ExprText(i) + "]"
  }

  function ArgumentTexts(e: Expr, i: nat): (r: seq<string>)
    requires e.CallExpression? && i <= |e.arguments|
    decreases e, 0, |e.arguments| - i
    ensures |r| == |e.arguments| - i
    ensures forall k :: 0 <= k < |r| ==> r[k] == ExprText(e.arguments[i + k])
  {
    if i == |e.arguments| then [] else [ExprText(e.arguments[i])] + ArgumentTexts(e, i + 1)
  }

  /** The number of occurrences of `c` in `s`. */
  function Occurrences(s: string, c: char): nat {
    if s == [] then 0 else (if s[0] == c then 1 else 0) + Occurrences(s[1..], c)
  }

  lemma {:induction false} OccurrencesConcat(a: string, b: string, c: char)
    ensures Occurrences(a + b, c) == Occurrences(a, c) + Occurrences(b, c)
  {
    if a == [] {
      assert a + b == b;
    } else {
      assert (a + b)[1..] == a[1..] + b;
      OccurrencesConcat(a[1..], b, c);
    }
  }

  lemma {:induction false} OccurrencesAbsent(s: string, c: char)
    requires c !in s
    ensures Occurrences(s, c) == 0
  {
    if s != [] {
      OccurrencesAbsent(s[1..], c);
    }
  }

  /** The occurrences of `c` in the parts, added up. */
  function TotalOccurrences(parts: seq<string>, c: char): nat {
    if parts == [] then 0 else Occurrences(parts[0], c) + TotalOccurrences(parts[1..], c)
  }

  /** A separator without `c` adds no occurrence of `c` to a join. */
  lemma {:induction false} OccurrencesJoin(parts: seq<string>, sep: string, c: char)
    requires c !in sep
    ensures Occurrences(Join(parts, sep), c) == TotalOccurrences(parts, c)
  {
    if |parts| > 1 {
      OccurrencesJoin(parts[1..], sep, c);
      OccurrencesConcat(parts[0] + sep, Join(parts[1..], sep), c);
      OccurrencesConcat(parts[0], sep, c);
      OccurrencesAbsent(sep, c);
    } else if |parts| == 1 {
      assert TotalOccurrences(parts[1..], c) == 0;
    }
  }

  /** No leaf of the expression (name, literal text, property) contains a parenthesis. */
  predicate PlainLeaves(e: Expr)
    decreases e, 1
  {
    match e
    case FloatLiteral(t, _) => '(' !in t && ')' !in t
    case StringLiteral(v, _) => '(' !in v && ')' !in v
    case CharLiteral(v, _) => '(' !in v && ')' !in v
    case Identifier(n, _) => '(' !in n && ')' !in n
    case BinaryExpression(l, _, r, _) => PlainLeaves(l) && PlainLeaves(r)
    case UnaryExpression(_, x, _) => PlainLeaves(x)
    case AssignmentExpression(t, v, _) => PlainLeaves(t) && PlainLeaves(v)
    case CallExpression(c, _, _) => PlainLeaves(c) && PlainArguments(e, 0)
    case MemberExpression(o, p, _, _) => PlainLeaves(o) && '(' !in p && ')' !in p
    case IndexExpression(o, i, _) => PlainLeaves(o) && PlainLeaves(i)
    case _ => true
  }

  predicate PlainArguments(e: Expr, i: nat)
    requires e.CallExpression? && i <= |e.arguments|
    decreases e, 0, |e.arguments| - i
  {
    i == |e.arguments| || (PlainLeaves(e.arguments[i]) && PlainArguments(e, i + 1))
  }

  /** The number of binary-expression and call nodes in the tree. */
  function Groupings(e: Expr): nat
    decreases e, 1
  {
    match e
    case BinaryExpression(l, _, r, _) => 1 + Groupings(l) + Groupings(r)
    case UnaryExpression(_, x, _) => Groupings(x)
    case AssignmentExpression(t, v, _) => Groupings(t) + Groupings(v)
    case CallExpression(c, _, _) => 1 + Groupings(c) + ArgumentGroupings(e, 0)
    case MemberExpression(o, _, _, _) => Groupings(o)
    case IndexExpression(o, i, _) => Groupings(o) + Groupings(i)
    case _ => 0
  }

  function ArgumentGroupings(e: Expr, i: nat): nat
    requires e.CallExpression? && i <= |e.arguments|
    decreases e, 0, |e.arguments| - i
  {
    if i == |e.arguments| then 0 else Groupings(e.arguments[i]) + ArgumentGroupings(e, i + 1)
  }

  /**
   * Binary expressions print fully parenthesised: over leaves without
   * parentheses, every binary node and every call contributes exactly one
   * `(` and one `)`, and nothing else does.
   */
  lemma {:induction false} ParenthesesCountGroupings(e: Expr, c: char)
    requires PlainLeaves(e) && (c == '(' || c == ')')
    ensures Occurrences(ExprText(e), c) == Groupings(e)
    decreases e, 1
  {
    match e
    case BinaryExpression(l, op, r, _) =>
      ParenthesesCountGroupings(l, c);
      ParenthesesCountGroupings(r, c);
      BinaryParentheses(e, c);
    case UnaryExpression(op, x, _) =>
      ParenthesesCountGroupings(x, c);
      UnaryParentheses(e, c);
    case AssignmentExpression(t, v, _) =>
      ParenthesesCountGroupings(t, c);
      ParenthesesCountGroupings(v, c);
      AccessParentheses(e, c);
    case CallExpression(callee, _, _) =>
      ParenthesesCountGroupings(callee, c);
      ArgumentParentheses(e, 0, c);
      OccurrencesJoin(ArgumentTexts(e, 0), ", ", c);
      CallParentheses(e, c);
    case MemberExpression(o, p, _, _) =>
      ParenthesesCountGroupings(o, c);
      AccessParentheses(e, c);
    case IndexExpression(o, i, _) =>
      ParenthesesCountGroupings(o, c);
      ParenthesesCountGroupings(i, c);
      AccessParentheses(e, c);
    case _ => LeafParentheses(e, c);
  }

  lemma IntegerTextPlain(v: int, c: char)
    requires !IsDigit(c) && c != '-'
    ensures c !in IntToString(v)
  {
    if v < 0 {
      assert IntToString(v) == "-" + NatToString(-v);
      assert c !in NatToString(-v);
    }
  }

  lemma OperatorTextPlain(op: BinaryOperator, c: char)
    requires c == '(' || c == ')'
    ensures c !in BinaryOperatorText(op)
  {
    if op !in SymbolicOperators {
      assert c !in "BinaryOperator.";
    }
  }

  lemma LeafParentheses(e: Expr, c: char)
    requires e.IntegerLiteral? || e.FloatLiteral? || e.StringLiteral? || e.CharLiteral? || e.BooleanLiteral? || e.Identifier?
    requires PlainLeaves(e) && (c == '(' || c == ')')
    ensures Occurrences(ExprText(e), c) == Groupings(e)
  {
    if e.IntegerLiteral? {
      IntegerTextPlain(e.number, c);
    }
    if e.StringLiteral? || e.CharLiteral? {
      var q := if e.StringLiteral? then "\"" else "'";
      assert ExprText(e) == q + e.text + q;
      OccurrencesConcat(q + e.text, q, c);
      OccurrencesConcat(q, e.text, c);
      OccurrencesAbsent(q, c);
      OccurrencesAbsent(e.text, c);
    } else {
      OccurrencesAbsent(ExprText(e), c);
    }
  }

  lemma BinaryParentheses(e: Expr, c: char)
    requires e.BinaryExpression? && (c == '(' || c == ')')
    requires Occurrences(ExprText(e.left), c) == Groupings(e.left)
    requires Occurrences(ExprText(e.right), c) == Groupings(e.right)
    ensures Occurrences(ExprText(e), c) == Groupings(e)
  {
    OperatorTextPlain(e.op, c);
    var l, o, r := ExprText(e.left), BinaryOperatorText(e.op), ExprText(e.right);
    OccurrencesConcat("(" + l + " " + o + " " + r, ")", c);
    OccurrencesConcat("(" + l + " " + o + " ", r, c);
    OccurrencesConcat("(" + l + " " + o, " ", c);
    OccurrencesConcat("(" + l + " ", o, c);
    OccurrencesConcat("(" + l, " ", c);
    OccurrencesConcat("(", l, c);
    OccurrencesAbsent(o, c);
  }

  lemma UnaryParentheses(e: Expr, c: char)
    requires e.UnaryExpression? && (c == '(' || c == ')')
    requires Occurrences(ExprText(e.operand), c) == Groupings(e.operand)
    ensures Occurrences(ExprText(e), c) == Groupings(e)
  {
    assert c !in UnaryOperatorText(e.unOp) by {
      match e.unOp
      case MINUS => case PLUS => case LOGICAL_NOT => case BITWISE_NOT =>
    }
    OccurrencesConcat(UnaryOperatorText(e.unOp), ExprText(e.operand), c);
    OccurrencesAbsent(UnaryOperatorText(e.unOp), c);
  }

  /** Both sides of `t = v`, or of `o[i]`, separated by text without parentheses. */
  lemma JoinedParentheses(a: string, mid: string, b: string, tail: string, c: char)
    requires c !in mid && c !in tail
    ensures Occurrences(a + mid + b + tail, c) == Occurrences(a, c) + Occurrences(b, c)
  {
    OccurrencesConcat(a + mid + b, tail, c);
    OccurrencesConcat(a + mid, b, c);
    OccurrencesConcat(a, mid, c);
    OccurrencesAbsent(mid, c);
    OccurrencesAbsent(tail, c);
  }

  lemma AccessParentheses(e: Expr, c: char)
    requires e.AssignmentExpression? || e.MemberExpression? || e.IndexExpression?
    requires PlainLeaves(e) && (c == '(' || c == ')')
    requires e.AssignmentExpression? ==>
      Occurrences(ExprText(e.target), c) == Groupings(e.target) && Occurrences(ExprText(e.newValue), c) == Groupings(e.newValue)
    requires e.MemberExpression? ==> Occurrences(ExprText(e.receiver), c) == Groupings(e.receiver)
    requires e.IndexExpression? ==>
      Occurrences(ExprText(e.indexed), c) == Groupings(e.indexed) && Occurrences(ExprText(e.index), c) == Groupings(e.index)
    ensures Occurrences(ExprText(e), c) == Groupings(e)
  {
    match e
    case AssignmentExpression(t, v, _) =>
      JoinedParentheses(ExprText(t), " = ", ExprText(v), "", c);
      assert ExprText(t) + " = " + ExprText(v) + "" == ExprText(e);
    case MemberExpression(o, p, _, _) =>
      JoinedParentheses(ExprText(o), ".", p, "", c);
      assert ExprText(o) + "." + p + "" == ExprText(e);
      OccurrencesAbsent(p, c);
    case IndexExpression(o, i, _) =>
      JoinedParentheses(ExprText(o), "[", ExprText(i), "]", c);
  }

  lemma CallParentheses(e: Expr, c: char)
    requires e.CallExpression? && (c == '(' || c == ')')
    requires Occurrences(ExprText(e.callee), c) == Groupings(e.callee)
    requires Occurrences(Join(ArgumentTexts(e, 0), ", "), c) == ArgumentGroupings(e, 0)
    ensures Occurrences(ExprText(e), c) == Groupings(e)
  {
    var f, j := ExprText(e.callee), Join(ArgumentTexts(e, 0), ", ");
    OccurrencesConcat(f + "(" + j, ")", c);
    OccurrencesConcat(f + "(", j, c);
    OccurrencesConcat(f, "(", c);
  }

  lemma {:induction false} ArgumentParentheses(e: Expr, i: nat, c: char)
    requires e.CallExpression? && i <= |e.arguments| && PlainArguments(e, i) && (c == '(' || c == ')')
    ensures TotalOccurrences(ArgumentTexts(e, i), c) == ArgumentGroupings(e, i)
    decreases e, 0, |e.arguments| - i
  {
    if i < |e.arguments| {
      ParenthesesCountGroupings(e.arguments[i], c);
      ArgumentParentheses(e, i + 1, c);
      assert ArgumentTexts(e, i)[1..] == ArgumentTexts(e, i + 1);
    }
  }

  // ---------------------------------------------------------------------
  // Statements

  /** `_indent()`: `current_indent * indent_size` spaces. */
  function Spaces(depth: nat, size: nat): (r: string)
    ensures |r| == depth * size && forall i :: 0 <= i < |r| ==> r[i] == ' '
  {
    Repeat(' ', depth * size)
  }

  /**
   * The text `accept(printer)` returns for a statement printed at nesting
   * `depth`. Every statement except a bare block starts with its
   * indentation; a block prints its statements one per line, with no
   * braces of its own and no trailing whitespace.
   */
  function StmtText(s: Stmt, depth: nat, size: nat): (r: string)
    decreases s, 2
    ensures !s.BlockStatement? ==> Spaces(depth, size) <= r
    ensures s.BlockStatement? ==> r == [] || !IsSpace(r[|r| - 1])
    ensures Closed(s) ==> Visible(r)
  {
    if s.BlockStatement? then RStrip(Lines(s, 0, depth, size))
    else Spaces(depth, size) + LineText(s, depth, size)
  }

  /** What follows the indentation of a statement other than a block. */
  function LineText(s: Stmt, depth: nat, size: nat): (r: string)
    requires !s.BlockStatement?
    decreases s, 1
    ensures Closed(s) ==> Visible(r)
  {
    if SingleLine(s) then OneLine(s)
    else if s.FunctionDeclaration? then FunctionLine(s, depth, size)
    else ConditionalLine(s, depth, size)
  }

  /** The text of a statement printed on one line; it does not depend on the depth. */
  function OneLine(s: Stmt): (r: string)
    requires SingleLine(s)
    ensures Visible(r) && r[|r| - 1] == ';'
  {
    match s
    case ExpressionStatement(x, _) => ExprText(x) + ";"
    case VariableDeclaration(n, t, init, m, _) =>
      "let " + (if m then "mut " else "") + n
        + (if t.Some? then ": " + TypeText(t.value) else "")
        + (if init.Some? then " = " + ExprText(init.value) else "") + ";"
    case ReturnStatement(v, _) => if v.Some? then "return " + ExprText(v.value) + ";" else "return;"
    case BreakStatement(_) => "break;"
    case ContinueStatement(_) => "continue;"
  }

  /** A function: its header, then its body one level deeper between braces. */
  function FunctionLine(s: Stmt, depth: nat, size: nat): (r: string)
    requires s.FunctionDeclaration?
    decreases s, 0
    ensures Visible(r) && r[|r| - 1] == '}'
  {
    (if s.isAsync then "async " else "") + "fn " + s.name + "(" + Join(ParameterTexts(s.parameters), ", ") + ")"
      + (if s.returnType.Some? then " -> " + TypeText(s.returnType.value) else "") + " "
      + "{\n" + StmtText(s.body, depth + 1, size) + "\n" + Spaces(depth, size) + "}"
  }

  /** An `if` (with its optional `else`) or a `while`, each branch printed by `Branch`. */
  function ConditionalLine(s: Stmt, depth: nat, size: nat): (r: string)
    requires s.IfStatement? || s.WhileStatement?
    decreases s, 0
    ensures Closed(s) ==> Visible(r)
  {
    match s
    case IfStatement(c, t, e, _) =>
      "if " + ExprText(c) + " " + Branch(t, depth, size)
        + (if e.Some? then " else " + Branch(e.value, depth, size) else "")
    case WhileStatement(c, b, _) => "while " + ExprText(c) + " " + Branch(b, depth, size)
  }

  /** The parameters as the printer renders them. */
  function ParameterTexts(ps: seq<Parameter>): (r: seq<string>)
    ensures |r| == |ps| && forall i :: 0 <= i < |ps| ==> r[i] == PrintedParameter(ps[i])
  {
    if ps == [] then [] else [PrintedParameter(ps[0])] + ParameterTexts(ps[1..])
  }

  /**
   * The body of an `if` or `while`: a block goes between braces, the closing
   * one at the statement's own depth; any other statement goes on the next
   * line, one level deeper.
   */
  function Branch(b: Stmt, depth: nat, size: nat): (r: string)
    decreases b, 3
    ensures b.BlockStatement? || Closed(b) ==> Visible(r)
  {
    if b.BlockStatement? then "{\n" + StmtText(b, depth + 1, size) + "\n" + Spaces(depth, size) + "}"
    else "\n" + StmtText(b, depth + 1, size)
  }

  /** `stmt.accept(self) + "\n"` for the block's statements from index `i` on. */
  function Lines(s: Stmt, i: nat, depth: nat, size: nat): string
    requires s.BlockStatement? && i <= |s.statements|
    decreases s, 0, |s.statements| - i
  {
    if i == |s.statements| then [] else StmtText(s.statements[i], depth, size) + "\n" + Lines(s, i + 1, depth, size)
  }

  /** `visit_program`: every top-level statement at depth 0 followed by a blank line, trailing whitespace stripped. */
  function ProgramText(p: Program, size: nat): (r: string)
    ensures r == [] || !IsSpace(r[|r| - 1])
    ensures p.statements == [] ==> r == []
  {
    RStrip(ProgramLines(p.statements, size))
  }

  function ProgramLines(ss: seq<Stmt>, size: nat): string {
    if ss == [] then [] else StmtText(ss[0], 0, size) + "\n\n" + ProgramLines(ss[1..], size)
  }

  // ---------------------------------------------------------------------
  // Layout facts

  /** A text that ends in a visible (non-whitespace) character. */
  predicate Visible(t: string) {
    t != [] && !IsSpace(t[|t| - 1])
  }

  /** Statements whose printed text ends in `;` or `}` (possibly that of a nested statement). */
  predicate Closed(s: Stmt) {
    match s
    case BlockStatement(_, _) => false
    case IfStatement(_, t, None, _) => t.BlockStatement? || Closed(t)
    case IfStatement(_, _, Some(e), _) => e.BlockStatement? || Closed(e)
    case WhileStatement(_, b, _) => b.BlockStatement? || Closed(b)
    case _ => true
  }

  /** Stripping trailing whitespace after a visible text gives the text back. */
  lemma RStripAfterVisible(t: string, w: string)
    requires Visible(t) && forall i :: 0 <= i < |w| ==> IsSpace(w[i])
    ensures RStrip(t + w) == t
  {
    var r := RStrip(t + w);
    assert forall i :: |t| <= i < |t + w| ==> IsSpace((t + w)[i]);
    assert !IsSpace((t + w)[|t| - 1]);
    assert r == (t + w)[..|r|];
  }

  /** The texts of a sequence of statements printed at one depth. */
  function Texts(ss: seq<Stmt>, depth: nat, size: nat): (r: seq<string>)
    ensures |r| == |ss| && forall i :: 0 <= i < |ss| ==> r[i] == StmtText(ss[i], depth, size)
  {
    if ss == [] then [] else [StmtText(ss[0], depth, size)] + Texts(ss[1..], depth, size)
  }

  lemma {:induction false} LinesJoin(s: Stmt, i: nat, depth: nat, size: nat)
    requires s.BlockStatement? && i < |s.statements|
    ensures Lines(s, i, depth, size) == Join(Texts(s.statements[i..], depth, size), "\n") + "\n"
    decreases |s.statements| - i
  {
    var ts := Texts(s.statements[i..], depth, size);
    if i + 1 < |s.statements| {
      LinesJoin(s, i + 1, depth, size);
      assert s.statements[i..][1..] == s.statements[i + 1..];
    }
  }

  /**
   * A block whose statements all end visibly prints as their texts joined by
   * newlines: the per-statement newline survives between statements and the
   * final one is stripped.
   */
  lemma BlockJoinsLines(s: Stmt, depth: nat, size: nat)
    requires s.BlockStatement? && forall k :: 0 <= k < |s.statements| ==> Closed(s.statements[k])
    ensures StmtText(s, depth, size) == Join(Texts(s.statements, depth, size), "\n")
  {
    if s.statements != [] {
      LinesJoin(s, 0, depth, size);
      assert s.statements[0..] == s.statements;
      JoinEndsVisibly(Texts(s.statements, depth, size), "\n");
      RStripAfterVisible(Join(Texts(s.statements, depth, size), "\n"), "\n");
    }
  }

  /** A join ends the way its last part does. */
  lemma {:induction false} JoinEndsVisibly(ts: seq<string>, sep: string)
    requires ts != [] && Visible(ts[|ts| - 1])
    ensures Visible(Join(ts, sep))
  {
    if |ts| > 1 {
      JoinEndsVisibly(ts[1..], sep);
      var j := Join(ts[1..], sep);
      assert (ts[0] + sep + j)[|ts[0] + sep + j| - 1] == j[|j| - 1];
    }
  }

  lemma {:induction false} ProgramLinesJoin(ss: seq<Stmt>, size: nat)
    requires ss != []
    ensures ProgramLines(ss, size) == Join(Texts(ss, 0, size), "\n\n") + "\n\n"
  {
    if |ss| > 1 {
      ProgramLinesJoin(ss[1..], size);
    }
  }

  /**
   * A program whose statements all end visibly prints as their texts
   * separated by one blank line, with nothing after the last one.
   */
  lemma ProgramJoinsWithBlankLines(p: Program, size: nat)
    requires forall k :: 0 <= k < |p.statements| ==> Closed(p.statements[k])
    ensures ProgramText(p, size) == Join(Texts(p.statements, 0, size), "\n\n")
  {
    if p.statements != [] {
      ProgramLinesJoin(p.statements, size);
      JoinEndsVisibly(Texts(p.statements, 0, size), "\n\n");
      RStripAfterVisible(Join(Texts(p.statements, 0, size), "\n\n"), "\n\n");
    }
  }

  /** Statements printed on one line. */
  predicate SingleLine(s: Stmt) {
    s.ExpressionStatement? || s.VariableDeclaration? || s.ReturnStatement? || s.BreakStatement? || s.ContinueStatement?
  }

  /** Printing a one-line statement one level deeper only prepends `indent_size` spaces. */
  lemma DeeperOnlyIndents(s: Stmt, depth: nat, size: nat)
    requires SingleLine(s)
    ensures StmtText(s, depth + 1, size) == Spaces(1, size) + StmtText(s, depth, size)
  {
    OneLineText(s, depth + 1, size);
    OneLineText(s, depth, size);
    SpacesOneMore(depth, size);
    PrefixShift(StmtText(s, depth + 1, size), StmtText(s, depth, size), Spaces(1, size), Spaces(depth, size), OneLine(s));
  }

  lemma PrefixShift(x: string, y: string, one: string, d: string, o: string)
    requires x == (one + d) + o && y == d + o
    ensures x == one + y
  {
  }

  lemma OneLineText(s: Stmt, depth: nat, size: nat)
    requires SingleLine(s)
    ensures StmtText(s, depth, size) == Spaces(depth, size) + OneLine(s)
  {
  }

  lemma SpacesOneMore(depth: nat, size: nat)
    ensures Spaces(depth + 1, size) == Spaces(1, size) + Spaces(depth, size)
  {
    assert (depth + 1) * size == size + depth * size;
  }

  // ---------------------------------------------------------------------
  // Examples

  const Here := SourceLocation(1, 1)

  lemma LiteralExamples()
    ensures ExprText(BooleanLiteral(true, Here)) == "true" && ExprText(BooleanLiteral(false, Here)) == "false"
    ensures ExprText(StringLiteral("a\"b", Here)) == "\"a\"b\""
    ensures ExprText(CharLiteral("x", Here)) == "'x'"
    ensures ExprText(IntegerLiteral(-7, Here)) == "-7"
  {
    assert NatToString(7) == "7";
  }

  /** `a % b` prints with the enum's name because `%` is missing from the printer's operator table. */
  lemma ModuloExample()
    ensures ExprText(BinaryExpression(Identifier("a", Here), MODULO, Identifier("b", Here), Here))
      == "(a " + "BinaryOperator." + "MODULO" + " b)"
  {
    assert BinaryOperatorText(MODULO) == "BinaryOperator.MODULO";
  }

  lemma SymbolExample()
    ensures ExprText(BinaryExpression(Identifier("a", Here), LESS_THAN, UnaryExpression(LOGICAL_NOT, Identifier("b", Here), Here), Here))
      == "(a < !b)"
  {
    assert BinaryOperatorText(LESS_THAN) == "<";
    assert UnaryOperatorText(LOGICAL_NOT) == "!";
  }

  lemma VariableDeclarationExample()
    ensures StmtText(VariableDeclaration("x", Some(TypeAnnotation("i32", [])), Some(IntegerLiteral(42, Here)), true, Here), 0, 2)
      == "let mut x: i32 = 42;"
  {
    assert NatToString(42) == "42";
  }

  /** A declaration without annotation or initializer, one level deep. */
  lemma BareDeclarationExample()
    ensures StmtText(VariableDeclaration("y", None, None, false, Here), 1, 2) == "  let y;"
  {
    assert Spaces(1, 2) == "  ";
  }

  /** A parameter without annotation prints as `x: None`; an empty body leaves one empty line. */
  lemma FunctionExample()
    ensures StmtText(FunctionDeclaration("f", [Parameter("x", None)], None, BlockStatement([], Here), false, Here), 0, 2)
      == "fn f(x: None) {\n\n}"
  {
    var f := FunctionDeclaration("f", [Parameter("x", None)], None, BlockStatement([], Here), false, Here);
    assert PrintedParameter(f.parameters[0]) == "x: None";
    assert ParameterTexts(f.parameters) == ["x: None"];
    assert StmtText(f.body, 1, 2) == [];
    assert StmtText(f, 0, 2) == "" + ("" + "fn " + "f" + "(" + "x: None" + ")" + "" + " " + "{\n" + "" + "\n" + "" + "}");
  }
}
