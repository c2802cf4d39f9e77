/**
 * The value-level operations of the Trion interpreter (trion/interpreter.py):
 * truthiness, the operators of `visit_binary_operation` and
 * `visit_unary_operation`, string indexing and `str()` of a value. The
 * operators are Python's own; the model spells out the cases a Trion value
 * can reach. A case whose result is a Python float, or that depends on
 * object addresses, stops with `OutOfModel` instead of guessing.
 */
module TrionOps {
  import opened Common
  import opened TrionErrors
  import opened TrionEnv

  /** Why an evaluation stopped without a Python-level answer. */
  datatype Stuck = OutOfModel(reason: string) | OutOfFuel

  /**
   * How a computation ended: with a value, with a pending `return`
   * (`ReturnException`), with a raised exception, or outside the model.
   */
  datatype Signal = Normal(v: Value) | Returning(rv: Value) | Faulted(f: Fault) | Halted(why: Stuck)

  /** `is_truthy`. */
  predicate IsTruthy(v: Value) {
    match v
    case VNull => false
    case VBool(b) => b
    case VInt(i) => i != 0
    case VStr(s) => |s| > 0
    case _ => true
  }

  /** `type(v).__name__`. */
  function TypeName(v: Value): string {
    match v
    case VNull => "NoneType"
    case VBool(_) => "bool"
    case VInt(_) => "int"
    case VStr(_) => "str"
    case VFunc(_, _, _, _, _) => "TrionFunction"
    case VBuiltin(_) => "function"
    case VError(Trion(e)) => ClassName(e.cls)
    case VError(Host(c, _)) => c
  }

  /** Python's `bool` is a subclass of `int`: both take part in arithmetic. */
  predicate IsNum(v: Value) { v.VInt? || v.VBool? }

  function Num(v: Value): int
    requires IsNum(v)
  {
    if v.VInt? then v.i else if v.b then 1 else 0
  }

  /** A builtin `TypeError` raised by Python itself. */
  function HostType(text: string): Signal {
    Faulted(Host("TypeError", text))
  }

  function Unsupported(op: string, l: Value, r: Value): Signal {
    HostType("unsupported operand type(s) for " + op + ": '" + TypeName(l) + "' and '" + TypeName(r) + "'")
  }

  /** A Trion `RuntimeError` at a source position. */
  function RuntimeAt(message: string, line: int, column: int): Fault {
    Trion(TrionError(RuntimeError, message, Some(line), Some(column), None))
  }

  /** A Trion `RuntimeError` without a position. */
  function RuntimeBare(message: string): Fault {
    Trion(TrionError(RuntimeError, message, None, None, None))
  }

  /** `s * n` for a string: `n` copies, none when `n` is not positive. */
  function RepeatStr(s: string, n: int): (r: string)
    decreases if n > 0 then n else 0
    ensures n <= 0 ==> r == ""
    ensures n > 0 ==> |r| >= |s| && r[..|s|] == s
  {
    if n <= 0 then "" else s + RepeatStr(s, n - 1)
  }

  /** Python's `%` on integers: the remainder takes the sign of the divisor. */
  function PyMod(a: int, b: int): (r: int)
    requires b != 0
    ensures b > 0 ==> 0 <= r < b
    ensures b < 0 ==> b < r <= 0
  {
    var e := a % b;
    if b > 0 || e == 0 then e else e + b
  }

  function Pow(b: int, e: nat): int {
    if e == 0 then 1 else b * Pow(b, e - 1)
  }

  /** Code-point order on strings, as Python's `<` on `str`. */
  predicate StrLess(a: string, b: string) {
    if a == [] then b != []
    else if b == [] then false
    else if a[0] != b[0] then a[0] < b[0]
    else StrLess(a[1..], b[1..])
  }

  /**
   * Python's `==` on two values, or `None` when it depends on object
   * identity the model does not track (two exception objects).
   */
  function PyEq(l: Value, r: Value): Option<bool> {
    if IsNum(l) && IsNum(r) then Some(Num(l) == Num(r))
    else match (l, r)
      case (VNull, VNull) => Some(true)
      case (VStr(a), VStr(b)) => Some(a == b)
      case (VFunc(a, _, _, _, _), VFunc(b, _, _, _, _)) => Some(a == b)
      case (VBuiltin(a), VBuiltin(b)) => Some(a == b)
      case (VError(_), VError(_)) => None
      case _ => Some(false)
  }

  /** `right == 0` in the division and modulo guards. */
  predicate IsZero(v: Value) { IsNum(v) && Num(v) == 0 }

  /** The `except (TypeError, ValueError)` rewrapping of the zero guards' Trion `ValueError`. */
  function ZeroFault(message: string, line: int, column: int): Signal {
    Faulted(RuntimeAt(Render(TrionError(ValueError, message, None, None, None)), line, column))
  }

  function Add(l: Value, r: Value): Signal {
    if IsNum(l) && IsNum(r) then Normal(VInt(Num(l) + Num(r)))
    else if l.VStr? && r.VStr? then Normal(VStr(l.s + r.s))
    else if l.VStr? then HostType("can only concatenate str (not \"" + TypeName(r) + "\") to str")
    else Unsupported("+", l, r)
  }

  function Mul(l: Value, r: Value): Signal {
    if IsNum(l) && IsNum(r) then Normal(VInt(Num(l) * Num(r)))
    else if l.VStr? && IsNum(r) then Normal(VStr(RepeatStr(l.s, Num(r))))
    else if IsNum(l) && r.VStr? then Normal(VStr(RepeatStr(r.s, Num(l))))
    else if l.VStr? then HostType("can't multiply sequence by non-int of type '" + TypeName(r) + "'")
    else if r.VStr? then HostType("can't multiply sequence by non-int of type '" + TypeName(l) + "'")
    else Unsupported("*", l, r)
  }

  /** `/` after the zero guard; true division of two numbers is a float. */
  function Divide(l: Value, r: Value, line: int, column: int): Signal {
    if IsZero(r) then ZeroFault("Division by zero", line, column)
    else if IsNum(l) && IsNum(r) then Halted(OutOfModel("true division yields a float"))
    else Unsupported("/", l, r)
  }

  /** `%` after the zero guard: Python's remainder, or printf-style formatting on a string. */
  function Modulo(l: Value, r: Value, line: int, column: int): Signal {
    if IsZero(r) then ZeroFault("Modulo by zero", line, column)
    else if IsNum(l) && IsNum(r) then Normal(VInt(PyMod(Num(l), Num(r))))
    else if l.VStr? then Halted(OutOfModel("printf-style string formatting"))
    else Unsupported("%", l, r)
  }

  /**
   * Python's `**` on the operands: a negative power of zero is Python's own
   * ZeroDivisionError, and a negative power of any other number is a float.
   */
  function Power(l: Value, r: Value): Signal {
    if IsNum(l) && IsNum(r) then
      if Num(r) >= 0 then Normal(VInt(Pow(Num(l), Num(r))))
      else if Num(l) == 0 then Faulted(Host("ZeroDivisionError", "0.0 cannot be raised to a negative power"))
      else Halted(OutOfModel("negative power yields a float"))
    else Unsupported("** or pow()", l, r)
  }

  function Order(op: string, l: Value, r: Value): Signal
    requires op in {"<", "<=", ">", ">="}
  {
    if IsNum(l) && IsNum(r) then
      var a, b := Num(l), Num(r);
      Normal(VBool(if op == "<" then a < b else if op == "<=" then a <= b else if op == ">" then a > b else a >= b))
    else if l.VStr? && r.VStr? then
      var a, b := l.s, r.s;
      Normal(VBool(if op == "<" then StrLess(a, b) else if op == "<=" then !StrLess(b, a)
                   else if op == ">" then StrLess(b, a) else !StrLess(a, b)))
    else HostType("'" + op + "' not supported between instances of '" + TypeName(l) + "' and '" + TypeName(r) + "'")
  }

  /**
   * The body of `visit_binary_operation` once both operands are evaluated;
   * `line` and `column` are the node's.
   */
  function BinOp(op: string, l: Value, r: Value, line: int, column: int): (sig: Signal)
    ensures !sig.Returning?
  {
    if op == "+" then Add(l, r)
    else if op == "-" then
      if IsNum(l) && IsNum(r) then Normal(VInt(Num(l) - Num(r))) else Unsupported("-", l, r)
    else if op == "*" then Mul(l, r)
    else if op == "/" then Divide(l, r, line, column)
    else if op == "%" then Modulo(l, r, line, column)
    else if op == "**" then Power(l, r)
    else if op == "==" then
      var eq := PyEq(l, r);
      if eq.Some? then Normal(VBool(eq.value)) else Halted(OutOfModel("exception identity"))
    else if op == "!=" then
      var eq := PyEq(l, r);
      if eq.Some? then Normal(VBool(!eq.value)) else Halted(OutOfModel("exception identity"))
    else if op in {"<", "<=", ">", ">="} then Order(op, l, r)
    else if op == "and" then Normal(if IsTruthy(l) then r else l)
    else if op == "or" then Normal(if IsTruthy(l) then l else r)
    else Faulted(RuntimeBare("Unknown binary operator: " + op))
  }

  /** The body of `visit_unary_operation` once the operand is evaluated. */
  function UnOp(op: string, v: Value): (sig: Signal)
    ensures !sig.Returning?
  {
    if op == "-" then
      if IsNum(v) then Normal(VInt(-Num(v))) else HostType("bad operand type for unary -: '" + TypeName(v) + "'")
    else if op == "not" then Normal(VBool(!IsTruthy(v)))
    else Faulted(RuntimeBare("Unknown unary operator: " + op))
  }

  /**
   * `array[index]` in `visit_array_access`: only strings are subscriptable
   * among Trion values; Python's `IndexError` is rewrapped at the node's
   * position, which the parser leaves at 0.
   */
  function IndexValue(a: Value, i: Value): (sig: Signal)
    ensures !sig.Returning?
  {
    if a.VStr? then
      if IsNum(i) then
        var n := Num(i);
        if -|a.s| <= n < |a.s| then Normal(VStr([a.s[if n < 0 then n + |a.s| else n]]))
        else Faulted(RuntimeAt("string index out of range", 0, 0))
      else HostType("string indices must be integers")
    else HostType("'" + TypeName(a) + "' object is not subscriptable")
  }

  /**
   * `str(v)`, or `None` where Python's text embeds an object address
   * (functions).
   */
  function PyStr(v: Value): Option<string> {
    match v
    case VNull => Some("None")
    case VBool(b) => Some(if b then "True" else "False")
    case VInt(i) => Some(IntToString(i))
    case VStr(s) => Some(s)
    case VError(f) => Some(FaultText(f))
    case _ => None
  }

  /** `s * n` for `n > 0` is `s * (n - 1)` followed by one more copy. */
  lemma {:induction false} RepeatStrAppends(s: string, n: int)
    requires n > 0
    ensures RepeatStr(s, n) == RepeatStr(s, n - 1) + s
    ensures |RepeatStr(s, n)| == |s| * n
    decreases n
  {
    if n > 1 {
      RepeatStrAppends(s, n - 1);
      assert RepeatStr(s, n) == s + (RepeatStr(s, n - 2) + s);
    }
  }

  /** `and` and `or` return one of their operands, never a fresh boolean; `0 or 5` is 5. */
  lemma AndOrReturnAnOperand(l: Value, r: Value, line: int, column: int)
    ensures BinOp("and", l, r, line, column).Normal? && BinOp("or", l, r, line, column).Normal?
    ensures BinOp("and", l, r, line, column).v in {l, r} && BinOp("or", l, r, line, column).v in {l, r}
    ensures IsTruthy(BinOp("and", l, r, line, column).v) == (IsTruthy(l) && IsTruthy(r))
    ensures IsTruthy(BinOp("or", l, r, line, column).v) == (IsTruthy(l) || IsTruthy(r))
    ensures BinOp("or", VInt(0), VInt(5), line, column) == Normal(VInt(5))
  {
  }

  /** The zero guards' error reads "ValueError: <message>" once rewrapped at the node's position. */
  lemma ZeroFaultText(message: string, line: int, column: int)
    ensures ZeroFault(message, line, column) ==
      Faulted(Trion(TrionError(RuntimeError, "ValueError: " + message, Some(line), Some(column), None)))
  {
    var e := TrionError(ValueError, message, None, None, None);
    assert Location(e) == "";
    assert Render(e) == ClassName(ValueError) + ": " + message;
    assert ClassName(ValueError) + ": " == "ValueError: ";
  }

  /** Dividing by zero (or `false`) is a positioned RuntimeError whatever the left operand. */
  lemma DivisionByZeroFaults(l: Value, r: Value, line: int, column: int)
    requires IsZero(r)
    ensures BinOp("/", l, r, line, column) ==
      Faulted(Trion(TrionError(RuntimeError, "ValueError: Division by zero", Some(line), Some(column), None)))
  {
    ZeroFaultText("Division by zero", line, column);
    assert "ValueError: " + "Division by zero" == "ValueError: Division by zero";
    assert "/" != "+" && "/" != "-" && "/" != "*";
    assert BinOp("/", l, r, line, column) == ZeroFault("Division by zero", line, column);
  }

  /**
   * A negative power of zero (or `false`) is Python's own ZeroDivisionError,
   * which the handler for Trion's errors does not catch; a negative power of
   * any other number is a float.
   */
  lemma NegativePowerOfZeroFaults(l: Value, r: Value, line: int, column: int)
    requires IsNum(l) && IsNum(r) && Num(r) < 0
    ensures IsZero(l) <==>
      BinOp("**", l, r, line, column) == Faulted(Host("ZeroDivisionError", "0.0 cannot be raised to a negative power"))
    ensures !IsZero(l) ==> BinOp("**", l, r, line, column) == Halted(OutOfModel("negative power yields a float"))
  {
    assert "**" != "+" && "**" != "-" && "**" != "*" && "**" != "/" && "**" != "%";
  }

  /** Taking a remainder by zero (or `false`) is a positioned RuntimeError whatever the left operand. */
  lemma ModuloByZeroFaults(l: Value, r: Value, line: int, column: int)
    requires IsZero(r)
    ensures BinOp("%", l, r, line, column) ==
      Faulted(Trion(TrionError(RuntimeError, "ValueError: Modulo by zero", Some(line), Some(column), None)))
  {
    ZeroFaultText("Modulo by zero", line, column);
    assert "ValueError: " + "Modulo by zero" == "ValueError: Modulo by zero";
    assert "%" != "+" && "%" != "-" && "%" != "*" && "%" != "/";
    assert BinOp("%", l, r, line, column) == ZeroFault("Modulo by zero", line, column);
  }

  /** `!=` is the negation of `==`, and `==` is reflexive and symmetric except between exception objects. */
  lemma EqualityLaws(l: Value, r: Value, line: int, column: int)
    ensures !l.VError? ==> BinOp("==", l, l, line, column) == Normal(VBool(true))
    ensures BinOp("==", l, r, line, column) == BinOp("==", r, l, line, column)
    ensures BinOp("==", l, r, line, column).Normal? <==> BinOp("!=", l, r, line, column).Normal?
    ensures BinOp("==", l, r, line, column).Normal? ==>
      BinOp("!=", l, r, line, column).v == VBool(!BinOp("==", l, r, line, column).v.b)
    ensures BinOp("==", l, r, line, column).Halted? <==> l.VError? && r.VError?
  {
  }

  /** Python integer modulo agrees with floor division: `a == (a // b) * b + a % b`. */
  lemma {:induction false} PyModIsFloorRemainder(a: int, b: int)
    requires b != 0
    ensures exists q :: a == q * b + PyMod(a, b)
    ensures PyMod(7, -2) == -1 && PyMod(-7, 2) == 1
  {
    var e := a % b;
    assert a == (a / b) * b + e;
    if b > 0 || e == 0 {
      assert a == (a / b) * b + PyMod(a, b);
    } else {
      assert a == (a / b - 1) * b + PyMod(a, b);
    }
  }

  /** Strict string order: irreflexive and total on distinct strings. */
  lemma {:induction false} StrLessStrictTotal(a: string, b: string)
    ensures !StrLess(a, a)
    ensures a != b ==> StrLess(a, b) != StrLess(b, a)
  {
    if a != [] {
      StrLessStrictTotal(a[1..], a[1..]);
    }
    if a != [] && b != [] {
      StrLessStrictTotal(a[1..], b[1..]);
    }
  }

  /** Indexing a string from either end: `s[-1]` is the last character, and out-of-range indices fail. */
  lemma StringIndexWraps(s: string, n: int)
    ensures -|s| <= n < 0 ==> IndexValue(VStr(s), VInt(n)) == Normal(VStr([s[|s| + n]]))
    ensures 0 <= n < |s| ==> IndexValue(VStr(s), VInt(n)) == Normal(VStr([s[n]]))
    ensures (n < -|s| || n >= |s|) ==>
      IndexValue(VStr(s), VInt(n)) == Faulted(Trion(TrionError(RuntimeError, "string index out of range", Some(0), Some(0), None)))
  {
  }

  /** `not` is the negated truthiness, and `-` negates numbers (booleans as 0 and 1). */
  lemma UnaryLaws(v: Value)
    ensures UnOp("not", v) == Normal(VBool(!IsTruthy(v)))
    ensures IsNum(v) ==> UnOp("-", v) == Normal(VInt(-Num(v)))
    ensures UnOp("-", VBool(true)) == Normal(VInt(-1))
  {
  }

  /**
   * `str()` has a text for every value except a function, and that text
   * agrees with truthiness: `None` and the booleans print as Python names
   * them, a string is its own text and is truthy exactly when that text is
   * non-empty, and an int prints in decimal (`-` first when negative),
   * reads back as itself and is truthy exactly when its text is not `0`.
   */
  lemma StrAgreesWithTruth(v: Value)
    ensures PyStr(v).None? <==> v.VFunc? || v.VBuiltin?
    ensures v.VNull? ==> PyStr(v) == Some("None") && !IsTruthy(v)
    ensures v.VBool? ==> (PyStr(v) == Some("True") <==> IsTruthy(v)) && (PyStr(v) == Some("False") <==> !IsTruthy(v))
    ensures v.VStr? ==> PyStr(v) == Some(v.s) && (IsTruthy(v) <==> PyStr(v).value != "")
    ensures v.VInt? ==> var t := PyStr(v).value;
      t != [] && (t[0] == '-' <==> v.i < 0) &&
      (v.i >= 0 ==> AllDigits(t) && DecimalValue(t) == v.i) &&
      (v.i < 0 ==> AllDigits(t[1..]) && DecimalValue(t[1..]) == -v.i) &&
      (IsTruthy(v) <==> t != "0")
  {
    if v.VInt? {
      var n := if v.i < 0 then -v.i else v.i;
      NatToStringRoundTrip(n);
      if v.i < 0 {
        assert PyStr(v).value[1..] == NatToString(n);
      } else if NatToString(n) == "0" {
        assert DecimalValue("0") == 0;
      }
    }
  }
}
