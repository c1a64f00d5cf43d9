/**
 * The value computations of the evaluator: the binary operators of
 * BinOpExpr.Eval once both operands are known and neither is an Error value
 * (hercodeinterpreter/BinOpExpr.go), and the built-in functions len, substr
 * and sqrt of FuncCallExpr.Eval (hercodeinterpreter/FuncCallExpr.go).
 * Numbers are reals; Go's conversion int(x) and its remainder operator are
 * written out, since they round toward zero where Dafny's / and % do not.
 */
module Operators {
  import opened Text
  import opened Values

  // ---------------------------------------------------------------------------
  // Go integer arithmetic
  // ---------------------------------------------------------------------------

  /** int(x) for a float64: the integer part of x, rounding toward zero. */
  function Trunc(x: real): (n: int)
    ensures x >= 0.0 ==> 0 <= n && n as real <= x < n as real + 1.0
    ensures x < 0.0 ==> n <= 0 && n as real - 1.0 < x <= n as real
  {
    if x >= 0.0 then x.Floor else -((-x).Floor)
  }

  function IntAbs(a: int): nat {
    if a < 0 then -a else a
  }

  /** Go's integer quotient, rounding toward zero. */
  function Quot(a: int, b: int): int
    requires b != 0
  {
    var q := IntAbs(a) / IntAbs(b);
    if (a < 0) != (b < 0) then -q else q
  }

  /** Go's `%` on integers: the remainder of the quotient rounding toward zero, with the sign of the dividend. */
  function Rem(a: int, b: int): (r: int)
    requires b != 0
    ensures IntAbs(r) < IntAbs(b)
    ensures r == 0 || (r < 0 <==> a < 0)
  {
    var m := IntAbs(a) % IntAbs(b);
    if a < 0 then -m else m
  }

  /** Quotient and remainder put the dividend back together, as Go's specification of `/` and `%` demands. */
  lemma QuotRem(a: int, b: int)
    requires b != 0
    ensures Quot(a, b) * b + Rem(a, b) == a
  {
    var ab: int := IntAbs(b);
    var q: int := IntAbs(a) / ab;
    var m := IntAbs(a) % ab;
    assert IntAbs(a) == q * ab + m;
    if a < 0 && b < 0 {
      assert Quot(a, b) * b == q * -ab;
    } else if a < 0 {
      assert Quot(a, b) * b == -q * ab;
    } else if b < 0 {
      assert Quot(a, b) * b == -q * -ab;
    }
  }

  // ---------------------------------------------------------------------------
  // The binary operators
  // ---------------------------------------------------------------------------

  /**
   * `+`: the sum of two numbers; otherwise, when either side is a string,
   * the two renderings concatenated; any other pair is a type mismatch.
   */
  function Add(a: Value, b: Value): (r: Value)
    ensures a.Number? && b.Number? ==> r == Number(a.num + b.num)
    ensures !(a.Number? && b.Number?) && (a.Str? || b.Str?) ==> r == Str(Render(a) + Render(b))
    ensures !(a.Number? && b.Number?) && !a.Str? && !b.Str? ==> r == Error(TypeMismatch("+", TypeOf(a), TypeOf(b)))
  {
    if a.Number? && b.Number? then Number(a.num + b.num)
    else if a.Str? || b.Str? then Str(Render(a) + Render(b))
    else Error(TypeMismatch("+", TypeOf(a), TypeOf(b)))
  }

  /** `-`, `*` and `/` on two numbers; division by exactly zero is an error value, as is any other pair. */
  function Arith(op: string, a: Value, b: Value): (r: Value)
    requires op == "-" || op == "*" || op == "/"
    ensures !(a.Number? && b.Number?) <==> r == Error(TypeMismatch(op, TypeOf(a), TypeOf(b)))
    ensures r.Number? || r.Error?
    ensures r == Error(DivisionByZero) <==> op == "/" && a.Number? && b.Number? && b.num == 0.0
    ensures a.Number? && b.Number? && op == "-" ==> r.Number? && r.num + b.num == a.num
    ensures a.Number? && b.Number? && op == "*" ==> r.Number? && r.num == a.num * b.num
    ensures a.Number? && b.Number? && op == "/" && b.num != 0.0 ==> r.Number? && r.num * b.num == a.num
  {
    if !(a.Number? && b.Number?) then Error(TypeMismatch(op, TypeOf(a), TypeOf(b)))
    else if op == "-" then Number(a.num - b.num)
    else if op == "*" then Number(a.num * b.num)
    else if b.num == 0.0 then Error(DivisionByZero)
    else Number(a.num / b.num)
  }

  /** What `%` does when both sides are numbers, as written: a Go integer division by zero is a run-time panic. */
  datatype Checked = Computed(v: Value) | RuntimePanic

  /**
   * `%` on two numbers as the Go code computes it: the zero test looks at
   * the divisor before truncation, but the remainder is taken after it, so
   * a divisor strictly between -1 and 1 other than 0 truncates to 0 and
   * makes Go's integer `%` panic.
   */
  function ModuloAsWritten(x: real, y: real): (r: Checked)
    ensures r == RuntimePanic <==> y != 0.0 && Trunc(y) == 0
  {
    if y == 0.0 then Computed(Error(ModuloByZero))
    else if Trunc(y) == 0 then RuntimePanic
    else Computed(Number(Rem(Trunc(x), Trunc(y)) as real))
  }

  /** A fractional divisor: 5 % 0.5 passes the zero test and then divides by int(0.5) == 0. */
  lemma ModuloFractionalDivisorPanics()
    ensures ModuloAsWritten(5.0, 0.5) == RuntimePanic
  {
    assert Trunc(0.5) == 0;
  }

  /**
   * `%` as evidently intended: every divisor that truncates to zero is the
   * modulo-by-zero error, so the operator never panics; otherwise the Go
   * remainder of the truncated operands.
   */
  function Modulo(a: Value, b: Value): (r: Value)
    ensures !(a.Number? && b.Number?) ==> r == Error(TypeMismatch("%", TypeOf(a), TypeOf(b)))
    ensures a.Number? && b.Number? ==> (r == Error(ModuloByZero) <==> Trunc(b.num) == 0)
    ensures a.Number? && b.Number? && Trunc(b.num) != 0 ==>
              r.Number? && r.num == Rem(Trunc(a.num), Trunc(b.num)) as real
  {
    if !(a.Number? && b.Number?) then Error(TypeMismatch("%", TypeOf(a), TypeOf(b)))
    else if Trunc(b.num) == 0 then Error(ModuloByZero)
    else Number(Rem(Trunc(a.num), Trunc(b.num)) as real)
  }

  /** Wherever the code as written does not panic, the corrected `%` computes the same value. */
  lemma ModuloAgreesWhereDefined(x: real, y: real)
    requires ModuloAsWritten(x, y) != RuntimePanic
    ensures ModuloAsWritten(x, y) == Computed(Modulo(Number(x), Number(y)))
  {
  }

  /** The remainder of numbers is smaller than the truncated divisor and a whole number. */
  lemma ModuloBound(x: real, y: real)
    requires Trunc(y) != 0
    ensures Modulo(Number(x), Number(y)).Number?
    ensures -(IntAbs(Trunc(y)) as real) < Modulo(Number(x), Number(y)).num < IntAbs(Trunc(y)) as real
  {
    var r := Rem(Trunc(x), Trunc(y));
    assert IntAbs(r) < IntAbs(Trunc(y));
  }

  /** `==` compares payloads of two numbers, two strings or two booleans; every other pair is unequal. */
  predicate Equal(a: Value, b: Value)
    ensures Equal(a, b) <==> a == b && (a.Number? || a.Str? || a.Bool?)
  {
    match (a, b)
    case (Number(x), Number(y)) => x == y
    case (Str(s), Str(t)) => s == t
    case (Bool(p), Bool(q)) => p == q
    case _ => false
  }

  predicate IsComparison(op: string) {
    op == "<" || op == ">" || op == "<=" || op == ">="
  }

  /** The ordering operators on two numbers, or on two strings in byte order; any other pair is a type mismatch. */
  function Compare(op: string, a: Value, b: Value): (r: Value)
    requires IsComparison(op)
    ensures r.Bool? <==> (a.Number? && b.Number?) || (a.Str? && b.Str?)
    ensures !r.Bool? ==> r == Error(TypeMismatch(op, TypeOf(a), TypeOf(b)))
    ensures a.Number? && b.Number? ==>
      (r.b <==> ((a.num < b.num && (op == "<" || op == "<=")) ||
                 (a.num > b.num && (op == ">" || op == ">=")) ||
                 (a.num == b.num && (op == "<=" || op == ">="))))
    ensures a.Str? && b.Str? ==>
      (r.b <==> ((LexLess(a.str, b.str) && (op == "<" || op == "<=")) ||
                 (LexLess(b.str, a.str) && (op == ">" || op == ">=")) ||
                 (a.str == b.str && (op == "<=" || op == ">="))))
  {
    if a.Number? && b.Number? then
      Bool(if op == "<" then a.num < b.num
           else if op == ">" then a.num > b.num
           else if op == "<=" then a.num <= b.num
           else a.num >= b.num)
    else if a.Str? && b.Str? then
      LexLessTrichotomy(a.str, b.str);
      Bool(if op == "<" then LexLess(a.str, b.str)
           else if op == ">" then LexLess(b.str, a.str)
           else if op == "<=" then !LexLess(b.str, a.str)
           else !LexLess(a.str, b.str))
    else Error(TypeMismatch(op, TypeOf(a), TypeOf(b)))
  }

  /** The switch of BinOpExpr.Eval over the operator, for operands that are not Error values. */
  function ApplyOp(op: string, a: Value, b: Value): (r: Value)
    ensures op == "==" ==> r == Bool(Equal(a, b))
    ensures op == "!=" ==> r == Bool(!Equal(a, b))
    ensures op !in ["+", "-", "*", "/", "%", "==", "!=", "<", ">", "<=", ">="] ==> r == Error(UnknownOperator(op))
  {
    if op == "+" then Add(a, b)
    else if op == "-" || op == "*" || op == "/" then Arith(op, a, b)
    else if op == "%" then Modulo(a, b)
    else if op == "==" then Bool(Equal(a, b))
    else if op == "!=" then Bool(!Equal(a, b))
    else if IsComparison(op) then Compare(op, a, b)
    else Error(UnknownOperator(op))
  }

  /** Concatenating two strings with `+` joins their payloads. */
  lemma AddStrings(s: string, t: string)
    ensures ApplyOp("+", Str(s), Str(t)) == Str(s + t)
  {
  }

  /** Void equals nothing, not even itself, and so every pair involving it is unequal under `!=`. */
  lemma VoidNeverEqual(v: Value)
    ensures ApplyOp("==", Void, v) == Bool(false) && ApplyOp("!=", v, Void) == Bool(true)
  {
  }

  /** `==` is reflexive on numbers, strings and booleans, and symmetric everywhere. */
  lemma EqualityLaws(a: Value, b: Value)
    ensures (a.Number? || a.Str? || a.Bool?) ==> Equal(a, a)
    ensures Equal(a, b) == Equal(b, a)
    ensures Equal(a, b) ==> a == b
  {
  }

  predicate ExactlyOne(p: bool, q: bool, r: bool) {
    (p || q || r) && !(p && q) && !(p && r) && !(q && r)
  }

  /**
   * On two strings exactly one of `<`, `==` and `>` is true, `<=` is `<`
   * or `==`, and `>=` is `>` or `==`.
   */
  lemma StringOrder(s: string, t: string)
    ensures ExactlyOne(ApplyOp("<", Str(s), Str(t)).b, ApplyOp("==", Str(s), Str(t)).b, ApplyOp(">", Str(s), Str(t)).b)
    ensures ApplyOp("<=", Str(s), Str(t)).b == (ApplyOp("<", Str(s), Str(t)).b || s == t)
    ensures ApplyOp(">=", Str(s), Str(t)).b == (ApplyOp(">", Str(s), Str(t)).b || s == t)
  {
    if s == t {
      LexLessIrreflexive(s);
    } else {
      LexLessTotal(s, t);
      if LexLess(s, t) {
        LexLessAsymmetric(s, t);
      } else {
        LexLessAsymmetric(t, s);
      }
    }
  }

  /** The ordering operators on two strings are the byte order: `<=` is below or equal, `>=` above or equal. */
  lemma StringComparisons(s: string, t: string)
    ensures ApplyOp("<", Str(s), Str(t)) == Bool(LexLess(s, t))
    ensures ApplyOp(">", Str(s), Str(t)) == Bool(LexLess(t, s))
    ensures ApplyOp("<=", Str(s), Str(t)) == Bool(LexLess(s, t) || s == t)
    ensures ApplyOp(">=", Str(s), Str(t)) == Bool(LexLess(t, s) || s == t)
  {
    if s == t {
      LexLessIrreflexive(s);
    } else {
      LexLessTotal(s, t);
    }
  }

  /** The ordering operators on two numbers are the order of the reals, and exactly one of `<`, `==`, `>` holds. */
  lemma NumberOrder(x: real, y: real)
    ensures ApplyOp("<", Number(x), Number(y)) == Bool(x < y)
    ensures ApplyOp(">", Number(x), Number(y)) == Bool(x > y)
    ensures ApplyOp("<=", Number(x), Number(y)) == Bool(x <= y)
    ensures ApplyOp(">=", Number(x), Number(y)) == Bool(x >= y)
    ensures ExactlyOne(ApplyOp("<", Number(x), Number(y)).b, ApplyOp("==", Number(x), Number(y)).b, ApplyOp(">", Number(x), Number(y)).b)
  {
  }

  /** Subtracting a number and adding it back gives the first number again. */
  lemma SubtractThenAdd(x: real, y: real)
    ensures ApplyOp("+", ApplyOp("-", Number(x), Number(y)), Number(y)) == Number(x)
  {
  }

  /** Dividing by a non-zero number and multiplying by it again gives the first number back; dividing by zero is the division Error. */
  lemma DivideThenMultiply(x: real, y: real)
    ensures y != 0.0 ==> ApplyOp("*", ApplyOp("/", Number(x), Number(y)), Number(y)) == Number(x)
    ensures y == 0.0 ==> ApplyOp("/", Number(x), Number(y)) == Error(DivisionByZero)
  {
  }

  /** Multiplication of numbers commutes, and the difference of a number from itself is 0. */
  lemma ArithLaws(x: real, y: real)
    ensures ApplyOp("*", Number(x), Number(y)) == ApplyOp("*", Number(y), Number(x))
    ensures ApplyOp("-", Number(x), Number(x)) == Number(0.0)
  {
  }

  /** `>` on strings is `<` with the operands swapped, and `>=` is `<=` swapped. */
  lemma StringOrderSwapped(s: string, t: string)
    ensures ApplyOp(">", Str(s), Str(t)) == ApplyOp("<", Str(t), Str(s))
    ensures ApplyOp(">=", Str(s), Str(t)) == ApplyOp("<=", Str(t), Str(s))
  {
  }

  // ---------------------------------------------------------------------------
  // Built-in functions
  // ---------------------------------------------------------------------------

  predicate IsBuiltin(name: string) {
    name == "len" || name == "substr" || name == "sqrt"
  }

  /** len: exactly one string argument; its length in bytes. */
  function Len(args: seq<Value>): (r: Value)
    ensures r.Number? <==> |args| == 1 && args[0].Str?
    ensures r.Number? ==> r.num == |args[0].str| as real
  {
    if |args| != 1 then Error(LenArgCount)
    else if !args[0].Str? then Error(LenNotString)
    else Number(|args[0].str| as real)
  }

  /**
   * substr: a string, a start number and an optional end number, checked in
   * that order; the truncated start must lie in [0, len), the truncated end
   * (by default len) in [start, len], and the result is the bytes between.
   */
  function Substr(args: seq<Value>): (r: Value)
    ensures r.Str? <==> 2 <= |args| <= 3 && args[0].Str? && args[1].Number? && (|args| == 3 ==> args[2].Number?) &&
                        0 <= Trunc(args[1].num) < |args[0].str| && Trunc(args[1].num) <= SubstrEnd(args) <= |args[0].str|
    ensures r.Str? ==> r.str == args[0].str[Trunc(args[1].num)..SubstrEnd(args)]
    ensures !r.Str? ==> r.Error?
  {
    if |args| < 2 || |args| > 3 then Error(SubstrArgCount)
    else if !args[0].Str? then Error(SubstrNotString)
    else if !args[1].Number? then Error(SubstrStartNotNumber)
    else
      var s := args[0].str;
      var start := Trunc(args[1].num);
      if start < 0 || start >= |s| then Error(SubstrStartOutOfRange)
      else if |args| == 3 && !args[2].Number? then Error(SubstrEndNotNumber)
      else
        var end := SubstrEnd(args);
        if end < start || end > |s| then Error(SubstrEndOutOfRange)
        else Str(s[start..end])
  }

  /** The end position of a substr call: the truncated third argument, or the string's length. */
  function SubstrEnd(args: seq<Value>): int
    requires 2 <= |args| <= 3 && args[0].Str?
  {
    if |args| == 3 && args[2].Number? then Trunc(args[2].num) else |args[0].str|
  }

  /** sqrt: one non-negative number; the square root itself comes from the host (`sqrt`). */
  function Sqrt(args: seq<Value>, sqrt: real -> real): (r: Value)
    ensures r.Number? <==> |args| == 1 && args[0].Number? && args[0].num >= 0.0
    ensures r.Number? ==> r.num == sqrt(args[0].num)
  {
    if |args| != 1 then Error(SqrtArgCount)
    else if !args[0].Number? then Error(SqrtNotNumber)
    else if args[0].num < 0.0 then Error(SqrtNegative)
    else Number(sqrt(args[0].num))
  }

  function Builtin(name: string, args: seq<Value>, sqrt: real -> real): (r: Value)
    requires IsBuiltin(name)
    ensures r.Number? || r.Str? || r.Error?
    ensures r.Str? ==> name == "substr"
    ensures name == "len" ==> (r.Number? <==> |args| == 1 && args[0].Str?)
    ensures name == "sqrt" ==> (r.Number? <==> |args| == 1 && args[0].Number? && args[0].num >= 0.0)
  {
    if name == "len" then Len(args)
    else if name == "substr" then Substr(args)
    else Sqrt(args, sqrt)
  }

  /** A successful substr is as long as the distance between its bounds, which len measures. */
  lemma LenOfSubstr(args: seq<Value>)
    requires Substr(args).Str?
    ensures Len([Substr(args)]) == Number((SubstrEnd(args) - Trunc(args[1].num)) as real)
  {
  }

  /** The substr of a non-empty string from 0 is the whole string; every substr of the empty string fails. */
  lemma SubstrWhole(s: string)
    ensures s != [] ==> Substr([Str(s), Number(0.0)]) == Str(s)
    ensures Substr([Str([]), Number(0.0)]).Error?
  {
    assert Trunc(0.0) == 0;
    assert s[0..|s|] == s;
  }

  /** Splitting a string at a position with substr and concatenating the halves with `+` gives it back. */
  lemma SubstrSplit(s: string, k: nat)
    requires 0 < k < |s|
    ensures ApplyOp("+", Substr([Str(s), Number(0.0), Number(k as real)]), Substr([Str(s), Number(k as real)])) == Str(s)
  {
    assert Trunc(0.0) == 0;
    assert Trunc(k as real) == k;
    assert s[0..k] + s[k..|s|] == s;
  }
}
