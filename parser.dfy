/**
 * The expression and statement parsers of hercodeinterpreter/GlobalFunc.go.
 *
 * An expression is tried, in order, as a literal or variable reference, as a
 * function call, and as a binary operation split at the first operator of a
 * fixed list that occurs at parenthesis depth 0.  A statement line is
 * recognised by its leading keyword or its shape.  The regular expressions
 * of the Go code are written out as character predicates, and
 * strconv.ParseFloat as a decimal-literal grammar.
 */
module Parser {
  import opened Wrappers
  import opened Text
  import opened Values
  import opened Ast
  import opened Scanners

  /** Why a text is not an expression or a statement; kinds carry the line number where Go's message does. */
  datatype ParseError =
    | EmptyExpression(line: int)
    | NotSimple(line: int)
    | NotCall(line: int)
    | NonFiniteNumber(line: int)
    | Unparsable(line: int, text: string)
    | LeftOperand(inner: ParseError)
    | RightOperand(inner: ParseError)
    | BadCondition(line: int, inner: ParseError)
    | BadAssignment(line: int, inner: ParseError)
    | InvalidDeclaration(line: int, text: string)
    | InvalidCall(line: int, text: string)
    | UnparsableStatement(line: int, text: string)

  // ---------------------------------------------------------------------------
  // Decimal literals (the part of strconv.ParseFloat's grammar that yields finite numbers)
  // ---------------------------------------------------------------------------

  /** The length of the run of decimal digits at the start of the text. */
  function DigitRun(s: string): (n: nat)
    ensures n <= |s|
    ensures forall i :: 0 <= i < n ==> IsDigit(s[i])
    ensures n == |s| || !IsDigit(s[n])
  {
    if s == [] || !IsDigit(s[0]) then 0 else 1 + DigitRun(s[1..])
  }

  /** 1 when the text starts with a sign, else 0. */
  function SignLength(s: string): (n: nat)
    ensures n <= |s|
  {
    if s != [] && (s[0] == '+' || s[0] == '-') then 1 else 0
  }

  /** A decimal literal taken apart: sign, digits before and after the point, exponent sign and digits. */
  datatype Decimal = Decimal(negative: bool, whole: string, fraction: string, expNegative: bool, exponent: string)

  predicate AllDigits(s: string) {
    forall i :: 0 <= i < |s| ==> IsDigit(s[i])
  }

  predicate WellFormedDecimal(d: Decimal) {
    AllDigits(d.whole) && AllDigits(d.fraction) && AllDigits(d.exponent) && |d.whole| + |d.fraction| > 0
  }

  /**
   * The grammar `[+-]? (digits [. digits?] | . digits) ([eE] [+-]? digits)?`
   * over the whole text.
   */
  function DecimalSyntax(t: string): (r: Option<Decimal>)
    ensures r.Some? ==> WellFormedDecimal(r.value)
    ensures r.Some? ==> t != [] && (t[0] == '+' || t[0] == '-' || t[0] == '.' || IsDigit(t[0]))
    ensures r.Some? ==> (r.value.negative <==> t[0] == '-')
  {
    var k := SignLength(t);
    MantissaSyntax(t[k..], k == 1 && t[0] == '-')
  }

  /** The digits with an optional point, then the exponent part. */
  function MantissaSyntax(s: string, negative: bool): (r: Option<Decimal>)
    ensures r.Some? ==> WellFormedDecimal(r.value)
    ensures r.Some? ==> s != [] && (s[0] == '.' || IsDigit(s[0]))
    ensures r.Some? ==> r.value.negative == negative
  {
    var a := DigitRun(s);
    var rest := s[a..];
    if rest != [] && rest[0] == '.' then
      var f := rest[1..];
      var b := DigitRun(f);
      if a + b == 0 then None else ExponentSyntax(negative, s[..a], f[..b], f[b..])
    else if a == 0 then None
    else ExponentSyntax(negative, s[..a], [], rest)
  }

  /** What follows the mantissa: nothing, or `[eE] [+-]? digits` to the end. */
  function ExponentSyntax(negative: bool, whole: string, fraction: string, tail: string): (r: Option<Decimal>)
    requires AllDigits(whole) && AllDigits(fraction) && |whole| + |fraction| > 0
    ensures r.Some? ==> WellFormedDecimal(r.value)
    ensures r.Some? ==> r.value.negative == negative
  {
    if tail == [] then Some(Decimal(negative, whole, fraction, false, []))
    else if tail[0] != 'e' && tail[0] != 'E' then None
    else
      var e := tail[1..];
      var m := SignLength(e);
      var ds := e[m..];
      if ds != [] && DigitRun(ds) == |ds| then Some(Decimal(negative, whole, fraction, m == 1 && e[0] == '-', ds))
      else None
  }

  function Pow10(n: nat): (r: real)
    ensures r >= 1.0
  {
    if n == 0 then 1.0 else 10.0 * Pow10(n - 1)
  }

  /** The value of the digits around the point: the whole digits plus the fraction digits over 10 to their count. */
  function MantissaValue(whole: string, fraction: string): (r: real)
    requires AllDigits(whole) && AllDigits(fraction)
    ensures r >= 0.0
    ensures fraction == [] ==> r == DecimalDigitsValue(whole) as real
    ensures r * Pow10(|fraction|) == (DecimalDigitsValue(whole) as real) * Pow10(|fraction|) + DecimalDigitsValue(fraction) as real
  {
    DecimalDigitsValue(whole) as real + DecimalDigitsValue(fraction) as real / Pow10(|fraction|)
  }

  /** A value scaled by 10 to the x, down for a negative exponent, up otherwise. */
  function Scaled(m: real, x: nat, down: bool): (r: real)
    ensures !down ==> r == m * Pow10(x)
    ensures down ==> r * Pow10(x) == m
    ensures m >= 0.0 ==> r >= 0.0
  {
    if down then m / Pow10(x) else m * Pow10(x)
  }

  /** The exact value a decimal literal denotes. */
  function DecimalValue(d: Decimal): (r: real)
    requires WellFormedDecimal(d)
    ensures d.negative ==> r <= 0.0
    ensures !d.negative ==> r >= 0.0
  {
    var m := MantissaValue(d.whole, d.fraction);
    var x := DecimalDigitsValue(d.exponent);
    var v := Scaled(m, x, d.expNegative);
    if d.negative then -v else v
  }

  /** The number a text denotes when the whole text is a decimal literal. */
  function NumberLiteral(t: string): (r: Option<real>)
    ensures r.Some? ==> t != [] && (t[0] == '+' || t[0] == '-' || t[0] == '.' || IsDigit(t[0]))
    ensures r.Some? && r.value < 0.0 ==> t[0] == '-'
    ensures r.Some? && r.value > 0.0 ==> t[0] != '-'
  {
    match DecimalSyntax(t)
    case None => None
    case Some(d) => Some(DecimalValue(d))
  }

  /** A text of digits is a decimal literal: its digits' value. */
  lemma NumberLiteralOfDigits(t: string)
    requires t != [] && AllDigits(t)
    ensures NumberLiteral(t) == Some(DecimalDigitsValue(t) as real)
  {
    assert t[0..] == t && t[..|t|] == t && t[|t|..] == [];
    assert DigitRun(t) == |t|;
    assert DecimalSyntax(t) == Some(Decimal(false, t, [], false, []));
  }

  /** A text made only of digits is its own digit run. */
  lemma DigitRunOfDigits(s: string, rest: string)
    requires AllDigits(s) && (rest == [] || !IsDigit(rest[0]))
    ensures DigitRun(s + rest) == |s|
  {
    var t := s + rest;
    assert forall i :: 0 <= i < |s| ==> t[i] == s[i];
    if |s| < |t| {
      assert t[|s|] == rest[0];
    }
  }

  /** The value of an unsigned decimal: its mantissa scaled by 10 to its exponent, up or down. */
  lemma UnsignedDecimalValue(d: Decimal)
    requires WellFormedDecimal(d) && !d.negative
    ensures d.exponent == [] ==> DecimalValue(d) == MantissaValue(d.whole, d.fraction)
    ensures d.fraction == [] ==>
            DecimalValue(d) == Scaled(DecimalDigitsValue(d.whole) as real, DecimalDigitsValue(d.exponent), d.expNegative)
  {
    assert DecimalDigitsValue([]) == 0 && Pow10(0) == 1.0;
  }

  /** `w.f` is the decimal with those whole and fraction digits and no exponent. */
  lemma FractionSyntax(w: string, f: string)
    requires AllDigits(w) && AllDigits(f) && |w| + |f| > 0
    ensures DecimalSyntax(w + "." + f) == Some(Decimal(false, w, f, false, []))
  {
    var t := w + "." + f;
    var d := Decimal(false, w, f, false, []);
    assert t[0] != '+' && t[0] != '-' by {
      if w != [] {
        assert t[0] == w[0];
      } else {
        assert t[0] == '.';
      }
    }
    assert SignLength(t) == 0 && t[0..] == t;
    assert t == w + ("." + f);
    DigitRunOfDigits(w, "." + f);
    assert t[..|w|] == w && t[|w|..] == "." + f && t[|w|..][1..] == f;
    DigitRunOfDigits(f, []);
    assert f + [] == f && f[..|f|] == f && f[|f|..] == [];
    assert ExponentSyntax(false, w, f, []) == Some(d);
  }

  /** `w.f` reads as the whole digits plus the fraction digits scaled down by 10 to the number of fraction digits. */
  lemma NumberLiteralOfFraction(w: string, f: string)
    requires AllDigits(w) && AllDigits(f) && |w| + |f| > 0
    ensures NumberLiteral(w + "." + f) == Some(MantissaValue(w, f))
  {
    var d := Decimal(false, w, f, false, []);
    FractionSyntax(w, f);
    UnsignedDecimalValue(d);
    assert NumberLiteral(w + "." + f) == Some(DecimalValue(d));
  }

  /** `wEx` and `we-x` are the decimal with those whole digits, no fraction and that exponent. */
  lemma ExponentSyntaxOf(w: string, x: string, negative: bool)
    requires w != [] && AllDigits(w) && x != [] && AllDigits(x)
    ensures DecimalSyntax(w + (if negative then "e-" + x else "e" + x)) == Some(Decimal(false, w, [], negative, x))
  {
    var e := if negative then "e-" + x else "e" + x;
    var t := w + e;
    assert t[0] == w[0];
    assert SignLength(t) == 0 && t[0..] == t;
    DigitRunOfDigits(w, e);
    assert t[..|w|] == w && t[|w|..] == e;
    var m := if negative then 1 else 0;
    assert SignLength(e[1..]) == m;
    assert e[1..][m..] == x;
    DigitRunOfDigits(x, []);
    assert x + [] == x;
    assert ExponentSyntax(false, w, [], e) == Some(Decimal(false, w, [], negative, x));
  }

  /** `wex` and `we-x` read as the whole digits scaled up, or down, by 10 to the exponent digits. */
  lemma NumberLiteralOfExponent(w: string, x: string, negative: bool)
    requires w != [] && AllDigits(w) && x != [] && AllDigits(x)
    ensures NumberLiteral(w + (if negative then "e-" + x else "e" + x)) ==
            Some(Scaled(DecimalDigitsValue(w) as real, DecimalDigitsValue(x), negative))
  {
    var d := Decimal(false, w, [], negative, x);
    ExponentSyntaxOf(w, x, negative);
    UnsignedDecimalValue(d);
    assert NumberLiteral(w + (if negative then "e-" + x else "e" + x)) == Some(DecimalValue(d));
  }

  /** The sign only rides along through the mantissa and exponent grammar. */
  lemma MantissaSign(s: string)
    ensures MantissaSyntax(s, true).Some? <==> MantissaSyntax(s, false).Some?
    ensures MantissaSyntax(s, true).Some? ==>
            MantissaSyntax(s, true).value == MantissaSyntax(s, false).value.(negative := true)
  {
  }

  /** A negative decimal denotes the negation of the same decimal without the sign. */
  lemma NegativeDecimalValue(d: Decimal)
    requires WellFormedDecimal(d) && d.negative
    ensures DecimalValue(d) == -DecimalValue(d.(negative := false))
  {
  }

  /** A leading minus sign parses to the same decimal, negated. */
  lemma NegatedSyntax(t: string)
    requires t != [] && t[0] != '+' && t[0] != '-'
    ensures DecimalSyntax("-" + t).Some? <==> DecimalSyntax(t).Some?
    ensures DecimalSyntax(t).Some? ==>
            DecimalValue(DecimalSyntax("-" + t).value) == -DecimalValue(DecimalSyntax(t).value)
  {
    var u := "-" + t;
    assert SignLength(t) == 0 && t[0..] == t;
    assert SignLength(u) == 1 && u[1..] == t && u[0] == '-';
    MantissaSign(t);
    if DecimalSyntax(t).Some? {
      var d := DecimalSyntax(t).value;
      var n := DecimalSyntax(u).value;
      assert n.(negative := false) == d;
      NegativeDecimalValue(n);
    }
  }

  /** A leading minus sign negates the literal that follows it. */
  lemma NumberLiteralNegated(t: string)
    requires t != [] && t[0] != '+' && t[0] != '-'
    ensures NumberLiteral(t).None? ==> NumberLiteral("-" + t).None?
    ensures NumberLiteral(t).Some? ==> NumberLiteral("-" + t) == Some(-NumberLiteral(t).value)
  {
    NegatedSyntax(t);
  }

  /** The decimal text of a natural number reads back as that number. */
  lemma NumberLiteralOfNat(n: nat)
    ensures NumberLiteral(NatToDecimal(n)) == Some(n as real)
  {
    NumberLiteralOfDigits(NatToDecimal(n));
    DecimalRoundTrip(n);
  }

  /** A literal starts with a sign, a digit or a point, so a text starting with a letter or '_' is none. */
  lemma NoLiteralStartsWithLetter(t: string)
    requires t != [] && IsIdentStart(t[0])
    ensures NumberLiteral(t) == None
  {
    assert SignLength(t) == 0 && DigitRun(t) == 0;
  }

  /** A literal never starts with a quote. */
  lemma NoLiteralStartsWithQuote(t: string)
    requires t != [] && t[0] == '"'
    ensures NumberLiteral(t) == None
  {
    assert SignLength(t) == 0 && DigitRun(t) == 0;
  }

  function Lower(c: char): char {
    if 'A' <= c <= 'Z' then (c as int - 'A' as int + 'a' as int) as char else c
  }

  /** The text equals the lower-case word `w` up to ASCII case. */
  predicate EqualFold(s: string, w: string) {
    |s| == |w| && forall i :: 0 <= i < |s| ==> Lower(s[i]) == w[i]
  }

  /** The words strconv.ParseFloat reads as an infinity or NaN: `[+-]?(inf|infinity)` and `nan`, in any case. */
  predicate IsNonFiniteWord(t: string) {
    EqualFold(t, "nan") || EqualFold(t[SignLength(t)..], "inf") || EqualFold(t[SignLength(t)..], "infinity")
  }

  // ---------------------------------------------------------------------------
  // Shapes matched by regular expressions in the Go code
  // ---------------------------------------------------------------------------

  /** The length of the identifier `[a-zA-Z_][a-zA-Z0-9_]*` at the start of the text (0 when there is none). */
  function IdentPrefixLength(t: string): (n: nat)
    ensures n <= |t|
    ensures n > 0 ==> IsIdent(t[..n]) && (n == |t| || !IsIdentPart(t[n]))
    ensures n == 0 ==> t == [] || !IsIdentStart(t[0])
  {
    if t == [] || !IsIdentStart(t[0]) then 0 else 1 + IdentPartRun(t[1..])
  }

  function IdentPartRun(s: string): (n: nat)
    ensures n <= |s|
    ensures forall i :: 0 <= i < n ==> IsIdentPart(s[i])
    ensures n == |s| || !IsIdentPart(s[n])
  {
    if s == [] || !IsIdentPart(s[0]) then 0 else 1 + IdentPartRun(s[1..])
  }

  /** The length of the run of `\s` characters at the start of the text. */
  function RegexSpaceRun(s: string): (n: nat)
    ensures n <= |s|
    ensures forall i :: 0 <= i < n ==> IsRegexSpace(s[i])
    ensures n == |s| || !IsRegexSpace(s[n])
  {
    if s == [] || !IsRegexSpace(s[0]) then 0 else 1 + RegexSpaceRun(s[1..])
  }

  /** A call's name and the text between its parentheses. */
  datatype CallShape = CallShape(name: string, argsText: string)

  /** A match of `^([a-zA-Z_][a-zA-Z0-9_]*)\((.*)\)$`, where `.` is any character but a newline. */
  function CallMatch(t: string): (r: Option<CallShape>)
    ensures r.Some? ==> t == r.value.name + "(" + r.value.argsText + ")"
    ensures r.Some? ==> IsIdent(r.value.name) && '\n' !in r.value.argsText
  {
    var n := IdentPrefixLength(t);
    if n > 0 && |t| >= n + 2 && t[n] == '(' && t[|t| - 1] == ')' && '\n' !in t[n + 1..|t| - 1] then
      assert t == t[..n] + "(" + t[n + 1..|t| - 1] + ")";
      Some(CallShape(t[..n], t[n + 1..|t| - 1]))
    else None
  }

  /** An identifier followed by a parenthesised text without newlines has the call shape. */
  lemma CallMatchOf(name: string, a: string)
    requires IsIdent(name) && '\n' !in a
    ensures CallMatch(name + "(" + a + ")") == Some(CallShape(name, a))
  {
    var t := name + "(" + a + ")";
    var n := IdentPrefixLength(t);
    assert t[..|name|] == name;
    assert t[|name|] == '(';
    assert forall i :: 1 <= i < |name| ==> t[i] == name[i];
    assert n == |name|;
    assert t[n + 1..|t| - 1] == a;
  }

  /** An assignment's target and the text of its value. */
  datatype AssignShape = AssignShape(target: string, valueText: string)

  /** A match of `^([a-zA-Z_][a-zA-Z0-9_]*)\s*=\s*(.*)$`, where `.` is any character but a newline. */
  function AssignMatch(t: string): (r: Option<AssignShape>)
    ensures r.Some? ==> IsIdent(r.value.target) && HasPrefix(t, r.value.target) && '\n' !in r.value.valueText
  {
    var n := IdentPrefixLength(t);
    if n == 0 then None
    else
      var u := t[n..];
      var k := RegexSpaceRun(u);
      if k < |u| && u[k] == '=' then
        var v := u[k + 1..];
        var m := RegexSpaceRun(v);
        if '\n' in v[m..] then None else Some(AssignShape(t[..n], v[m..]))
      else None
  }

  // ---------------------------------------------------------------------------
  // parseExpression, parseSimpleExpression, parseFunctionCall
  // ---------------------------------------------------------------------------

  /** An operator's text is never empty. */
  type OperatorText = s: string | |s| > 0 witness "+"

  /** The binary operators, in the order parseExpression tries them. */
  const Operators: seq<OperatorText> := ["==", "!=", "<=", ">=", "<", ">", "+", "-", "*", "/", "%"]

  /**
   * The trees the parser can build: literals are numbers, strings or
   * booleans, variable and function names are identifiers, and every
   * operator is one of the list (so never the assignment "=").
   */
  predicate Parsed(e: Expr) {
    match e
    case Literal(v) => v.Number? || v.Str? || v.Bool?
    case VarRef(n) => IsIdent(n)
    case BinOp(l, op, r) => op in Operators && Parsed(l) && Parsed(r)
    case Call(n, args) => IsIdent(n) && forall i :: 0 <= i < |args| ==> Parsed(args[i])
  }

  /** parseSimpleExpression: a number, a quoted string, true or false, or a variable name. */
  function ParseSimple(t: string, line: int): (r: Result<Expr, ParseError>)
    ensures r.Ok? ==> Parsed(r.value) && !r.value.BinOp? && !r.value.Call?
  {
    match NumberLiteral(t)
    case Some(x) => Ok(Literal(Number(x)))
    case None =>
      if |t| >= 2 && t[0] == '"' && t[|t| - 1] == '"' then Ok(Literal(Str(t[1..|t| - 1])))
      else if t == "true" then Ok(Literal(Bool(true)))
      else if t == "false" then Ok(Literal(Bool(false)))
      else if IsIdent(t) then Ok(VarRef(t))
      else Err(NotSimple(line))
  }

  /**
   * parseExpression.  The text is trimmed; the empty text fails; then the
   * simple forms, the call form and the binary split are tried in turn, a
   * failure of the first two falling through to the next.
   */
  function ParseExpression(text: string, line: int): (r: Result<Expr, ParseError>)
    ensures r.Ok? ==> Parsed(r.value)
    decreases |text|, 2, 0
  {
    var t := TrimSpace(text);
    if t == [] then Err(EmptyExpression(line))
    else if IsNonFiniteWord(t) then Err(NonFiniteNumber(line))
    else match ParseSimple(t, line)
      case Ok(e) => Ok(e)
      case Err(_) =>
        match ParseCall(t, line)
        case Ok(e) => Ok(e)
        case Err(_) => ParseBinary(t, 0, line)
  }

  /** parseFunctionCall: the call shape, with every top-level comma-separated argument parsed. */
  function ParseCall(t: string, line: int): (r: Result<Expr, ParseError>)
    ensures r.Ok? ==> Parsed(r.value) && r.value.Call?
    decreases |t|, 1, 0
  {
    match CallMatch(t)
    case None => Err(NotCall(line))
    case Some(CallShape(name, a)) =>
      if a == "" then Ok(Call(name, []))
      else
        ArgumentsShorter(a);
        match ParseArgList(Arguments(a), |t|, line)
        case Err(e) => Err(e)
        case Ok(args) => Ok(Call(name, args))
  }

  /** The arguments parsed left to right; the first failure is the result. */
  function ParseArgList(pieces: seq<string>, bound: nat, line: int): (r: Result<seq<Expr>, ParseError>)
    requires forall i :: 0 <= i < |pieces| ==> |pieces[i]| < bound
    ensures r.Ok? ==> |r.value| == |pieces| && forall i :: 0 <= i < |r.value| ==> Parsed(r.value[i])
    decreases bound, 0, |pieces|
  {
    if pieces == [] then Ok([])
    else
      match ParseExpression(TrimSpace(pieces[0]), line)
      case Err(e) => Err(e)
      case Ok(e) =>
        match ParseArgList(pieces[1..], bound, line)
        case Err(e2) => Err(e2)
        case Ok(es) => Ok([e] + es)
  }

  /**
   * The binary split from operator `k` of the list on: the first operator
   * that splits the text into more than one piece is the node's operator,
   * its first piece the left operand and the other pieces, joined back with
   * the operator, the right operand.
   */
  function ParseBinary(t: string, k: nat, line: int): (r: Result<Expr, ParseError>)
    requires k <= |Operators|
    ensures r.Ok? ==> Parsed(r.value) && r.value.BinOp?
    decreases |t|, 1, |Operators| - k
  {
    if k == |Operators| then Err(Unparsable(line, t))
    else
      var op := Operators[k];
      var parts := OperatorSplit(t, op);
      if |parts| > 1 then
        OperatorSplitShorter(t, op);
        match ParseExpression(TrimSpace(parts[0]), line)
        case Err(e) => Err(LeftOperand(e))
        case Ok(left) =>
          match ParseExpression(TrimSpace(Join(parts[1..], op)), line)
          case Err(e) => Err(RightOperand(e))
          case Ok(right) => Ok(BinOp(left, op, right))
      else ParseBinary(t, k + 1, line)
  }

  /** parseFunctionCall as the Go code writes it, appending each parsed argument in a loop. */
  method ParseFunctionCall(t: string, line: int) returns (r: Result<Expr, ParseError>)
    ensures r == ParseCall(t, line)
  {
    var m := CallMatch(t);
    if m.None? {
      return Err(NotCall(line));
    }
    var name := m.value.name;
    var argsStr := m.value.argsText;
    if argsStr == "" {
      return Ok(Call(name, []));
    }
    var argStrs := SplitArguments(argsStr);
    ArgumentsShorter(argsStr);
    var args := ParseArguments(argStrs, |t|, line);
    assert ParseCall(t, line) == match ParseArgList(argStrs, |t|, line)
      case Err(e) => Err(e) case Ok(es) => Ok(Call(name, es));
    if args.Err? {
      return Err(args.error);
    }
    return Ok(Call(name, args.value));
  }

  /** `es` in front of the arguments of a successful parse; a failure stays as it is. */
  function Prepend(es: seq<Expr>, r: Result<seq<Expr>, ParseError>): Result<seq<Expr>, ParseError> {
    match r
    case Err(e) => Err(e)
    case Ok(xs) => Ok(es + xs)
  }

  /** The argument list from piece i on: piece i parsed first, then the rest, the first failure ending it. */
  lemma ArgListFrom(pieces: seq<string>, i: nat, bound: nat, line: int, args: seq<Expr>)
    requires forall j :: 0 <= j < |pieces| ==> |pieces[j]| < bound
    requires i < |pieces|
    requires ParseArgList(pieces, bound, line) == Prepend(args, ParseArgList(pieces[i..], bound, line))
    ensures match ParseExpression(TrimSpace(pieces[i]), line)
            case Err(e) => ParseArgList(pieces, bound, line) == Err(e)
            case Ok(x) => ParseArgList(pieces, bound, line) == Prepend(args + [x], ParseArgList(pieces[i + 1..], bound, line))
  {
    assert pieces[i..][0] == pieces[i] && pieces[i..][1..] == pieces[i + 1..];
    match ParseExpression(TrimSpace(pieces[i]), line)
    case Err(e) =>
    case Ok(x) =>
      var rest := ParseArgList(pieces[i + 1..], bound, line);
      if rest.Ok? {
        AppendRegroup(args, x, rest.value);
      }
  }

  /** The argument loop of parseFunctionCall: each piece trimmed and parsed, the first failure returned. */
  method ParseArguments(pieces: seq<string>, bound: nat, line: int) returns (r: Result<seq<Expr>, ParseError>)
    requires forall i :: 0 <= i < |pieces| ==> |pieces[i]| < bound
    ensures r == ParseArgList(pieces, bound, line)
  {
    var args: seq<Expr> := [];
    var all := ParseArgList(pieces, bound, line);
    if all.Ok? {
      assert [] + all.value == all.value;
    }
    assert pieces[0..] == pieces;
    for i := 0 to |pieces|
      invariant ParseArgList(pieces, bound, line) == Prepend(args, ParseArgList(pieces[i..], bound, line))
    {
      ArgListFrom(pieces, i, bound, line, args);
      var argExpr := ParseExpression(TrimSpace(pieces[i]), line);
      if argExpr.Err? {
        return Err(argExpr.error);
      }
      args := args + [argExpr.value];
    }
    assert args + [] == args;
    return Ok(args);
  }

  /** A trimmed text that is a simple form and no non-finite number word parses as that simple form. */
  lemma ParseOfSimple(t: string, line: int)
    requires t != [] && !IsSpace(t[0]) && !IsSpace(t[|t| - 1]) && !IsNonFiniteWord(t)
    requires ParseSimple(t, line).Ok?
    ensures ParseExpression(t, line) == ParseSimple(t, line)
  {
    TrimSpaceNoop(t);
  }

  /** No number word starts with a quote, a digit or '_', or is longer than "infinity" with a sign. */
  lemma NotNonFinite(t: string)
    requires t != [] && (t[0] == '"' || IsDigit(t[0]) || t[0] == '_' || |t| > 9 || (|t| > 3 && t[0] == 't'))
    ensures !IsNonFiniteWord(t)
  {
    assert Lower(t[0]) == t[0] || 'A' <= t[0] <= 'Z';
    var k := SignLength(t);
    assert k == 0 ==> t[k..] == t;
  }

  /** Any trimmed text that starts and ends with a quote is the string between them, whatever it holds. */
  lemma ParseQuoted(t: string, line: int)
    requires |t| >= 2 && t[0] == '"' && t[|t| - 1] == '"'
    ensures ParseExpression(t, line) == Ok(Literal(Str(t[1..|t| - 1])))
  {
    NoLiteralStartsWithQuote(t);
    NotNonFinite(t);
    ParseOfSimple(t, line);
  }

  /** The decimal text of a natural number parses as that number. */
  lemma ParseNatural(n: nat, line: int)
    ensures ParseExpression(NatToDecimal(n), line) == Ok(Literal(Number(n as real)))
  {
    var t := NatToDecimal(n);
    NumberLiteralOfNat(n);
    NotNonFinite(t);
    ParseOfSimple(t, line);
  }

  /** `true` parses as the boolean. */
  lemma ParseTrue(line: int)
    ensures ParseExpression("true", line) == Ok(Literal(Bool(true)))
  {
    NoLiteralStartsWithLetter("true");
    NotNonFinite("true");
    ParseOfSimple("true", line);
  }

  /** `false` parses as the boolean. */
  lemma ParseFalse(line: int)
    ensures ParseExpression("false", line) == Ok(Literal(Bool(false)))
  {
    var t := "false";
    NoLiteralStartsWithLetter(t);
    assert !EqualFold(t, "nan") && !EqualFold(t, "inf") && !EqualFold(t, "infinity");
    assert SignLength(t) == 0 && t[0..] == t;
    ParseOfSimple(t, line);
  }

  /** An identifier other than true, false and the non-finite number words parses as a variable reference. */
  lemma ParseVariable(t: string, line: int)
    requires IsIdent(t) && t != "true" && t != "false" && !IsNonFiniteWord(t)
    ensures ParseExpression(t, line) == Ok(VarRef(t))
  {
    NoLiteralStartsWithLetter(t);
    ParseOfSimple(t, line);
  }

  /** A text without parentheses never has the call shape. */
  lemma NoParenNoCall(t: string)
    requires '(' !in t
    ensures CallMatch(t) == None
  {
  }

  /** Every piece of an argument list parses. */
  predicate ArgsParse(pieces: seq<string>, line: int) {
    forall i :: 0 <= i < |pieces| ==> ParseExpression(TrimSpace(pieces[i]), line).Ok?
  }

  /** The argument list succeeds exactly when every piece parses, and then holds piece i's parse at position i. */
  lemma {:induction false} ParseArgListPieces(pieces: seq<string>, bound: nat, line: int)
    requires forall i :: 0 <= i < |pieces| ==> |pieces[i]| < bound
    ensures ParseArgList(pieces, bound, line).Ok? <==> ArgsParse(pieces, line)
    ensures ParseArgList(pieces, bound, line).Ok? ==>
      forall i :: 0 <= i < |pieces| ==> ParseArgList(pieces, bound, line).value[i] == ParseExpression(TrimSpace(pieces[i]), line).value
    decreases |pieces|
  {
    if pieces != [] {
      var rest := pieces[1..];
      ParseArgListPieces(rest, bound, line);
      assert forall i :: 1 <= i < |pieces| ==> pieces[i] == rest[i - 1];
    }
  }

  /** A failing argument list fails with the error of its first failing piece. */
  lemma {:induction false} ParseArgListFirstFailure(pieces: seq<string>, bound: nat, line: int, k: nat)
    requires forall i :: 0 <= i < |pieces| ==> |pieces[i]| < bound
    requires k < |pieces| && ParseExpression(TrimSpace(pieces[k]), line).Err?
    requires forall i :: 0 <= i < k ==> ParseExpression(TrimSpace(pieces[i]), line).Ok?
    ensures ParseArgList(pieces, bound, line) == Err(ParseExpression(TrimSpace(pieces[k]), line).error)
    decreases k
  {
    if k > 0 {
      var rest := pieces[1..];
      assert forall i :: 0 <= i < k - 1 ==> rest[i] == pieces[i + 1];
      ParseArgListFirstFailure(rest, bound, line, k - 1);
    }
  }

  /** A text with a parenthesis or a space after its first character is no infinity/NaN word. */
  lemma ParenNotNonFinite(t: string, i: nat)
    requires 1 <= i < |t| && (t[i] == '(' || t[i] == ' ')
    ensures !IsNonFiniteWord(t)
  {
    var k := SignLength(t);
    assert t[k..][i - k] == t[i];
    assert Lower(t[i]) == t[i];
  }

  /** `name(a)` is trimmed and is not a number, a string, a boolean, a variable or an infinity/NaN word. */
  lemma CallTextNotSimple(name: string, a: string, line: int)
    requires IsIdent(name)
    ensures var t := name + "(" + a + ")"; TrimSpace(t) == t && !IsNonFiniteWord(t) && ParseSimple(t, line).Err?
  {
    var t := name + "(" + a + ")";
    assert t[0] == name[0] && t[|name|] == '(' && t[|t| - 1] == ')';
    TrimSpaceNoop(t);
    ParenNotNonFinite(t, |name|);
    NoLiteralStartsWithLetter(t);
    assert '(' in t && '(' !in "true" && '(' !in "false";
    assert !IsIdentPart(t[|name|]);
  }

  /**
   * parseFunctionCall and its place in parseExpression: the text `name(a)`
   * is the call of `name` with no arguments when `a` is empty; otherwise it
   * is the call with one argument per top-level comma-separated piece of
   * `a`, each the parse of the trimmed piece, when every piece parses.  When
   * a piece does not parse, the text falls through to the binary split.
   */
  lemma ParseCallOf(name: string, a: string, line: int)
    requires IsIdent(name) && '\n' !in a
    ensures var t := name + "(" + a + ")";
      a == "" ==> ParseExpression(t, line) == Ok(Call(name, []))
    ensures var t := name + "(" + a + ")"; var ps := Arguments(a);
      a != "" && ArgsParse(ps, line) ==>
        ParseExpression(t, line).Ok? && ParseExpression(t, line).value.Call? &&
        ParseExpression(t, line).value.fname == name && |ParseExpression(t, line).value.args| == |ps| &&
        forall i :: 0 <= i < |ps| ==> ParseExpression(t, line).value.args[i] == ParseExpression(TrimSpace(ps[i]), line).value
    ensures var t := name + "(" + a + ")";
      a != "" && !ArgsParse(Arguments(a), line) ==> ParseCall(t, line).Err? && ParseExpression(t, line) == ParseBinary(t, 0, line)
  {
    var t := name + "(" + a + ")";
    CallMatchOf(name, a);
    CallTextNotSimple(name, a, line);
    if a != "" {
      ArgumentsShorter(a);
      ParseArgListPieces(Arguments(a), |t|, line);
    }
  }

  /** Operators that do not cut the text hand it on to the next one. */
  lemma {:induction false} ParseBinaryFrom(t: string, j: nat, k: nat, line: int)
    requires j <= k <= |Operators|
    requires forall i :: j <= i < k ==> |OperatorSplit(t, Operators[i])| <= 1
    ensures ParseBinary(t, j, line) == ParseBinary(t, k, line)
    decreases k - j
  {
    if j < k {
      ParseBinarySkip(t, j, line);
      ParseBinaryFrom(t, j + 1, k, line);
    }
  }

  /** An operator that does not cut the text hands it on to the next one. */
  lemma ParseBinarySkip(t: string, j: nat, line: int)
    requires j < |Operators| && |OperatorSplit(t, Operators[j])| <= 1
    ensures ParseBinary(t, j, line) == ParseBinary(t, j + 1, line)
  {
  }

  /**
   * The fixed-priority split: a text that is neither simple nor a call is
   * split at the first operator of the list that cuts it at depth 0.  The
   * left operand is the first piece, the right operand the other pieces
   * joined back with the operator, each trimmed and parsed; a failing
   * operand fails the whole.
   */
  lemma ParseBinaryAt(text: string, line: int, k: nat)
    requires TrimSpace(text) != [] && !IsNonFiniteWord(TrimSpace(text))
    requires ParseSimple(TrimSpace(text), line).Err? && ParseCall(TrimSpace(text), line).Err?
    requires k < |Operators| && |OperatorSplit(TrimSpace(text), Operators[k])| > 1
    requires forall j :: 0 <= j < k ==> |OperatorSplit(TrimSpace(text), Operators[j])| <= 1
    ensures var op := Operators[k]; var parts := OperatorSplit(TrimSpace(text), op);
      match ParseExpression(TrimSpace(parts[0]), line)
      case Err(e) => ParseExpression(text, line) == Err(LeftOperand(e))
      case Ok(left) =>
        match ParseExpression(TrimSpace(Join(parts[1..], op)), line)
        case Err(e) => ParseExpression(text, line) == Err(RightOperand(e))
        case Ok(right) => ParseExpression(text, line) == Ok(BinOp(left, op, right))
  {
    ParseBinaryFrom(TrimSpace(text), 0, k, line);
  }

  /** A text that is neither simple nor a call, and that no operator of the list cuts, is unparsable. */
  lemma ParseNoOperator(text: string, line: int)
    requires TrimSpace(text) != [] && !IsNonFiniteWord(TrimSpace(text))
    requires ParseSimple(TrimSpace(text), line).Err? && ParseCall(TrimSpace(text), line).Err?
    requires forall j :: 0 <= j < |Operators| ==> |OperatorSplit(TrimSpace(text), Operators[j])| <= 1
    ensures ParseExpression(text, line) == Err(Unparsable(line, TrimSpace(text)))
  {
    ParseBinaryFrom(TrimSpace(text), 0, |Operators|, line);
  }

  /** A name, then a space and more, not ending in ')' or white space, is neither simple nor a call. */
  lemma SpacedText(x: string, rest: string, line: int)
    requires IsIdent(x) && rest != [] && rest[0] == ' ' && rest[|rest| - 1] != ')' && !IsSpace(rest[|rest| - 1])
    ensures var t := x + rest; TrimSpace(t) == t && !IsNonFiniteWord(t) && ParseSimple(t, line).Err? && ParseCall(t, line).Err?
  {
    var t := x + rest;
    assert t[0] == x[0] && t[|x|] == ' ' && t[|t| - 1] == rest[|rest| - 1];
    TrimSpaceNoop(t);
    NoLiteralStartsWithLetter(t);
    ParenNotNonFinite(t, |x|);
    assert !IsIdentPart(t[|x|]);
    assert t != "true" && t != "false" by {
      assert ' ' in t && ' ' !in "true" && ' ' !in "false";
    }
  }

  /** A trimmed text with one space before it, after it, or both, trims back to itself. */
  lemma TrimSpacePadded(w: string)
    requires w != [] && !IsSpace(w[0]) && !IsSpace(w[|w| - 1])
    ensures TrimSpace(" " + w) == w && TrimSpace(w + " ") == w && TrimSpace(" " + w + " ") == w
  {
    TrimSpaceNoop(w);
    assert (" " + w)[1..] == w;
    assert (" " + w + " ")[1..] == w + " ";
    assert (w + " ")[..|w|] == w;
    assert TrimLeft(w + " ") == w + " ";
  }

  // ---------------------------------------------------------------------------
  // parseStatement
  // ---------------------------------------------------------------------------

  /**
   * The statements parseStatement builds: a new if or while has empty
   * branches and no else branch, assignment targets and call names are
   * identifiers, and every expression is one the expression parser builds.
   */
  predicate ParsedStmt(s: Stmt) {
    match s
    case If(c, t, hasElse, e) => Parsed(c) && t == [] && !hasElse && e == []
    case While(c, b) => Parsed(c) && b == []
    case VarDecl(_, e) => Parsed(e)
    case Assign(n, e) => IsIdent(n) && Parsed(e)
    case Return(e) => Parsed(e)
    case Say(e) => Parsed(e)
    case CallStmt(n, args) => IsIdent(n) && forall i :: 0 <= i < |args| ==> Parsed(args[i])
  }

  /** The condition text of an if or while line: after the keyword, trimmed, one trailing ':' removed. */
  function ConditionText(t: string, keyword: string): string {
    TrimSuffix(TrimSpace(TrimPrefix(t, keyword)), ":")
  }

  /**
   * parseStatement.  The trimmed line is tried, in order, as `if `, `while `,
   * an assignment, `say `, `var `, `return `, a call, and a bare name (a call
   * without arguments).
   */
  function ParseStatement(text: string, line: int): (r: Result<Stmt, ParseError>)
    ensures r.Ok? ==> ParsedStmt(r.value)
  {
    var t := TrimSpace(text);
    if HasPrefix(t, "if ") then IfStatement(t, line)
    else if HasPrefix(t, "while ") then WhileStatement(t, line)
    else if AssignMatch(t).Some? then AssignStatement(AssignMatch(t).value, line)
    else if HasPrefix(t, "say ") then SayStatement(t, line)
    else if HasPrefix(t, "var ") then DeclStatement(t, line)
    else if HasPrefix(t, "return ") then ReturnStatement(t, line)
    else if CallMatch(t).Some? then CallStatement(t, line)
    else if IsIdent(t) then Ok(CallStmt(t, []))
    else Err(UnparsableStatement(line, t))
  }

  /** An `if` line: the condition with empty branches; a bad condition is reported with the line. */
  function IfStatement(t: string, line: int): (r: Result<Stmt, ParseError>)
    ensures r.Ok? ==> ParsedStmt(r.value) && r.value.If?
  {
    match ParseExpression(ConditionText(t, "if"), line)
    case Err(e) => Err(BadCondition(line, e))
    case Ok(c) => Ok(If(c, [], false, []))
  }

  /** A `while` line: the condition with an empty body. */
  function WhileStatement(t: string, line: int): (r: Result<Stmt, ParseError>)
    ensures r.Ok? ==> ParsedStmt(r.value) && r.value.While?
  {
    match ParseExpression(ConditionText(t, "while"), line)
    case Err(e) => Err(BadCondition(line, e))
    case Ok(c) => Ok(While(c, []))
  }

  /** An assignment: the target name and the parsed value. */
  function AssignStatement(m: AssignShape, line: int): (r: Result<Stmt, ParseError>)
    requires IsIdent(m.target)
    ensures r.Ok? ==> ParsedStmt(r.value) && r.value.Assign? && r.value.name == m.target
  {
    match ParseExpression(TrimSpace(m.valueText), line)
    case Err(e) => Err(BadAssignment(line, e))
    case Ok(e) => Ok(Assign(m.target, e))
  }

  /** A `say` line: the parsed expression after the keyword; a failure is passed on unchanged. */
  function SayStatement(t: string, line: int): (r: Result<Stmt, ParseError>)
    ensures r.Ok? ==> ParsedStmt(r.value) && r.value.Say?
    ensures r.Err? <==> ParseExpression(TrimSpace(TrimPrefix(t, "say")), line).Err?
  {
    match ParseExpression(TrimSpace(TrimPrefix(t, "say")), line)
    case Err(e) => Err(e)
    case Ok(e) => Ok(Say(e))
  }

  /** A `var` line: the name before the first '=' and the expression after it; no '=' is an invalid declaration. */
  function DeclStatement(t: string, line: int): (r: Result<Stmt, ParseError>)
    ensures r.Ok? ==> ParsedStmt(r.value) && r.value.VarDecl? && '=' !in r.value.name
    ensures '=' !in TrimPrefix(t, "var ") ==> r == Err(InvalidDeclaration(line, t))
    ensures r.Ok? ==> var parts := SplitFirst(TrimPrefix(t, "var "), '=');
      |parts| == 2 && r.value.name == TrimSpace(parts[0])
  {
    var parts := SplitFirst(TrimPrefix(t, "var "), '=');
    if |parts| != 2 then Err(InvalidDeclaration(line, t))
    else
      match ParseExpression(TrimSpace(parts[1]), line)
      case Err(e) => Err(e)
      case Ok(e) =>
        TrimSpaceInside(parts[0]);
        Ok(VarDecl(TrimSpace(parts[0]), e))
  }

  /** A `return` line: the parsed expression after the keyword. */
  function ReturnStatement(t: string, line: int): (r: Result<Stmt, ParseError>)
    ensures r.Ok? ==> ParsedStmt(r.value) && r.value.Return?
  {
    match ParseExpression(TrimSpace(TrimPrefix(t, "return")), line)
    case Err(e) => Err(e)
    case Ok(e) => Ok(Return(e))
  }

  /** A line of call shape: its expression must parse as a call, whose name and arguments the statement takes. */
  function CallStatement(t: string, line: int): (r: Result<Stmt, ParseError>)
    ensures r.Ok? ==> ParsedStmt(r.value) && r.value.CallStmt?
    ensures r.Ok? ==> ParseExpression(t, line) == Ok(Call(r.value.fname, r.value.args))
    ensures ParseExpression(t, line).Ok? && !ParseExpression(t, line).value.Call? ==> r == Err(InvalidCall(line, t))
  {
    match ParseExpression(t, line)
    case Err(e) => Err(e)
    case Ok(e) => if e.Call? then Ok(CallStmt(e.fname, e.args)) else Err(InvalidCall(line, t))
  }

  /** Every character of a trimmed text is one of the text's. */
  lemma TrimSpaceInside(s: string)
    ensures forall i :: 0 <= i < |TrimSpace(s)| ==> TrimSpace(s)[i] in s
  {
    var l := TrimLeft(s);
    var r := TrimRight(l);
    forall i | 0 <= i < |r|
      ensures r[i] in s
    {
      TrimRightPrefix(l, i);
      TrimLeftSuffix(s, i);
      assert r[i] == l[i] == s[|s| - |l| + i];
    }
  }

  /** An identifier does not start with a keyword followed by a space. */
  lemma IdentNotKeywordLine(t: string, kw: string)
    requires IsIdent(t) && |kw| > 0 && kw[|kw| - 1] == ' '
    ensures !HasPrefix(t, kw)
  {
    if |kw| <= |t| {
      var j := |kw| - 1;
      assert t[j] != ' ' by {
        if j > 0 { assert IsIdentPart(t[j]); }
      }
      assert t[..|kw|][j] != kw[j];
    }
  }

  /** A bare identifier line is a call of that name without arguments, whatever the name (even `return` or `say`). */
  lemma BareNameIsCall(t: string, line: int)
    requires IsIdent(t)
    ensures ParseStatement(t, line) == Ok(CallStmt(t, []))
  {
    TrimSpaceNoop(t);
    IdentNotKeywordLine(t, "if ");
    IdentNotKeywordLine(t, "while ");
    IdentNotKeywordLine(t, "say ");
    IdentNotKeywordLine(t, "var ");
    IdentNotKeywordLine(t, "return ");
    assert IdentPrefixLength(t) == |t|;
  }

  /** `say ` followed by a text that does not start with '=' or white space is no assignment. */
  lemma SayIsNoAssignment(e: string)
    requires e != [] && !IsSpace(e[0]) && e[0] != '='
    ensures AssignMatch("say " + e) == None
  {
    var t := "say " + e;
    assert t[..3] == "say" && t[3] == ' ';
    assert IdentPrefixLength(t) == 3;
    var u := t[3..];
    assert u == " " + e && u[1..] == e;
    assert RegexSpaceRun(u) == 1;
  }

  /** The expression text of `say ` + e is e when e is already trimmed. */
  lemma SayText(e: string)
    requires e != [] && !IsSpace(e[0]) && !IsSpace(e[|e| - 1])
    ensures HasPrefix("say " + e, "say ")
    ensures TrimSpace(TrimPrefix("say " + e, "say")) == e
  {
    var t := "say " + e;
    assert t[..4] == "say ";
    assert t[..3] == "say";
    assert TrimPrefix(t, "say") == " " + e;
    assert (" " + e)[1..] == e;
    assert TrimLeft(" " + e) == TrimLeft(e);
    TrimSpaceNoop(e);
  }

  /**
   * A `say` line whose expression does not start with '=' is the say
   * statement of that expression (one starting with '=' is an assignment
   * to a variable named `say`).
   */
  lemma SayLine(e: string, line: int)
    requires e != [] && !IsSpace(e[0]) && !IsSpace(e[|e| - 1]) && e[0] != '='
    ensures ParseStatement("say " + e, line) == match ParseExpression(e, line)
              case Err(x) => Err(x)
              case Ok(x) => Ok(Say(x))
  {
    var t := "say " + e;
    TrimSpaceNoop(t);
    assert t[..3] == "say";
    assert !HasPrefix(t, "if ") && !HasPrefix(t, "while ") by {
      assert t[0] == 's';
    }
    SayIsNoAssignment(e);
    SayText(e);
    assert ParseStatement(t, line) == SayStatement(t, line);
  }
}
