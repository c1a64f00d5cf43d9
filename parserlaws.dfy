/**
 * Consequences of the parser in module Parser.  For expressions: how a
 * spaced text is split at the operator list, that operators of one
 * priority nest to the right, and that an operator earlier in the list
 * binds looser than a later one.  For statements: what each kind of line
 * parses to, given the order in which parseStatement tries the kinds.
 */
module ParserLaws {
  import opened Wrappers
  import opened Text
  import opened Scanners
  import opened Ast
  import opened Parser

  /** A name that parses as a variable reference. */
  predicate IsVarName(x: string) {
    IsIdent(x) && x != "true" && x != "false" && !IsNonFiniteWord(x)
  }

  /** Every character of an identifier is an identifier character. */
  lemma IdentChars(x: string)
    requires IsIdent(x)
    ensures forall c :: c in x ==> IsIdentPart(c)
  {
    forall c | c in x
      ensures IsIdentPart(c)
    {
      var i :| 0 <= i < |x| && x[i] == c;
    }
  }

  /** An identifier holds no white space, no parenthesis and no operator character. */
  lemma IdentShape(x: string)
    requires IsIdent(x)
    ensures !IsSpace(x[0]) && !IsSpace(x[|x| - 1]) && x[|x| - 1] != ')' && IsIdentPart(x[|x| - 1])
    ensures '(' !in x && ')' !in x && ' ' !in x
    ensures forall j :: 0 <= j < |Operators| ==> Operators[j][0] !in x
  {
    IdentChars(x);
    assert IsIdentPart(x[|x| - 1]);
  }

  /** Operators before position k whose first character is not in t do not cut t. */
  lemma OperatorsAbsent(t: string, k: nat)
    requires t != [] && k <= |Operators| && forall j :: 0 <= j < k ==> Operators[j][0] !in t
    ensures forall j :: 0 <= j < k ==> |OperatorSplit(t, Operators[j])| <= 1
  {
    forall j | 0 <= j < k
      ensures |OperatorSplit(t, Operators[j])| <= 1
    {
      OperatorSplitAbsent(t, Operators[j]);
    }
  }

  /** The one-character operators at the end of the list: no earlier operator starts like one of them. */
  lemma LateOperators(k: nat)
    requires 6 <= k < |Operators|
    ensures |Operators[k]| == 1 && !IsIdentPart(Operators[k][0]) && !IsSpace(Operators[k][0])
    ensures Operators[k][0] != '(' && Operators[k][0] != ')'
    ensures forall j :: 0 <= j < k ==> Operators[j][0] != Operators[k][0]
  {
  }

  /** `x o u`, for a name x, a late operator o and a trimmed u, is neither simple nor a call. */
  lemma NameThenText(x: string, k: nat, u: string, line: int)
    requires IsIdent(x) && 6 <= k < |Operators|
    requires u != [] && IsIdentPart(u[|u| - 1])
    ensures var t := x + " " + Operators[k] + " " + u;
      TrimSpace(t) == t && t != [] && !IsNonFiniteWord(t) && ParseSimple(t, line).Err? && ParseCall(t, line).Err?
  {
    var rest := " " + Operators[k] + " " + u;
    assert x + " " + Operators[k] + " " + u == x + rest;
    assert rest[|rest| - 1] == u[|u| - 1];
    SpacedText(x, rest, line);
  }

  /**
   * The split of `x o u`, for a name x and a one-character operator o that
   * no earlier operator in the list cuts: the name is the first piece, and
   * the pieces after it join back to u.
   */
  lemma NameThenSplit(x: string, k: nat, u: string)
    requires IsIdent(x) && 6 <= k < |Operators|
    requires u != [] && !IsSpace(u[0]) && IsIdentPart(u[|u| - 1])
    requires forall j :: 0 <= j < k ==> Operators[j][0] !in u
    ensures var t := x + " " + Operators[k] + " " + u; var parts := OperatorSplit(t, Operators[k]);
      |parts| > 1 && TrimSpace(parts[0]) == x && TrimSpace(Join(parts[1..], Operators[k])) == u &&
      forall j :: 0 <= j < k ==> |OperatorSplit(t, Operators[j])| <= 1
  {
    var o := Operators[k];
    LateOperators(k);
    IdentShape(x);
    var t := x + " " + o + " " + u;
    assert forall j :: 0 <= j < k ==> Operators[j][0] !in t;
    OperatorsAbsent(t, k);
    assert t == (x + " ") + o + (" " + u);
    OperatorSplitCut(x + " ", " " + u, o);
    var rs := OperatorSplit(" " + u, o);
    OperatorSplitJoin(" " + u, o);
    assert ([x + " "] + rs)[1..] == rs;
    TrimSpacePadded(x);
    TrimSpacePadded(u);
  }

  /**
   * A name, a one-character operator and a text that no earlier operator
   * cuts: the text is cut at the first occurrence of the operator, so the
   * name is the left operand and the whole text after the operator, however
   * many more occurrences of the operator it holds, the right operand.
   */
  lemma ParseNameThen(x: string, k: nat, u: string, line: int)
    requires IsVarName(x) && 6 <= k < |Operators|
    requires u != [] && !IsSpace(u[0]) && IsIdentPart(u[|u| - 1])
    requires forall j :: 0 <= j < k ==> Operators[j][0] !in u
    ensures var t := x + " " + Operators[k] + " " + u;
      match ParseExpression(u, line)
      case Ok(e) => ParseExpression(t, line) == Ok(BinOp(VarRef(x), Operators[k], e))
      case Err(e) => ParseExpression(t, line) == Err(RightOperand(e))
  {
    NameThenText(x, k, u, line);
    NameThenSplit(x, k, u);
    ParseVariable(x, line);
    ParseBinaryAt(x + " " + Operators[k] + " " + u, line, k);
  }

  /** `x - y`, for variables x and y, is the difference of the two. */
  lemma ParseDifference(x: string, y: string, line: int)
    requires IsVarName(x) && IsVarName(y)
    ensures ParseExpression(x + " - " + y, line) == Ok(BinOp(VarRef(x), "-", VarRef(y)))
  {
    IdentShape(y);
    assert x + " " + Operators[7] + " " + y == x + " - " + y;
    ParseNameThen(x, 7, y, line);
    ParseVariable(y, line);
  }

  /**
   * Operators of one priority nest to the right: `x - y - z` is cut at its
   * first `-`, so it parses as `x - (y - z)`.
   */
  lemma SubtractionNestsRight(x: string, y: string, z: string, line: int)
    requires IsVarName(x) && IsVarName(y) && IsVarName(z)
    ensures ParseExpression(x + " - " + y + " - " + z, line) ==
      Ok(BinOp(VarRef(x), "-", BinOp(VarRef(y), "-", VarRef(z))))
  {
    var u := y + " - " + z;
    IdentShape(y);
    IdentShape(z);
    assert u[0] == y[0] && u[|u| - 1] == z[|z| - 1];
    assert x + " " + Operators[7] + " " + u == x + " - " + y + " - " + z;
    ParseNameThen(x, 7, u, line);
    ParseDifference(y, z, line);
  }

  /** `x * y`, for variables x and y, is the product of the two. */
  lemma ParseProduct(x: string, y: string, line: int)
    requires IsVarName(x) && IsVarName(y)
    ensures ParseExpression(x + " * " + y, line) == Ok(BinOp(VarRef(x), "*", VarRef(y)))
  {
    IdentShape(y);
    assert x + " " + Operators[8] + " " + y == x + " * " + y;
    ParseNameThen(x, 8, y, line);
    ParseVariable(y, line);
  }

  /** An operator earlier in the list is cut first: `x + y * z` parses as `x + (y * z)`. */
  lemma SumBeforeProduct(x: string, y: string, z: string, line: int)
    requires IsVarName(x) && IsVarName(y) && IsVarName(z)
    ensures ParseExpression(x + " + " + y + " * " + z, line) ==
      Ok(BinOp(VarRef(x), "+", BinOp(VarRef(y), "*", VarRef(z))))
  {
    var u := y + " * " + z;
    IdentShape(y);
    IdentShape(z);
    assert u[0] == y[0] && u[|u| - 1] == z[|z| - 1];
    assert x + " " + Operators[6] + " " + u == x + " + " + y + " * " + z;
    ParseNameThen(x, 6, u, line);
    ParseProduct(y, z, line);
  }

  // ---------------------------------------------------------------------------
  // parseStatement, one kind of line at a time
  // ---------------------------------------------------------------------------

  /** A text made of `\s` characters only. */
  predicate AllRegexSpace(s: string) {
    forall i :: 0 <= i < |s| ==> IsRegexSpace(s[i])
  }

  /** The identifier at the start of `n rest` is n when rest does not go on with an identifier character. */
  lemma IdentPrefixOf(n: string, rest: string)
    requires IsIdent(n) && (rest == [] || !IsIdentPart(rest[0]))
    ensures IdentPrefixLength(n + rest) == |n|
  {
    var t := n + rest;
    var k := IdentPrefixLength(t);
    assert t[0] == n[0];
    assert forall i :: 0 <= i < |n| ==> t[i] == n[i];
    assert forall i :: 1 <= i < |n| ==> IsIdentPart(t[i]);
    if rest != [] {
      assert t[|n|] == rest[0];
    }
    assert forall i :: 1 <= i < k ==> IsIdentPart(t[i]) by {
      if k > 0 {
        assert forall i :: 1 <= i < k ==> t[..k][i] == t[i];
      }
    }
  }

  /** The run of `\s` at the start of `sp rest` is sp when rest does not go on with one. */
  lemma {:induction false} RegexSpaceRunOf(sp: string, rest: string)
    requires AllRegexSpace(sp) && (rest == [] || !IsRegexSpace(rest[0]))
    ensures RegexSpaceRun(sp + rest) == |sp|
    decreases |sp|
  {
    if sp == [] {
      assert sp + rest == rest;
    } else {
      assert (sp + rest)[1..] == sp[1..] + rest;
      RegexSpaceRunOf(sp[1..], rest);
    }
  }

  /**
   * The assignment shape: an identifier, `\s` characters, '=', `\s`
   * characters and a value text without newlines that does not start with
   * `\s` match with that identifier as the target and that text as the value.
   */
  lemma AssignMatchOf(x: string, sp1: string, sp2: string, v: string)
    requires IsIdent(x) && AllRegexSpace(sp1) && AllRegexSpace(sp2)
    requires '\n' !in v && (v == [] || !IsRegexSpace(v[0]))
    ensures AssignMatch(x + sp1 + "=" + sp2 + v) == Some(AssignShape(x, v))
  {
    var w := sp2 + v;
    var u := sp1 + "=" + w;
    var t := x + u;
    assert x + sp1 + "=" + sp2 + v == t;
    IdentPrefixOf(x, u);
    assert t[..|x|] == x && t[|x|..] == u;
    AssignTailOf(sp1, w);
    RegexSpaceRunOf(sp2, v);
    assert w[|sp2|..] == v;
    AssignMatchFrom(t, |x|, |sp1|, w, |sp2|);
  }

  /** AssignMatch, from where its identifier, its first run of `\s` and its second one end. */
  lemma AssignMatchFrom(t: string, n: nat, k: nat, w: string, m: nat)
    requires n == IdentPrefixLength(t) && n > 0
    requires k == RegexSpaceRun(t[n..]) && k < |t[n..]| && t[n..][k] == '=' && w == t[n..][k + 1..]
    requires m == RegexSpaceRun(w) && '\n' !in w[m..]
    ensures AssignMatch(t) == Some(AssignShape(t[..n], w[m..]))
  {
  }

  /** After the target, the run of `\s` stops at the '=' and the value side follows it. */
  lemma AssignTailOf(sp1: string, w: string)
    requires AllRegexSpace(sp1)
    ensures var u := sp1 + "=" + w; var k := RegexSpaceRun(u);
      k == |sp1| && k < |u| && u[k] == '=' && u[k + 1..] == w
  {
    var u := sp1 + "=" + w;
    assert u == sp1 + ("=" + w);
    RegexSpaceRunOf(sp1, "=" + w);
    assert u[|sp1|] == '=';
    assert u[|sp1| + 1..] == w;
  }

  /**
   * Only a line whose leading identifier is the keyword itself, followed by a
   * space, starts with the keyword and a space.
   */
  lemma KeywordPrefix(n: string, rest: string, w: string)
    requires IsIdent(n) && IsIdent(w) && (rest == [] || !IsIdentPart(rest[0]))
    ensures HasPrefix(n + rest, w + " ") ==> n == w && rest != [] && rest[0] == ' '
  {
    var t := n + rest;
    if HasPrefix(t, w + " ") {
      assert t[|w|] == (w + " ")[|w|] == ' ';
      assert forall i :: 0 <= i < |w| ==> t[i] == w[i];
      assert forall i :: 0 <= i < |n| ==> t[i] == n[i];
      if rest != [] {
        assert t[|n|] == rest[0];
      }
      assert t[..|n|] == n;
    }
  }

  /** The keyword, a space and a text that does not start with white space or '=' is no assignment. */
  lemma KeywordIsNoAssignment(kw: string, e: string)
    requires IsIdent(kw) && e != [] && !IsSpace(e[0]) && e[0] != '='
    ensures AssignMatch(kw + " " + e) == None
  {
    var t := kw + " " + e;
    assert t == kw + (" " + e);
    IdentPrefixOf(kw, " " + e);
    assert t[|kw|..] == " " + e;
    RegexSpaceRunOf(" ", e);
  }

  /** The text after the keyword of `kw e`, trimmed, is e when e is trimmed; and the line is trimmed. */
  lemma KeywordText(kw: string, e: string)
    requires IsIdent(kw) && e != [] && !IsSpace(e[0]) && !IsSpace(e[|e| - 1])
    ensures HasPrefix(kw + " " + e, kw + " ")
    ensures TrimSpace(TrimPrefix(kw + " " + e, kw)) == e
    ensures TrimSpace(kw + " " + e) == kw + " " + e
  {
    var t := kw + " " + e;
    assert t[..|kw| + 1] == kw + " ";
    assert t[..|kw|] == kw;
    assert TrimPrefix(t, kw) == " " + e;
    TrimSpacePadded(e);
    assert t[0] == kw[0] && t[|t| - 1] == e[|e| - 1];
    IdentShape(kw);
    TrimSpaceNoop(t);
  }

  /** Which branch of parseStatement a trimmed line takes, from the tests it passes and fails, in their order. */
  lemma DispatchIf(t: string, line: int)
    requires TrimSpace(t) == t && HasPrefix(t, "if ")
    ensures ParseStatement(t, line) == IfStatement(t, line)
  {
  }

  lemma DispatchWhile(t: string, line: int)
    requires TrimSpace(t) == t && !HasPrefix(t, "if ") && HasPrefix(t, "while ")
    ensures ParseStatement(t, line) == WhileStatement(t, line)
  {
  }

  lemma DispatchAssign(t: string, line: int)
    requires TrimSpace(t) == t && !HasPrefix(t, "if ") && !HasPrefix(t, "while ") && AssignMatch(t).Some?
    ensures ParseStatement(t, line) == AssignStatement(AssignMatch(t).value, line)
  {
  }

  lemma DispatchSay(t: string, line: int)
    requires TrimSpace(t) == t && !HasPrefix(t, "if ") && !HasPrefix(t, "while ") && AssignMatch(t).None?
    requires HasPrefix(t, "say ")
    ensures ParseStatement(t, line) == SayStatement(t, line)
  {
  }

  lemma DispatchVar(t: string, line: int)
    requires TrimSpace(t) == t && !HasPrefix(t, "if ") && !HasPrefix(t, "while ") && AssignMatch(t).None?
    requires !HasPrefix(t, "say ") && HasPrefix(t, "var ")
    ensures ParseStatement(t, line) == DeclStatement(t, line)
  {
  }

  lemma DispatchReturn(t: string, line: int)
    requires TrimSpace(t) == t && !HasPrefix(t, "if ") && !HasPrefix(t, "while ") && AssignMatch(t).None?
    requires !HasPrefix(t, "say ") && !HasPrefix(t, "var ") && HasPrefix(t, "return ")
    ensures ParseStatement(t, line) == ReturnStatement(t, line)
  {
  }

  lemma DispatchCall(t: string, line: int)
    requires TrimSpace(t) == t && !HasPrefix(t, "if ") && !HasPrefix(t, "while ") && AssignMatch(t).None?
    requires !HasPrefix(t, "say ") && !HasPrefix(t, "var ") && !HasPrefix(t, "return ") && CallMatch(t).Some?
    ensures ParseStatement(t, line) == CallStatement(t, line)
  {
  }

  /** A text whose first character differs from a nonempty prefix's does not start with it. */
  lemma FirstDiffers(t: string, p: string)
    requires t != [] && p != [] && t[0] != p[0]
    ensures !HasPrefix(t, p)
  {
    if |p| <= |t| {
      assert t[..|p|][0] == t[0];
    }
  }

  /** The tests an `if` line passes. */
  lemma IfLineText(c: string)
    requires c != [] && !IsSpace(c[0]) && !IsSpace(c[|c| - 1])
    ensures var t := "if " + c; TrimSpace(t) == t && HasPrefix(t, "if ") && ConditionText(t, "if") == TrimSuffix(c, ":")
  {
    assert "if " + c == "if" + " " + c;
    KeywordText("if", c);
  }

  /**
   * An `if` line is the if statement of its condition: the text after the
   * keyword with one trailing ':' removed.  A condition that fails is
   * reported as a bad condition.
   */
  lemma IfLine(c: string, line: int)
    requires c != [] && !IsSpace(c[0]) && !IsSpace(c[|c| - 1])
    ensures var p := ParseExpression(TrimSuffix(c, ":"), line);
      p.Err? ==> ParseStatement("if " + c, line) == Err(BadCondition(line, p.error))
    ensures var p := ParseExpression(TrimSuffix(c, ":"), line);
      p.Ok? ==> ParseStatement("if " + c, line) == Ok(If(p.value, [], false, []))
  {
    IfLineText(c);
    DispatchIf("if " + c, line);
  }

  /** The tests a `while` line passes and fails. */
  lemma WhileLineText(c: string)
    requires c != [] && !IsSpace(c[0]) && !IsSpace(c[|c| - 1])
    ensures var t := "while " + c; TrimSpace(t) == t && !HasPrefix(t, "if ") && HasPrefix(t, "while ")
    ensures ConditionText("while " + c, "while") == TrimSuffix(c, ":")
  {
    assert "while " + c == "while" + " " + c;
    KeywordText("while", c);
    FirstDiffers("while " + c, "if ");
  }

  /** A `while` line is the while statement of its condition, the text after the keyword with one trailing ':' removed. */
  lemma WhileLine(c: string, line: int)
    requires c != [] && !IsSpace(c[0]) && !IsSpace(c[|c| - 1])
    ensures var p := ParseExpression(TrimSuffix(c, ":"), line);
      p.Err? ==> ParseStatement("while " + c, line) == Err(BadCondition(line, p.error))
    ensures var p := ParseExpression(TrimSuffix(c, ":"), line);
      p.Ok? ==> ParseStatement("while " + c, line) == Ok(While(p.value, []))
  {
    WhileLineText(c);
    DispatchWhile("while " + c, line);
  }

  /** The tests `x = e` passes and fails, and the shape it matches. */
  lemma AssignLineText(x: string, e: string)
    requires IsIdent(x) && x != "if" && x != "while"
    requires e != [] && !IsSpace(e[0]) && !IsSpace(e[|e| - 1]) && '\n' !in e
    ensures var t := x + " = " + e; TrimSpace(t) == t && !HasPrefix(t, "if ") && !HasPrefix(t, "while ")
    ensures AssignMatch(x + " = " + e) == Some(AssignShape(x, e)) && TrimSpace(e) == e
  {
    var t := x + " = " + e;
    assert t == x + (" = " + e);
    IdentShape(x);
    assert t[0] == x[0] && t[|t| - 1] == e[|e| - 1];
    TrimSpaceNoop(t);
    KeywordPrefix(x, " = " + e, "if");
    KeywordPrefix(x, " = " + e, "while");
    assert "if " == "if" + " " && "while " == "while" + " ";
    assert t == x + " " + "=" + " " + e;
    AssignMatchOf(x, " ", " ", e);
    TrimSpaceNoop(e);
  }

  /**
   * `x = e`, for an identifier x other than `if` and `while` and a value
   * without newlines, is the assignment of the parse of e to x.  A value that
   * fails is reported as a bad assignment.
   */
  lemma AssignLine(x: string, e: string, line: int)
    requires IsIdent(x) && x != "if" && x != "while"
    requires e != [] && !IsSpace(e[0]) && !IsSpace(e[|e| - 1]) && '\n' !in e
    ensures var p := ParseExpression(e, line);
      p.Err? ==> ParseStatement(x + " = " + e, line) == Err(BadAssignment(line, p.error))
    ensures var p := ParseExpression(e, line);
      p.Ok? ==> ParseStatement(x + " = " + e, line) == Ok(Assign(x, p.value))
  {
    AssignLineText(x, e);
    DispatchAssign(x + " = " + e, line);
  }

  /** The tests a line `kw e` with a keyword other than `if` and `while` passes and fails before its own. */
  lemma KeywordLineText(kw: string, e: string)
    requires IsIdent(kw) && kw[0] != 'i' && kw[0] != 'w'
    requires e != [] && !IsSpace(e[0]) && !IsSpace(e[|e| - 1]) && e[0] != '='
    ensures var t := kw + " " + e; TrimSpace(t) == t && !HasPrefix(t, "if ") && !HasPrefix(t, "while ")
    ensures var t := kw + " " + e; AssignMatch(t) == None && HasPrefix(t, kw + " ")
    ensures TrimSpace(TrimPrefix(kw + " " + e, kw)) == e
  {
    KeywordText(kw, e);
    KeywordIsNoAssignment(kw, e);
    var t := kw + " " + e;
    assert t[0] == kw[0];
    FirstDiffers(t, "if ");
    FirstDiffers(t, "while ");
  }

  /** A `say` line whose expression does not start with '=' says that expression. */
  lemma SayLineOf(e: string, line: int)
    requires e != [] && !IsSpace(e[0]) && !IsSpace(e[|e| - 1]) && e[0] != '='
    ensures var p := ParseExpression(e, line); p.Err? ==> ParseStatement("say " + e, line) == Err(p.error)
    ensures var p := ParseExpression(e, line); p.Ok? ==> ParseStatement("say " + e, line) == Ok(Say(p.value))
  {
    assert "say " + e == "say" + " " + e;
    KeywordLineText("say", e);
    DispatchSay("say " + e, line);
  }

  /** The first c of `a c b`, where a holds no c, is the one after a. */
  lemma {:induction false} IndexOfAt(a: string, c: char, b: string)
    requires c !in a
    ensures IndexOf(a + [c] + b, c) == Some(|a|)
    decreases |a|
  {
    if a != [] {
      assert (a + [c] + b)[1..] == a[1..] + [c] + b;
      assert (a + [c] + b)[0] == a[0];
      IndexOfAt(a[1..], c, b);
    }
  }

  /** Splitting at the first c of `a c b`, where a holds no c, gives a and b. */
  lemma SplitFirstAt(a: string, c: char, b: string)
    requires c !in a
    ensures SplitFirst(a + [c] + b, c) == [a, b]
  {
    var s := a + [c] + b;
    IndexOfAt(a, c, b);
    assert s[..|a|] == a && s[|a| + 1..] == b;
  }

  /** The tests a `var` line passes and fails before its own, and the text after `var `. */
  lemma VarLineText(d: string)
    requires d != [] && !IsSpace(d[0]) && !IsSpace(d[|d| - 1]) && d[0] != '='
    ensures var t := "var " + d; TrimSpace(t) == t && !HasPrefix(t, "if ") && !HasPrefix(t, "while ")
    ensures var t := "var " + d; AssignMatch(t) == None && !HasPrefix(t, "say ") && HasPrefix(t, "var ")
    ensures TrimPrefix("var " + d, "var ") == d
  {
    var t := "var " + d;
    assert t == "var" + " " + d;
    KeywordLineText("var", d);
    FirstDiffers(t, "say ");
    assert t[..4] == "var ";
  }

  /** The pieces of `var n = e` around its first '=', trimmed, are n and e. */
  lemma DeclParts(n: string, e: string)
    requires n != [] && !IsSpace(n[0]) && !IsSpace(n[|n| - 1]) && '=' !in n
    requires e != [] && !IsSpace(e[0]) && !IsSpace(e[|e| - 1])
    ensures var parts := SplitFirst(n + " = " + e, '=');
      |parts| == 2 && TrimSpace(parts[0]) == n && TrimSpace(parts[1]) == e
  {
    var d := n + " = " + e;
    assert d == (n + " ") + ['='] + (" " + e);
    assert '=' !in n + " ";
    SplitFirstAt(n + " ", '=', " " + e);
    TrimSpacePadded(n);
    TrimSpacePadded(e);
  }

  /**
   * `var n = e`, for a trimmed name without '=' and a trimmed expression,
   * declares n with the parse of e; the expression's failure is passed on.
   */
  lemma DeclLine(n: string, e: string, line: int)
    requires n != [] && !IsSpace(n[0]) && !IsSpace(n[|n| - 1]) && '=' !in n
    requires e != [] && !IsSpace(e[0]) && !IsSpace(e[|e| - 1])
    ensures var p := ParseExpression(e, line);
      p.Err? ==> ParseStatement("var " + n + " = " + e, line) == Err(p.error)
    ensures var p := ParseExpression(e, line);
      p.Ok? ==> ParseStatement("var " + n + " = " + e, line) == Ok(VarDecl(n, p.value))
  {
    var d := n + " = " + e;
    assert "var " + n + " = " + e == "var " + d;
    assert d[0] == n[0] && d[|d| - 1] == e[|e| - 1];
    VarLineText(d);
    DeclParts(n, e);
    DispatchVar("var " + d, line);
  }

  /** A `var` line without '=' is an invalid declaration, reported with the whole line. */
  lemma DeclWithoutEquals(d: string, line: int)
    requires d != [] && !IsSpace(d[0]) && !IsSpace(d[|d| - 1]) && '=' !in d
    ensures ParseStatement("var " + d, line) == Err(InvalidDeclaration(line, "var " + d))
  {
    VarLineText(d);
    DispatchVar("var " + d, line);
  }

  /** The tests a `return` line passes and fails before its own. */
  lemma ReturnLineText(e: string)
    requires e != [] && !IsSpace(e[0]) && !IsSpace(e[|e| - 1]) && e[0] != '='
    ensures var t := "return " + e; TrimSpace(t) == t && !HasPrefix(t, "if ") && !HasPrefix(t, "while ")
    ensures var t := "return " + e; AssignMatch(t) == None && !HasPrefix(t, "say ") && !HasPrefix(t, "var ")
    ensures HasPrefix("return " + e, "return ") && TrimSpace(TrimPrefix("return " + e, "return")) == e
  {
    var t := "return " + e;
    assert t == "return" + " " + e;
    KeywordLineText("return", e);
    FirstDiffers(t, "say ");
    FirstDiffers(t, "var ");
  }

  /** A `return` line whose expression does not start with '=' returns that expression. */
  lemma ReturnLine(e: string, line: int)
    requires e != [] && !IsSpace(e[0]) && !IsSpace(e[|e| - 1]) && e[0] != '='
    ensures var p := ParseExpression(e, line); p.Err? ==> ParseStatement("return " + e, line) == Err(p.error)
    ensures var p := ParseExpression(e, line); p.Ok? ==> ParseStatement("return " + e, line) == Ok(Return(p.value))
  {
    ReturnLineText(e);
    DispatchReturn("return " + e, line);
  }

  /** A call-shaped line starts with no keyword and a space. */
  lemma CallLineNoKeyword(n: string, a: string)
    requires IsIdent(n)
    ensures var t := n + "(" + a + ")"; !HasPrefix(t, "if ") && !HasPrefix(t, "while ")
    ensures var t := n + "(" + a + ")"; !HasPrefix(t, "say ") && !HasPrefix(t, "var ") && !HasPrefix(t, "return ")
  {
    var t := n + "(" + a + ")";
    var rest := "(" + a + ")";
    assert t == n + rest;
    KeywordPrefix(n, rest, "if");
    KeywordPrefix(n, rest, "while");
    KeywordPrefix(n, rest, "say");
    KeywordPrefix(n, rest, "var");
    KeywordPrefix(n, rest, "return");
    assert "if " == "if" + " " && "while " == "while" + " " && "say " == "say" + " ";
    assert "var " == "var" + " " && "return " == "return" + " ";
  }

  /** A call-shaped line is trimmed. */
  lemma CallLineTrimmed(n: string, a: string)
    requires IsIdent(n)
    ensures var t := n + "(" + a + ")"; TrimSpace(t) == t
  {
    var t := n + "(" + a + ")";
    IdentShape(n);
    assert t[0] == n[0] && t[|t| - 1] == ')';
    TrimSpaceNoop(t);
  }

  /** A call-shaped line is no assignment: its name is followed by '('. */
  lemma CallLineNoAssignment(n: string, a: string)
    requires IsIdent(n)
    ensures AssignMatch(n + "(" + a + ")") == None
  {
    var t := n + "(" + a + ")";
    var rest := "(" + a + ")";
    assert t == n + rest;
    IdentPrefixOf(n, rest);
    assert t[|n|..] == rest;
    assert RegexSpaceRun(rest) == 0;
  }

  /** A call-shaped line is tried as a call statement, whatever its name. */
  lemma CallLineShape(n: string, a: string, line: int)
    requires IsIdent(n) && '\n' !in a
    ensures var t := n + "(" + a + ")"; ParseStatement(t, line) == CallStatement(t, line)
  {
    CallLineNoKeyword(n, a);
    CallLineTrimmed(n, a);
    CallLineNoAssignment(n, a);
    CallMatchOf(n, a);
    DispatchCall(n + "(" + a + ")", line);
  }

  /**
   * A call-shaped line `n(a)`: without arguments it calls n with none; when
   * every top-level piece of a parses it calls n with their parses; when a
   * piece does not parse, the line is whatever the binary split makes of it,
   * an invalid call when the split succeeds (a binary node is no call).
   */
  lemma CallLine(n: string, a: string, line: int)
    requires IsIdent(n) && '\n' !in a
    ensures var t := n + "(" + a + ")";
      a == "" ==> ParseStatement(t, line) == Ok(CallStmt(n, []))
    ensures var t := n + "(" + a + ")"; var ps := Arguments(a);
      a != "" && ArgsParse(ps, line) ==>
        ParseStatement(t, line).Ok? && ParseStatement(t, line).value.CallStmt? &&
        ParseStatement(t, line).value.fname == n && |ParseStatement(t, line).value.args| == |ps| &&
        forall i :: 0 <= i < |ps| ==> ParseStatement(t, line).value.args[i] == ParseExpression(TrimSpace(ps[i]), line).value
    ensures var t := n + "(" + a + ")";
      a != "" && !ArgsParse(Arguments(a), line) ==>
        ParseStatement(t, line) == match ParseBinary(t, 0, line)
          case Err(e) => Err(e)
          case Ok(_) => Err(InvalidCall(line, t))
  {
    CallLineShape(n, a, line);
    ParseCallOf(n, a, line);
  }
}
