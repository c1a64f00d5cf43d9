/**
 * The String methods of the syntax-tree nodes, written as the Go code writes
 * them: argument texts collected in a loop and joined, block bodies written
 * statement by statement into a builder.  Each method is proved to produce
 * the text the specification functions of module Ast define.
 */
module Printer {
  import opened Text
  import opened Values
  import opened Ast

  /** The texts of a call's arguments, collected one by one. */
  method ArgStrings(args: seq<Expr>) returns (m: seq<string>)
    ensures m == ArgTexts(args)
    decreases args, 0
  {
    m := [];
    for i := 0 to |args|
      invariant |m| == i
      invariant forall j :: 0 <= j < i ==> m[j] == ExprText(args[j])
    {
      var t := ExprString(args[i]);
      m := m + [t];
    }
  }

  /** Expression String methods (LiteralExpr, VarRefExpr, BinOpExpr, FuncCallExpr). */
  method ExprString(e: Expr) returns (r: string)
    ensures r == ExprText(e)
    decreases e, 1
  {
    match e
    case Literal(v) =>
      r := Render(v);
    case VarRef(n) =>
      r := n;
    case BinOp(l, op, rhs) =>
      var a := ExprString(l);
      var b := ExprString(rhs);
      r := a + " " + op + " " + b;
    case Call(n, args) =>
      var m := ArgStrings(args);
      r := n + "(" + Join(m, ",") + ")}";
  }

  /** Writes each statement on its own indented line after `r0`. */
  method WriteLines(r0: string, indent: string, ss: seq<Stmt>) returns (r: string)
    ensures r == r0 + Lines(indent, ss)
    decreases ss, 0
  {
    r := r0;
    for i := 0 to |ss|
      invariant r == r0 + Lines(indent, ss[..i])
    {
      r := r + indent;
      var t := StmtString(ss[i]);
      r := r + t + "\n";
      LinesAppend(indent, ss[..i], ss[i]);
      assert ss[..i + 1] == ss[..i] + [ss[i]];
    }
    assert ss[..|ss|] == ss;
  }

  /** Statement String methods (IfStmt, WhileStmt, VarDeclStmt, AssignStmt, ReturnStmt, SayStmt, FuncCallStmt). */
  method StmtString(s: Stmt) returns (r: string)
    ensures r == StmtText(s)
    decreases s, 1
  {
    match s
    case If(c, t, hasElse, e) =>
      var cs := ExprString(c);
      r := WriteLines("if " + cs + " {\n", "    ", t);
      r := r + "}\n";
      if hasElse {
        r := WriteLines(r + "else {\n", "    ", e);
        r := r + "}\n";
      }
    case While(c, b) =>
      var cs := ExprString(c);
      var body := WriteLines("", "    ", b);
      r := "while " + cs + " {\n" + body + "}\n";
    case VarDecl(n, e) =>
      var es := ExprString(e);
      r := "var " + n + " " + es;
    case Assign(n, e) =>
      var es := ExprString(e);
      r := n + " = " + es;
    case Return(e) =>
      var es := ExprString(e);
      r := "return " + es;
    case Say(e) =>
      var es := ExprString(e);
      r := "say " + es;
    case CallStmt(n, args) =>
      if |args| == 0 {
        r := n + "()";
      } else {
        var m := ArgStrings(args);
        r := n + "(" + Join(m, ",") + ")";
      }
  }
}
