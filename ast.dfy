/**
 * The syntax tree the parser builds: expressions (LiteralExpr, VarRefExpr,
 * BinOpExpr, FuncCallExpr) and statements (IfStmt, WhileStmt, VarDeclStmt,
 * AssignStmt, ReturnStmt, SayStmt, FuncCallStmt), their sizes (for
 * termination), and the text each node's String method produces.
 */
module Ast {
  import opened Text
  import opened Values

  datatype Expr =
    | Literal(value: Value)
    | VarRef(name: string)
    | BinOp(left: Expr, op: string, right: Expr)
    | Call(fname: string, args: seq<Expr>)

  /**
   * A statement.  `hasElse` is false while an if statement's else branch is
   * Go's nil slice (no `else` line seen and nothing appended to it); an else
   * branch that is present but empty has `hasElse` true.
   */
  datatype Stmt =
    | If(cond: Expr, thenBranch: seq<Stmt>, hasElse: bool, elseBranch: seq<Stmt>)
    | While(cond: Expr, body: seq<Stmt>)
    | VarDecl(name: string, expr: Expr)
    | Assign(name: string, expr: Expr)
    | Return(expr: Expr)
    | Say(expr: Expr)
    | CallStmt(fname: string, args: seq<Expr>)

  /** A block statement: the kinds the parser keeps on its block stack. */
  predicate IsBlock(s: Stmt) {
    s.If? || s.While?
  }

  // ---------------------------------------------------------------------------
  // Sizes
  // ---------------------------------------------------------------------------

  function ExprSize(e: Expr): (n: nat)
    ensures n >= 1
  {
    match e
    case Literal(_) => 1
    case VarRef(_) => 1
    case BinOp(l, _, r) => 1 + ExprSize(l) + ExprSize(r)
    case Call(_, args) => 1 + ArgsSize(args)
  }

  function ArgsSize(args: seq<Expr>): nat {
    if args == [] then 0 else ExprSize(args[0]) + ArgsSize(args[1..])
  }

  function StmtSize(s: Stmt): (n: nat)
    ensures n >= 1
  {
    match s
    case If(c, t, _, e) => 1 + ExprSize(c) + BlockSize(t) + BlockSize(e)
    case While(c, b) => 1 + ExprSize(c) + BlockSize(b)
    case VarDecl(_, e) => 1 + ExprSize(e)
    case Assign(_, e) => 1 + ExprSize(e)
    case Return(e) => 1 + ExprSize(e)
    case Say(e) => 1 + ExprSize(e)
    case CallStmt(_, args) => 1 + ArgsSize(args)
  }

  function BlockSize(ss: seq<Stmt>): nat {
    if ss == [] then 0 else StmtSize(ss[0]) + BlockSize(ss[1..])
  }

  // ---------------------------------------------------------------------------
  // String methods
  // ---------------------------------------------------------------------------

  /** The text of an expression's String method. */
  function ExprText(e: Expr): (r: string)
    ensures e.Literal? ==> r == Render(e.value)
    ensures e.VarRef? ==> r == e.name
    ensures e.BinOp? ==> HasPrefix(r, ExprText(e.left) + " " + e.op + " ") && HasSuffix(r, " " + ExprText(e.right))
    ensures e.Call? ==> HasPrefix(r, e.fname + "(") && HasSuffix(r, ")}")
  {
    match e
    case Literal(v) => Render(v)
    case VarRef(n) => n
    case BinOp(l, op, r) => ExprText(l) + " " + op + " " + ExprText(r)
    case Call(n, args) => n + "(" + Join(ArgTexts(args), ",") + ")}"
  }

  /** The texts of the arguments of a call, in order. */
  function ArgTexts(args: seq<Expr>): (r: seq<string>)
    ensures |r| == |args|
    ensures forall i :: 0 <= i < |args| ==> r[i] == ExprText(args[i])
  {
    if args == [] then [] else [ExprText(args[0])] + ArgTexts(args[1..])
  }

  /** The text of a statement's String method. */
  function StmtText(s: Stmt): (r: string)
    ensures s.If? ==> HasPrefix(r, "if " + ExprText(s.cond) + " {\n") && HasSuffix(r, "}\n")
    ensures s.While? ==> HasPrefix(r, "while " + ExprText(s.cond) + " {\n") && HasSuffix(r, "}\n")
    ensures s.VarDecl? ==> HasPrefix(r, "var " + s.name + " ") && HasSuffix(r, ExprText(s.expr))
    ensures s.Assign? ==> r == s.name + " = " + ExprText(s.expr)
    ensures s.Return? ==> HasPrefix(r, "return ") && HasSuffix(r, ExprText(s.expr))
    ensures s.Say? ==> HasPrefix(r, "say ") && HasSuffix(r, ExprText(s.expr))
    ensures s.CallStmt? ==> HasPrefix(r, s.fname + "(") && HasSuffix(r, ")")
    decreases s, 0
  {
    match s
    case If(c, t, hasElse, e) =>
      "if " + ExprText(c) + " {\n" + Lines("    ", t) + "}\n"
      + (if hasElse then "else {\n" + Lines("    ", e) + "}\n" else "")
    case While(c, b) => "while " + ExprText(c) + " {\n" + Lines("    ", b) + "}\n"
    case VarDecl(n, e) => "var " + n + " " + ExprText(e)
    case Assign(n, e) => n + " = " + ExprText(e)
    case Return(e) => "return " + ExprText(e)
    case Say(e) => "say " + ExprText(e)
    case CallStmt(n, args) => n + "(" + Join(ArgTexts(args), ",") + ")"
  }

  /** Each statement's text on a line of its own, after the given indentation. */
  function Lines(indent: string, ss: seq<Stmt>): string
    decreases ss, 0
  {
    if ss == [] then [] else Line(indent, ss[0]) + Lines(indent, ss[1..])
  }

  function Line(indent: string, s: Stmt): string
    decreases s, 1
  {
    indent + StmtText(s) + "\n"
  }

  /** Appending one statement to a block adds exactly its line to the block's text. */
  lemma {:induction false} LinesAppend(indent: string, ss: seq<Stmt>, s: Stmt)
    ensures Lines(indent, ss + [s]) == Lines(indent, ss) + Line(indent, s)
  {
    var last := Line(indent, s);
    if ss == [] {
      assert [s][1..] == [];
    } else {
      var head := Line(indent, ss[0]);
      assert (ss + [s])[0] == ss[0] && (ss + [s])[1..] == ss[1..] + [s];
      LinesAppend(indent, ss[1..], s);
      calc {
        Lines(indent, ss + [s]);
        head + Lines(indent, ss[1..] + [s]);
        head + (Lines(indent, ss[1..]) + last);
        (head + Lines(indent, ss[1..])) + last;
        Lines(indent, ss) + last;
      }
    }
  }

  /**
   * A call statement prints like the call expression it was parsed from,
   * except that the expression form carries a stray closing brace.
   */
  lemma CallTexts(n: string, args: seq<Expr>)
    ensures ExprText(Call(n, args)) == StmtText(CallStmt(n, args)) + "}"
  {
  }

  /** An if with an else prints as the same if without it, followed by the `else {` block. */
  lemma IfElseText(c: Expr, t: seq<Stmt>, e: seq<Stmt>)
    ensures StmtText(If(c, t, true, e)) == StmtText(If(c, t, false, e)) + "else {\n" + Lines("    ", e) + "}\n"
  {
  }
}
