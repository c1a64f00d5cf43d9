/**
 * What evaluating an expression and executing a statement does, as
 * functions on an environment (the frames of a context chain) and an
 * output trace.  Go's pair `(Value, error)` becomes an Outcome: `Done(v)` is
 * a nil error with value v (Error values travel here, in band), `Raised(e)`
 * a non-nil error.  While loops and user-function calls may run forever in
 * Go; here each loop iteration and each call consumes one unit of `fuel`,
 * and `OutOfFuel` says the budget ran out.  The host's square root is the
 * parameter `sqrt`.
 */
module Semantics {
  import opened Wrappers
  import opened Values
  import opened Ast
  import opened Functions
  import opened Contexts
  import opened Operators

  datatype Outcome = Done(value: Value) | Raised(err: Err) | OutOfFuel

  /** One line written by a say statement: a number (in Go's %v form), a text, or an error message. */
  datatype OutLine = TextLine(text: string) | NumberLine(num: real) | ErrorLine(err: Err)

  /** The environment of the executing context and everything said so far. */
  datatype State = State(env: Env, out: seq<OutLine>)

  /**
   * What any evaluation may do to a state: change variables of the innermost
   * scope only, and append to the output.
   */
  predicate Evolves(st: State, st': State) {
    |st.env| > 0 && |st'.env| == |st.env|
    && st'.env[..|st.env| - 1] == st.env[..|st.env| - 1]
    && st.out <= st'.out
  }

  lemma EvolvesTransitive(a: State, b: State, c: State)
    requires Evolves(a, b) && Evolves(b, c)
    ensures Evolves(a, c)
  {
  }

  /** The line SayStmt prints for a value. */
  function SayLine(v: Value): (r: OutLine)
    ensures r.ErrorLine? <==> v.Error?
    ensures r.NumberLine? <==> v.Number?
    ensures v.Str? || v.Bool? || v.Void? || v.FuncRef? ==> r == TextLine(Render(v))
    ensures v.Slice? || v.MapVal? ==> r == TextLine("")
  {
    match v
    case Error(e) => ErrorLine(e)
    case Number(x) => NumberLine(x)
    case Str(s) => TextLine(s)
    case Bool(b) => TextLine(if b then "true" else "false")
    case _ => TextLine("")
  }

  /** The value bound to parameter `i`: the i-th argument, or Void when there are fewer arguments. */
  function ArgOrVoid(vs: seq<Value>, i: nat): Value {
    if i < |vs| then vs[i] else Void
  }

  /** The local variables after binding the parameters in order (a repeated name keeps its last binding). */
  function BindParams(ps: seq<string>, vs: seq<Value>): (m: map<string, Value>)
    ensures m.Keys == set p | p in ps
  {
    if ps == [] then map[]
    else BindParams(ps[..|ps| - 1], vs)[ps[|ps| - 1] := ArgOrVoid(vs, |ps| - 1)]
  }

  /** Either every argument's value, or the outcome that stopped the argument loop. */
  datatype ArgValues = ArgsOk(vals: seq<Value>) | ArgsStop(outcome: Outcome)

  function PrependVals(vs: seq<Value>, a: ArgValues): ArgValues {
    match a
    case ArgsOk(ws) => ArgsOk(vs + ws)
    case ArgsStop(_) => a
  }

  /** An outcome that ends a sequence of evaluations: anything but a non-Error value. */
  predicate Stops(o: Outcome) {
    !o.Done? || o.value.Error?
  }

  // ---------------------------------------------------------------------------
  // Expressions
  // ---------------------------------------------------------------------------

  /** Expression.Eval. */
  function Eval(e: Expr, st: State, fuel: nat, sqrt: real -> real): (r: (Outcome, State))
    requires |st.env| > 0
    ensures Evolves(st, r.1)
    decreases fuel, ExprSize(e), 1
  {
    match e
    case Literal(v) => (Done(v), st)
    case VarRef(n) => (Done(LookupVar(st.env, n).GetOr(Error(UndefinedVariable(n)))), st)
    case BinOp(l, op, rhs) =>
      if op == "=" then EvalAssign(l, rhs, st, fuel, sqrt) else EvalBinary(l, op, rhs, st, fuel, sqrt)
    case Call(n, args) => EvalCall(n, args, st, fuel, sqrt)
  }

  /** The `=` operator: the target must be a variable; a value that is not an Error is bound in the innermost scope and returned. */
  function EvalAssign(l: Expr, rhs: Expr, st: State, fuel: nat, sqrt: real -> real): (r: (Outcome, State))
    requires |st.env| > 0
    ensures Evolves(st, r.1)
    decreases fuel, ExprSize(l) + ExprSize(rhs) + 1, 0
  {
    if !l.VarRef? then (Done(Error(AssignTargetNotVariable)), st)
    else
      var (o, st1) := Eval(rhs, st, fuel, sqrt);
      if Stops(o) then (o, st1)
      else (o, State(SetLocal(st1.env, l.name, o.value), st1.out))
  }

  /** A binary operator: left operand first, either operand stopping the evaluation, then the operator. */
  function EvalBinary(l: Expr, op: string, rhs: Expr, st: State, fuel: nat, sqrt: real -> real): (r: (Outcome, State))
    requires |st.env| > 0
    ensures Evolves(st, r.1)
    decreases fuel, ExprSize(l) + ExprSize(rhs) + 1, 0
  {
    var (o1, st1) := Eval(l, st, fuel, sqrt);
    if Stops(o1) then (o1, st1)
    else
      var (o2, st2) := Eval(rhs, st1, fuel, sqrt);
      if Stops(o2) then (o2, st2)
      else (Done(ApplyOp(op, o1.value, o2.value)), st2)
  }

  /** The arguments, left to right; the first one that stops ends the loop. */
  function EvalArgs(args: seq<Expr>, st: State, fuel: nat, sqrt: real -> real): (r: (ArgValues, State))
    requires |st.env| > 0
    ensures Evolves(st, r.1)
    ensures r.0.ArgsOk? ==> |r.0.vals| == |args|
    ensures r.0.ArgsStop? ==> Stops(r.0.outcome)
    decreases fuel, ArgsSize(args), 2
  {
    if args == [] then (ArgsOk([]), st)
    else
      var (o, st1) := Eval(args[0], st, fuel, sqrt);
      if Stops(o) then (ArgsStop(o), st1)
      else
        var (rest, st2) := EvalArgs(args[1..], st1, fuel, sqrt);
        (PrependVals([o.value], rest), st2)
  }

  /**
   * FuncCallExpr.Eval: the callee is looked up first (an unknown name is an
   * Error value and no argument is evaluated), then the arguments; the
   * names len, substr and sqrt then compute their built-in result, any
   * other function runs its body.
   */
  function EvalCall(n: string, args: seq<Expr>, st: State, fuel: nat, sqrt: real -> real): (r: (Outcome, State))
    requires |st.env| > 0
    ensures Evolves(st, r.1)
    decreases fuel, ArgsSize(args) + 1, 0
  {
    match LookupFunc(st.env, n)
    case None => (Done(Error(UndefinedFunction(n))), st)
    case Some(d) =>
      var (a, st1) := EvalArgs(args, st, fuel, sqrt);
      match a
      case ArgsStop(o) => (o, st1)
      case ArgsOk(vs) =>
        if IsBuiltin(n) then (Done(Builtin(n, vs, sqrt)), st1)
        else CallFunction(d, vs, st1, fuel, sqrt)
  }

  /**
   * A user function: its body runs in a new scope inside the caller's,
   * holding the parameters; the scope is dropped afterwards, so the
   * caller's environment is as it was and only output remains.
   */
  function CallFunction(d: FunDef, vs: seq<Value>, st: State, fuel: nat, sqrt: real -> real): (r: (Outcome, State))
    requires |st.env| > 0
    ensures r.1.env == st.env && st.out <= r.1.out
    decreases fuel, 0, 0
  {
    if fuel == 0 then (OutOfFuel, st)
    else
      var inner := State(st.env + [Frame(BindParams(d.params, vs), map[])], st.out);
      var (o, st2) := RunBlock(d.body, inner, fuel - 1, sqrt);
      assert st2.env[..|st.env|] == inner.env[..|st.env|] == st.env;
      (o, State(st2.env[..|st.env|], st2.out))
  }

  // ---------------------------------------------------------------------------
  // Statements
  // ---------------------------------------------------------------------------

  /** Statement.Execute. */
  function Exec(s: Stmt, st: State, fuel: nat, sqrt: real -> real): (r: (Outcome, State))
    requires |st.env| > 0
    ensures Evolves(st, r.1)
    decreases fuel, StmtSize(s), 2
  {
    match s
    case If(c, t, hasElse, e) => ExecIf(c, t, hasElse, e, st, fuel, sqrt)
    case While(c, b) => RunWhile(c, b, st, fuel, sqrt)
    case VarDecl(n, e) => ExecBind(n, e, st, fuel, sqrt)
    case Assign(n, e) => ExecBind(n, e, st, fuel, sqrt)
    case Return(e) => Eval(e, st, fuel, sqrt)
    case Say(e) => ExecSay(e, st, fuel, sqrt)
    case CallStmt(n, args) => ExecCallStmt(n, args, st, fuel, sqrt)
  }

  /** The statements of a block in order; the first outcome that is not a Void value ends the block. */
  function RunBlock(ss: seq<Stmt>, st: State, fuel: nat, sqrt: real -> real): (r: (Outcome, State))
    requires |st.env| > 0
    ensures Evolves(st, r.1)
    decreases fuel, BlockSize(ss), 3
  {
    if ss == [] then (Done(Void), st)
    else
      var (o, st1) := Exec(ss[0], st, fuel, sqrt);
      if !(o.Done? && o.value.Void?) then (o, st1)
      else RunBlock(ss[1..], st1, fuel, sqrt)
  }

  /** IfStmt.Execute: the condition must be a boolean; the then branch, or the else branch when there is one. */
  function ExecIf(c: Expr, t: seq<Stmt>, hasElse: bool, e: seq<Stmt>, st: State, fuel: nat, sqrt: real -> real): (r: (Outcome, State))
    requires |st.env| > 0
    ensures Evolves(st, r.1)
    decreases fuel, StmtSize(If(c, t, hasElse, e)), 1
  {
    var (o, st1) := Eval(c, st, fuel, sqrt);
    if Stops(o) then (o, st1)
    else if !o.value.Bool? then (Done(Error(ConditionNotBool)), st1)
    else if o.value.b then RunBlock(t, st1, fuel, sqrt)
    else if hasElse then RunBlock(e, st1, fuel, sqrt)
    else (Done(Void), st1)
  }

  /**
   * One pass of WhileStmt.Execute's loop: the condition, then the body when
   * it holds.  The first component says whether the loop goes on: only when
   * the condition was true, the body gave Void and fuel is left.
   */
  function WhilePass(c: Expr, body: seq<Stmt>, st: State, fuel: nat, sqrt: real -> real): (r: (bool, Outcome, State))
    requires |st.env| > 0
    ensures Evolves(st, r.2)
    ensures r.0 ==> fuel > 0 && r.1 == Done(Void)
    decreases fuel, StmtSize(While(c, body)), 0
  {
    var (o, st1) := Eval(c, st, fuel, sqrt);
    if Stops(o) then (false, o, st1)
    else if !o.value.Bool? then (false, Done(Error(ConditionNotBool)), st1)
    else if !o.value.b then (false, Done(Void), st1)
    else
      var (o2, st2) := RunBlock(body, st1, fuel, sqrt);
      if !(o2.Done? && o2.value.Void?) then (false, o2, st2)
      else if fuel == 0 then (false, OutOfFuel, st2)
      else (true, o2, st2)
  }

  /**
   * WhileStmt.Execute: passes are run until one says the loop ends; that
   * pass's outcome is the loop's.  Each further pass costs one unit of fuel.
   */
  function RunWhile(c: Expr, body: seq<Stmt>, st: State, fuel: nat, sqrt: real -> real): (r: (Outcome, State))
    requires |st.env| > 0
    ensures Evolves(st, r.1)
    decreases fuel, StmtSize(While(c, body)), 1
  {
    var (again, o, st1) := WhilePass(c, body, st, fuel, sqrt);
    if again then RunWhile(c, body, st1, fuel - 1, sqrt) else (o, st1)
  }

  /** VarDeclStmt.Execute and AssignStmt.Execute (the same code): bind a value that is not an Error in the innermost scope. */
  function ExecBind(n: string, e: Expr, st: State, fuel: nat, sqrt: real -> real): (r: (Outcome, State))
    requires |st.env| > 0
    ensures Evolves(st, r.1)
    decreases fuel, ExprSize(e) + 1, 1
  {
    var (o, st1) := Eval(e, st, fuel, sqrt);
    if Stops(o) then (o, st1)
    else (Done(Void), State(SetLocal(st1.env, n, o.value), st1.out))
  }

  /** SayStmt.Execute: one output line for any value, Error values included; the result is Void. */
  function ExecSay(e: Expr, st: State, fuel: nat, sqrt: real -> real): (r: (Outcome, State))
    requires |st.env| > 0
    ensures Evolves(st, r.1)
    decreases fuel, ExprSize(e) + 1, 1
  {
    var (o, st1) := Eval(e, st, fuel, sqrt);
    if !o.Done? then (o, st1)
    else (Done(Void), State(st1.env, st1.out + [SayLine(o.value)]))
  }

  /**
   * FuncCallStmt.Execute: an Error value from the call becomes a raised
   * error, and an error raised inside the call is dropped, leaving Go's zero
   * Value (the number 0) as the statement's result.
   */
  function ExecCallStmt(n: string, args: seq<Expr>, st: State, fuel: nat, sqrt: real -> real): (r: (Outcome, State))
    requires |st.env| > 0
    ensures Evolves(st, r.1)
    decreases fuel, ArgsSize(args) + 1, 1
  {
    var (o, st1) := EvalCall(n, args, st, fuel, sqrt);
    (CallStmtOutcome(o), st1)
  }

  function CallStmtOutcome(o: Outcome): (r: Outcome)
    ensures o.Raised? ==> r == Done(ZeroValue)
    ensures o.Done? && o.value.Error? ==> r == Raised(o.value.err)
    ensures o.Done? && !o.value.Error? ==> r == o
    ensures o.OutOfFuel? ==> r == o
  {
    match o
    case Raised(_) => Done(ZeroValue)
    case Done(v) => if v.Error? then Raised(v.err) else o
    case OutOfFuel => o
  }
}
