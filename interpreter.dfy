/**
 * HerCodeInterpreter (hercodeinterpreter/hercodeinterpreter.go): the object
 * that parses a script into function objects in its global context and then
 * runs the top-level statements of `start`.  Parse is the line loop of the
 * Go code, updating the function stack, the block stack, the cursor and the
 * else flag in place; it is proved to end in the state, and with the
 * result, that Assembler.ParseScript describes.
 */
module Interpreter {
  import opened Wrappers
  import opened Text
  import opened Values
  import opened Ast
  import opened Functions
  import opened Contexts
  import opened Scanners
  import opened Parser
  import opened Semantics
  import opened Evaluator
  import opened Assembler

  /** The error half of Execute's pairs; running out of fuel stands for a statement that does not finish. */
  datatype ExecError = Failed(err: Err) | FuelExhausted

  /** Execute's value for a statement: its result, or Go's zero Value when it failed. */
  function ValueOf(o: Outcome): (v: Value)
    ensures o.Done? ==> v == o.value
    ensures !o.Done? ==> v == ZeroValue
  {
    if o.Done? then o.value else ZeroValue
  }

  /** Execute's error for a statement: none when it gave a value. */
  function ErrorOf(o: Outcome): (e: Option<ExecError>)
    ensures e.None? <==> o.Done?
    ensures o.Raised? ==> e == Some(Failed(o.err))
  {
    match o
    case Done(_) => None
    case Raised(err) => Some(Failed(err))
    case OutOfFuel => Some(FuelExhausted)
  }

  /** Every statement, in order, each in the state the previous ones left; a failure does not stop the rest. */
  function RunEach(ss: seq<Stmt>, st: State, fuel: nat, sqrt: real -> real): (r: (seq<Outcome>, State))
    requires |st.env| > 0
    ensures |r.0| == |ss| && Evolves(st, r.1)
  {
    if ss == [] then ([], st)
    else
      var (o, st1) := Exec(ss[0], st, fuel, sqrt);
      var (os, st2) := RunEach(ss[1..], st1, fuel, sqrt);
      EvolvesTransitive(st, st1, st2);
      ([o] + os, st2)
  }

  /** Running `a + b` is running a and then b, whatever a's outcomes were. */
  lemma {:induction false} RunEachAppend(a: seq<Stmt>, b: seq<Stmt>, st: State, fuel: nat, sqrt: real -> real)
    requires |st.env| > 0
    ensures var (oa, sa) := RunEach(a, st, fuel, sqrt);
            var (ob, sb) := RunEach(b, sa, fuel, sqrt);
            RunEach(a + b, st, fuel, sqrt) == (oa + ob, sb)
    decreases |a|
  {
    if a == [] {
      assert a + b == b;
      assert RunEach(a, st, fuel, sqrt) == ([], st);
      assert [] + RunEach(b, st, fuel, sqrt).0 == RunEach(b, st, fuel, sqrt).0;
    } else {
      assert (a + b)[0] == a[0] && (a + b)[1..] == a[1..] + b;
      var (o, st1) := Exec(a[0], st, fuel, sqrt);
      RunEachAppend(a[1..], b, st1, fuel, sqrt);
      var (oa, sa) := RunEach(a[1..], st1, fuel, sqrt);
      var (ob, sb) := RunEach(b, sa, fuel, sqrt);
      assert [o] + (oa + ob) == ([o] + oa) + ob;
    }
  }

  /** The i-th outcome is the i-th statement run in the state the first i statements left. */
  lemma RunEachAt(ss: seq<Stmt>, i: nat, st: State, fuel: nat, sqrt: real -> real)
    requires |st.env| > 0 && i < |ss|
    ensures RunEach(ss, st, fuel, sqrt).0[i] == Exec(ss[i], RunEach(ss[..i], st, fuel, sqrt).1, fuel, sqrt).0
  {
    assert ss == ss[..i] + ss[i..];
    RunEachAppend(ss[..i], ss[i..], st, fuel, sqrt);
    assert |RunEach(ss[..i], st, fuel, sqrt).0| == i;
    assert ss[i..][0] == ss[i];
  }

  /** The statements from i on: the i-th run first, then the rest in the state it left. */
  lemma RunEachFrom(ss: seq<Stmt>, i: nat, st: State, fuel: nat, sqrt: real -> real)
    requires |st.env| > 0 && i < |ss|
    ensures var (o, st1) := Exec(ss[i], st, fuel, sqrt);
            var rest := RunEach(ss[i + 1..], st1, fuel, sqrt);
            RunEach(ss[i..], st, fuel, sqrt) == ([o] + rest.0, rest.1)
  {
    assert ss[i..][0] == ss[i] && ss[i..][1..] == ss[i + 1..];
  }

  /** One more statement run: its outcome joins the ones before, and the rest run in the state it left. */
  lemma RunEachAdvance(ss: seq<Stmt>, i: nat, st0: State, outs: seq<Outcome>, st: State, fuel: nat, sqrt: real -> real)
    requires |st0.env| > 0 && |st.env| > 0 && i < |ss|
    requires RunEach(ss, st0, fuel, sqrt) == (outs + RunEach(ss[i..], st, fuel, sqrt).0, RunEach(ss[i..], st, fuel, sqrt).1)
    ensures var (o, st1) := Exec(ss[i], st, fuel, sqrt);
            var rest := RunEach(ss[i + 1..], st1, fuel, sqrt);
            RunEach(ss, st0, fuel, sqrt) == ((outs + [o]) + rest.0, rest.1)
  {
    RunEachFrom(ss, i, st, fuel, sqrt);
    var (o, st1) := Exec(ss[i], st, fuel, sqrt);
    var rest := RunEach(ss[i + 1..], st1, fuel, sqrt);
    AppendRegroup(outs, o, rest.0);
  }

  /** Execute's values, one per outcome. */
  function ValuesOf(os: seq<Outcome>): (vs: seq<Value>)
    ensures |vs| == |os| && forall i :: 0 <= i < |os| ==> vs[i] == ValueOf(os[i])
  {
    if os == [] then [] else ValuesOf(os[..|os| - 1]) + [ValueOf(os[|os| - 1])]
  }

  /** Execute's errors, one per outcome. */
  function ErrorsOf(os: seq<Outcome>): (es: seq<Option<ExecError>>)
    ensures |es| == |os| && forall i :: 0 <= i < |os| ==> es[i] == ErrorOf(os[i])
  {
    if os == [] then [] else ErrorsOf(os[..|os| - 1]) + [ErrorOf(os[|os| - 1])]
  }

  /** Who holds a function-table entry: the object kept from before the parse, or the object the parse made. */
  ghost predicate Holds(o: HerCodeFunction, objs: seq<HerCodeFunction>, kept: map<string, HerCodeFunction>, n: string, r: Ref) {
    match r
    case Kept => n in kept && o == kept[n]
    case Made(i) => i < |objs| && o == objs[i]
  }

  /** The objects made by a parse are distinct and hold the assembler's snapshots, one for one. */
  ghost predicate ObjectsHold(objs: seq<HerCodeFunction>, defs: seq<FunDef>)
    reads objs
  {
    |objs| == |defs| &&
    (forall i :: 0 <= i < |objs| ==> objs[i].Def() == defs[i]) &&
    (forall i, j :: 0 <= i < j < |objs| ==> objs[i] != objs[j])
  }

  /** A function table whose entries are the objects an assembler table names. */
  ghost predicate TableHolds(fs: map<string, HerCodeFunction>, objs: seq<HerCodeFunction>, kept: map<string, HerCodeFunction>, table: map<string, Ref>) {
    fs.Keys == table.Keys && forall n :: n in table ==> Holds(fs[n], objs, kept, n, table[n])
  }

  /** A function stack whose slots are the objects an assembler stack names. */
  ghost predicate StackHolds(stack: seq<HerCodeFunction>, objs: seq<HerCodeFunction>, idx: seq<nat>) {
    |stack| == |idx| && forall j :: 0 <= j < |stack| ==> idx[j] < |objs| && stack[j] == objs[idx[j]]
  }

  /** A fresh object holding a new snapshot extends the objects made so far. */
  lemma ObjectsExtend(objs: seq<HerCodeFunction>, defs: seq<FunDef>, o: HerCodeFunction, d: FunDef)
    requires ObjectsHold(objs, defs) && o !in objs && o.Def() == d
    ensures ObjectsHold(objs + [o], defs + [d])
  {
  }

  /** Storing a made object under a name is recorded as Made in the table. */
  lemma TableExtend(fs: map<string, HerCodeFunction>, objs: seq<HerCodeFunction>, kept: map<string, HerCodeFunction>, table: map<string, Ref>,
                    o: HerCodeFunction, n: string)
    requires TableHolds(fs, objs, kept, table)
    ensures TableHolds(fs[n := o], objs + [o], kept, table[n := Made(|objs|)])
  {
    var t := table[n := Made(|objs|)];
    forall m | m in t
      ensures Holds(fs[n := o][m], objs + [o], kept, m, t[m])
    {
      if m != n {
        assert Holds(fs[m], objs, kept, m, table[m]);
      }
    }
  }

  /** Pushing a made object is recorded by pushing its index. */
  lemma StackExtend(stack: seq<HerCodeFunction>, objs: seq<HerCodeFunction>, idx: seq<nat>, o: HerCodeFunction)
    requires StackHolds(stack, objs, idx)
    ensures StackHolds(stack, objs + [o], idx) && StackHolds(stack + [o], objs + [o], idx + [|objs|])
  {
  }

  class HerCodeInterpreter {
    var functions: map<string, HerCodeFunction>
    var startFunc: string
    const globalCtx: Context
    var funcStack: seq<HerCodeFunction>
    var blockStack: seq<Stmt>
    var currentBlock: Option<nat>
    var inElseBranch: bool

    ghost predicate Valid() {
      globalCtx.Valid() && globalCtx.parent == null
    }

    /** NewHerCodeInterpreter: an empty function table and a global context with no parent. */
    constructor ()
      ensures Valid() && fresh(globalCtx)
      ensures functions == map[] && startFunc == ""
      ensures globalCtx.variables == map[] && globalCtx.functions == map[]
      ensures funcStack == [] && blockStack == [] && currentBlock.None? && !inElseBranch
    {
      functions := map[];
      startFunc := "";
      globalCtx := new Context(null);
      funcStack := [];
      blockStack := [];
      currentBlock := None;
      inElseBranch := false;
    }

    /** registerBuiltinFunctions: entries for len, substr and sqrt with their parameter names and no body. */
    method RegisterBuiltinFunctions()
      requires Valid()
      modifies globalCtx
      ensures globalCtx.variables == old(globalCtx.variables)
      ensures globalCtx.functions.Keys == old(globalCtx.functions.Keys) + {"len", "substr", "sqrt"}
      ensures globalCtx.functions["len"].Def() == FunDef("len", ["str"], []) && globalCtx.functions["len"].returnType == NumberType
      ensures globalCtx.functions["substr"].Def() == FunDef("substr", ["str", "start", "end"], []) && globalCtx.functions["substr"].returnType == StringType
      ensures globalCtx.functions["sqrt"].Def() == FunDef("sqrt", ["num"], []) && globalCtx.functions["sqrt"].returnType == NumberType
    {
      var lenFn := new HerCodeFunction.Literal("len", ["str"], [], NumberType);
      globalCtx.SetFunc("len", lenFn);
      var substrFn := new HerCodeFunction.Literal("substr", ["str", "start", "end"], [], StringType);
      globalCtx.SetFunc("substr", substrFn);
      var sqrtFn := new HerCodeFunction.Literal("sqrt", ["num"], [], NumberType);
      globalCtx.SetFunc("sqrt", sqrtFn);
    }

    /**
     * The parser's fields and function table agree with an assembler state:
     * the objects made so far hold the assembler's snapshots, each table
     * entry and each function-stack slot holds the object the assembler
     * says, and the block fields are the cursor.
     */
    ghost predicate Abstracts(objs: seq<HerCodeFunction>, kept: map<string, HerCodeFunction>, a: Asm)
      reads this, globalCtx, objs
    {
      AsmValid(a) && ObjectsHold(objs, a.defs) && TableHolds(globalCtx.functions, objs, kept, a.table) &&
      StackHolds(funcStack, objs, a.funcStack) &&
      blockStack == a.cur.blocks && currentBlock == a.cur.current && inElseBranch == a.cur.inElse
    }

    /**
     * The state after Parse: every entry the assembler kept is the very
     * object that was there before, every entry it made holds the
     * assembler's snapshot, and the stacks and the cursor are as it left them.
     */
    ghost predicate Reflects(a: Asm, kept: map<string, HerCodeFunction>)
      reads this, globalCtx, globalCtx.functions.Values, funcStack
    {
      AsmValid(a) && globalCtx.functions.Keys == a.table.Keys &&
      (forall n :: n in a.table ==>
         match a.table[n]
         case Kept => n in kept && globalCtx.functions[n] == kept[n]
         case Made(i) => globalCtx.functions[n].Def() == a.defs[i]) &&
      |funcStack| == |a.funcStack| &&
      (forall j :: 0 <= j < |funcStack| ==> funcStack[j].Def() == a.defs[a.funcStack[j]]) &&
      blockStack == a.cur.blocks && currentBlock == a.cur.current && inElseBranch == a.cur.inElse
    }

    /**
     * Parse: the lines of the script in order, each cleaned of its comment
     * and trimmed, dispatched as the assembler's Step says, stopping at the
     * first line that fails.
     */
    method Parse(script: string) returns (err: Option<ParseFailure>)
      requires Valid()
      modifies this, globalCtx
      ensures Valid()
      ensures functions == old(functions) && startFunc == old(startFunc) && globalCtx.variables == old(globalCtx.variables)
      ensures var (a, e) := ParseScript(script, old(globalCtx.functions).Keys);
              err == e && Reflects(a, old(globalCtx.functions))
    {
      var lines := ScanLines(script);
      var currentFunc := "";
      var currentFuncStatements: seq<Stmt> := [];
      blockStack, funcStack, currentBlock, inElseBranch := [], [], None, false;
      ghost var kept := globalCtx.functions;
      ghost var objs: seq<HerCodeFunction> := [];
      ghost var a := Initial(kept.Keys);
      err := None;
      for k := 0 to |lines|
        invariant err.None?
        invariant Valid()
        invariant functions == old(functions) && startFunc == old(startFunc) && globalCtx.variables == old(globalCtx.variables)
        invariant Abstracts(objs, kept, a) && currentFunc == a.currentFunc && currentFuncStatements == a.cur.body
        invariant forall i :: 0 <= i < |objs| ==> fresh(objs[i])
        invariant ParseScript(script, kept.Keys) == Assemble(a, lines, k)
      {
        var failure;
        ghost var objs1, a1;
        failure, currentFunc, currentFuncStatements, objs1, a1 := ParseNext(lines[k], k + 1, currentFunc, currentFuncStatements, objs, kept, a);
        AssembleStep(a, lines, k);
        if failure.Some? {
          err := failure;
          assert ParseScript(script, kept.Keys) == (a, err);
          break;
        }
        forall i | 0 <= i < |objs1|
          ensures fresh(objs1[i])
        {
          if i < |objs| {
            assert objs1[i] == objs1[..|objs|][i];
          }
        }
        objs, a := objs1, a1;
      }
      if err.None? && |funcStack| > 0 {
        err := Some(Unclosed(funcStack[0].name));
      }
      assert ParseScript(script, kept.Keys) == (a, err);
      FinalState(objs, kept, a);
    }

    /** One line of the script: cleaned of its comment, trimmed, classified and dispatched; a failing line changes nothing. */
    method ParseNext(raw: string, lineNum: nat, currentFunc: string, currentFuncStatements: seq<Stmt>,
                     ghost objs: seq<HerCodeFunction>, ghost kept: map<string, HerCodeFunction>, ghost a: Asm)
      returns (failure: Option<ParseFailure>, currentFunc': string, currentFuncStatements': seq<Stmt>,
               ghost objs': seq<HerCodeFunction>, ghost a': Asm)
      requires Valid() && Abstracts(objs, kept, a) && currentFunc == a.currentFunc && currentFuncStatements == a.cur.body
      modifies this, globalCtx, funcStack
      ensures failure.Some? ==> Step(a, raw, lineNum) == Err(failure.value) && Abstracts(objs, kept, a) && objs' == objs
      ensures failure.None? ==> Step(a, raw, lineNum) == Ok(a') && Abstracts(objs', kept, a') &&
                                currentFunc' == a'.currentFunc && currentFuncStatements' == a'.cur.body
      ensures |objs| <= |objs'| && objs'[..|objs|] == objs && forall i :: |objs| <= i < |objs'| ==> fresh(objs'[i])
      ensures functions == old(functions) && startFunc == old(startFunc) && globalCtx.variables == old(globalCtx.variables)
    {
      var line := CleanComment(raw);
      line := TrimSpace(line);
      var kind := Classify(line, currentFunc != "");
      StepByKind(a, raw, lineNum, line, kind);
      if kind.EndMark? {
        EndApplies(a, line, lineNum);
        currentFunc', currentFuncStatements' := EndFunctionLine(currentFunc, currentFuncStatements, objs, kept, a);
        failure, objs', a' := None, objs, EndLine(a);
      } else {
        failure, currentFunc', currentFuncStatements', objs', a' := ParseLine(line, kind, lineNum, currentFunc, currentFuncStatements, objs, kept, a);
      }
    }

    /**
     * A line's effect as the assembler states it (r), carried out on the
     * parser: a failure leaves the abstraction as it was, a success reaches
     * a' with the open function's name and statements it gives.
     */
    ghost predicate Applied(r: Result<Asm, ParseFailure>, failure: Option<ParseFailure>, currentFunc': string, currentFuncStatements': seq<Stmt>,
                            objs: seq<HerCodeFunction>, objs': seq<HerCodeFunction>, kept: map<string, HerCodeFunction>, a: Asm, a': Asm)
      reads this, globalCtx, objs, objs'
    {
      (failure.Some? ==> r == Err(failure.value) && Abstracts(objs, kept, a) && objs' == objs) &&
      (failure.None? ==> r == Ok(a') && Abstracts(objs', kept, a') && currentFunc' == a'.currentFunc && currentFuncStatements' == a'.cur.body)
    }

    /** One cleaned line of the parse loop other than `end`, dispatched by its kind; a failing line changes nothing. */
    method ParseLine(line: string, kind: LineKind, lineNum: nat, currentFunc: string, currentFuncStatements: seq<Stmt>,
                     ghost objs: seq<HerCodeFunction>, ghost kept: map<string, HerCodeFunction>, ghost a: Asm)
      returns (failure: Option<ParseFailure>, currentFunc': string, currentFuncStatements': seq<Stmt>,
               ghost objs': seq<HerCodeFunction>, ghost a': Asm)
      requires Valid() && Abstracts(objs, kept, a) && currentFunc == a.currentFunc && currentFuncStatements == a.cur.body
      requires !kind.EndMark?
      modifies this, globalCtx
      ensures Applied(Apply(a, kind, line, lineNum), failure, currentFunc', currentFuncStatements', objs, objs', kept, a, a')
      ensures |objs| <= |objs'| && objs'[..|objs|] == objs && forall i :: |objs| <= i < |objs'| ==> fresh(objs'[i])
      ensures functions == old(functions) && startFunc == old(startFunc) && globalCtx.variables == old(globalCtx.variables)
    {
      match kind
      case Header =>
        failure, currentFunc', currentFuncStatements', objs', a' := HeaderLine(line, lineNum, currentFunc, currentFuncStatements, objs, kept, a);
      case StartEntry =>
        failure, currentFunc', currentFuncStatements', objs', a' := StartEntryLine(objs, kept, a);
      case ElseMark =>
        failure, currentFunc', currentFuncStatements', objs', a' := ElseBranchLine(lineNum, currentFunc, currentFuncStatements, objs, kept, a);
      case EndifMark =>
        failure, currentFunc', currentFuncStatements', objs', a' := EndBlockLine(lineNum, true, currentFunc, currentFuncStatements, objs, kept, a);
      case EndwhileMark =>
        failure, currentFunc', currentFuncStatements', objs', a' := EndBlockLine(lineNum, false, currentFunc, currentFuncStatements, objs, kept, a);
      case ReturnOf(exprStr) =>
        failure, currentFunc', currentFuncStatements', objs', a' := ReturnLine(exprStr, lineNum, currentFunc, currentFuncStatements, objs, kept, a);
      case Body =>
        failure, currentFunc', currentFuncStatements', objs', a' := BodyStatementLine(line, lineNum, currentFunc, currentFuncStatements, objs, kept, a);
      case _ =>
        failure, currentFunc', currentFuncStatements', objs', a' := None, currentFunc, currentFuncStatements, objs, a;
    }

    /** A `function` line: the header parsed, then the open function saved and the new one opened. */
    method HeaderLine(line: string, lineNum: nat, currentFunc: string, currentFuncStatements: seq<Stmt>,
                      ghost objs: seq<HerCodeFunction>, ghost kept: map<string, HerCodeFunction>, ghost a: Asm)
      returns (failure: Option<ParseFailure>, currentFunc': string, currentFuncStatements': seq<Stmt>,
               ghost objs': seq<HerCodeFunction>, ghost a': Asm)
      requires Valid() && Abstracts(objs, kept, a) && currentFunc == a.currentFunc && currentFuncStatements == a.cur.body
      modifies this, globalCtx
      ensures Applied(HeaderApply(a, line, lineNum), failure, currentFunc', currentFuncStatements', objs, objs', kept, a, a')
      ensures |objs| <= |objs'| && objs'[..|objs|] == objs && forall i :: |objs| <= i < |objs'| ==> fresh(objs'[i])
      ensures functions == old(functions) && startFunc == old(startFunc) && globalCtx.variables == old(globalCtx.variables)
    {
      var header := ParseFunctionDefinition(line, lineNum);
      if header.Err? {
        return Some(HeaderFailure(lineNum, header.error)), currentFunc, currentFuncStatements, objs, a;
      }
      var (funcName, params) := header.value;
      currentFunc', currentFuncStatements', objs' := FunctionDefinitionLine(funcName, params, currentFunc, currentFuncStatements, objs, kept, a);
      failure, a' := None, FunctionLine(a, funcName, params);
    }

    /** A `start:` line: a new start function opened, whatever was open before. */
    method StartEntryLine(ghost objs: seq<HerCodeFunction>, ghost kept: map<string, HerCodeFunction>, ghost a: Asm)
      returns (failure: Option<ParseFailure>, currentFunc': string, currentFuncStatements': seq<Stmt>,
               ghost objs': seq<HerCodeFunction>, ghost a': Asm)
      requires Valid() && Abstracts(objs, kept, a)
      modifies this, globalCtx
      ensures Applied(Ok(StartLine(a)), failure, currentFunc', currentFuncStatements', objs, objs', kept, a, a')
      ensures |objs| <= |objs'| && objs'[..|objs|] == objs && forall i :: |objs| <= i < |objs'| ==> fresh(objs'[i])
      ensures functions == old(functions) && startFunc == old(startFunc) && globalCtx.variables == old(globalCtx.variables)
    {
      currentFunc', currentFuncStatements' := "start", [];
      objs' := OpenFunction("start", [], objs, kept, a);
      failure, a' := None, StartLine(a);
    }

    /** The abstraction at the end of a parse, without the numbering of the objects it made. */
    lemma FinalState(objs: seq<HerCodeFunction>, kept: map<string, HerCodeFunction>, a: Asm)
      requires Abstracts(objs, kept, a)
      ensures Reflects(a, kept)
    {
    }

    /** A header line: the open function saved under a new object, then the new function stored and pushed. */
    method FunctionDefinitionLine(funcName: string, params: seq<string>, currentFunc: string, currentFuncStatements: seq<Stmt>,
                                  ghost objs: seq<HerCodeFunction>, ghost kept: map<string, HerCodeFunction>, ghost a: Asm)
      returns (currentFunc': string, currentFuncStatements': seq<Stmt>, ghost objs': seq<HerCodeFunction>)
      requires Valid() && Abstracts(objs, kept, a) && currentFunc == a.currentFunc && currentFuncStatements == a.cur.body
      modifies this, globalCtx
      ensures Abstracts(objs', kept, FunctionLine(a, funcName, params))
      ensures currentFunc' == funcName && currentFuncStatements' == []
      ensures |objs| <= |objs'| && objs'[..|objs|] == objs && forall i :: |objs| <= i < |objs'| ==> fresh(objs'[i])
      ensures functions == old(functions) && startFunc == old(startFunc) && globalCtx.variables == old(globalCtx.variables)
    {
      objs' := objs;
      ghost var a1 := a;
      if currentFunc != "" {
        objs' := SaveOpenFunction(currentFunc, currentFuncStatements, objs, kept, a);
        a1 := SaveOpen(a);
      }
      assert FunctionLine(a, funcName, params) == Open(a1, FunDef(funcName, params, []));
      ghost var objs1 := objs';
      currentFunc', currentFuncStatements' := funcName, [];
      objs' := OpenFunction(funcName, params, objs1, kept, a1);
      assert objs'[..|objs|] == objs1[..|objs|];
    }

    /** The first half of a header line while a function is open: its statements saved under a new object with the top frame's parameters. */
    method SaveOpenFunction(currentFunc: string, currentFuncStatements: seq<Stmt>,
                            ghost objs: seq<HerCodeFunction>, ghost kept: map<string, HerCodeFunction>, ghost a: Asm)
      returns (ghost objs': seq<HerCodeFunction>)
      requires Valid() && Abstracts(objs, kept, a) && currentFunc == a.currentFunc && currentFuncStatements == a.cur.body
      modifies globalCtx
      ensures Abstracts(objs', kept, SaveOpen(a))
      ensures |objs'| == |objs| + 1 && objs'[..|objs|] == objs && fresh(objs'[|objs|])
      ensures functions == old(functions) && startFunc == old(startFunc) && globalCtx.variables == old(globalCtx.variables)
    {
      var savedParams := if |funcStack| == 0 then [] else funcStack[|funcStack| - 1].parameters;
      var saved := new HerCodeFunction.Literal(currentFunc, savedParams, currentFuncStatements, NumberType);
      assert saved.Def() == FunDef(a.currentFunc, TopParams(a), a.cur.body);
      ghost var fs := globalCtx.functions;
      globalCtx.SetFunc(currentFunc, saved);
      objs' := objs + [saved];
      ObjectsExtend(objs, a.defs, saved, saved.Def());
      TableExtend(fs, objs, kept, a.table, saved, currentFunc);
      StackExtend(funcStack, objs, a.funcStack, saved);
    }

    /** A new function object stored in the global table and pushed on the function stack, with no cursor. */
    method OpenFunction(name: string, params: seq<string>, ghost objs: seq<HerCodeFunction>, ghost kept: map<string, HerCodeFunction>, ghost a: Asm)
      returns (ghost objs': seq<HerCodeFunction>)
      requires Valid() && Abstracts(objs, kept, a)
      modifies this, globalCtx
      ensures Abstracts(objs', kept, Open(a, FunDef(name, params, [])))
      ensures |objs'| == |objs| + 1 && objs'[..|objs|] == objs && fresh(objs'[|objs|])
      ensures functions == old(functions) && startFunc == old(startFunc) && globalCtx.variables == old(globalCtx.variables)
    {
      var fn := new HerCodeFunction.Literal(name, params, [], NumberType);
      ghost var fs := globalCtx.functions;
      globalCtx.SetFunc(name, fn);
      ObjectsExtend(objs, a.defs, fn, FunDef(name, params, []));
      TableExtend(fs, objs, kept, a.table, fn, name);
      StackExtend(funcStack, objs, a.funcStack, fn);
      funcStack := funcStack + [globalCtx.functions[name]];
      currentBlock := None;
      objs' := objs + [fn];
    }

    /** An `else` line: the top of the block stack must be an if, whose else list is started afresh. */
    method ElseBranchLine(lineNum: nat, currentFunc: string, currentFuncStatements: seq<Stmt>,
                          ghost objs: seq<HerCodeFunction>, ghost kept: map<string, HerCodeFunction>, ghost a: Asm)
      returns (failure: Option<ParseFailure>, currentFunc': string, currentFuncStatements': seq<Stmt>,
               ghost objs': seq<HerCodeFunction>, ghost a': Asm)
      requires Valid() && Abstracts(objs, kept, a) && currentFunc == a.currentFunc && currentFuncStatements == a.cur.body
      modifies this
      ensures Applied(ElseApply(a, lineNum), failure, currentFunc', currentFuncStatements', objs, objs', kept, a, a')
      ensures objs' == objs
      ensures functions == old(functions) && startFunc == old(startFunc) && globalCtx.variables == old(globalCtx.variables)
    {
      currentFunc', currentFuncStatements', objs', a' := currentFunc, currentFuncStatements, objs, a;
      if |blockStack| == 0 {
        failure := Some(ElseWithoutIf(lineNum));
        return;
      }
      var topStmt := blockStack[|blockStack| - 1];
      if !topStmt.If? {
        failure := Some(ElseNotAfterIf(lineNum));
        return;
      }
      blockStack := blockStack[|blockStack| - 1 := topStmt.(elseBranch := [], hasElse := true)];
      currentBlock := Some(|blockStack| - 1);
      inElseBranch := true;
      failure, a' := None, a.(cur := ElseLine(a.cur).value);
    }

    /** An `endif` or `endwhile` line: the top block popped and added to the new top or to the function's statements. */
    method EndBlockLine(lineNum: nat, isEndif: bool, currentFunc: string, currentFuncStatements: seq<Stmt>,
                        ghost objs: seq<HerCodeFunction>, ghost kept: map<string, HerCodeFunction>, ghost a: Asm)
      returns (failure: Option<ParseFailure>, currentFunc': string, currentFuncStatements': seq<Stmt>,
               ghost objs': seq<HerCodeFunction>, ghost a': Asm)
      requires Valid() && Abstracts(objs, kept, a) && currentFunc == a.currentFunc && currentFuncStatements == a.cur.body
      modifies this
      ensures Applied(CloseApply(a, lineNum, isEndif), failure, currentFunc', currentFuncStatements', objs, objs', kept, a, a')
      ensures objs' == objs
      ensures functions == old(functions) && startFunc == old(startFunc) && globalCtx.variables == old(globalCtx.variables)
    {
      currentFunc', currentFuncStatements', objs', a' := currentFunc, currentFuncStatements, objs, a;
      if |blockStack| == 0 {
        failure := Some(if isEndif then EndifWithoutIf(lineNum) else EndwhileWithoutWhile(lineNum));
        return;
      }
      var closed := blockStack[|blockStack| - 1];
      blockStack := blockStack[..|blockStack| - 1];
      currentBlock := None;
      inElseBranch := false;
      if |blockStack| > 0 {
        blockStack := blockStack[|blockStack| - 1 := Append(blockStack[|blockStack| - 1], closed, inElseBranch)];
      } else {
        currentFuncStatements' := currentFuncStatements' + [closed];
      }
      assert CloseBlock(a.cur).value == Cursor(blockStack, None, false, currentFuncStatements');
      failure, a' := None, a.(cur := CloseBlock(a.cur).value);
    }

    /** A `return` line: its expression parsed, then routed. */
    method ReturnLine(exprStr: string, lineNum: nat, currentFunc: string, currentFuncStatements: seq<Stmt>,
                      ghost objs: seq<HerCodeFunction>, ghost kept: map<string, HerCodeFunction>, ghost a: Asm)
      returns (failure: Option<ParseFailure>, currentFunc': string, currentFuncStatements': seq<Stmt>,
               ghost objs': seq<HerCodeFunction>, ghost a': Asm)
      requires Valid() && Abstracts(objs, kept, a) && currentFunc == a.currentFunc && currentFuncStatements == a.cur.body
      modifies this
      ensures Applied(ReturnApply(a, exprStr, lineNum), failure, currentFunc', currentFuncStatements', objs, objs', kept, a, a')
      ensures objs' == objs
      ensures functions == old(functions) && startFunc == old(startFunc) && globalCtx.variables == old(globalCtx.variables)
    {
      currentFunc', currentFuncStatements', objs', a' := currentFunc, currentFuncStatements, objs, a;
      var expr := ParseExpression(exprStr, lineNum);
      if expr.Err? {
        failure := Some(ReturnFailure(lineNum, expr.error));
        return;
      }
      currentFuncStatements' := RouteReturn(Return(expr.value), currentFuncStatements, objs, kept, a);
      failure, a' := None, a.(cur := AddReturn(a.cur, Return(expr.value)));
    }

    /** The second half of a return line: into the block the cursor points at, or into the function's statements. */
    method RouteReturn(stmt: Stmt, currentFuncStatements: seq<Stmt>,
                       ghost objs: seq<HerCodeFunction>, ghost kept: map<string, HerCodeFunction>, ghost a: Asm)
      returns (currentFuncStatements': seq<Stmt>)
      requires Valid() && Abstracts(objs, kept, a) && currentFuncStatements == a.cur.body
      modifies this
      ensures Abstracts(objs, kept, a.(cur := AddReturn(a.cur, stmt))) && currentFuncStatements' == AddReturn(a.cur, stmt).body
      ensures functions == old(functions) && startFunc == old(startFunc) && globalCtx.variables == old(globalCtx.variables)
    {
      currentFuncStatements' := currentFuncStatements;
      if currentBlock.Some? {
        var i := currentBlock.value;
        var b := blockStack[i];
        blockStack := blockStack[i := Append(b, stmt, b.If? && |b.elseBranch| > 0)];
      } else {
        currentFuncStatements' := currentFuncStatements' + [stmt];
      }
    }

    /** Any other line inside a function: parsed as a statement, then routed. */
    method BodyStatementLine(line: string, lineNum: nat, currentFunc: string, currentFuncStatements: seq<Stmt>,
                             ghost objs: seq<HerCodeFunction>, ghost kept: map<string, HerCodeFunction>, ghost a: Asm)
      returns (failure: Option<ParseFailure>, currentFunc': string, currentFuncStatements': seq<Stmt>,
               ghost objs': seq<HerCodeFunction>, ghost a': Asm)
      requires Valid() && Abstracts(objs, kept, a) && currentFunc == a.currentFunc && currentFuncStatements == a.cur.body
      modifies this
      ensures Applied(BodyApply(a, line, lineNum), failure, currentFunc', currentFuncStatements', objs, objs', kept, a, a')
      ensures objs' == objs
      ensures functions == old(functions) && startFunc == old(startFunc) && globalCtx.variables == old(globalCtx.variables)
    {
      currentFunc', currentFuncStatements', objs', a' := currentFunc, currentFuncStatements, objs, a;
      var parsed := ParseStatement(line, lineNum);
      if parsed.Err? {
        failure := Some(StatementFailure(lineNum, parsed.error));
        return;
      }
      currentFuncStatements' := RouteStatement(parsed.value, currentFuncStatements, objs, kept, a);
      failure, a' := None, StatementLine(a, parsed.value);
    }

    /** The second half of a statement line: an if or while is pushed and becomes the cursor, anything else is routed by the else flag. */
    method RouteStatement(stmt: Stmt, currentFuncStatements: seq<Stmt>,
                          ghost objs: seq<HerCodeFunction>, ghost kept: map<string, HerCodeFunction>, ghost a: Asm)
      returns (currentFuncStatements': seq<Stmt>)
      requires Valid() && Abstracts(objs, kept, a) && currentFuncStatements == a.cur.body
      modifies this
      ensures Abstracts(objs, kept, StatementLine(a, stmt)) && currentFuncStatements' == StatementLine(a, stmt).cur.body
      ensures functions == old(functions) && startFunc == old(startFunc) && globalCtx.variables == old(globalCtx.variables)
    {
      currentFuncStatements' := currentFuncStatements;
      if stmt.If? || stmt.While? {
        blockStack := blockStack + [stmt];
        currentBlock := Some(|blockStack| - 1);
        inElseBranch := false;
      } else if currentBlock.Some? {
        var i := currentBlock.value;
        blockStack := blockStack[i := Append(blockStack[i], stmt, inElseBranch)];
      } else {
        currentFuncStatements' := currentFuncStatements' + [stmt];
      }
    }

    /** An `end` line: the statements read so far written into the object on top of the function stack, which is popped. */
    method EndFunctionLine(currentFunc: string, currentFuncStatements: seq<Stmt>,
                           ghost objs: seq<HerCodeFunction>, ghost kept: map<string, HerCodeFunction>, ghost a: Asm)
      returns (currentFunc': string, currentFuncStatements': seq<Stmt>)
      requires Valid() && Abstracts(objs, kept, a) && currentFunc == a.currentFunc && currentFuncStatements == a.cur.body
      modifies this, if funcStack == [] then {} else {funcStack[|funcStack| - 1]}
      ensures Abstracts(objs, kept, EndLine(a))
      ensures currentFunc' == EndLine(a).currentFunc && currentFuncStatements' == EndLine(a).cur.body
      ensures functions == old(functions) && startFunc == old(startFunc) && globalCtx.variables == old(globalCtx.variables)
    {
      currentFunc', currentFuncStatements' := currentFunc, currentFuncStatements;
      if |funcStack| > 0 {
        var fn := funcStack[|funcStack| - 1];
        fn.statements := currentFuncStatements;
        funcStack := funcStack[..|funcStack| - 1];
        if |funcStack| > 0 {
          currentFunc' := funcStack[|funcStack| - 1].name;
        } else {
          currentFunc' := "";
        }
        currentFuncStatements' := [];
        currentBlock := None;
      }
    }

    /**
     * Execute: without a start function, no values and the one error; otherwise
     * every top-level statement of start run in the global context, in order,
     * with one value and one error per statement.
     */
    method Execute(fuel: nat, sqrt: real -> real) returns (vals: seq<Value>, errs: seq<Option<ExecError>>, out: seq<OutLine>)
      requires Valid()
      modifies globalCtx
      ensures old(globalCtx.GetFunc("start")).None? ==>
        vals == [] && errs == [Some(Failed(StartUndefined))] && out == [] && globalCtx.Frames() == old(globalCtx.Frames())
      ensures old(globalCtx.GetFunc("start")).Some? ==>
        var (outs, st) := RunEach(old(globalCtx.GetFunc("start").value.statements), State(old(globalCtx.Frames()), []), fuel, sqrt);
        vals == ValuesOf(outs) && errs == ErrorsOf(outs) && out == st.out && globalCtx.Frames() == st.env
    {
      var startFn := globalCtx.GetFunc("start");
      if startFn.None? {
        return [], [Some(Failed(StartUndefined))], [];
      }
      var ss := startFn.value.statements;
      ghost var st0 := State(globalCtx.Frames(), []);
      ghost var outs: seq<Outcome> := [];
      vals, errs, out := [], [], [];
      assert ss[0..] == ss;
      assert outs + RunEach(ss, st0, fuel, sqrt).0 == RunEach(ss, st0, fuel, sqrt).0;
      for i := 0 to |ss|
        invariant vals == ValuesOf(outs) && errs == ErrorsOf(outs)
        invariant var rest := RunEach(ss[i..], State(globalCtx.Frames(), out), fuel, sqrt);
                  RunEach(ss, st0, fuel, sqrt) == (outs + rest.0, rest.1)
      {
        RunEachAdvance(ss, i, st0, outs, State(globalCtx.Frames(), out), fuel, sqrt);
        var val;
        val, out := ExecuteStmt(ss[i], globalCtx, out, fuel, sqrt);
        assert (outs + [val])[..|outs|] == outs;
        vals := vals + [ValueOf(val)];
        errs := errs + [ErrorOf(val)];
        outs := outs + [val];
      }
      assert outs + [] == outs;
    }
  }
}
