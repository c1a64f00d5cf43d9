/**
 * The block assembly of HerCodeInterpreter.Parse as a state machine over
 * lines (hercodeinterpreter/hercodeinterpreter.go).  The parser keeps a
 * stack of open if and while statements, a cursor `currentBlock` that is
 * nil or points at the top of that stack, one `inElseBranch` flag for the
 * whole parse, the statements of the function being read, and a stack of
 * function objects that it shares with the global function table.
 *
 * Function objects have identity: the table and the function stack may
 * hold the same object, and `end` writes the body into the object on top of
 * the stack, which the table sees only if it still holds that object.  The
 * model numbers the objects a parse creates (`defs`, in creation order)
 * and lets the table and the stack refer to them by number.
 */
module Assembler {
  import opened Wrappers
  import opened Text
  import opened Ast
  import opened Functions
  import opened Scanners
  import opened Parser

  // ---------------------------------------------------------------------------
  // Open blocks and the cursor
  // ---------------------------------------------------------------------------

  /** The block stack, the cursor (an index into it), the else flag and the current function's statements. */
  datatype Cursor = Cursor(blocks: seq<Stmt>, current: Option<nat>, inElse: bool, body: seq<Stmt>)

  /** `currentBlock` is nil or the top of the block stack. */
  predicate CursorValid(c: Cursor) {
    c.current.None? || c.current.value + 1 == |c.blocks|
  }

  /** A statement added to an open block: to an if's else or then list, or to a while's body. */
  function Append(b: Stmt, s: Stmt, toElse: bool): (r: Stmt)
    ensures b.If? && toElse ==> r == b.(elseBranch := b.elseBranch + [s], hasElse := true)
    ensures b.If? && !toElse ==> r == b.(thenBranch := b.thenBranch + [s])
    ensures b.While? ==> r == b.(body := b.body + [s])
  {
    match b
    case If(c, t, h, e) => if toElse then If(c, t, true, e + [s]) else If(c, t + [s], h, e)
    case While(c, body) => While(c, body + [s])
    case _ => b
  }

  /** An if or while line: the statement becomes the top of the block stack and the cursor points at it. */
  function OpenBlock(c: Cursor, s: Stmt): (r: Cursor)
    ensures CursorValid(r) && r.current == Some(|c.blocks|)
    ensures r.blocks == c.blocks + [s] && !r.inElse && r.body == c.body
  {
    Cursor(c.blocks + [s], Some(|c.blocks|), false, c.body)
  }

  datatype BlockError = NoOpenBlock | TopNotIf

  /**
   * An else line: the top of the block stack must be an if; its else list
   * is replaced by an empty one (so a second else drops what the first
   * collected), the cursor points at it and the else flag is set.
   */
  function ElseLine(c: Cursor): (r: Result<Cursor, BlockError>)
    ensures r == Err(NoOpenBlock) <==> c.blocks == []
    ensures r == Err(TopNotIf) <==> c.blocks != [] && !c.blocks[|c.blocks| - 1].If?
    ensures r.Ok? ==> var top := c.blocks[|c.blocks| - 1];
      CursorValid(r.value) && r.value.current.Some? && r.value.inElse && r.value.body == c.body &&
      r.value.blocks == c.blocks[..|c.blocks| - 1] + [top.(elseBranch := [], hasElse := true)]
  {
    if c.blocks == [] then Err(NoOpenBlock)
    else
      var n := |c.blocks|;
      var top := c.blocks[n - 1];
      if !top.If? then Err(TopNotIf)
      else Ok(Cursor(c.blocks[..n - 1] + [top.(elseBranch := [], hasElse := true)], Some(n - 1), true, c.body))
  }

  /**
   * An endif or endwhile line (the kind of the top block is not checked):
   * the top block is popped, the cursor and the else flag are cleared, and
   * then the block is added to the new top, by the flag just cleared, or to
   * the function's statements when no block is left open.
   */
  function CloseBlock(c: Cursor): (r: Option<Cursor>)
    ensures r.None? <==> c.blocks == []
    ensures r.Some? ==> CursorValid(r.value) && r.value.current.None? && !r.value.inElse
    ensures r.Some? ==> |r.value.blocks| + 1 == |c.blocks|
    ensures |c.blocks| >= 2 ==> var n := |c.blocks|;
      r.value.blocks == c.blocks[..n - 2] + [Append(c.blocks[n - 2], c.blocks[n - 1], false)] && r.value.body == c.body
    ensures |c.blocks| == 1 ==> r.value.blocks == [] && r.value.body == c.body + [c.blocks[0]]
  {
    if c.blocks == [] then None
    else
      var closed := c.blocks[|c.blocks| - 1];
      var rest := c.blocks[..|c.blocks| - 1];
      var inElse := false;
      if rest != [] then
        Some(Cursor(rest[..|rest| - 1] + [Append(rest[|rest| - 1], closed, inElse)], None, inElse, c.body))
      else
        Some(Cursor([], None, inElse, c.body + [closed]))
  }

  /** Any other statement: into the block the cursor points at, by the else flag, or else into the function's statements. */
  function AddLeaf(c: Cursor, s: Stmt): (r: Cursor)
    requires CursorValid(c)
    ensures CursorValid(r) && r.current == c.current && r.inElse == c.inElse
    ensures c.current.None? ==> r == c.(body := c.body + [s])
    ensures c.current.Some? ==>
      r.body == c.body && |r.blocks| == |c.blocks| && r.blocks[..|c.blocks| - 1] == c.blocks[..|c.blocks| - 1]
    ensures c.current.Some? ==> var top := c.blocks[|c.blocks| - 1]; var t := r.blocks[|c.blocks| - 1];
      (top.If? && c.inElse ==> t == top.(elseBranch := top.elseBranch + [s], hasElse := true)) &&
      (top.If? && !c.inElse ==> t == top.(thenBranch := top.thenBranch + [s])) &&
      (top.While? ==> t == top.(body := top.body + [s]))
  {
    match c.current
    case None => c.(body := c.body + [s])
    case Some(i) => c.(blocks := c.blocks[i := Append(c.blocks[i], s, c.inElse)])
  }

  /**
   * A return line: like any other statement, except that inside an if it
   * goes to the else list exactly when that list is already non-empty,
   * whatever the else flag says.
   */
  function AddReturn(c: Cursor, s: Stmt): (r: Cursor)
    requires CursorValid(c)
    ensures CursorValid(r) && r.current == c.current && r.inElse == c.inElse
    ensures c.current.None? ==> r == c.(body := c.body + [s])
    ensures c.current.Some? ==>
      r.body == c.body && |r.blocks| == |c.blocks| && r.blocks[..|c.blocks| - 1] == c.blocks[..|c.blocks| - 1]
    ensures c.current.Some? ==> var top := c.blocks[|c.blocks| - 1]; var t := r.blocks[|c.blocks| - 1];
      (top.If? && |top.elseBranch| > 0 ==> t == top.(elseBranch := top.elseBranch + [s], hasElse := true)) &&
      (top.If? && top.elseBranch == [] ==> t == top.(thenBranch := top.thenBranch + [s])) &&
      (top.While? ==> t == top.(body := top.body + [s]))
  {
    match c.current
    case None => c.(body := c.body + [s])
    case Some(i) =>
      var top := c.blocks[i];
      c.(blocks := c.blocks[i := Append(top, s, top.If? && |top.elseBranch| > 0)])
  }

  /** After a nested block closes, the next statement goes to the function's statements, not to the enclosing block. */
  lemma LeafAfterCloseGoesToBody(c: Cursor, s: Stmt)
    requires c.blocks != []
    ensures var c1 := CloseBlock(c).value;
            AddLeaf(c1, s) == c1.(body := c1.body + [s])
  {
  }

  /**
   * A closed block is added to the then list of an enclosing if, never to
   * its else list, or to the body of an enclosing while; the blocks below
   * and the function's statements stay as they were.
   */
  lemma ClosedBlockNeverInElse(c: Cursor)
    requires |c.blocks| >= 2
    ensures var n := |c.blocks|;
            var outer := c.blocks[n - 2];
            var r := CloseBlock(c).value;
            (outer.If? ==> r.blocks[n - 2] == outer.(thenBranch := outer.thenBranch + [c.blocks[n - 1]])) &&
            (outer.While? ==> r.blocks[n - 2] == outer.(body := outer.body + [c.blocks[n - 1]])) &&
            r.blocks[..n - 2] == c.blocks[..n - 2] && r.body == c.body
  {
  }

  /** A block closed with nothing open around it becomes the function's next statement. */
  lemma OutermostCloseGoesToBody(c: Cursor)
    requires |c.blocks| == 1
    ensures CloseBlock(c) == Some(Cursor([], None, false, c.body + [c.blocks[0]]))
  {
  }

  /** The else flag plays no part in where a return goes. */
  lemma ReturnIgnoresElseFlag(c: Cursor, s: Stmt)
    requires CursorValid(c)
    ensures AddReturn(c.(inElse := true), s).blocks == AddReturn(c.(inElse := false), s).blocks
    ensures AddReturn(c.(inElse := true), s).body == AddReturn(c.(inElse := false), s).body
  {
  }

  /** Right after an else line, a statement goes to the else list, but a return goes to the then list. */
  lemma ElseRouting(c: Cursor, s: Stmt)
    requires ElseLine(c).Ok?
    ensures var c1 := ElseLine(c).value;
            var n := |c.blocks|;
            var top := c.blocks[n - 1];
            AddLeaf(c1, s).blocks[n - 1] == top.(elseBranch := [s], hasElse := true) &&
            AddReturn(c1, s).blocks[n - 1] == top.(thenBranch := top.thenBranch + [s], elseBranch := [], hasElse := true)
  {
    var c1 := ElseLine(c).value;
    assert c1.current == Some(|c.blocks| - 1);
  }

  // ---------------------------------------------------------------------------
  // Function objects, the function stack and the line loop
  // ---------------------------------------------------------------------------

  /** A function-table entry: the object that was there before the parse, or the i-th object the parse made. */
  datatype Ref = Kept | Made(index: nat)

  /** The parser's state; `currentFunc` is the name of the function being read, empty when none is. */
  datatype Asm = Asm(defs: seq<FunDef>, table: map<string, Ref>, funcStack: seq<nat>, cur: Cursor, currentFunc: string)

  predicate AsmValid(a: Asm) {
    CursorValid(a.cur) &&
    (forall n :: n in a.table && a.table[n].Made? ==> a.table[n].index < |a.defs|) &&
    (forall j :: 0 <= j < |a.funcStack| ==> a.funcStack[j] < |a.defs|)
  }

  /** The state at the start of Parse: every table entry kept, both stacks empty, no cursor, no function. */
  function Initial(names: set<string>): (a: Asm)
    ensures AsmValid(a) && a.funcStack == [] && a.cur.blocks == [] && a.currentFunc == ""
  {
    Asm([], map n | n in names :: Kept, [], Cursor([], None, false, []), "")
  }

  /** Why Parse stopped: the line it stopped at and the reason, or a function left open at the end. */
  datatype ParseFailure =
    | HeaderFailure(line: nat, header: HeaderError)
    | ElseWithoutIf(line: nat)
    | ElseNotAfterIf(line: nat)
    | EndifWithoutIf(line: nat)
    | EndwhileWithoutWhile(line: nat)
    | ReturnFailure(line: nat, err: ParseError)
    | StatementFailure(line: nat, err: ParseError)
    | Unclosed(name: string)

  /** The parameters of the function on top of the function stack, none when it is empty. */
  function TopParams(a: Asm): seq<string>
    requires AsmValid(a)
  {
    if a.funcStack == [] then [] else a.defs[a.funcStack[|a.funcStack| - 1]].params
  }

  /**
   * A header line while a function is open first stores a new object for
   * the open function under its name, holding the top frame's parameters and
   * the statements read so far; the object on the function stack is not updated.
   */
  function SaveOpen(a: Asm): (r: Asm)
    requires AsmValid(a)
    ensures AsmValid(r) && r.funcStack == a.funcStack && r.cur == a.cur && r.currentFunc == a.currentFunc
    ensures r.defs == a.defs + [FunDef(a.currentFunc, TopParams(a), a.cur.body)]
    ensures r.table == a.table[a.currentFunc := Made(|a.defs|)]
  {
    a.(defs := a.defs + [FunDef(a.currentFunc, TopParams(a), a.cur.body)], table := a.table[a.currentFunc := Made(|a.defs|)])
  }

  /** A new function object, stored in the table under its name and pushed; reading continues in it with no statements and no cursor. */
  function Open(a: Asm, d: FunDef): (r: Asm)
    requires AsmValid(a)
    ensures AsmValid(r) && r.currentFunc == d.name && r.cur.body == [] && r.cur.current.None?
    ensures r.cur.blocks == a.cur.blocks && r.cur.inElse == a.cur.inElse
    ensures r.defs == a.defs + [d] && r.funcStack == a.funcStack + [|a.defs|]
    ensures r.table == a.table[d.name := Made(|a.defs|)]
  {
    var i := |a.defs|;
    a.(defs := a.defs + [d], table := a.table[d.name := Made(i)], funcStack := a.funcStack + [i],
       currentFunc := d.name, cur := a.cur.(body := [], current := None))
  }

  /** A function header: the open function saved first, then a new function with the header's parameters and no statements. */
  function FunctionLine(a: Asm, name: string, params: seq<string>): (r: Asm)
    requires AsmValid(a)
    ensures AsmValid(r) && r.currentFunc == name && r.cur.body == [] && r.cur.current.None?
    ensures r.cur.blocks == a.cur.blocks && r.cur.inElse == a.cur.inElse
    ensures |r.funcStack| == |a.funcStack| + 1 && r.defs[r.funcStack[|a.funcStack|]] == FunDef(name, params, [])
    ensures name in r.table && r.table[name] == Made(r.funcStack[|a.funcStack|])
    ensures a.currentFunc != "" ==>
      r.defs == a.defs + [FunDef(a.currentFunc, TopParams(a), a.cur.body), FunDef(name, params, [])] &&
      r.table == a.table[a.currentFunc := Made(|a.defs|)][name := Made(|a.defs| + 1)] &&
      r.funcStack == a.funcStack + [|a.defs| + 1]
    ensures a.currentFunc == "" ==>
      r.defs == a.defs + [FunDef(name, params, [])] && r.table == a.table[name := Made(|a.defs|)] &&
      r.funcStack == a.funcStack + [|a.defs|]
  {
    Open(if a.currentFunc != "" then SaveOpen(a) else a, FunDef(name, params, []))
  }

  /** A `start:` line: a new empty object named start, stored and pushed; the open function is not saved. */
  function StartLine(a: Asm): (r: Asm)
    requires AsmValid(a)
    ensures AsmValid(r) && r.currentFunc == "start" && r.cur.body == [] && r.cur.current.None?
    ensures r.funcStack == a.funcStack + [|a.defs|] && r.defs == a.defs + [FunDef("start", [], [])]
    ensures r.table == a.table["start" := Made(|a.defs|)]
  {
    Open(a, FunDef("start", [], []))
  }

  /**
   * An `end` line: the statements read so far become the body of the object
   * on top of the function stack, which is popped; reading continues in the
   * function below it, with no statements.  With an empty stack, nothing happens.
   */
  function EndLine(a: Asm): (r: Asm)
    requires AsmValid(a)
    ensures AsmValid(r)
    ensures a.funcStack == [] ==> r == a
    ensures a.funcStack != [] ==> var t := a.funcStack[|a.funcStack| - 1];
      r.funcStack == a.funcStack[..|a.funcStack| - 1] && r.defs == a.defs[t := a.defs[t].(body := a.cur.body)] &&
      r.table == a.table && r.cur.body == [] && r.cur.current.None?
    ensures a.funcStack != [] ==> r.cur.blocks == a.cur.blocks && r.cur.inElse == a.cur.inElse
    ensures |a.funcStack| == 1 ==> r.currentFunc == ""
    ensures |a.funcStack| >= 2 ==> r.currentFunc == a.defs[a.funcStack[|a.funcStack| - 2]].name
  {
    if a.funcStack == [] then a
    else
      var t := a.funcStack[|a.funcStack| - 1];
      var defs := a.defs[t := a.defs[t].(body := a.cur.body)];
      var stack := a.funcStack[..|a.funcStack| - 1];
      a.(defs := defs, funcStack := stack,
         currentFunc := if stack != [] then defs[stack[|stack| - 1]].name else "",
         cur := a.cur.(body := [], current := None))
  }

  /** A match of `^return\s+(.*)`, where `.` stops at a newline: the expression text, trimmed. */
  function ReturnMatch(l: string): (r: Option<string>)
    ensures r.Some? ==> HasPrefix(l, "return") && |l| > 6 && IsRegexSpace(l[6])
  {
    if HasPrefix(l, "return") && |l| > 6 && IsRegexSpace(l[6]) then
      var rest := l[6 + RegexSpaceRun(l[6..])..];
      var captured := match IndexOf(rest, '\n') case None => rest case Some(j) => rest[..j];
      Some(TrimSpace(captured))
    else None
  }

  /** A statement line inside a function: an if or while opens a block; anything else is added by AddLeaf. */
  function StatementLine(a: Asm, s: Stmt): (r: Asm)
    requires AsmValid(a)
    ensures AsmValid(r) && r.defs == a.defs && r.table == a.table && r.funcStack == a.funcStack
    ensures r.currentFunc == a.currentFunc
    ensures IsBlock(s) ==> r.cur == OpenBlock(a.cur, s)
    ensures !IsBlock(s) ==> r.cur == AddLeaf(a.cur, s)
  {
    a.(cur := if s.If? || s.While? then OpenBlock(a.cur, s) else AddLeaf(a.cur, s))
  }

  /** What a cleaned line is to the parse loop. */
  datatype LineKind =
    | Blank
    | Header
    | StartEntry
    | ElseMark
    | EndifMark
    | EndwhileMark
    | ReturnOf(expr: string)
    | EndMark
    | Body
    | Outside

  /** An empty line or a line starting with `#`, which the loop skips. */
  predicate Skipped(l: string) {
    l == "" || HasPrefix(l, "#")
  }

  /** The loop's tests, in the order it makes them; `inFunction` says whether a function is open. */
  function Classify(l: string, inFunction: bool): (k: LineKind)
    ensures k.Blank? <==> Skipped(l)
    ensures k.Header? <==> !Skipped(l) && HasPrefix(l, "function ")
    ensures k.StartEntry? <==> !Skipped(l) && !HasPrefix(l, "function ") && HasPrefix(l, "start:")
    ensures k.ElseMark? <==>
      !Skipped(l) && !HasPrefix(l, "function ") && !HasPrefix(l, "start:") && HasPrefix(l, "else")
    ensures k.EndifMark? <==>
      !Skipped(l) && !HasPrefix(l, "function ") && !HasPrefix(l, "start:") && !HasPrefix(l, "else") &&
      HasPrefix(l, "endif")
    ensures k.EndwhileMark? <==>
      !Skipped(l) && !HasPrefix(l, "function ") && !HasPrefix(l, "start:") && !HasPrefix(l, "else") &&
      !HasPrefix(l, "endif") && HasPrefix(l, "endwhile")
    ensures k.ReturnOf? <==>
      !Skipped(l) && !HasPrefix(l, "function ") && !HasPrefix(l, "start:") && !HasPrefix(l, "else") &&
      !HasPrefix(l, "endif") && !HasPrefix(l, "endwhile") && ReturnMatch(l).Some?
    ensures k.EndMark? <==>
      !Skipped(l) && !HasPrefix(l, "function ") && !HasPrefix(l, "start:") && !HasPrefix(l, "else") &&
      !HasPrefix(l, "endif") && !HasPrefix(l, "endwhile") && ReturnMatch(l).None? && l == "end"
    ensures k.Body? || k.Outside? <==>
      !Skipped(l) && !HasPrefix(l, "function ") && !HasPrefix(l, "start:") && !HasPrefix(l, "else") &&
      !HasPrefix(l, "endif") && !HasPrefix(l, "endwhile") && ReturnMatch(l).None? && l != "end"
    ensures k.ReturnOf? ==> ReturnMatch(l) == Some(k.expr)
    ensures k.Body? ==> inFunction
    ensures k.Outside? ==> !inFunction
  {
    if Skipped(l) then Blank
    else if HasPrefix(l, "function ") then Header
    else if HasPrefix(l, "start:") then StartEntry
    else if HasPrefix(l, "else") then ElseMark
    else if HasPrefix(l, "endif") then EndifMark
    else if HasPrefix(l, "endwhile") then EndwhileMark
    else if ReturnMatch(l).Some? then ReturnOf(ReturnMatch(l).value)
    else if l == "end" then EndMark
    else if inFunction then Body
    else Outside
  }

  /** A `function` line: the header parsed, then the open function saved and the new one opened. */
  function HeaderApply(a: Asm, l: string, n: nat): (r: Result<Asm, ParseFailure>)
    requires AsmValid(a)
    ensures r.Ok? ==> AsmValid(r.value)
    ensures r.Err? ==> r.error.HeaderFailure? && r.error.line == n
  {
    match FunctionHeader(l, n)
    case Err(e) => Err(HeaderFailure(n, e))
    case Ok((name, params)) => Ok(FunctionLine(a, name, params))
  }

  /** An `else` line: an error unless the top of the block stack is an if. */
  function ElseApply(a: Asm, n: nat): (r: Result<Asm, ParseFailure>)
    requires AsmValid(a)
    ensures r.Ok? ==> AsmValid(r.value)
    ensures r.Err? ==> (r.error.ElseWithoutIf? || r.error.ElseNotAfterIf?) && r.error.line == n
  {
    match ElseLine(a.cur)
    case Err(NoOpenBlock) => Err(ElseWithoutIf(n))
    case Err(TopNotIf) => Err(ElseNotAfterIf(n))
    case Ok(c) => Ok(a.(cur := c))
  }

  /** An `endif` (isEndif) or `endwhile` line: an error, named after the keyword, when no block is open. */
  function CloseApply(a: Asm, n: nat, isEndif: bool): (r: Result<Asm, ParseFailure>)
    requires AsmValid(a)
    ensures r.Ok? ==> AsmValid(r.value)
    ensures r.Err? ==> r.error == if isEndif then EndifWithoutIf(n) else EndwhileWithoutWhile(n)
  {
    match CloseBlock(a.cur)
    case None => Err(if isEndif then EndifWithoutIf(n) else EndwhileWithoutWhile(n))
    case Some(c) => Ok(a.(cur := c))
  }

  /** A `return` line: the text after the keyword parsed as an expression and routed as a return. */
  function ReturnApply(a: Asm, text: string, n: nat): (r: Result<Asm, ParseFailure>)
    requires AsmValid(a)
    ensures r.Ok? ==> AsmValid(r.value)
    ensures r.Err? ==> r.error.ReturnFailure? && r.error.line == n
  {
    match ParseExpression(text, n)
    case Err(e) => Err(ReturnFailure(n, e))
    case Ok(e) => Ok(a.(cur := AddReturn(a.cur, Return(e))))
  }

  /** Any other line inside a function: parsed as a statement and added. */
  function BodyApply(a: Asm, l: string, n: nat): (r: Result<Asm, ParseFailure>)
    requires AsmValid(a)
    ensures r.Ok? ==> AsmValid(r.value)
    ensures r.Err? ==> r.error.StatementFailure? && r.error.line == n
  {
    match ParseStatement(l, n)
    case Err(e) => Err(StatementFailure(n, e))
    case Ok(s) => Ok(StatementLine(a, s))
  }

  /** What a line of the given kind does to the parser's state, or why it stops the parse. */
  function Apply(a: Asm, kind: LineKind, l: string, n: nat): (r: Result<Asm, ParseFailure>)
    requires AsmValid(a)
    ensures r.Ok? ==> AsmValid(r.value)
    ensures r.Err? ==> !r.error.Unclosed? && r.error.line == n
    ensures kind.Blank? || kind.Outside? ==> r == Ok(a)
  {
    match kind
    case Blank => Ok(a)
    case Header => HeaderApply(a, l, n)
    case StartEntry => Ok(StartLine(a))
    case ElseMark => ElseApply(a, n)
    case EndifMark => CloseApply(a, n, true)
    case EndwhileMark => CloseApply(a, n, false)
    case ReturnOf(text) => ReturnApply(a, text, n)
    case EndMark => Ok(EndLine(a))
    case Body => BodyApply(a, l, n)
    case Outside => Ok(a)
  }

  /** One line of the parse loop: cleaned of its comment, trimmed, classified and applied. */
  function Step(a: Asm, line: string, n: nat): (r: Result<Asm, ParseFailure>)
    requires AsmValid(a)
    ensures r.Ok? ==> AsmValid(r.value)
    ensures r.Err? ==> !r.error.Unclosed? && r.error.line == n
  {
    var l := TrimSpace(Uncommented(line));
    Apply(a, Classify(l, a.currentFunc != ""), l, n)
  }

  /** After the last line: an error naming the bottom function of the stack if any function is still open; open blocks are not reported. */
  function Finish(a: Asm): (r: Option<ParseFailure>)
    requires AsmValid(a)
    ensures r.None? <==> a.funcStack == []
    ensures r.Some? ==> r.value == Unclosed(a.defs[a.funcStack[0]].name)
  {
    if a.funcStack == [] then None else Some(Unclosed(a.defs[a.funcStack[0]].name))
  }

  /** The lines from the k-th on (line numbers count from 1); the state where the parse stopped, and why. */
  function Assemble(a: Asm, lines: seq<string>, k: nat): (r: (Asm, Option<ParseFailure>))
    requires AsmValid(a) && k <= |lines|
    ensures AsmValid(r.0)
    decreases |lines| - k, 1
  {
    if k == |lines| then (a, Finish(a)) else Continue(a, lines, k)
  }

  /** The k-th line applied: the run stops on its failure or goes on from the next line. */
  function Continue(a: Asm, lines: seq<string>, k: nat): (r: (Asm, Option<ParseFailure>))
    requires AsmValid(a) && k < |lines|
    ensures AsmValid(r.0)
    decreases |lines| - k, 0
  {
    match Step(a, lines[k], k + 1)
    case Err(e) => (a, Some(e))
    case Ok(a1) => Assemble(a1, lines, k + 1)
  }

  /** One line of the run: where it applies, the run goes on from the next line; where it fails, the run ends there. */
  lemma AssembleStep(a: Asm, lines: seq<string>, k: nat)
    requires AsmValid(a) && k < |lines|
    ensures Step(a, lines[k], k + 1).Ok? ==> Assemble(a, lines, k) == Assemble(Step(a, lines[k], k + 1).value, lines, k + 1)
    ensures Step(a, lines[k], k + 1).Err? ==> Assemble(a, lines, k) == (a, Some(Step(a, lines[k], k + 1).error))
  {
    assert Assemble(a, lines, k) == Continue(a, lines, k);
  }

  /** A line cleaned to `l` and classified as `kind` is applied by its kind. */
  lemma StepByKind(a: Asm, raw: string, n: nat, l: string, kind: LineKind)
    requires AsmValid(a) && l == TrimSpace(Uncommented(raw)) && kind == Classify(l, a.currentFunc != "")
    ensures Step(a, raw, n) == Apply(a, kind, l, n)
  {
  }

  /** An `end` line always applies. */
  lemma EndApplies(a: Asm, l: string, n: nat)
    requires AsmValid(a)
    ensures Apply(a, EndMark, l, n) == Ok(EndLine(a))
  {
  }

  /** The lines of a script as bufio.ScanLines yields them: split at '\n', one '\r' dropped from each end, no empty last line. */
  function ScanLines(s: string): (r: seq<string>)
    ensures forall i :: 0 <= i < |r| ==> '\n' !in r[i]
    decreases |s|
  {
    if s == [] then []
    else
      match IndexOf(s, '\n')
      case None => [DropCR(s)]
      case Some(k) => [DropCR(s[..k])] + ScanLines(s[k + 1..])
  }

  /** bufio's dropCR: one carriage return at the end of a line is removed. */
  function DropCR(s: string): (r: string)
    ensures r == s || s == r + "\r"
    ensures s != [] && s[|s| - 1] == '\r' ==> s == r + "\r"
    ensures (s == [] || s[|s| - 1] != '\r') ==> r == s
  {
    if s != [] && s[|s| - 1] == '\r' then s[..|s| - 1] else s
  }

  /** Lines that hold no newline and do not end in a carriage return, each written with its newline, scan back to themselves. */
  lemma {:induction false} ScanLinesRoundTrip(ls: seq<string>)
    requires forall i :: 0 <= i < |ls| ==> '\n' !in ls[i] && (ls[i] == [] || ls[i][|ls[i]| - 1] != '\r')
    ensures ScanLines(Written(ls)) == ls
  {
    if ls != [] {
      var s := Written(ls);
      var l := ls[0];
      assert s == l + "\n" + Written(ls[1..]);
      assert s[..|l|] == l && s[|l|] == '\n';
      assert IndexOf(s, '\n') == Some(|l|) by {
        assert '\n' !in s[..|l|];
      }
      assert s[|l| + 1..] == Written(ls[1..]);
      ScanLinesRoundTrip(ls[1..]);
    }
  }

  /** The lines written out, each followed by a newline. */
  function Written(ls: seq<string>): string {
    if ls == [] then "" else ls[0] + "\n" + Written(ls[1..])
  }

  /** The whole parse of a script, starting from a table holding the given names. */
  function ParseScript(script: string, names: set<string>): (r: (Asm, Option<ParseFailure>))
    ensures AsmValid(r.0)
  {
    Assemble(Initial(names), ScanLines(script), 0)
  }

  // ---------------------------------------------------------------------------
  // Properties of the line loop
  // ---------------------------------------------------------------------------

  /** Blank lines, lines that are only a comment and `#` lines change nothing. */
  lemma SkippedLines(a: Asm, line: string, n: nat)
    requires AsmValid(a)
    requires var l := TrimSpace(Uncommented(line)); l == "" || HasPrefix(l, "#")
    ensures Step(a, line, n) == Ok(a)
  {
  }

  /** A statement line read while no function is open is dropped. */
  lemma StatementOutsideFunctionDropped(a: Asm, line: string, n: nat)
    requires AsmValid(a) && a.currentFunc == ""
    requires var l := TrimSpace(Uncommented(line));
      l != "" && !HasPrefix(l, "#") && !HasPrefix(l, "function ") && !HasPrefix(l, "start:") && !HasPrefix(l, "else") &&
      !HasPrefix(l, "endif") && !HasPrefix(l, "endwhile") && ReturnMatch(l).None? && l != "end"
    ensures Step(a, line, n) == Ok(a)
  {
  }

  /** Only a function left open fails the parse at the end; blocks left open do not. */
  lemma OnlyOpenFunctionsFail(a: Asm)
    requires AsmValid(a) && a.funcStack == []
    ensures Assemble(a, [], 0) == (a, None)
  {
  }

  /** A parse that stops on a line reports that line's number. */
  lemma {:induction false} FailureNamesItsLine(a: Asm, lines: seq<string>, k: nat)
    requires AsmValid(a) && k <= |lines|
    ensures var e := Assemble(a, lines, k).1;
      e.Some? && !e.value.Unclosed? ==> k < e.value.line <= |lines|
    decreases |lines| - k
  {
    if k < |lines| {
      AssembleStep(a, lines, k);
      var r := Step(a, lines[k], k + 1);
      if r.Ok? {
        FailureNamesItsLine(r.value, lines, k + 1);
      }
    }
  }
}
