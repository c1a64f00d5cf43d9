/**
 * User functions (hercodeinterpreter/HerCodeFunction.go): a mutable object
 * holding a name, parameter names, a body and a declared return type.  The
 * parser keeps references to the same objects on its function stack and in
 * the global context's function table, so writes through one are seen
 * through the other.
 */
module Functions {
  import opened Text
  import opened Values
  import opened Ast
  import Printer

  /** A snapshot of a function object's name, parameters and body. */
  datatype FunDef = FunDef(name: string, params: seq<string>, body: seq<Stmt>)

  /** The text of HerCodeFunction.String: header with ", "-separated parameters, each statement on a line indented two spaces. */
  function FunctionText(d: FunDef): (r: string)
    ensures HasPrefix(r, d.name + "(" + Join(d.params, ", ") + ") {\n") && HasSuffix(r, "}\n")
    ensures d.body == [] ==> r == d.name + "(" + Join(d.params, ", ") + ") {\n}\n"
  {
    d.name + "(" + Join(d.params, ", ") + ") {\n" + Lines("  ", d.body) + "}\n"
  }

  /** What the parameter loop of HerCodeFunction.String has written after `i` parameters. */
  function ParamsWritten(ps: seq<string>, i: nat): string
    requires i <= |ps|
  {
    if i == 0 then []
    else ParamsWritten(ps, i - 1) + (if i - 1 < |ps| - 1 then ps[i - 1] + ", " else ps[i - 1])
  }

  /** Writing every parameter, each but the last followed by ", ", yields their join. */
  lemma {:induction false} ParamsWrittenIsJoin(ps: seq<string>)
    ensures ParamsWritten(ps, |ps|) == Join(ps, ", ")
    decreases |ps|
  {
    if |ps| > 1 {
      ParamsWrittenIsJoin(ps[1..]);
      WrittenShift(ps, |ps|);
    }
  }

  /** Dropping the first parameter: what is written is the first, a separator, and what the rest write. */
  lemma {:induction false} WrittenShift(ps: seq<string>, i: nat)
    requires 1 <= i <= |ps| && |ps| > 1
    ensures ParamsWritten(ps, i) == ps[0] + ", " + ParamsWritten(ps[1..], i - 1)
  {
    if i > 1 {
      WrittenShift(ps, i - 1);
    }
  }

  class HerCodeFunction {
    var name: string
    var parameters: seq<string>
    var statements: seq<Stmt>
    var returnType: ValueType

    /** NewHerCodeFunction: a named function with no parameters, an empty body and the zero type tag. */
    constructor (name: string)
      ensures this.name == name && parameters == [] && statements == [] && returnType == NumberType
    {
      this.name := name;
      parameters := [];
      statements := [];
      returnType := NumberType;
    }

    /** A composite literal `&HerCodeFunction{...}` as the parser and the built-in table write it. */
    constructor Literal(name: string, parameters: seq<string>, statements: seq<Stmt>, returnType: ValueType)
      ensures this.name == name && this.parameters == parameters
      ensures this.statements == statements && this.returnType == returnType
    {
      this.name := name;
      this.parameters := parameters;
      this.statements := statements;
      this.returnType := returnType;
    }

    function Def(): FunDef
      reads this
    {
      FunDef(name, parameters, statements)
    }

    method SetName(n: string)
      modifies this
      ensures name == n && parameters == old(parameters)
      ensures statements == old(statements) && returnType == old(returnType)
    {
      name := n;
    }

    method SetStatements(ss: seq<Stmt>)
      modifies this
      ensures statements == ss && name == old(name)
      ensures parameters == old(parameters) && returnType == old(returnType)
    {
      statements := ss;
    }

    method SetParameters(ps: seq<string>)
      modifies this
      ensures parameters == ps && name == old(name)
      ensures statements == old(statements) && returnType == old(returnType)
    {
      parameters := ps;
    }

    /** HerCodeFunction.String. */
    method String() returns (r: string)
      ensures r == FunctionText(Def())
    {
      r := name + "(";
      for i := 0 to |parameters|
        invariant r == name + "(" + ParamsWritten(parameters, i)
      {
        if i < |parameters| - 1 {
          r := r + parameters[i] + ", ";
        } else {
          r := r + parameters[i];
        }
      }
      ParamsWrittenIsJoin(parameters);
      r := Printer.WriteLines(r + ") {\n", "  ", statements);
      r := r + "}\n";
    }
  }
}
