/**
 * Runtime values of HerCode (hercodeinterpreter/type.go): the tagged value,
 * the in-band error kinds it can carry, and its textual rendering (Value.String).
 */
module Values {
  import opened Text

  /** The type tags, in their declaration order (Number is tag 0, so Go's zero Value is the Number 0). */
  datatype ValueType = NumberType | StringType | BoolType | VoidType | SliceType | MapType | FunctionType | ErrorType

  /**
   * What an in-band Error value reports.  The Go code carries formatted
   * messages; the model keeps the kind and the data the message is built from.
   */
  datatype Err =
    | UndefinedVariable(name: string)
    | UndefinedFunction(name: string)
    | AssignTargetNotVariable
    | TypeMismatch(op: string, left: ValueType, right: ValueType)
    | DivisionByZero
    | ModuloByZero
    | UnknownOperator(op: string)
    | ConditionNotBool
    | LenArgCount
    | LenNotString
    | SubstrArgCount
    | SubstrNotString
    | SubstrStartNotNumber
    | SubstrStartOutOfRange
    | SubstrEndNotNumber
    | SubstrEndOutOfRange
    | SqrtArgCount
    | SqrtNotNumber
    | SqrtNegative
    | StartUndefined

  /**
   * A value.  Go keeps one struct with a field per kind and a tag; only the
   * field the tag selects is meaningful, so the model uses one constructor per tag.
   * A function value is represented by the name of the function it denotes.
   */
  datatype Value =
    | Number(num: real)
    | Str(str: string)
    | Bool(b: bool)
    | Void
    | Slice(items: seq<Value>)
    | MapVal(entries: map<string, Value>)
    | FuncRef(fname: string)
    | Error(err: Err)

  function TypeOf(v: Value): ValueType {
    match v
    case Number(_) => NumberType
    case Str(_) => StringType
    case Bool(_) => BoolType
    case Void => VoidType
    case Slice(_) => SliceType
    case MapVal(_) => MapType
    case FuncRef(_) => FunctionType
    case Error(_) => ErrorType
  }

  /** Go's zero Value (`Value{}`): tag 0 with a zero number. */
  const ZeroValue: Value := Number(0.0)

  // ---------------------------------------------------------------------------
  // Number rendering: fmt's "%f" (six decimals, ties to even, exact decimal expansion)
  // ---------------------------------------------------------------------------

  /** The nearest natural number to a non-negative real, ties going to the even one. */
  function RoundHalfEven(y: real): (n: nat)
    requires y >= 0.0
    ensures -0.5 <= n as real - y <= 0.5
    ensures (n as real - y == 0.5 || n as real - y == -0.5) ==> n % 2 == 0
  {
    var f := y.Floor;
    var frac := y - f as real;
    if frac < 0.5 then f
    else if frac > 0.5 then f + 1
    else if f % 2 == 0 then f
    else f + 1
  }

  /** The last `k` decimal digits of `m`, zero-padded. */
  function Digits(m: nat, k: nat): (r: string)
    ensures |r| == k && forall i :: 0 <= i < k ==> IsDigit(r[i])
  {
    if k == 0 then [] else Digits(m / 10, k - 1) + [DigitChar(m % 10)]
  }

  /** fmt.Sprintf("%f", x): optional minus sign, integer digits, a point and six digits. */
  function FormatFixed(x: real): (r: string)
    ensures |r| >= 8 && r[|r| - 7] == '.'
    ensures forall i :: |r| - 6 <= i < |r| ==> IsDigit(r[i])
    ensures (r[0] == '-') <==> x < 0.0
  {
    FixedText(x < 0.0, RoundHalfEven(Abs(x) * 1000000.0))
  }

  function Abs(x: real): (a: real)
    ensures a >= 0.0 && (a == x || a == -x)
  {
    if x < 0.0 then -x else x
  }

  /** The "%f" text of the number of millionths `n`, with a minus sign when `negative`. */
  function FixedText(negative: bool, n: nat): (r: string)
    ensures |r| >= 8 && r[|r| - 7] == '.'
    ensures forall i :: |r| - 6 <= i < |r| ==> IsDigit(r[i])
    ensures (r[0] == '-') <==> negative
  {
    (if negative then "-" else "") + NatToDecimal(n / 1000000) + "." + Digits(n % 1000000, 6)
  }

  lemma {:induction false} DigitsOfZero(k: nat)
    ensures Digits(0, k) == seq(k, _ => '0')
  {
    if k > 0 {
      DigitsOfZero(k - 1);
    }
  }

  /** A whole number prints as its decimal digits followed by ".000000". */
  lemma FormatWholeNumber(n: nat)
    ensures FormatFixed(n as real) == NatToDecimal(n) + ".000000"
  {
    FormatNonNegative(n as real);
    ScaleWhole(n);
    WholeMillionths(n);
  }

  lemma FormatNonNegative(x: real)
    requires x >= 0.0
    ensures FormatFixed(x) == FixedText(false, RoundHalfEven(x * 1000000.0))
  {
    assert Abs(x) == x;
  }

  lemma ScaleWhole(n: nat)
    ensures RoundHalfEven((n as real) * 1000000.0) == n * 1000000
  {
    var m := n * 1000000;
    assert (n as real) * 1000000.0 == m as real;
    assert (m as real).Floor == m;
  }

  lemma WholeMillionths(n: nat)
    ensures FixedText(false, n * 1000000) == NatToDecimal(n) + ".000000"
  {
    var m := n * 1000000;
    assert m / 1000000 == n && m % 1000000 == 0;
    DigitsOfZero(6);
    assert Digits(0, 6) == "000000";
    var d := NatToDecimal(n);
    assert FixedText(false, m) == "" + d + "." + "000000";
    assert "" + d + "." + "000000" == d + ".000000";
  }

  // ---------------------------------------------------------------------------
  // Map keys in a fixed order (Go iterates a map in an unspecified order)
  // ---------------------------------------------------------------------------

  predicate IsLeast(k: string, ks: set<string>) {
    k in ks && forall j :: j in ks && j != k ==> LexLess(k, j)
  }

  lemma {:induction false} LeastExists(ks: set<string>)
    requires ks != {}
    ensures exists k :: IsLeast(k, ks)
    decreases |ks|
  {
    var x :| x in ks;
    if ks == {x} {
      assert IsLeast(x, ks);
    } else {
      var rest := ks - {x};
      LeastExists(rest);
      var m :| IsLeast(m, rest);
      if LexLess(x, m) {
        forall j | j in ks && j != x
          ensures LexLess(x, j)
        {
          if j != m {
            LexLessTransitive(x, m, j);
          }
        }
        assert IsLeast(x, ks);
      } else {
        LexLessTotal(x, m);
        assert IsLeast(m, ks);
      }
    }
  }

  lemma LeastUnique(ks: set<string>)
    ensures forall a, b :: IsLeast(a, ks) && IsLeast(b, ks) ==> a == b
  {
    forall a, b | IsLeast(a, ks) && IsLeast(b, ks)
      ensures a == b
    {
      if a != b {
        LexLessAsymmetric(a, b);
      }
    }
  }

  function LeastKey(ks: set<string>): (k: string)
    requires ks != {}
    ensures IsLeast(k, ks)
  {
    LeastExists(ks);
    LeastUnique(ks);
    var k :| IsLeast(k, ks);
    k
  }

  /** The keys of a map in ascending byte order: each key exactly once. */
  function SortedKeys(ks: set<string>): (r: seq<string>)
    ensures |r| == |ks|
    ensures forall k :: k in r <==> k in ks
    ensures forall i, j :: 0 <= i < j < |r| ==> LexLess(r[i], r[j])
    decreases |ks|
  {
    if ks == {} then []
    else
      var k := LeastKey(ks);
      [k] + SortedKeys(ks - {k})
  }

  // ---------------------------------------------------------------------------
  // Value.String
  // ---------------------------------------------------------------------------

  /**
   * The text of a value: a number in "%f" form, a string verbatim, a boolean
   * as true/false, a slice as "[" + elements joined by ", " + "]", a map as its
   * "key: value" entries joined by ", " without braces, anything else as "".
   */
  function Render(v: Value): (r: string)
    ensures v.Slice? ==> |r| >= 2 && r[0] == '[' && r[|r| - 1] == ']'
    ensures v.Void? || v.Error? || v.FuncRef? || (v.MapVal? && v.entries == map[]) ==> r == []
    decreases v, 1, 0
  {
    match v
    case Number(x) => FormatFixed(x)
    case Str(s) => s
    case Bool(b) => if b then "true" else "false"
    case MapVal(m) => Join(EntryTexts(v, SortedKeys(m.Keys)), ", ")
    case Slice(items) => "[" + Join(ItemTexts(items), ", ") + "]"
    case FuncRef(_) => ""
    case Void => ""
    case Error(_) => ""
  }

  /** The texts of the elements of a slice, in order. */
  function ItemTexts(items: seq<Value>): (r: seq<string>)
    ensures |r| == |items|
    ensures forall i :: 0 <= i < |items| ==> r[i] == Render(items[i])
    decreases items, 0, 0
  {
    if items == [] then []
    else [Render(items[0])] + ItemTexts(items[1..])
  }

  /** The "key: value" text of each listed key of a map value, in the order listed. */
  function EntryTexts(v: Value, keys: seq<string>): (r: seq<string>)
    requires v.MapVal? && forall k :: k in keys ==> k in v.entries
    ensures |r| == |keys|
    ensures forall i :: 0 <= i < |keys| ==> r[i] == keys[i] + ": " + Render(v.entries[keys[i]])
    decreases v, 0, |keys|
  {
    if keys == [] then []
    else [keys[0] + ": " + Render(v.entries[keys[0]])] + EntryTexts(v, keys[1..])
  }

  /** A string renders verbatim without quotes, a boolean as true or false, and Void, Error and function values as nothing. */
  lemma RenderScalars(s: string, b: bool, e: Err, f: string)
    ensures Render(Str(s)) == s
    ensures Render(Bool(b)) == (if b then "true" else "false")
    ensures Render(Void) == "" && Render(Error(e)) == "" && Render(FuncRef(f)) == ""
  {
  }

  /** Go's zero Value is a Number, because NumberType is the first tag, and its payload is 0. */
  lemma ZeroValueIsNumber()
    ensures TypeOf(ZeroValue) == NumberType && ZeroValue.num == 0.0
  {
  }

  /** A slice renders as its elements inside brackets; the empty slice as "[]". */
  lemma RenderSlice(items: seq<Value>)
    ensures |Render(Slice(items))| >= 2
    ensures Render(Slice(items))[0] == '[' && Render(Slice(items))[|Render(Slice(items))| - 1] == ']'
    ensures items == [] ==> Render(Slice(items)) == "[]"
    ensures |items| == 1 ==> Render(Slice(items)) == "[" + Render(items[0]) + "]"
  {
  }

  /** A map renders one entry per key, so a map with a single key renders that one entry. */
  lemma RenderSingletonMap(k: string, v: Value)
    ensures Render(MapVal(map[k := v])) == k + ": " + Render(v)
  {
    var m := map[k := v];
    assert m.Keys == {k};
    var ks := SortedKeys(m.Keys);
    assert |ks| == 1 && ks[0] == k;
  }
}
