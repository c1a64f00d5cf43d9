/**
 * The text scanners of hercodeinterpreter/func.go: comment stripping, quote
 * extraction, splitting at top-level commas and at top-level operators, and
 * the function-header parser.  Each is defined once as a specification
 * function (what it computes) and once as a method written as the Go loop
 * is written, proved to compute the same thing.
 */
module Scanners {
  import opened Wrappers
  import opened Text

  // ---------------------------------------------------------------------------
  // cleanComment
  // ---------------------------------------------------------------------------

  /** The number of consecutive backslashes immediately before position `i`. */
  function BackslashRun(s: string, i: nat): (n: nat)
    requires i <= |s|
    ensures n <= i
    ensures forall j :: i - n <= j < i ==> s[j] == '\\'
    ensures n < i ==> s[i - n - 1] != '\\'
  {
    if i == 0 || s[i - 1] != '\\' then 0 else 1 + BackslashRun(s, i - 1)
  }

  /** A quote that switches the quoted state: one preceded by an even number of backslashes. */
  predicate IsToggle(s: string, i: nat)
    requires i < |s|
  {
    s[i] == '"' && BackslashRun(s, i) % 2 == 0
  }

  /** Whether the scan is inside quotes once it has read the first `i` characters. */
  function QuotedAfter(s: string, i: nat): bool
    requires i <= |s|
  {
    if i == 0 then false
    else if IsToggle(s, i - 1) then !QuotedAfter(s, i - 1)
    else QuotedAfter(s, i - 1)
  }

  /** A '#' outside quotes, where a comment starts. */
  predicate IsCommentMark(s: string, i: nat)
    requires i < |s|
  {
    s[i] == '#' && !QuotedAfter(s, i)
  }

  /** The first comment mark at or after `i`, or the length of the text. */
  function FirstMark(s: string, i: nat): (r: nat)
    requires i <= |s|
    ensures i <= r <= |s|
    ensures forall j :: i <= j < r ==> !IsCommentMark(s, j)
    ensures r < |s| ==> IsCommentMark(s, r)
    decreases |s| - i
  {
    if i == |s| then |s| else if IsCommentMark(s, i) then i else FirstMark(s, i + 1)
  }

  /** The text before its first '#' outside quotes; the whole text when there is none. */
  function Uncommented(s: string): (r: string)
    ensures |r| <= |s| && r == s[..|r|]
    ensures (forall i :: 0 <= i < |s| ==> !IsCommentMark(s, i)) ==> r == s
    ensures |r| < |s| ==> IsCommentMark(s, |r|)
    ensures forall i :: 0 <= i < |r| ==> !IsCommentMark(s, i)
  {
    s[..FirstMark(s, 0)]
  }

  /** Whether a position is quoted and preceded by backslashes depends only on the text up to it. */
  lemma {:induction false} ScanStateOfPrefix(s: string, k: nat, i: nat)
    requires i <= k <= |s|
    ensures BackslashRun(s[..k], i) == BackslashRun(s, i)
    ensures QuotedAfter(s[..k], i) == QuotedAfter(s, i)
  {
    if i > 0 {
      ScanStateOfPrefix(s, k, i - 1);
    }
  }

  /** Stripping the comment of a text that has none changes nothing: Uncommented is idempotent. */
  lemma UncommentedIdempotent(s: string)
    ensures Uncommented(Uncommented(s)) == Uncommented(s)
  {
    var t := Uncommented(s);
    assert t == s[..|t|];
    forall i | 0 <= i < |t|
      ensures !IsCommentMark(t, i)
    {
      ScanStateOfPrefix(s, |t|, i);
      assert !IsCommentMark(s, i);
      assert t[i] == s[i];
    }
  }

  /** A text without '#' has no comment. */
  lemma NoHashNoComment(s: string)
    requires '#' !in s
    ensures Uncommented(s) == s
  {
  }

  /** cleanComment, as the Go loop computes it, counting the backslashes before each quote. */
  method CleanComment(s: string) returns (r: string)
    ensures r == Uncommented(s)
  {
    if |s| == 0 {
      return "";
    }
    var insideQuotes := false;
    var end := |s|;
    var i := 0;
    while i < |s|
      invariant 0 <= i <= |s|
      invariant insideQuotes == QuotedAfter(s, i)
      invariant FirstMark(s, i) == FirstMark(s, 0)
      invariant end == |s|
    {
      if s[i] == '"' {
        var slashCount := 0;
        var j := i - 1;
        while j >= 0 && s[j] == '\\'
          invariant -1 <= j < i
          invariant slashCount + BackslashRun(s, j + 1) == BackslashRun(s, i)
        {
          slashCount := slashCount + 1;
          j := j - 1;
        }
        if slashCount % 2 == 0 {
          insideQuotes := !insideQuotes;
        }
      }
      if s[i] == '#' && !insideQuotes {
        end := i;
        break;
      }
      i := i + 1;
    }
    r := s[..end];
  }

  // ---------------------------------------------------------------------------
  // cleanQuotes
  // ---------------------------------------------------------------------------

  /** A quote not directly preceded by a backslash. */
  predicate IsUnescapedQuote(s: string, i: nat)
    requires i < |s|
  {
    s[i] == '"' && !(i > 0 && s[i - 1] == '\\')
  }

  /** The first unescaped quote at or after `i`. */
  function NextQuote(s: string, i: nat): (r: Option<nat>)
    requires i <= |s|
    ensures r.None? ==> forall j :: i <= j < |s| ==> !IsUnescapedQuote(s, j)
    ensures r.Some? ==> i <= r.value < |s| && IsUnescapedQuote(s, r.value)
    ensures r.Some? ==> forall j :: i <= j < r.value ==> !IsUnescapedQuote(s, j)
    decreases |s| - i
  {
    if i == |s| then None else if IsUnescapedQuote(s, i) then Some(i) else NextQuote(s, i + 1)
  }

  /**
   * The text inside the first pair of unescaped quotes: from after the first
   * one to before the next one, or to the end when there is no second one.
   * A text without an unescaped quote is returned whole.
   */
  function QuotedText(s: string): (r: string)
    ensures NextQuote(s, 0).None? ==> r == s
    ensures NextQuote(s, 0).Some? ==> var q := NextQuote(s, 0).value;
              s[..q + 1] + r <= s && forall j :: q + 1 <= j < q + 1 + |r| ==> !IsUnescapedQuote(s, j)
    ensures NextQuote(s, 0).Some? ==> var e := NextQuote(s, 0).value + 1 + |r|;
              e == |s| || IsUnescapedQuote(s, e)
  {
    match NextQuote(s, 0)
    case None => s
    case Some(q) =>
      match NextQuote(s, q + 1)
      case None =>
        assert s[..q + 1] + s[q + 1..] == s;
        s[q + 1..]
      case Some(e) =>
        assert s[..q + 1] + s[q + 1..e] == s[..e];
        s[q + 1..e]
  }

  /** The first unescaped quote from `i` on is at `k` when `k` is one and nothing between is. */
  lemma {:induction false} NextQuoteAt(s: string, i: nat, k: nat)
    requires i <= k < |s| && IsUnescapedQuote(s, k)
    requires forall j :: i <= j < k ==> !IsUnescapedQuote(s, j)
    ensures NextQuote(s, i) == Some(k)
    decreases k - i
  {
    if i < k {
      NextQuoteAt(s, i + 1, k);
    }
  }

  /** Quoting a text that holds no quote and does not end in a backslash, and extracting it again, gives it back. */
  lemma QuotedTextRoundTrip(t: string, rest: string)
    requires '"' !in t && (t == [] || t[|t| - 1] != '\\')
    ensures QuotedText("\"" + t + "\"" + rest) == t
  {
    var s := "\"" + t + "\"" + rest;
    var k := |t| + 1;
    assert IsUnescapedQuote(s, 0);
    assert NextQuote(s, 0) == Some(0);
    assert s[k] == '"' && s[k - 1] != '\\';
    forall j | 1 <= j < k
      ensures !IsUnescapedQuote(s, j)
    {
      assert s[j] == t[j - 1];
    }
    NextQuoteAt(s, 1, k);
    assert s[1..k] == t;
  }

  /** cleanQuotes, as the Go loop walks the text. */
  method CleanQuotes(s: string) returns (r: string)
    ensures r == QuotedText(s)
  {
    var n := |s|;
    if n == 0 {
      return "";
    }
    var start := 0;
    var end := n;
    var i := 0;
    while i < n
      invariant 0 <= i <= n
      invariant NextQuote(s, i) == NextQuote(s, 0)
      invariant start == 0 && end == n
    {
      if s[i] == '"' && !(i > 0 && s[i - 1] == '\\') {
        start := i + 1;
        var k := i + 1;
        while k < n
          invariant i + 1 <= k <= n
          invariant NextQuote(s, k) == NextQuote(s, i + 1)
          invariant end == n
        {
          if s[k] == '"' && !(k > 0 && s[k - 1] == '\\') {
            end := k;
            break;
          }
          k := k + 1;
        }
        break;
      }
      i := i + 1;
    }
    r := s[start..end];
  }

  // ---------------------------------------------------------------------------
  // Splitting at top-level separators
  // ---------------------------------------------------------------------------

  /** The parenthesis depth after scanning `s` from depth `depth`. */
  function DepthAfter(s: string, depth: int): int
    decreases |s|
  {
    if s == [] then depth
    else DepthAfter(s[1..], if s[0] == '(' then depth + 1 else if s[0] == ')' then depth - 1 else depth)
  }

  /**
   * No occurrence of `op` at depth 0 starts inside `p`, when the scan enters
   * `p` at depth `depth` and `q` follows `p` (an occurrence may reach into
   * `q`).  As in the scan, a parenthesis never starts an occurrence.
   */
  predicate NoTopOp(p: string, q: string, op: string, depth: int)
    requires |op| > 0
    decreases |p|
  {
    if p == [] then true
    else if p[0] == '(' then NoTopOp(p[1..], q, op, depth + 1)
    else if p[0] == ')' then NoTopOp(p[1..], q, op, depth - 1)
    else !(depth == 0 && HasPrefix(p + q, op)) && NoTopOp(p[1..], q, op, depth)
  }

  /**
   * The shape of the pieces of a split at every depth-0 occurrence of `op`:
   * every piece but the last closes all its parentheses and holds no
   * depth-0 occurrence of `op`, not even one reaching into the `op` after
   * it, and the last piece holds none either.
   */
  predicate WellCut(ps: seq<string>, op: string)
    requires |op| > 0
  {
    (forall i :: 0 <= i < |ps| - 1 ==> DepthAfter(ps[i], 0) == 0 && NoTopOp(ps[i], op, op, 0)) &&
    (|ps| > 0 ==> NoTopOp(ps[|ps| - 1], [], op, 0))
  }

  lemma {:induction false} DepthAfterAppend(a: string, b: string, depth: int)
    ensures DepthAfter(a + b, depth) == DepthAfter(b, DepthAfter(a, depth))
    decreases |a|
  {
    if a == [] {
      assert a + b == b;
    } else {
      assert (a + b)[1..] == a[1..] + b;
      DepthAfterAppend(a[1..], b, if a[0] == '(' then depth + 1 else if a[0] == ')' then depth - 1 else depth);
    }
  }

  /** NoTopOp of a concatenation is NoTopOp of each part, the second entered at the depth the first leaves. */
  lemma {:induction false} NoTopOpAppend(a: string, b: string, q: string, op: string, depth: int)
    requires |op| > 0
    ensures NoTopOp(a + b, q, op, depth) == (NoTopOp(a, b + q, op, depth) && NoTopOp(b, q, op, DepthAfter(a, depth)))
    decreases |a|
  {
    if a == [] {
      assert a + b == b;
    } else {
      assert (a + b)[1..] == a[1..] + b;
      assert (a + b) + q == a + (b + q);
      NoTopOpAppend(a[1..], b, q, op, if a[0] == '(' then depth + 1 else if a[0] == ')' then depth - 1 else depth);
    }
  }

  /** Once at least |op| - 1 characters follow `p`, what comes after them does not matter. */
  lemma {:induction false} NoTopOpContext(p: string, q: string, w: string, op: string, depth: int)
    requires |op| > 0 && |q| + 1 >= |op|
    ensures NoTopOp(p, q + w, op, depth) == NoTopOp(p, q, op, depth)
    decreases |p|
  {
    if p != [] {
      assert (p + (q + w))[..|op|] == (p + q)[..|op|];
      NoTopOpContext(p[1..], q, w, op, if p[0] == '(' then depth + 1 else if p[0] == ')' then depth - 1 else depth);
    }
  }

  /** An occurrence that would reach past the end of the text is none. */
  lemma {:induction false} NoTopOpWithoutContext(p: string, q: string, op: string, depth: int)
    requires |op| > 0 && NoTopOp(p, q, op, depth)
    ensures NoTopOp(p, [], op, depth)
    decreases |p|
  {
    if p != [] {
      assert p + [] == p;
      assert HasPrefix(p, op) ==> (p + q)[..|op|] == p[..|op|];
      NoTopOpWithoutContext(p[1..], q, op, if p[0] == '(' then depth + 1 else if p[0] == ')' then depth - 1 else depth);
    }
  }

  /** The pieces collected so far, without a trailing empty one (the builder is appended only when non-empty). */
  function DropEmptyLast(ps: seq<string>): (r: seq<string>)
    requires |ps| > 0
    ensures r == ps || (r == ps[..|ps| - 1] && ps[|ps| - 1] == [])
  {
    if ps[|ps| - 1] == [] then ps[..|ps| - 1] else ps
  }

  /**
   * All pieces of an argument list, the trailing one included, when the scan
   * is at parenthesis depth `depth` with `cur` in the builder: a comma at
   * depth 0 ends a piece; parentheses change the depth (without bound in
   * either direction); every other character goes into the piece.
   */
  function ArgPieces(s: string, depth: int, cur: string): (r: seq<string>)
    ensures |r| > 0
    decreases |s|
  {
    if s == [] then [cur]
    else if s[0] == '(' then ArgPieces(s[1..], depth + 1, cur + "(")
    else if s[0] == ')' then ArgPieces(s[1..], depth - 1, cur + ")")
    else if s[0] == ',' && depth == 0 then [cur] + ArgPieces(s[1..], depth, "")
    else ArgPieces(s[1..], depth, cur + [s[0]])
  }

  /** The result of splitArguments: the pieces at top-level commas, a trailing empty one dropped. */
  function Arguments(s: string): (r: seq<string>)
    ensures r == [] <==> s == []
  {
    ArgPiecesJoin(s, 0, "");
    DropEmptyLast(ArgPieces(s, 0, ""))
  }

  /** The pieces, separators put back, are the builder's content followed by the rest of the text. */
  lemma {:induction false} ArgPiecesJoin(s: string, depth: int, cur: string)
    ensures Join(ArgPieces(s, depth, cur), ",") == cur + s
    decreases |s|
  {
    if s != [] {
      var c := s[0];
      assert s == [c] + s[1..];
      if c == '(' {
        ArgPiecesJoin(s[1..], depth + 1, cur + "(");
      } else if c == ')' {
        ArgPiecesJoin(s[1..], depth - 1, cur + ")");
      } else if c == ',' && depth == 0 {
        ArgPiecesJoin(s[1..], depth, "");
        JoinCons(cur, ArgPieces(s[1..], depth, ""), ",");
      } else {
        ArgPiecesJoin(s[1..], depth, cur + [c]);
      }
    }
  }

  /** Dropping a trailing empty piece loses one separator of the join. */
  lemma DropEmptyLastJoin(ps: seq<string>, sep: string, s: string)
    requires |ps| > 0 && Join(ps, sep) == s
    ensures var r := DropEmptyLast(ps); Join(r, sep) == s || (|r| > 0 && Join(r, sep) + sep == s) || (r == [] && s == [])
  {
    var r := DropEmptyLast(ps);
    if r != ps && |r| > 0 {
      assert ps == r + [[]];
      JoinSnoc(r, [], sep);
    }
  }

  /** The comma scan of splitArguments is the operator scan of splitByOperator for the operator ",". */
  lemma {:induction false} ArgPiecesAreOpPieces(s: string, depth: int, cur: string)
    ensures ArgPieces(s, depth, cur) == OpPieces(s, ",", depth, cur)
    decreases |s|
  {
    if s != [] {
      var c := s[0];
      if c == '(' {
        ArgPiecesAreOpPieces(s[1..], depth + 1, cur + "(");
      } else if c == ')' {
        ArgPiecesAreOpPieces(s[1..], depth - 1, cur + ")");
      } else if c == ',' && depth == 0 {
        assert HasPrefix(s, ",");
        ArgPiecesAreOpPieces(s[1..], depth, "");
      } else {
        assert !(depth == 0 && HasPrefix(s, ","));
        ArgPiecesAreOpPieces(s[1..], depth, cur + [c]);
      }
    }
  }

  /**
   * splitArguments cuts at every depth-0 comma and only there: joining the
   * pieces with "," restores the text, except for a trailing empty piece
   * that was dropped (the empty text, or one ending in a depth-0 comma),
   * and the pieces are well cut at ",".
   */
  lemma ArgumentsJoin(s: string)
    ensures var r := Arguments(s); Join(r, ",") == s || (|r| > 0 && Join(r, ",") + "," == s) || (r == [] && s == [])
    ensures WellCut(Arguments(s), ",")
  {
    ArgPiecesAreOpPieces(s, 0, "");
    OperatorSplitJoin(s, ",");
  }

  /**
   * The cut at a comma: when `a` closes its parentheses and has no depth-0
   * comma, the scan of a + "," + b ends the first argument as `a`.
   */
  lemma ArgPiecesSplitAt(a: string, b: string)
    requires DepthAfter(a, 0) == 0 && NoTopOp(a, [], ",", 0)
    ensures ArgPieces(a + "," + b, 0, "") == [a] + ArgPieces(b, 0, "")
  {
    NoTopOpContext(a, [], ",", ",", 0);
    assert [] + "," == ",";
    ArgPiecesAreOpPieces(a + "," + b, 0, "");
    ArgPiecesAreOpPieces(b, 0, "");
    OpPiecesSplitAt(a, b, ",");
  }

  /**
   * No cut inside parentheses: a text without depth-0 commas goes whole into
   * the current piece, commas nested in parentheses included.
   */
  lemma ArgPiecesSkip(p: string, q: string, depth: int, cur: string)
    requires NoTopOp(p, [], ",", depth)
    ensures ArgPieces(p + q, depth, cur) == ArgPieces(q, DepthAfter(p, depth), cur + p)
  {
    NoTopOpContext(p, [], q, ",", depth);
    assert [] + q == q;
    ArgPiecesAreOpPieces(p + q, depth, cur);
    ArgPiecesAreOpPieces(q, DepthAfter(p, depth), cur + p);
    OpPiecesSkip(p, q, ",", depth, cur);
  }

  /** Well-cut arguments, the last non-empty, joined with "," and split again, come back unchanged. */
  lemma ArgumentsOfJoin(ps: seq<string>)
    requires WellCut(ps, ",") && (ps == [] || ps[|ps| - 1] != [])
    ensures Arguments(Join(ps, ",")) == ps
  {
    ArgPiecesAreOpPieces(Join(ps, ","), 0, "");
    OperatorSplitOfJoin(ps, ",");
  }

  /** A call among the arguments keeps its own commas: `f(a,b),c` is the two arguments `f(a,b)` and `c`. */
  lemma ArgumentsKeepNestedCommas()
    ensures Arguments("f(a,b),c") == ["f(a,b)", "c"]
  {
    var ps := ["f(a,b)", "c"];
    assert DepthAfter("f(a,b)", 0) == 0;
    assert NoTopOp("f(a,b)", ",", ",", 0);
    assert NoTopOp("c", [], ",", 0);
    assert Join(ps, ",") == "f(a,b),c";
    ArgumentsOfJoin(ps);
  }

  /** No argument piece is longer than the argument text. */
  lemma ArgumentsShorter(s: string)
    ensures forall i :: 0 <= i < |Arguments(s)| ==> |Arguments(s)[i]| <= |s|
  {
    var ps := ArgPieces(s, 0, "");
    ArgPiecesJoin(s, 0, "");
    forall i | 0 <= i < |Arguments(s)|
      ensures |Arguments(s)[i]| <= |s|
    {
      assert Arguments(s)[i] == ps[i];
      JoinPartLength(ps, ",", i);
    }
  }

  /** A text without commas is a single argument. */
  lemma {:induction false} NoCommaOnePiece(s: string, depth: int, cur: string)
    requires ',' !in s
    ensures ArgPieces(s, depth, cur) == [cur + s]
    decreases |s|
  {
    if s != [] {
      var c := s[0];
      assert s == [c] + s[1..];
      if c == '(' {
        NoCommaOnePiece(s[1..], depth + 1, cur + "(");
        assert cur + "(" + s[1..] == cur + s;
      } else if c == ')' {
        NoCommaOnePiece(s[1..], depth - 1, cur + ")");
        assert cur + ")" + s[1..] == cur + s;
      } else {
        assert c in s;
        NoCommaOnePiece(s[1..], depth, cur + [c]);
        assert cur + [c] + s[1..] == cur + s;
      }
    } else {
      assert cur + s == cur;
    }
  }

  /** splitArguments, as the Go loop builds its pieces. */
  method SplitArguments(argsStr: string) returns (args: seq<string>)
    ensures args == Arguments(argsStr)
  {
    args := [];
    var current := "";
    var parenDepth := 0;
    for i := 0 to |argsStr|
      invariant ArgPieces(argsStr, 0, "") == args + ArgPieces(argsStr[i..], parenDepth, current)
    {
      var r := argsStr[i];
      assert argsStr[i..][1..] == argsStr[i + 1..];
      if r == '(' {
        parenDepth := parenDepth + 1;
        current := current + [r];
      } else if r == ')' {
        parenDepth := parenDepth - 1;
        current := current + [r];
      } else if r == ',' {
        if parenDepth == 0 {
          args := args + [current];
          current := "";
        } else {
          current := current + [r];
        }
      } else {
        current := current + [r];
      }
    }
    if |current| > 0 {
      args := args + [current];
    } else {
      assert (args + [current])[..|args|] == args;
    }
  }

  /**
   * All pieces of a text split at operator `op`, the trailing one included,
   * when the scan is at depth `depth` with `cur` in the builder.  Parentheses
   * change the depth and never start a match; at depth 0 an occurrence of
   * `op` ends a piece and is skipped whole, so matches do not overlap.
   */
  function OpPieces(s: string, op: string, depth: int, cur: string): (r: seq<string>)
    requires |op| > 0
    ensures |r| > 0
    decreases |s|
  {
    if s == [] then [cur]
    else if s[0] == '(' then OpPieces(s[1..], op, depth + 1, cur + "(")
    else if s[0] == ')' then OpPieces(s[1..], op, depth - 1, cur + ")")
    else if depth == 0 && HasPrefix(s, op) then [cur] + OpPieces(s[|op|..], op, depth, "")
    else OpPieces(s[1..], op, depth, cur + [s[0]])
  }

  /** The result of splitByOperator: the pieces at top-level occurrences of `op`, a trailing empty one dropped. */
  function OperatorSplit(s: string, op: string): (r: seq<string>)
    requires |op| > 0
    ensures r == [] <==> s == []
  {
    OpPiecesJoin(s, op, 0, "");
    DropEmptyLast(OpPieces(s, op, 0, ""))
  }

  /** The pieces, the operator put back between them, are the builder's content followed by the rest of the text. */
  lemma {:induction false} OpPiecesJoin(s: string, op: string, depth: int, cur: string)
    requires |op| > 0
    ensures Join(OpPieces(s, op, depth, cur), op) == cur + s
    decreases |s|
  {
    if s != [] {
      var c := s[0];
      if c == '(' {
        assert s == [c] + s[1..];
        OpPiecesJoin(s[1..], op, depth + 1, cur + "(");
      } else if c == ')' {
        assert s == [c] + s[1..];
        OpPiecesJoin(s[1..], op, depth - 1, cur + ")");
      } else if depth == 0 && HasPrefix(s, op) {
        assert s == op + s[|op|..];
        OpPiecesJoin(s[|op|..], op, depth, "");
        JoinCons(cur, OpPieces(s[|op|..], op, depth, ""), op);
      } else {
        assert s == [c] + s[1..];
        OpPiecesJoin(s[1..], op, depth, cur + [c]);
      }
    }
  }

  /** A text that starts with the operator (not a parenthesis) has an empty first piece. */
  lemma LeadingOperator(s: string, op: string)
    requires |op| > 0 && HasPrefix(s, op) && s[0] != '(' && s[0] != ')'
    ensures |OperatorSplit(s, op)| > 0 && OperatorSplit(s, op)[0] == ""
  {
    var ps := OpPieces(s, op, 0, "");
    assert ps == [""] + OpPieces(s[|op|..], op, 0, "");
  }

  /**
   * When the split finds the operator, the first piece and the re-joined
   * remaining pieces are both shorter than the text (the parser recurses on
   * them).
   */
  lemma OperatorSplitShorter(s: string, op: string)
    requires |op| > 0 && |OperatorSplit(s, op)| > 1
    ensures |OperatorSplit(s, op)[0]| < |s|
    ensures |Join(OperatorSplit(s, op)[1..], op)| < |s|
  {
    var ps := OpPieces(s, op, 0, "");
    var r := OperatorSplit(s, op);
    OpPiecesJoin(s, op, 0, "");
    assert Join(ps, op) == ps[0] + op + Join(ps[1..], op);
    assert r[0] == ps[0];
    if r != ps {
      assert ps[1..] == r[1..] + [[]];
      JoinSnoc(r[1..], [], op);
    }
  }

  /**
   * Scanning over a text `p` with no depth-0 occurrence of `op` puts all of
   * it into the current piece: the scan goes on after `p` at the depth
   * `p` leaves, with `p` added to the builder.
   */
  lemma {:induction false} OpPiecesSkip(p: string, q: string, op: string, depth: int, cur: string)
    requires |op| > 0 && NoTopOp(p, q, op, depth)
    ensures OpPieces(p + q, op, depth, cur) == OpPieces(q, op, DepthAfter(p, depth), cur + p)
    decreases |p|
  {
    if p == [] {
      assert p + q == q && cur + p == cur;
    } else {
      var c := p[0];
      assert (p + q)[0] == c && (p + q)[1..] == p[1..] + q;
      assert cur + p == cur + [c] + p[1..];
      OpPiecesSkip(p[1..], q, op, if c == '(' then depth + 1 else if c == ')' then depth - 1 else depth, cur + [c]);
    }
  }

  /**
   * The cut: when `a` closes its parentheses and holds no depth-0
   * occurrence of `op` (not even one reaching into the `op` after it), the
   * scan of a + op + b ends the first piece as `a` and goes on with `b`.
   */
  lemma OpPiecesSplitAt(a: string, b: string, op: string)
    requires |op| > 0 && op[0] != '(' && op[0] != ')'
    requires DepthAfter(a, 0) == 0 && NoTopOp(a, op, op, 0)
    ensures OpPieces(a + op + b, op, 0, "") == [a] + OpPieces(b, op, 0, "")
  {
    NoTopOpContext(a, op, b, op, 0);
    assert a + op + b == a + (op + b);
    OpPiecesSkip(a, op + b, op, 0, "");
    assert "" + a == a;
    var s := op + b;
    assert HasPrefix(s, op) && s[0] == op[0] && s[|op|..] == b;
  }

  /** The pieces of a scan whose builder holds a text of the right shape are well cut. */
  lemma {:induction false} OpPiecesShape(s: string, op: string, depth: int, cur: string)
    requires |op| > 0
    requires DepthAfter(cur, 0) == depth && NoTopOp(cur, s, op, 0)
    ensures WellCut(OpPieces(s, op, depth, cur), op)
    decreases |s|
  {
    var ps := OpPieces(s, op, depth, cur);
    if s == [] {
      assert ps == [cur];
    } else {
      var c := s[0];
      if c == '(' || c == ')' || !(depth == 0 && HasPrefix(s, op)) {
        var d := if c == '(' then depth + 1 else if c == ')' then depth - 1 else depth;
        assert [c] + s[1..] == s;
        NoTopOpAppend(cur, [c], s[1..], op, 0);
        DepthAfterAppend(cur, [c], 0);
        assert [c][1..] == [];
        OpPiecesShape(s[1..], op, d, cur + [c]);
      } else {
        var rest := OpPieces(s[|op|..], op, 0, "");
        assert ps == [cur] + rest;
        assert s == op + s[|op|..];
        NoTopOpContext(cur, op, s[|op|..], op, 0);
        OpPiecesShape(s[|op|..], op, 0, "");
        forall i | 0 <= i < |ps| - 1
          ensures DepthAfter(ps[i], 0) == 0 && NoTopOp(ps[i], op, op, 0)
        {
          if i > 0 {
            assert ps[i] == rest[i - 1];
          }
        }
        assert ps[|ps| - 1] == rest[|rest| - 1];
      }
    }
  }

  /** Dropping an empty last piece keeps the pieces well cut. */
  lemma DropEmptyLastWellCut(ps: seq<string>, op: string)
    requires |op| > 0 && |ps| > 0 && WellCut(ps, op)
    ensures WellCut(DropEmptyLast(ps), op)
  {
    var r := DropEmptyLast(ps);
    if r != ps && |r| > 0 {
      assert r[|r| - 1] == ps[|ps| - 2];
      NoTopOpWithoutContext(r[|r| - 1], op, op, 0);
    }
  }

  /**
   * The inverse of joining: well-cut pieces, the last of them non-empty,
   * joined with `op` and split again at `op`, are the same pieces.
   */
  lemma {:induction false} OpPiecesOfJoin(ps: seq<string>, op: string)
    requires |op| > 0 && op[0] != '(' && op[0] != ')'
    requires |ps| > 0 && WellCut(ps, op)
    ensures OpPieces(Join(ps, op), op, 0, "") == ps
    decreases |ps|
  {
    if |ps| == 1 {
      var p := ps[0];
      assert p + [] == p && "" + p == p;
      OpPiecesSkip(p, [], op, 0, "");
    } else {
      var rest := ps[1..];
      assert WellCut(rest, op) by {
        forall i | 0 <= i < |rest| - 1
          ensures DepthAfter(rest[i], 0) == 0 && NoTopOp(rest[i], op, op, 0)
        {
          assert rest[i] == ps[i + 1];
        }
        assert rest[|rest| - 1] == ps[|ps| - 1];
      }
      OpPiecesOfJoin(rest, op);
      OpPiecesSplitAt(ps[0], Join(rest, op), op);
      assert [ps[0]] + rest == ps;
    }
  }

  /**
   * splitByOperator cuts at every depth-0 occurrence of `op` and only there:
   * joining its pieces with `op` gives the text back (less a dropped trailing
   * empty piece), and its pieces are well cut.
   */
  lemma OperatorSplitJoin(s: string, op: string)
    requires |op| > 0
    ensures var r := OperatorSplit(s, op); Join(r, op) == s || (|r| > 0 && Join(r, op) + op == s) || (r == [] && s == [])
    ensures WellCut(OperatorSplit(s, op), op)
  {
    OpPiecesJoin(s, op, 0, "");
    DropEmptyLastJoin(OpPieces(s, op, 0, ""), op, s);
    OpPiecesShape(s, op, 0, "");
    DropEmptyLastWellCut(OpPieces(s, op, 0, ""), op);
  }

  /** Well-cut pieces with a non-empty last one come back from splitting their join. */
  lemma OperatorSplitOfJoin(ps: seq<string>, op: string)
    requires |op| > 0 && op[0] != '(' && op[0] != ')'
    requires WellCut(ps, op) && (ps == [] || ps[|ps| - 1] != [])
    ensures OperatorSplit(Join(ps, op), op) == ps
  {
    if ps != [] {
      OpPiecesOfJoin(ps, op);
    }
  }

  /** A text without the first character of `op` is not cut by `op`. */
  lemma {:induction false} OpPiecesAbsent(s: string, op: string, depth: int, cur: string)
    requires |op| > 0 && op[0] !in s
    ensures OpPieces(s, op, depth, cur) == [cur + s]
    decreases |s|
  {
    if s == [] {
      assert cur + s == cur;
    } else {
      var c := s[0];
      assert cur + s == cur + [c] + s[1..];
      assert !HasPrefix(s, op);
      assert forall j :: 0 <= j < |s| - 1 ==> s[1..][j] == s[j + 1];
      OpPiecesAbsent(s[1..], op, if c == '(' then depth + 1 else if c == ')' then depth - 1 else depth, cur + [c]);
    }
  }

  /** A non-empty text without the first character of `op` is one piece. */
  lemma OperatorSplitAbsent(s: string, op: string)
    requires |op| > 0 && op[0] !in s && s != []
    ensures OperatorSplit(s, op) == [s]
  {
    OpPiecesAbsent(s, op, 0, "");
    assert "" + s == s;
  }

  /** A text without parentheses and without the first character of `op` leaves the depth alone and holds no occurrence of `op`. */
  lemma {:induction false} FlatText(p: string, q: string, op: string, depth: int)
    requires |op| > 0 && op[0] !in p && '(' !in p && ')' !in p
    ensures DepthAfter(p, depth) == depth && NoTopOp(p, q, op, depth)
    decreases |p|
  {
    if p != [] {
      assert (p + q)[0] == p[0];
      assert (p + q)[1..] == p[1..] + q;
      assert forall j :: 0 <= j < |p| - 1 ==> p[1..][j] == p[j + 1];
      FlatText(p[1..], q, op, depth);
    }
  }

  /** A first piece free of parentheses and of the operator's first character is cut off at the operator after it. */
  lemma OperatorSplitCut(a: string, b: string, op: string)
    requires |op| > 0 && op[0] != '(' && op[0] != ')'
    requires op[0] !in a && '(' !in a && ')' !in a
    ensures OperatorSplit(a + op + b, op) == [a] + OperatorSplit(b, op)
  {
    FlatText(a, op, op, 0);
    OpPiecesSplitAt(a, b, op);
    var ps := OpPieces(b, op, 0, "");
    var qs := [a] + ps;
    assert qs[|qs| - 1] == ps[|ps| - 1];
    assert qs[..|qs| - 1] == [a] + ps[..|ps| - 1];
  }

  /** splitByOperator, as the Go loop builds its pieces. */
  method SplitByOperator(exprStr: string, op: string) returns (parts: seq<string>)
    requires |op| > 0
    ensures parts == OperatorSplit(exprStr, op)
  {
    parts := [];
    var current := "";
    var parenDepth := 0;
    var i := 0;
    while i < |exprStr|
      invariant 0 <= i <= |exprStr|
      invariant OpPieces(exprStr, op, 0, "") == parts + OpPieces(exprStr[i..], op, parenDepth, current)
    {
      var c := exprStr[i];
      assert exprStr[i..][1..] == exprStr[i + 1..];
      if c == '(' {
        parenDepth := parenDepth + 1;
        current := current + [c];
      } else if c == ')' {
        parenDepth := parenDepth - 1;
        current := current + [c];
      } else if parenDepth == 0 && HasPrefix(exprStr[i..], op) {
        parts := parts + [current];
        current := "";
        assert exprStr[i..][|op|..] == exprStr[i + |op|..];
        i := i + |op| - 1;
      } else {
        current := current + [c];
      }
      i := i + 1;
    }
    if |current| > 0 {
      parts := parts + [current];
    } else {
      assert (parts + [current])[..|parts|] == parts;
    }
  }

  // ---------------------------------------------------------------------------
  // parseFunctionDefinition
  // ---------------------------------------------------------------------------

  /** Why a function header was refused; each kind carries the line number. */
  datatype HeaderError =
    | MissingColon(line: int)
    | NotFunction(line: int)
    | MalformedHeader(line: int)

  /**
   * The parameters among the fields after the name: fields up to and
   * including the first one ending in ':', whose colon is removed and which
   * is dropped if nothing is left of it.
   */
  function HeaderParams(fields: seq<string>): (r: seq<string>)
    ensures |r| <= |fields|
  {
    if fields == [] then []
    else if HasSuffix(fields[0], ":") then
      var p := TrimSuffix(fields[0], ":");
      if p != "" then [p] else []
    else [fields[0]] + HeaderParams(fields[1..])
  }

  /** Every parameter but the last is a field as it was written, in its place. */
  lemma {:induction false} HeaderParamsKeepFields(fields: seq<string>)
    ensures var r := HeaderParams(fields); forall i :: 0 <= i < |r| - 1 ==> r[i] == fields[i]
  {
    if fields != [] && !HasSuffix(fields[0], ":") {
      HeaderParamsKeepFields(fields[1..]);
      var r := HeaderParams(fields);
      forall i | 0 <= i < |r| - 1
        ensures r[i] == fields[i]
      {
        if i > 0 {
          assert r[i] == HeaderParams(fields[1..])[i - 1];
        }
      }
    }
  }

  /** Without a field ending in ':', the parameters are all the fields. */
  lemma {:induction false} HeaderParamsWithoutColon(fields: seq<string>)
    requires forall i :: 0 <= i < |fields| ==> !HasSuffix(fields[i], ":")
    ensures HeaderParams(fields) == fields
  {
    if fields != [] {
      assert !HasSuffix(fields[0], ":");
      HeaderParamsWithoutColon(fields[1..]);
    }
  }

  /** From non-empty fields, no parameter is empty: a lone ':' gives none. */
  lemma {:induction false} HeaderParamsNonEmpty(fields: seq<string>)
    requires forall i :: 0 <= i < |fields| ==> fields[i] != []
    ensures forall i :: 0 <= i < |HeaderParams(fields)| ==> HeaderParams(fields)[i] != []
  {
    if fields != [] && !HasSuffix(fields[0], ":") {
      HeaderParamsNonEmpty(fields[1..]);
      var r := HeaderParams(fields);
      forall i | 0 <= i < |r|
        ensures r[i] != []
      {
        if i > 0 {
          assert r[i] == HeaderParams(fields[1..])[i - 1];
        }
      }
    }
  }

  /** What parseFunctionDefinition returns: the function's name and parameters, or why the line is no header. */
  function FunctionHeader(line: string, lineNumber: int): (r: Result<(string, seq<string>), HeaderError>)
    ensures r.Ok? ==> IsWord(r.value.0) && forall i :: 0 <= i < |r.value.1| ==> r.value.1[i] != []
    ensures r.Err? ==> r.error.line == lineNumber
  {
    var t := TrimSpace(Uncommented(line));
    if ':' !in t then Err(MissingColon(lineNumber))
    else
      var u := TrimSuffix(t, ":");
      if !HasPrefix(u, "function ") then Err(NotFunction(lineNumber))
      else HeaderOfFields(Fields(TrimSpace(TrimPrefix(u, "function"))), lineNumber)
  }

  /** The name is the first field after the keyword, the parameters come from the others. */
  function HeaderOfFields(parts: seq<string>, lineNumber: int): (r: Result<(string, seq<string>), HeaderError>)
    requires forall i :: 0 <= i < |parts| ==> IsWord(parts[i])
    ensures r.Ok? ==> IsWord(r.value.0) && forall i :: 0 <= i < |r.value.1| ==> r.value.1[i] != []
    ensures r.Err? <==> parts == []
  {
    if |parts| == 0 then Err(MalformedHeader(lineNumber))
    else
      var rest := parts[1..];
      assert forall i :: 0 <= i < |rest| ==> rest[i] != [] by {
        forall i | 0 <= i < |rest|
          ensures rest[i] != []
        {
          assert rest[i] == parts[i + 1] && IsWord(parts[i + 1]);
        }
      }
      HeaderParamsNonEmpty(rest);
      Ok((parts[0], HeaderParams(rest)))
  }

  /**
   * A header written as "function", the name and the parameters separated
   * by single spaces, and a closing colon, is read back as that name and
   * those parameters.
   */
  lemma HeaderRoundTrip(name: string, params: seq<string>, lineNumber: int)
    requires IsWord(name) && forall i :: 0 <= i < |params| ==> IsWord(params[i]) && !HasSuffix(params[i], ":")
    requires '#' !in Join([name] + params, " ")
    ensures FunctionHeader("function " + Join([name] + params, " ") + ":", lineNumber) == Ok((name, params))
  {
    var ws := [name] + params;
    forall i | 0 <= i < |ws|
      ensures IsWord(ws[i])
    {
      if i > 0 {
        assert ws[i] == params[i - 1];
      }
    }
    HeaderOfWords(ws, lineNumber);
    assert ws[1..] == params;
    HeaderParamsWithoutColon(params);
  }

  /** The header line built from words yields those words as its fields. */
  lemma HeaderOfWords(ws: seq<string>, lineNumber: int)
    requires |ws| > 0 && forall i :: 0 <= i < |ws| ==> IsWord(ws[i])
    requires '#' !in Join(ws, " ")
    ensures FunctionHeader("function " + Join(ws, " ") + ":", lineNumber) == HeaderOfFields(ws, lineNumber)
  {
    var j := Join(ws, " ");
    JoinedWordsEnds(ws);
    HeaderLineKept(j);
    HeaderKeywordDropped(j);
    FieldsOfJoinedWords(ws);
  }

  /** Comment stripping and trimming keep such a header line as it is, and the colon is then dropped. */
  lemma HeaderLineKept(j: string)
    requires j != [] && !IsSpace(j[0]) && !IsSpace(j[|j| - 1]) && '#' !in j
    ensures var line := "function " + j + ":";
      TrimSpace(Uncommented(line)) == line && ':' in line && TrimSuffix(line, ":") == "function " + j
  {
    var line := "function " + j + ":";
    forall i | 0 <= i < |line|
      ensures line[i] != '#'
    {
      if 9 <= i < 9 + |j| {
        assert line[i] == j[i - 9];
      }
    }
    NoHashNoComment(line);
    TrimSpaceNoop(line);
    assert line[|line| - 1] == ':';
    assert line[..|line| - 1] == "function " + j;
  }

  /** Removing the keyword and trimming leaves the joined name and parameters. */
  lemma HeaderKeywordDropped(j: string)
    requires j != [] && !IsSpace(j[0]) && !IsSpace(j[|j| - 1])
    ensures HasPrefix("function " + j, "function ")
    ensures TrimSpace(TrimPrefix("function " + j, "function")) == j
  {
    var u := "function " + j;
    assert u[..9] == "function ";
    assert u[..8] == "function";
    assert u[8..] == " " + j;
    assert TrimLeft(" " + j) == TrimLeft(j);
    TrimSpaceNoop(j);
  }

  /** parseFunctionDefinition, collecting the parameters in a loop as the Go code does. */
  method ParseFunctionDefinition(line: string, lineNumber: int) returns (r: Result<(string, seq<string>), HeaderError>)
    ensures r == FunctionHeader(line, lineNumber)
  {
    var l := CleanComment(line);
    l := TrimSpace(l);
    if IndexOf(l, ':').None? {
      return Err(MissingColon(lineNumber));
    }
    l := TrimSuffix(l, ":");
    if !HasPrefix(l, "function ") {
      return Err(NotFunction(lineNumber));
    }
    l := TrimSpace(TrimPrefix(l, "function"));
    var parts := Fields(l);
    assert FunctionHeader(line, lineNumber) == HeaderOfFields(parts, lineNumber);
    if |parts| == 0 {
      return Err(MalformedHeader(lineNumber));
    }
    var funcName := parts[0];
    var params := CollectParams(parts);
    return Ok((funcName, params));
  }

  /** The parameter loop of parseFunctionDefinition over the fields after the name. */
  method CollectParams(parts: seq<string>) returns (params: seq<string>)
    requires |parts| > 0
    ensures params == HeaderParams(parts[1..])
  {
    params := [];
    var i := 1;
    assert parts[1..] == parts[i..];
    while i < |parts|
      invariant 1 <= i <= |parts|
      invariant HeaderParams(parts[1..]) == params + HeaderParams(parts[i..])
    {
      ParamsFrom(parts, i);
      if HasSuffix(parts[i], ":") {
        var param := TrimSuffix(parts[i], ":");
        if param != "" {
          params := params + [param];
        }
        break;
      }
      AppendRegroup(params, parts[i], HeaderParams(parts[i + 1..]));
      params := params + [parts[i]];
      i := i + 1;
    }
    if i == |parts| {
      assert params + [] == params;
    }
  }

  /** The parameters from field i on: a field with a colon ends them, any other is one of them. */
  lemma ParamsFrom(parts: seq<string>, i: nat)
    requires i < |parts|
    ensures HasSuffix(parts[i], ":") ==>
      HeaderParams(parts[i..]) == if TrimSuffix(parts[i], ":") != "" then [TrimSuffix(parts[i], ":")] else []
    ensures !HasSuffix(parts[i], ":") ==> HeaderParams(parts[i..]) == [parts[i]] + HeaderParams(parts[i + 1..])
  {
    assert parts[i..][0] == parts[i] && parts[i..][1..] == parts[i + 1..];
  }
}
