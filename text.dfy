/**
 * The pieces of Go's standard `strings` package the interpreter relies on,
 * on `string` values whose characters each stand for one byte of the Go
 * string (Go indexes, slices and measures strings in bytes).
 */
module Text {
  import opened Wrappers

  /** The ASCII white space that strings.TrimSpace and strings.Fields strip. */
  predicate IsSpace(c: char) {
    c == ' ' || c == '\t' || c == '\n' || c == '\r' || c == '\U{0B}' || c == '\U{0C}'
  }

  /** The class `\s` of Go's RE2 regular expressions: space, tab, newline, form feed, carriage return. */
  predicate IsRegexSpace(c: char) {
    c == ' ' || c == '\t' || c == '\n' || c == '\r' || c == '\U{0C}'
  }

  predicate IsLetter(c: char) {
    ('a' <= c <= 'z') || ('A' <= c <= 'Z')
  }

  predicate IsDigit(c: char) {
    '0' <= c <= '9'
  }

  /** First character of an identifier, `[a-zA-Z_]`. */
  predicate IsIdentStart(c: char) {
    IsLetter(c) || c == '_'
  }

  /** Later character of an identifier, `[a-zA-Z0-9_]`. */
  predicate IsIdentPart(c: char) {
    IsIdentStart(c) || IsDigit(c)
  }

  /** The whole text matches `^[a-zA-Z_][a-zA-Z0-9_]*$`. */
  predicate IsIdent(s: string) {
    |s| > 0 && IsIdentStart(s[0]) && forall i :: 1 <= i < |s| ==> IsIdentPart(s[i])
  }

  /** strings.TrimLeft with the white space set: drops the leading white space. */
  function TrimLeft(s: string): (r: string)
    ensures |r| <= |s| && (r == [] || r[|r| - 1] == s[|s| - 1])
    ensures r == [] || !IsSpace(r[0])
    ensures forall i :: 0 <= i < |s| - |r| ==> IsSpace(s[i])
  {
    if s == [] || !IsSpace(s[0]) then s else TrimLeft(s[1..])
  }

  /** strings.TrimRight with the white space set: drops the trailing white space. */
  function TrimRight(s: string): (r: string)
    ensures |r| <= |s| && (r == [] || r[0] == s[0])
    ensures r == [] || !IsSpace(r[|r| - 1])
    ensures forall i :: |r| <= i < |s| ==> IsSpace(s[i])
  {
    if s == [] || !IsSpace(s[|s| - 1]) then s else TrimRight(s[..|s| - 1])
  }

  /** What TrimLeft keeps is the end of its input. */
  lemma {:induction false} TrimLeftSuffix(s: string, i: nat)
    requires i < |TrimLeft(s)|
    ensures TrimLeft(s)[i] == s[|s| - |TrimLeft(s)| + i]
  {
    if s != [] && IsSpace(s[0]) {
      var t := s[1..];
      TrimLeftSuffix(t, i);
      assert t[|t| - |TrimLeft(t)| + i] == s[|s| - |TrimLeft(t)| + i];
    }
  }

  /** What TrimRight keeps is the start of its input. */
  lemma {:induction false} TrimRightPrefix(s: string, i: nat)
    requires i < |TrimRight(s)|
    ensures TrimRight(s)[i] == s[i]
  {
    if s != [] && IsSpace(s[|s| - 1]) {
      TrimRightPrefix(s[..|s| - 1], i);
    }
  }

  /**
   * strings.TrimSpace: the text without leading and trailing white space.
   * What is dropped at the front, the first |s| - |TrimLeft(s)| characters,
   * and at the back are white space; TrimSpaceKeeps states what is kept.
   */
  function TrimSpace(s: string): (r: string)
    ensures |r| <= |s|
    ensures r == [] || (!IsSpace(r[0]) && !IsSpace(r[|r| - 1]))
    ensures forall i :: 0 <= i < |s| - |TrimLeft(s)| ==> IsSpace(s[i])
    ensures forall i :: |s| - |TrimLeft(s)| + |r| <= i < |s| ==> IsSpace(s[i])
  {
    TrimSpaceBack(s);
    TrimRight(TrimLeft(s))
  }

  /** The characters TrimSpace drops after what it keeps are white space. */
  lemma TrimSpaceBack(s: string)
    ensures forall i :: |s| - |TrimLeft(s)| + |TrimRight(TrimLeft(s))| <= i < |s| ==> IsSpace(s[i])
  {
    var l := TrimLeft(s);
    var d := |s| - |l|;
    forall i | d + |TrimRight(l)| <= i < |s|
      ensures IsSpace(s[i])
    {
      TrimLeftSuffix(s, i - d);
      assert IsSpace(l[i - d]);
    }
  }

  /** What TrimSpace keeps is the middle of its input, after the dropped front. */
  lemma TrimSpaceKeeps(s: string)
    ensures var d := |s| - |TrimLeft(s)|; TrimSpace(s) == s[d..d + |TrimSpace(s)|]
  {
    var l := TrimLeft(s);
    var r := TrimRight(l);
    var d := |s| - |l|;
    assert TrimSpace(s) == r;
    TrimLeftIsSuffix(s);
    TrimRightIsPrefix(l);
    PrefixOfSuffix(s, l, r);
  }

  lemma PrefixOfSuffix(s: string, l: string, r: string)
    requires |l| <= |s| && l == s[|s| - |l|..] && |r| <= |l| && r == l[..|r|]
    ensures r == s[|s| - |l|..|s| - |l| + |r|]
  {
  }

  lemma {:induction false} TrimLeftIsSuffix(s: string)
    ensures TrimLeft(s) == s[|s| - |TrimLeft(s)|..]
  {
    if s != [] && IsSpace(s[0]) {
      TrimLeftIsSuffix(s[1..]);
      assert s[1..][|s| - 1 - |TrimLeft(s[1..])|..] == s[|s| - |TrimLeft(s[1..])|..];
    }
  }

  lemma {:induction false} TrimRightIsPrefix(s: string)
    ensures TrimRight(s) == s[..|TrimRight(s)|]
  {
    if s != [] && IsSpace(s[|s| - 1]) {
      TrimRightIsPrefix(s[..|s| - 1]);
      assert s[..|s| - 1][..|TrimRight(s[..|s| - 1])|] == s[..|TrimRight(s[..|s| - 1])|];
    }
  }

  /** A trimmed text is its own trim. */
  lemma TrimSpaceIdempotent(s: string)
    ensures TrimSpace(TrimSpace(s)) == TrimSpace(s)
  {
    var t := TrimSpace(s);
    assert TrimLeft(t) == t;
    assert TrimRight(t) == t;
  }

  predicate HasPrefix(s: string, p: string) {
    |p| <= |s| && s[..|p|] == p
  }

  predicate HasSuffix(s: string, p: string) {
    |p| <= |s| && s[|s| - |p|..] == p
  }

  /** strings.TrimPrefix: drops `p` once if the text starts with it. */
  function TrimPrefix(s: string, p: string): (r: string)
    ensures HasPrefix(s, p) ==> s == p + r
    ensures !HasPrefix(s, p) ==> r == s
  {
    if HasPrefix(s, p) then s[|p|..] else s
  }

  /** strings.TrimSuffix: drops `p` once if the text ends with it. */
  function TrimSuffix(s: string, p: string): (r: string)
    ensures HasSuffix(s, p) ==> s == r + p
    ensures !HasSuffix(s, p) ==> r == s
  {
    if HasSuffix(s, p) then s[..|s| - |p|] else s
  }

  /** strings.Join. */
  function Join(parts: seq<string>, sep: string): string
  {
    if |parts| == 0 then []
    else if |parts| == 1 then parts[0]
    else parts[0] + sep + Join(parts[1..], sep)
  }

  /** Joining a leading part onto the join of the rest. */
  lemma JoinCons(p: string, rest: seq<string>, sep: string)
    requires |rest| > 0
    ensures Join([p] + rest, sep) == p + sep + Join(rest, sep)
  {
    assert ([p] + rest)[1..] == rest;
  }

  /** Joining onto a trailing part. */
  lemma {:induction false} JoinSnoc(parts: seq<string>, p: string, sep: string)
    requires |parts| > 0
    ensures Join(parts + [p], sep) == Join(parts, sep) + sep + p
    decreases |parts|
  {
    if |parts| == 1 {
      assert (parts + [p])[1..] == [p];
    } else {
      assert (parts + [p])[1..] == parts[1..] + [p];
      JoinSnoc(parts[1..], p, sep);
    }
  }

  /** No part is longer than the join it is part of. */
  lemma {:induction false} JoinPartLength(parts: seq<string>, sep: string, i: nat)
    requires i < |parts|
    ensures |parts[i]| <= |Join(parts, sep)|
    decreases |parts|
  {
    if i > 0 {
      JoinPartLength(parts[1..], sep, i - 1);
    }
  }

  /** A character that occurs neither in the parts nor in the separator does not occur in their join. */
  lemma {:induction false} CharNotInJoin(c: char, parts: seq<string>, sep: string)
    requires c !in sep && forall i :: 0 <= i < |parts| ==> c !in parts[i]
    ensures c !in Join(parts, sep)
    decreases |parts|
  {
    if |parts| > 1 {
      CharNotInJoin(c, parts[1..], sep);
    }
  }

  /** A text that neither starts nor ends with white space is its own trim. */
  lemma TrimSpaceNoop(s: string)
    requires s != [] && !IsSpace(s[0]) && !IsSpace(s[|s| - 1])
    ensures TrimSpace(s) == s
  {
    assert TrimLeft(s) == s;
  }

  /** strings.Index for a single byte. */
  function IndexOf(s: string, c: char): (r: Option<nat>)
    ensures r.None? <==> c !in s
    ensures r.Some? ==> r.value < |s| && s[r.value] == c && c !in s[..r.value]
  {
    if s == [] then None
    else if s[0] == c then Some(0)
    else match IndexOf(s[1..], c)
      case None => None
      case Some(i) => Some(i + 1)
  }

  /** The length of the run of non-space characters at the start of the text. */
  function WordLength(s: string): (n: nat)
    ensures n <= |s|
    ensures forall i :: 0 <= i < n ==> !IsSpace(s[i])
    ensures n == |s| || IsSpace(s[n])
    ensures s != [] && !IsSpace(s[0]) ==> n > 0
  {
    if s == [] || IsSpace(s[0]) then 0 else 1 + WordLength(s[1..])
  }

  /** strings.Fields: the maximal runs of non-space characters, in order. */
  function Fields(s: string): (r: seq<string>)
    ensures forall i :: 0 <= i < |r| ==> IsWord(r[i])
    decreases |s|
  {
    if s == [] then []
    else if IsSpace(s[0]) then Fields(s[1..])
    else
      var n := WordLength(s);
      var w := s[..n];
      assert IsWord(w);
      [w] + Fields(s[n..])
  }

  /** The text without its white space. */
  function NonSpace(s: string): string {
    if s == [] then [] else (if IsSpace(s[0]) then [] else [s[0]]) + NonSpace(s[1..])
  }

  /** The pieces written one after the other. */
  function Concat(ws: seq<string>): string {
    if ws == [] then [] else ws[0] + Concat(ws[1..])
  }

  lemma {:induction false} NonSpaceAppend(a: string, b: string)
    ensures NonSpace(a + b) == NonSpace(a) + NonSpace(b)
  {
    if a != [] {
      assert (a + b)[1..] == a[1..] + b;
      NonSpaceAppend(a[1..], b);
    } else {
      assert a + b == b;
    }
  }

  lemma {:induction false} NonSpaceOfWord(w: string)
    requires forall j :: 0 <= j < |w| ==> !IsSpace(w[j])
    ensures NonSpace(w) == w
  {
    if w != [] {
      NonSpaceOfWord(w[1..]);
    }
  }

  /** The fields, written one after the other, are the text with its white space removed. */
  lemma {:induction false} FieldsConcat(s: string)
    ensures Concat(Fields(s)) == NonSpace(s)
    decreases |s|
  {
    if s != [] && IsSpace(s[0]) {
      FieldsConcat(s[1..]);
    } else if s != [] {
      var n := WordLength(s);
      assert s == s[..n] + s[n..];
      FieldsConcat(s[n..]);
      NonSpaceAppend(s[..n], s[n..]);
      NonSpaceOfWord(s[..n]);
      assert Fields(s)[1..] == Fields(s[n..]);
    }
  }

  /** A run of white space has no fields. */
  lemma {:induction false} FieldsOfSpace(sp: string)
    requires forall j :: 0 <= j < |sp| ==> IsSpace(sp[j])
    ensures Fields(sp) == []
  {
    if sp != [] {
      FieldsOfSpace(sp[1..]);
    }
  }

  /**
   * White space, a word and a rest that is empty or starts with white space:
   * the word is the first field and the fields of the rest follow.
   */
  lemma {:induction false} FieldsCut(sp: string, w: string, rest: string)
    requires forall j :: 0 <= j < |sp| ==> IsSpace(sp[j])
    requires IsWord(w) && (rest == [] || IsSpace(rest[0]))
    ensures Fields(sp + w + rest) == [w] + Fields(rest)
    decreases |sp|
  {
    var s := sp + w + rest;
    if sp == [] {
      assert s == w + rest;
      assert s[0] == w[0];
      var n := WordLength(s);
      assert forall j :: 0 <= j < |w| ==> s[j] == w[j];
      assert rest != [] ==> s[|w|] == rest[0];
      assert n == |w|;
      assert s[..n] == w && s[n..] == rest;
    } else {
      assert s[1..] == sp[1..] + w + rest;
      FieldsCut(sp[1..], w, rest);
    }
  }

  /** A non-empty run of non-space characters. */
  predicate IsWord(w: string) {
    |w| > 0 && forall j :: 0 <= j < |w| ==> !IsSpace(w[j])
  }

  /** Words joined by single spaces: the text starts and ends with a non-space character. */
  lemma {:induction false} JoinedWordsEnds(ws: seq<string>)
    requires |ws| > 0 && forall i :: 0 <= i < |ws| ==> IsWord(ws[i])
    ensures var j := Join(ws, " "); |j| > 0 && !IsSpace(j[0]) && !IsSpace(j[|j| - 1])
    decreases |ws|
  {
    if |ws| > 1 {
      JoinedWordsEnds(ws[1..]);
    }
  }

  /** strings.Fields undoes joining words with single spaces. */
  lemma {:induction false} FieldsOfJoinedWords(ws: seq<string>)
    requires forall i :: 0 <= i < |ws| ==> IsWord(ws[i])
    ensures Fields(Join(ws, " ")) == ws
    decreases |ws|
  {
    if |ws| == 1 {
      var w := ws[0];
      assert WordLength(w) == |w|;
      assert w[..|w|] == w && w[|w|..] == [];
    } else if |ws| > 1 {
      var w := ws[0];
      var rest := Join(ws[1..], " ");
      var j := Join(ws, " ");
      assert j == w + " " + rest;
      assert j[|w|] == ' ';
      assert forall i :: 0 <= i < |w| ==> j[i] == w[i];
      var n := WordLength(j);
      assert n == |w|;
      assert j[..n] == w;
      assert j[n..] == " " + rest;
      assert (" " + rest)[1..] == rest;
      FieldsOfJoinedWords(ws[1..]);
    }
  }

  /** strings.SplitN(s, sep, 2) for a one-byte separator: split at the first occurrence only. */
  function SplitFirst(s: string, c: char): (r: seq<string>)
    ensures c !in s ==> r == [s]
    ensures c in s ==> |r| == 2 && s == r[0] + [c] + r[1] && c !in r[0]
  {
    match IndexOf(s, c)
    case None => [s]
    case Some(i) =>
      assert s == s[..i] + [c] + s[i + 1..];
      [s[..i], s[i + 1..]]
  }

  /** Byte-wise lexicographic order of Go's string comparison `<`. */
  predicate LexLess(a: string, b: string) {
    if a == [] then b != []
    else if b == [] then false
    else if a[0] != b[0] then a[0] < b[0]
    else LexLess(a[1..], b[1..])
  }

  lemma {:induction false} LexLessIrreflexive(a: string)
    ensures !LexLess(a, a)
  {
    if a != [] {
      LexLessIrreflexive(a[1..]);
    }
  }

  lemma {:induction false} LexLessTransitive(a: string, b: string, c: string)
    requires LexLess(a, b) && LexLess(b, c)
    ensures LexLess(a, c)
  {
    if a != [] && b != [] && c != [] && a[0] == b[0] && b[0] == c[0] {
      LexLessTransitive(a[1..], b[1..], c[1..]);
    }
  }

  /** Any two different strings are ordered one way or the other. */
  lemma {:induction false} LexLessTotal(a: string, b: string)
    requires a != b
    ensures LexLess(a, b) || LexLess(b, a)
  {
    if a != [] && b != [] && a[0] == b[0] {
      assert a == [a[0]] + a[1..] && b == [b[0]] + b[1..];
      LexLessTotal(a[1..], b[1..]);
    }
  }

  lemma {:induction false} LexLessAsymmetric(a: string, b: string)
    requires LexLess(a, b)
    ensures !LexLess(b, a)
  {
    if a != [] && b != [] && a[0] == b[0] {
      LexLessAsymmetric(a[1..], b[1..]);
    }
  }

  /** Of a < b, a == b and b < a, exactly one holds. */
  lemma LexLessTrichotomy(a: string, b: string)
    ensures LexLess(a, b) || a == b || LexLess(b, a)
    ensures !(LexLess(a, b) && LexLess(b, a)) && !(a == b && (LexLess(a, b) || LexLess(b, a)))
  {
    LexLessIrreflexive(a);
    if a != b {
      LexLessTotal(a, b);
      if LexLess(a, b) {
        LexLessAsymmetric(a, b);
      }
    }
  }

  /** The decimal digits of a natural number, without leading zeros. */
  function NatToDecimal(n: nat): (r: string)
    ensures |r| > 0 && forall i :: 0 <= i < |r| ==> IsDigit(r[i])
  {
    if n < 10 then [DigitChar(n)] else NatToDecimal(n / 10) + [DigitChar(n % 10)]
  }

  function DigitChar(d: nat): (c: char)
    requires d < 10
    ensures IsDigit(c) && (c as int) - ('0' as int) == d
  {
    (('0' as int) + d) as char
  }

  /** The numeric value of a non-empty run of decimal digits. */
  function DecimalDigitsValue(s: string): (n: nat)
    requires forall i :: 0 <= i < |s| ==> IsDigit(s[i])
  {
    if s == [] then 0
    else 10 * DecimalDigitsValue(s[..|s| - 1]) + DigitValue(s[|s| - 1])
  }

  function DigitValue(c: char): (d: nat)
    requires IsDigit(c)
    ensures d < 10
  {
    (c as int) - ('0' as int)
  }

  /** Reading back the digits of a number gives the number. */
  lemma {:induction false} DecimalRoundTrip(n: nat)
    ensures DecimalDigitsValue(NatToDecimal(n)) == n
  {
    var r := NatToDecimal(n);
    if n >= 10 {
      DecimalRoundTrip(n / 10);
      assert r[..|r| - 1] == NatToDecimal(n / 10);
    }
  }

  /**
   * Appending one element and then a tail is appending the element followed by the tail;
   * the recursive builders in this model grow their result one element at a time.
   */
  lemma AppendRegroup<T>(xs: seq<T>, x: T, rest: seq<T>)
    ensures xs + ([x] + rest) == (xs + [x]) + rest
  {
  }
}
