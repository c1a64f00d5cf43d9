# HerCode interpreter core, modelled in Dafny

HerCode is a small scripting language with an interpreter written in Go, in
the package `hercodeinterpreter`. A script is a list of functions:

- each function has a header `function name p1 p2:`, a body and the line `end`;
- `start:` opens the entry function;
- bodies hold `if`/`else`/`endif` and `while`/`endwhile` blocks and
  `var`, assignment, `say`, `return` and call statements.

The interpreter reads a script line by line. It assembles the statements into
a tree, one function at a time, and then runs the top-level statements of
`start` in a global context.

The project models that pipeline.

- **Values** (`values.dfy`): the tagged `Value` and its text (`Value.String`).
  Numbers are `real`, and `%f` is rendered exactly, with ties to even.
- **Text** (`text.dfy`): the pieces of Go's `strings` package the core uses.
  These are `TrimSpace`, `TrimPrefix`/`TrimSuffix`, `Fields`, `Join`,
  `SplitN(…, 2)`, byte-wise comparison, and decimal digits.
- **Scanners** (`scanners.dfy`): `cleanComment`, `cleanQuotes`,
  `splitArguments`, `splitByOperator` and `parseFunctionDefinition`.
  - Each has a loop method, as in the Go code.
  - Each method is proved equal to a specification function.
  - Round-trip and shape lemmas are proved about those functions.
- **Parser** (`parser.dfy`): `parseExpression`, `parseSimpleExpression`,
  `parseFunctionCall` and `parseStatement`. The Go regular expressions are
  written out as character predicates, and `strconv.ParseFloat` as a grammar
  of decimal literals. `parserlaws.dfy` proves what the priority split makes
  of chains of operators and what each kind of statement line parses to.
- **Assembler** (`assembler.dfy`): the line loop of `Parse` as a pure state
  machine (`Step`, `Assemble`, `ParseScript`). It keeps the quirks of the
  code:
  - one global else flag;
  - the cursor is cleared when a block closes, so the next statements go to
    the function body;
  - a separate routing rule for `return`;
  - `end` when no function is open does nothing;
  - only an unclosed function fails at the end of input.
- **Interpreter** (`interpreter.dfy`): the `HerCodeInterpreter` object. Its
  fields are the function and block stacks, the cursor and the else flag.
  - `Parse` is a loop over the lines.
  - Function objects are shared between the function stack and the global
    function table, as in the Go code.
  - `Parse` is proved to leave exactly the state `ParseScript` computes.
  - `Execute` runs `start` one statement at a time.
- **Contexts** (`context.dfy`): the parent-linked `Context`, and its view as
  a sequence of frames (`Frames()`).
- **Semantics** (`semantics.dfy`): `Eval`/`Exec`, the reference meaning of
  every expression and statement. It works on frames and an output trace, and
  properties of it are proved in `laws.dfy`.
- **Evaluator** (`evaluator.dfy`): the Go `Eval`/`Execute` methods as
  imperative methods on `Context` objects. Each is proved to agree with
  `Semantics`.
- **Printing** (`ast.dfy`, `printer.dfy`, `functions.dfy`): the `String`
  methods of the statement and expression nodes and of `HerCodeFunction`.

### How the Go code is represented

- **Structural failures.** Go's second return value (`error`) is the
  `Raised` outcome. In-band `ErrorType` values travel inside `Done` as
  `Error(kind)`, and error messages are kinds with the data they are built
  from.
- **Fuel.** Loops and recursion may not terminate. Every further `while`
  iteration and every user-function call costs one unit of fuel, and
  `OutOfFuel` is the outcome when it runs out.
- **Output.** `say` appends one `OutLine` to an output trace.
- **Characters and bytes.** A `char` stands for one byte of a Go string.

## Model

| member | source | states |
|---|---|---|
| Values.RenderScalars | hercodeinterpreter/type.go:38-41 | A string renders as its payload with no quotes; a boolean renders as exactly `true` or `false`; Void, Error and function values render as the empty text |
| Values.ZeroValueIsNumber | hercodeinterpreter/type.go:12-20 | Go's zero `Value{}` has the Number tag (the first constant) and payload 0 |
| Values.RoundHalfEven | hercodeinterpreter/type.go:37 | The integer nearest to a non-negative real, ties going to the even neighbour |
| Values.FormatFixed | hercodeinterpreter/type.go:37 | `%f` text of a number: a minus sign exactly for negative values, a point, then six digits |
| Values.FixedText | hercodeinterpreter/type.go:37 | A count of millionths written as whole part, point and six digits, signed as requested |
| Values.FormatWholeNumber | hercodeinterpreter/type.go:37 | A whole number n renders as its decimal digits followed by `.000000` |
| Values.FormatNonNegative | hercodeinterpreter/type.go:37 | A non-negative number renders as its value in millionths, rounded half to even |
| Values.WholeMillionths | hercodeinterpreter/type.go:37 | n million millionths print as n followed by `.000000` |
| Values.LeastExists | hercodeinterpreter/type.go:44-46 | Every non-empty key set has a least key in byte order |
| Values.LeastUnique | hercodeinterpreter/type.go:44-46 | A key set has at most one least key |
| Values.LeastKey | hercodeinterpreter/type.go:44-46 | Picks the least key of a non-empty set |
| Values.SortedKeys | hercodeinterpreter/type.go:44-46 | One enumeration of a map's keys: each key exactly once, in strictly ascending order |
| Values.ItemTexts | hercodeinterpreter/type.go:51-53 | Element i's text is the rendering of slice element i, for every i |
| Values.EntryTexts | hercodeinterpreter/type.go:44-46 | Entry i's text is `key: value` for the i-th listed key of the map |
| Values.RenderSlice | hercodeinterpreter/type.go:50-55 | A slice renders inside `[` and `]`; the empty slice renders as `[]`; a one-element slice renders as its element in brackets |
| Values.RenderSingletonMap | hercodeinterpreter/type.go:42-48 | A map renders as `k: v` entries without braces, so a one-key map renders as its single entry |
| Values.Render | hercodeinterpreter/type.go:34-63 | A slice's text is bracketed by `[` and `]`; Void, Error, function values and the empty map render as the empty text |
| Text.TrimLeft | hercodeinterpreter/GlobalFunc.go:14 | Leading white space is removed: every dropped character is white space, the result does not start with white space, and it ends where the input ends |
| Text.TrimRight | hercodeinterpreter/GlobalFunc.go:14 | Trailing white space is removed: every dropped character is white space, the result does not end with white space, and it starts where the input starts |
| Text.TrimLeftSuffix | hercodeinterpreter/GlobalFunc.go:14 | What the left trim keeps is the input's tail, character for character |
| Text.TrimRightPrefix | hercodeinterpreter/GlobalFunc.go:14 | What the right trim keeps is the input's head, character for character |
| Text.TrimSpace | hercodeinterpreter/GlobalFunc.go:14 | `strings.TrimSpace`: the characters dropped at the front and at the back are white space, and the result neither starts nor ends with white space |
| Text.TrimSpaceKeeps | hercodeinterpreter/GlobalFunc.go:14 | What TrimSpace keeps is the input's middle, starting right after the dropped white space |
| Text.TrimSpaceIdempotent | hercodeinterpreter/GlobalFunc.go:14 | Trimming a trimmed text changes nothing |
| Text.TrimSpaceNoop | hercodeinterpreter/func.go:159 | A text with no space at either end is left as it is |
| Text.TrimPrefix | hercodeinterpreter/GlobalFunc.go:115 | `strings.TrimPrefix`: with the prefix present, input = prefix + result; otherwise the input unchanged |
| Text.TrimSuffix | hercodeinterpreter/GlobalFunc.go:117 | `strings.TrimSuffix`: with the suffix present, input = result + suffix; otherwise the input unchanged |
| Text.JoinCons | hercodeinterpreter/GlobalFunc.go:42 | Joining a piece before a non-empty list puts one separator between them |
| Text.JoinSnoc | hercodeinterpreter/GlobalFunc.go:42 | Joining a list with one more piece at its end adds a separator and that piece |
| Text.IndexOf | hercodeinterpreter/func.go:161 | `strings.Index` for one character: None exactly when it is absent, otherwise its first position |
| Text.Fields | hercodeinterpreter/func.go:176 | `strings.Fields`: every field is non-empty and holds no white space |
| Text.FieldsConcat | hercodeinterpreter/func.go:176 | The fields, written one after the other in order, are the input with its white space removed |
| Text.FieldsCut | hercodeinterpreter/func.go:176 | White space, then a word followed by white space or the end: the word is the first field and the fields of the rest follow |
| Text.JoinedWordsEnds | hercodeinterpreter/func.go:176 | Words joined by single spaces neither start nor end with a space |
| Text.FieldsOfJoinedWords | hercodeinterpreter/func.go:176 | Splitting words joined by single spaces into fields gives the words back |
| Text.SplitFirst | hercodeinterpreter/GlobalFunc.go:169 | `SplitN(s, c, 2)`: one piece when c is absent; otherwise two pieces around the first c, and the first piece has no c |
| Text.LexLessIrreflexive | hercodeinterpreter/BinOpExpr.go:122-129 | Byte order is irreflexive |
| Text.LexLessTransitive | hercodeinterpreter/BinOpExpr.go:122-129 | Byte order is transitive |
| Text.LexLessTotal | hercodeinterpreter/BinOpExpr.go:122-129 | Of two different texts, one is below the other in byte order |
| Text.LexLessAsymmetric | hercodeinterpreter/BinOpExpr.go:122-129 | Byte order is asymmetric |
| Text.LexLessTrichotomy | hercodeinterpreter/BinOpExpr.go:122-156 | Of `a < b`, `a == b` and `b < a` in byte order exactly one holds |
| Text.NatToDecimal | hercodeinterpreter/type.go:37 | The decimal digits of a natural number: non-empty, digits only |
| Text.DecimalRoundTrip | hercodeinterpreter/GlobalFunc.go:57 | Reading back the decimal digits of n gives n |
| Scanners.BackslashRun | hercodeinterpreter/func.go:24-30 | The run of backslashes just before position i: all backslashes, with a non-backslash (or the start) before them |
| Scanners.FirstMark | hercodeinterpreter/func.go:12-43 | The first position from i on holding a `#` outside quotes, or the end |
| Scanners.Uncommented | hercodeinterpreter/func.go:12-43 | `cleanComment`: a prefix of the input; the whole input when no `#` is outside quotes; otherwise it stops right before the first such `#` |
| Scanners.ScanStateOfPrefix | hercodeinterpreter/func.go:21-33 | The quote state before position i depends only on the text before i |
| Scanners.UncommentedIdempotent | hercodeinterpreter/func.go:8-43 | Stripping the comment twice gives the same as once |
| Scanners.NoHashNoComment | hercodeinterpreter/func.go:12-43 | A line with no `#` is kept whole |
| Scanners.CleanComment | hercodeinterpreter/func.go:12-43 | The Go loop, with its quote toggle on an even run of backslashes, computes Uncommented |
| Scanners.NextQuote | hercodeinterpreter/func.go:46-87 | The first `"` from i on that is not preceded by a backslash, or None when there is none |
| Scanners.QuotedText | hercodeinterpreter/func.go:46-87 | `cleanQuotes`: the whole input when it has no unescaped quote; otherwise the text after the first one, holding no unescaped quote and stopping at the next one or at the end of the input |
| Scanners.NextQuoteAt | hercodeinterpreter/func.go:53-62 | The first quote from i on is found at k when k is one and nothing in between is |
| Scanners.QuotedTextRoundTrip | hercodeinterpreter/func.go:46-87 | Quoting a text (no quotes inside, no trailing backslash) and extracting it gives the text back, whatever follows |
| Scanners.CleanQuotes | hercodeinterpreter/func.go:46-87 | The Go index walk computes QuotedText |
| Scanners.DropEmptyLast | hercodeinterpreter/func.go:113-118 | Only an empty last piece is dropped |
| Scanners.ArgPieces | hercodeinterpreter/func.go:90-120 | The comma scan of `splitArguments` at a parenthesis depth, with a piece in progress: always at least one piece |
| Scanners.ArgPiecesJoin | hercodeinterpreter/func.go:90-120 | Joining the raw pieces with `,` restores the scanned text |
| Scanners.ArgPiecesSplitAt | hercodeinterpreter/func.go:96-108 | The cut: when a closes its parentheses and has no comma at depth 0, the scan of `a,b` ends the first piece as a and goes on with b |
| Scanners.ArgPiecesSkip | hercodeinterpreter/func.go:96-108 | No cut inside parentheses: a text with no depth-0 comma goes whole into the current piece, nested commas included |
| Scanners.DropEmptyLastJoin | hercodeinterpreter/func.go:113-118 | After the last empty piece is dropped, joining gives the text back, less one trailing separator, or the empty text |
| Scanners.ArgumentsJoin | hercodeinterpreter/func.go:90-120 | `splitArguments` cuts at every depth-0 comma and only there: the pieces re-joined with `,` restore the input (less a dropped trailing empty piece), every piece but the last closes its parentheses, and no piece holds a depth-0 comma |
| Scanners.ArgumentsOfJoin | hercodeinterpreter/func.go:90-120 | The inverse round trip: well-cut pieces, the last non-empty, joined with `,` and split again are the same pieces |
| Scanners.ArgumentsKeepNestedCommas | hercodeinterpreter/func.go:96-108 | `f(a,b),c` is the two arguments `f(a,b)` and `c` |
| Scanners.ArgumentsShorter | hercodeinterpreter/func.go:90-120 | No argument piece is longer than the input |
| Scanners.Arguments | hercodeinterpreter/func.go:90-120 | An empty text has no arguments and a non-empty text has at least one |
| Scanners.NoCommaOnePiece | hercodeinterpreter/func.go:96-108 | A text without commas is one piece |
| Scanners.SplitArguments | hercodeinterpreter/func.go:90-120 | The Go builder loop with its depth counter computes Arguments |
| Scanners.OpPieces | hercodeinterpreter/func.go:123-153 | The operator scan of `splitByOperator` at a parenthesis depth, with a piece in progress: always at least one piece |
| Scanners.OpPiecesJoin | hercodeinterpreter/func.go:123-153 | Joining the raw pieces with the operator restores the scanned text |
| Scanners.OperatorSplitJoin | hercodeinterpreter/func.go:123-153 | `splitByOperator` cuts at every non-overlapping depth-0 occurrence of the operator and only there: the pieces re-joined with it restore the input (less a dropped trailing empty piece), every piece but the last closes its parentheses, and no piece holds a depth-0 occurrence |
| Scanners.OpPiecesSkip | hercodeinterpreter/func.go:127-149 | A text with no depth-0 occurrence of the operator goes whole into the current piece |
| Scanners.OpPiecesSplitAt | hercodeinterpreter/func.go:127-149 | The cut: when a closes its parentheses and holds no depth-0 occurrence of the operator, the scan of a + op + b ends the first piece as a and goes on with b |
| Scanners.OperatorSplitOfJoin | hercodeinterpreter/func.go:123-153 | The inverse round trip: well-cut pieces, the last non-empty, joined with the operator and split again are the same pieces |
| Scanners.OperatorSplitAbsent | hercodeinterpreter/func.go:123-153 | A non-empty text without the operator's first character is a single piece |
| Scanners.OperatorSplitCut | hercodeinterpreter/func.go:123-153 | A first piece without parentheses and without the operator's first character is cut off at the first occurrence of the operator |
| Scanners.LeadingOperator | hercodeinterpreter/func.go:123-153 | A text starting with the operator (outside parentheses) gives an empty first piece |
| Scanners.OperatorSplitShorter | hercodeinterpreter/func.go:123-153 | When the split cuts, both the left operand and the re-joined right operand are shorter than the input |
| Scanners.OperatorSplit | hercodeinterpreter/func.go:123-153 | An empty text has no pieces and a non-empty text has at least one |
| Scanners.SplitByOperator | hercodeinterpreter/func.go:123-153 | The Go loop (parentheses never start a match) computes OperatorSplit |
| Scanners.HeaderParams | hercodeinterpreter/func.go:185-196 | No more parameters than fields |
| Scanners.HeaderParamsKeepFields | hercodeinterpreter/func.go:185-196 | Every parameter before the last is the field in the same position |
| Scanners.HeaderParamsWithoutColon | hercodeinterpreter/func.go:185-196 | With no field ending in `:`, every field is a parameter |
| Scanners.HeaderParamsNonEmpty | hercodeinterpreter/func.go:187-193 | No parameter is empty: an empty text left by the stripped colon is dropped |
| Scanners.HeaderRoundTrip | hercodeinterpreter/func.go:156-199 | `function n p1 … pk:`, with words and no colon in the parts, parses back to (n, [p1 … pk]) |
| Scanners.FunctionHeader | hercodeinterpreter/func.go:156-199 | A header that parses gives a name that is one word and parameters none of which is empty; every error carries the given line number |
| Scanners.HeaderOfWords | hercodeinterpreter/func.go:156-199 | The header of joined words is read from exactly those words |
| Scanners.HeaderLineKept | hercodeinterpreter/func.go:158-165 | A header line without `#` survives comment stripping and trimming, and its colon is then removed |
| Scanners.HeaderKeywordDropped | hercodeinterpreter/func.go:168-173 | Removing `function` and trimming leaves the rest of the header |
| Scanners.ParseFunctionDefinition | hercodeinterpreter/func.go:156-199 | The Go code computes FunctionHeader: missing colon, missing `function ` prefix or missing name are its three errors; otherwise the first field is the name and HeaderParams the parameters |
| Scanners.CollectParams | hercodeinterpreter/func.go:185-196 | The parameter loop computes HeaderParams of the fields after the name |
| Scanners.ParamsFrom | hercodeinterpreter/func.go:185-196 | A field ending in `:` is the last parameter (colon stripped, dropped if empty); any other field is a parameter and the scan goes on |
| Parser.DecimalSyntax | hercodeinterpreter/GlobalFunc.go:57 | Whatever is recognised as a decimal literal has digit-only parts and at least one mantissa digit |
| Parser.MantissaSyntax | hercodeinterpreter/GlobalFunc.go:57 | The same, for the part after the sign |
| Parser.ExponentSyntax | hercodeinterpreter/GlobalFunc.go:57 | The same, for the exponent part |
| Parser.NumberLiteralOfDigits | hercodeinterpreter/GlobalFunc.go:57-59 | A text of digits reads as the number its digits denote |
| Parser.NumberLiteralOfNat | hercodeinterpreter/GlobalFunc.go:57-59 | The decimal text of n reads back as n |
| Parser.NumberLiteral | hercodeinterpreter/GlobalFunc.go:57-59 | A literal starts with a sign, a digit or a point; a negative value needs a leading `-` and a positive one forbids it |
| Parser.DigitRunOfDigits | hercodeinterpreter/GlobalFunc.go:57 | A run of digits followed by a non-digit or the end is scanned as exactly that run |
| Parser.MantissaValue | hercodeinterpreter/GlobalFunc.go:57-59 | The value of `w.f` is non-negative, is w when there is no fraction, and times 10^|f| is w·10^|f| + f |
| Parser.Scaled | hercodeinterpreter/GlobalFunc.go:57-59 | An exponent scales the mantissa up by 10^x, or down so that the result times 10^x is the mantissa, and keeps its sign |
| Parser.UnsignedDecimalValue | hercodeinterpreter/GlobalFunc.go:57-59 | An unsigned decimal without exponent is worth its mantissa; one without fraction is its whole digits scaled by the exponent |
| Parser.FractionSyntax | hercodeinterpreter/GlobalFunc.go:57-59 | `w.f` with digit-only parts, not both empty, is recognised as the decimal with those parts and no sign or exponent |
| Parser.NumberLiteralOfFraction | hercodeinterpreter/GlobalFunc.go:57-59 | `w.f` reads as the number whose value times 10^|f| is w·10^|f| + f |
| Parser.ExponentSyntaxOf | hercodeinterpreter/GlobalFunc.go:57-59 | `weX` and `we-X` with digit-only parts are recognised as the decimal with mantissa w and exponent X, negative for `e-` |
| Parser.NumberLiteralOfExponent | hercodeinterpreter/GlobalFunc.go:57-59 | `weX` reads as w·10^X and `we-X` as the number that times 10^X is w |
| Parser.MantissaSign | hercodeinterpreter/GlobalFunc.go:57-59 | The leading sign changes nothing in the recognised decimal but its sign flag |
| Parser.NegativeDecimalValue | hercodeinterpreter/GlobalFunc.go:57-59 | A decimal with the minus flag is worth minus the same decimal without it |
| Parser.NegatedSyntax | hercodeinterpreter/GlobalFunc.go:57-59 | `-t` is recognised exactly when t is, and denotes minus t's value |
| Parser.NumberLiteralNegated | hercodeinterpreter/GlobalFunc.go:57-59 | `-t` is a literal exactly when t is, with the negated value |
| Parser.NoLiteralStartsWithLetter | hercodeinterpreter/GlobalFunc.go:57-59 | A text starting with a letter or `_` is not a number literal |
| Parser.NoLiteralStartsWithQuote | hercodeinterpreter/GlobalFunc.go:57-62 | A quoted text is not a number |
| Parser.IdentPrefixLength | hercodeinterpreter/GlobalFunc.go:85 | The longest identifier at the start of the text |
| Parser.CallMatch | hercodeinterpreter/GlobalFunc.go:85 | A match of `^(ident)\((.*)\)$`: the text is name + `(` + arguments + `)`, with an identifier name and no newline in the arguments |
| Parser.CallMatchOf | hercodeinterpreter/GlobalFunc.go:85 | `name(a)` with an identifier name and an `a` without newlines matches with exactly that name and that argument text |
| Parser.AssignMatch | hercodeinterpreter/GlobalFunc.go:148 | A match of `^(ident)\s*=\s*(.*)$`: the target is an identifier at the start of the line and the value text has no newline |
| ParserLaws.AssignMatchOf | hercodeinterpreter/GlobalFunc.go:148 | An identifier, `\s` characters, `=`, `\s` characters and a value text that has no newline and does not start with `\s` match with that identifier as target and exactly that text as value |
| Parser.ParseSimple | hercodeinterpreter/GlobalFunc.go:55-80 | `parseSimpleExpression` gives only literals and variable references, never an operator or a call |
| Parser.ParseExpression | hercodeinterpreter/GlobalFunc.go:13-52 | Every tree the expression parser builds uses only operators from the list (never `=`), identifier names and number/string/bool literals |
| Parser.ParseCall | hercodeinterpreter/GlobalFunc.go:83-106 | `parseFunctionCall` builds only calls |
| Parser.ParseArgList | hercodeinterpreter/GlobalFunc.go:91-102 | One parsed argument per piece; any failing piece fails the list |
| Parser.ParseArgListPieces | hercodeinterpreter/GlobalFunc.go:91-102 | The argument list succeeds exactly when every trimmed piece parses, and then argument i is the parse of piece i |
| Parser.ParseArgListFirstFailure | hercodeinterpreter/GlobalFunc.go:93-97 | A failing argument list fails with the error of its first failing piece |
| Parser.ParseBinary | hercodeinterpreter/GlobalFunc.go:33-49 | The binary split builds only operator nodes |
| Parser.ParseCallOf | hercodeinterpreter/GlobalFunc.go:27-30 | `name(a)` parses as the call of name with no arguments when a is empty, otherwise with one argument per top-level piece of a, each the parse of the trimmed piece; when a piece fails, the text falls through to the binary split |
| Parser.ParseBinaryAt | hercodeinterpreter/GlobalFunc.go:33-47 | The fixed-priority split: a text that is not simple and not a call is split at the first operator of the list that cuts it; the left operand is the first piece and the right operand the other pieces re-joined with that operator; a failing operand fails the whole |
| Parser.ParseNoOperator | hercodeinterpreter/GlobalFunc.go:33-51 | A text that is not simple, not a call and cut by no operator of the list is unparsable |
| ParserLaws.ParseNameThen | hercodeinterpreter/GlobalFunc.go:33-47 | `x o u`, for a variable x and a one-character operator o that no earlier operator cuts: x is the left operand and the whole of u, whatever more occurrences of o it holds, the right operand |
| ParserLaws.SubtractionNestsRight | hercodeinterpreter/GlobalFunc.go:33-47 | `x - y - z` parses as `x - (y - z)`: operators of one priority nest to the right |
| ParserLaws.SumBeforeProduct | hercodeinterpreter/GlobalFunc.go:33-47 | `x + y * z` parses as `x + (y * z)`: an operator earlier in the list is cut first |
| Parser.ParseFunctionCall | hercodeinterpreter/GlobalFunc.go:83-106 | The Go code, with its argument loop, computes ParseCall |
| Parser.ArgListFrom | hercodeinterpreter/GlobalFunc.go:93-100 | The argument list from piece i on is piece i's parse, then the rest |
| Parser.ParseArguments | hercodeinterpreter/GlobalFunc.go:91-102 | The argument loop computes ParseArgList |
| Parser.ParseOfSimple | hercodeinterpreter/GlobalFunc.go:22-25 | A trimmed simple expression is parsed by the simple parser before anything else |
| Parser.NotNonFinite | hercodeinterpreter/GlobalFunc.go:57 | A quoted text is not read as an infinity or NaN |
| Parser.ParseQuoted | hercodeinterpreter/GlobalFunc.go:62-63 | Any trimmed text of length at least 2 between quotes is the String literal of its inner text, even with quotes or operators inside |
| Parser.ParseNatural | hercodeinterpreter/GlobalFunc.go:57-59 | The decimal text of n parses as the Number literal n |
| Parser.ParseTrue | hercodeinterpreter/GlobalFunc.go:67-69 | `true` parses as the Bool literal true |
| Parser.ParseFalse | hercodeinterpreter/GlobalFunc.go:70-72 | `false` parses as the Bool literal false |
| Parser.ParseVariable | hercodeinterpreter/GlobalFunc.go:75-77 | An identifier other than true, false and the infinity/NaN words parses as a variable reference |
| Parser.NoParenNoCall | hercodeinterpreter/GlobalFunc.go:85 | Text without `(` never has the call shape |
| Parser.ParseStatement | hercodeinterpreter/GlobalFunc.go:110-212 | `parseStatement` builds if/while nodes with empty branches and no else, identifier targets and callees, and parser-built expressions |
| Parser.IfStatement | hercodeinterpreter/GlobalFunc.go:114-128 | An `if ` line gives an if node with empty branches |
| Parser.WhileStatement | hercodeinterpreter/GlobalFunc.go:131-145 | A `while ` line gives a while node with an empty body |
| Parser.AssignStatement | hercodeinterpreter/GlobalFunc.go:148-155 | An assignment binds the matched target |
| Parser.SayStatement | hercodeinterpreter/GlobalFunc.go:158-165 | A `say ` line gives a say node, and fails exactly when its expression fails |
| Parser.DeclStatement | hercodeinterpreter/GlobalFunc.go:168-181 | A `var` line without `=` fails as an invalid declaration; otherwise the name is the text before the first `=`, trimmed and not checked as an identifier |
| Parser.ReturnStatement | hercodeinterpreter/GlobalFunc.go:184-191 | A `return ` line gives a return node |
| Parser.CallStatement | hercodeinterpreter/GlobalFunc.go:194-204 | A call-shaped line whose expression parses as a call gives a call statement with that call's name and arguments; one that parses as anything else fails as an invalid call |
| Parser.TrimSpaceInside | hercodeinterpreter/GlobalFunc.go:174 | Every character of a trimmed text occurs in the text |
| Parser.IdentNotKeywordLine | hercodeinterpreter/GlobalFunc.go:207-209 | An identifier never starts with a keyword followed by a space |
| Parser.BareNameIsCall | hercodeinterpreter/GlobalFunc.go:207-209 | A bare identifier line is a call with no arguments |
| Parser.SayIsNoAssignment | hercodeinterpreter/GlobalFunc.go:148-165 | `say e` is never taken for an assignment, even when e has `=` |
| Parser.SayText | hercodeinterpreter/GlobalFunc.go:158-159 | Dropping `say` and trimming leaves the expression text |
| Parser.SayLine | hercodeinterpreter/GlobalFunc.go:158-165 | `say e`, with e trimmed and not an assignment, is the say statement of e's parse, or e's parse error |
| ParserLaws.IfLine | hercodeinterpreter/GlobalFunc.go:114-128 | `if c` is the if node of the parse of c with one trailing `:` removed, with empty branches; a failing condition is a bad-condition error |
| ParserLaws.WhileLine | hercodeinterpreter/GlobalFunc.go:131-145 | `while c` is the while node of the parse of c with one trailing `:` removed, with an empty body; a failing condition is a bad-condition error |
| ParserLaws.AssignLine | hercodeinterpreter/GlobalFunc.go:148-155 | `x = e`, for an identifier x other than `if` and `while`, assigns the parse of e to x; a failing e is a bad-assignment error |
| ParserLaws.SayLineOf | hercodeinterpreter/GlobalFunc.go:158-165 | `say e`, e not starting with `=`, is the say node of the parse of e, or that parse's error |
| ParserLaws.DeclLine | hercodeinterpreter/GlobalFunc.go:168-181 | `var n = e`, for a trimmed n without `=`, declares n with the parse of e, or fails with that parse's error |
| ParserLaws.DeclWithoutEquals | hercodeinterpreter/GlobalFunc.go:168-172 | A `var` line without `=` is an invalid declaration naming the whole line |
| ParserLaws.ReturnLine | hercodeinterpreter/GlobalFunc.go:184-191 | `return e`, e not starting with `=`, is the return node of the parse of e, or that parse's error |
| ParserLaws.CallLineShape | hercodeinterpreter/GlobalFunc.go:110-204 | A call-shaped line is tried as a call statement, whatever its name (the keyword tests and the assignment pattern all fail on it) |
| ParserLaws.CallLine | hercodeinterpreter/GlobalFunc.go:194-204 | `n(a)`: with empty a, the call of n with no arguments; when every top-level piece of a parses, the call of n with their parses; otherwise whatever the binary split makes of the line, an invalid call when that split succeeds |
| Ast.ArgTexts | hercodeinterpreter/FuncCallExpr.go:16-19 | Argument i's text is the String of argument i |
| Ast.LinesAppend | hercodeinterpreter/IfStmt.go:15-40 | Appending a statement to a block appends exactly its indented line to the block's text |
| Ast.CallTexts | hercodeinterpreter/FuncCallExpr.go:15-22 | A call expression prints like the call statement, plus the stray `}` its format string has |
| Printer.ArgStrings | hercodeinterpreter/FuncCallExpr.go:15-22 | The argument loop collects ArgTexts |
| Printer.ExprString | hercodeinterpreter/BinOpExpr.go:13-15 | The String methods of literals, variables, operators (`l op r`) and calls compute ExprText |
| Printer.WriteLines | hercodeinterpreter/IfStmt.go:19-22 | The builder loop writes each statement on its own indented line |
| Printer.StmtString | hercodeinterpreter/IfStmt.go:15-40 | The statement String methods compute StmtText: `if C {`/`while C {` blocks with four-space lines, `var n e` with no `=`, `n = e`, `return e`, `say e`, `name(args)` |
| Ast.ExprText | hercodeinterpreter/FuncCallExpr.go:15-22 | A literal's text is its value's text and a variable's is its name; an operation's is the left text, the operator between single spaces, then the right text; a call's starts with `name(` and ends with the stray `)}` |
| Ast.StmtText | hercodeinterpreter/IfStmt.go:15-40 | `if C {` and `while C {` texts end with a `}` line; an assignment is `n = e`; `var n`, `return` and `say` texts start with their keyword and end with the expression's text; a call statement is `name(` … `)` |
| Ast.IfElseText | hercodeinterpreter/IfStmt.go:15-40 | An if with an else prints as the if without it followed by an `else {` block of the else statements and a `}` line |
| Functions.ParamsWrittenIsJoin | hercodeinterpreter/HerCodeFunction.go:26-32 | The parameter loop writes the parameters joined by `, ` |
| Functions.WrittenShift | hercodeinterpreter/HerCodeFunction.go:26-32 | Writing a parameter list is its first parameter, `, `, then the rest |
| Functions.HerCodeFunction.constructor | hercodeinterpreter/HerCodeFunction.go:15-21 | NewHerCodeFunction: the given name, no parameters, no statements, Number return type |
| Functions.HerCodeFunction.Literal | hercodeinterpreter/hercodeinterpreter.go:33-49 | A function object built with every field given |
| Functions.HerCodeFunction.SetName | hercodeinterpreter/HerCodeFunction.go:43-45 | Replaces the name and nothing else |
| Functions.HerCodeFunction.SetStatements | hercodeinterpreter/HerCodeFunction.go:47-49 | Replaces the statements and nothing else |
| Functions.HerCodeFunction.SetParameters | hercodeinterpreter/HerCodeFunction.go:51-53 | Replaces the parameters and nothing else |
| Functions.HerCodeFunction.String | hercodeinterpreter/HerCodeFunction.go:23-41 | `Name(`, the parameters joined by `, `, `) {` and a newline, a line `  s` per statement, then `}` and a newline |
| Functions.FunctionText | hercodeinterpreter/HerCodeFunction.go:23-41 | The text starts with `name(params) {` and a newline, and ends with `}` and a newline; with no statements it is exactly those two lines |
| Contexts.LookupVarMeaning | hercodeinterpreter/context.go:18-24 | A variable lookup misses exactly when no scope binds the name; otherwise it finds the innermost binding |
| Contexts.LookupFuncMeaning | hercodeinterpreter/context.go:29-35 | The same for function lookup |
| Contexts.LookupVar | hercodeinterpreter/context.go:18-24 | A found value is bound to the name in some scope; a name no scope binds is not found |
| Contexts.LookupFunc | hercodeinterpreter/context.go:29-35 | A found function is defined under the name in some scope; a name no scope defines is not found |
| Contexts.SetLocal | hercodeinterpreter/context.go:26-28 | A write changes only the innermost scope's variable table |
| Contexts.LookupAfterSet | hercodeinterpreter/context.go:18-28 | After a write, the name looks up to the value written |
| Contexts.LookupAfterSetOther | hercodeinterpreter/context.go:18-28 | A write leaves every other name's lookup unchanged |
| Contexts.SetLocalShadows | hercodeinterpreter/context.go:18-28 | A write in an inner scope never changes what the enclosing scopes see, even when it shadows one of their bindings |
| Contexts.Context.constructor | hercodeinterpreter/context.go:10-16 | NewContext: empty tables and the given parent; its frames are the parent's plus one empty frame |
| Contexts.Context.Frames | hercodeinterpreter/context.go:4-8 | The chain as one frame per scope, as many as its depth + 1 |
| Contexts.Context.GlobalFunc | hercodeinterpreter/context.go:47-54 | Reports not-found at every depth of the chain |
| Contexts.Context.SetVar | hercodeinterpreter/context.go:26-28 | Writes only this scope's variable map; the chain's frames become SetLocal of the old frames |
| Contexts.Context.SetFunc | hercodeinterpreter/context.go:37-43 | Writes only this scope's function map |
| Contexts.Snapshot | hercodeinterpreter/context.go:6 | A function table's snapshots, with the same names |
| Contexts.ChildFrames | hercodeinterpreter/context.go:10-16 | A scope's frames are its parent's frames plus its own |
| Contexts.GetVarIsLookup | hercodeinterpreter/context.go:18-24 | GetVar through the parent chain equals the nearest-binding lookup in the frames |
| Contexts.GetFuncIsLookup | hercodeinterpreter/context.go:29-35 | GetFunc finds the object whose snapshot the frame lookup finds, and misses exactly when it misses |
| Operators.Trunc | hercodeinterpreter/BinOpExpr.go:92 | Go's `int()` of a number: truncation toward zero |
| Operators.Rem | hercodeinterpreter/BinOpExpr.go:92 | Go's integer `%`: smaller in magnitude than the divisor, with the dividend's sign |
| Operators.QuotRem | hercodeinterpreter/BinOpExpr.go:92 | Quotient times divisor plus remainder is the dividend |
| Operators.Add | hercodeinterpreter/BinOpExpr.go:57-64 | Number + Number is the sum; otherwise, if either side is a String, the two renderings are concatenated; any other pairing is a type-mismatch Error |
| Operators.Arith | hercodeinterpreter/BinOpExpr.go:66-85 | `-`, `*` and `/` accept only two numbers, else a type mismatch; on numbers the difference plus the right operand is the left, the product is the product, a quotient times a non-zero divisor is the dividend, and division by exactly 0 is the division Error |
| Operators.ModuloAsWritten | hercodeinterpreter/BinOpExpr.go:87-94 | `%` as written: it panics exactly when the divisor is non-zero but truncates to 0 |
| Operators.ModuloFractionalDivisorPanics | hercodeinterpreter/BinOpExpr.go:87-94 | `5 % 0.5` panics |
| Operators.Modulo | hercodeinterpreter/BinOpExpr.go:87-94 | `%` as intended: a type mismatch unless both sides are numbers; the modulo Error exactly when the divisor truncates to 0; otherwise the Go remainder of the truncated operands |
| Operators.ModuloAgreesWhereDefined | hercodeinterpreter/BinOpExpr.go:87-94 | Wherever the code as written does not panic, it computes the same as the corrected `%` |
| Operators.ModuloBound | hercodeinterpreter/BinOpExpr.go:87-94 | The remainder is a number smaller in magnitude than the truncated divisor |
| Operators.Compare | hercodeinterpreter/BinOpExpr.go:122-156 | An ordering operator gives a Bool exactly on Number/Number or String/String, and a type mismatch on any other pairing; on numbers the Bool is the order of the reals and on strings the byte order, `<=`/`>=` including equality |
| Operators.ApplyOp | hercodeinterpreter/BinOpExpr.go:56-160 | `==` is payload equality, `!=` always its negation, an unknown operator is an Error |
| Operators.AddStrings | hercodeinterpreter/BinOpExpr.go:57-64 | Two strings are concatenated |
| Operators.VoidNeverEqual | hercodeinterpreter/BinOpExpr.go:96-120 | Void equals nothing, not even Void, and differs from everything |
| Operators.EqualityLaws | hercodeinterpreter/BinOpExpr.go:96-107 | `==` is reflexive on numbers, strings and booleans, symmetric, and true only on identical values |
| Operators.StringOrder | hercodeinterpreter/BinOpExpr.go:96-156 | For two strings exactly one of `<`, `==`, `>` holds; `<=` is `<` or equal, `>=` is `>` or equal |
| Operators.StringOrderSwapped | hercodeinterpreter/BinOpExpr.go:122-156 | `s > t` is `t < s` and `s >= t` is `t <= s` |
| Operators.StringComparisons | hercodeinterpreter/BinOpExpr.go:122-156 | On strings `<` is the byte order, `>` the swapped byte order, `<=` and `>=` those orders or equality |
| Operators.NumberOrder | hercodeinterpreter/BinOpExpr.go:122-156 | On numbers `<`, `>`, `<=`, `>=` give the order of the reals, and exactly one of `<`, `==`, `>` is true |
| Operators.SubtractThenAdd | hercodeinterpreter/BinOpExpr.go:57-70 | Subtracting y and adding y back gives x again |
| Operators.DivideThenMultiply | hercodeinterpreter/BinOpExpr.go:72-85 | Dividing by non-zero y and multiplying by y gives x back; dividing by 0 is the division Error |
| Operators.ArithLaws | hercodeinterpreter/BinOpExpr.go:66-76 | `*` on numbers commutes and `x - x` is 0 |
| Operators.Equal | hercodeinterpreter/BinOpExpr.go:95-106 | Two values are `==` exactly when they are the same number, string or boolean; any other pairing is unequal |
| Operators.Len | hercodeinterpreter/FuncCallExpr.go:47-55 | A number exactly for one String argument, and then its byte length |
| Operators.Substr | hercodeinterpreter/FuncCallExpr.go:57-87 | A string if and only if there are 2 or 3 arguments of types String, Number(, Number) with 0 <= start < len and start <= end <= len; it is then `str[start:end]`; otherwise an Error |
| Operators.Builtin | hercodeinterpreter/FuncCallExpr.go:47-100 | A builtin gives a number, a string or an Error; only substr gives a string; len succeeds exactly on one String argument, sqrt exactly on one non-negative Number |
| Operators.Sqrt | hercodeinterpreter/FuncCallExpr.go:89-100 | A number exactly for one non-negative Number argument, and then its square root |
| Operators.LenOfSubstr | hercodeinterpreter/FuncCallExpr.go:47-87 | The length of a substring is end minus start |
| Operators.SubstrWhole | hercodeinterpreter/FuncCallExpr.go:57-87 | `substr(s, 0)` is s, and it is an Error on the empty string (start must be below the length) |
| Operators.SubstrSplit | hercodeinterpreter/FuncCallExpr.go:57-87 | `substr(s, 0, k) + substr(s, k)` is s for 0 < k < len |
| Semantics.EvolvesTransitive | hercodeinterpreter/context.go:26-28 | Evolving twice is evolving: only the innermost scope changes and output only grows |
| Semantics.BindParams | hercodeinterpreter/FuncCallExpr.go:106-112 | The parameters bound are exactly the parameter names |
| Semantics.Eval | hercodeinterpreter/BinOpExpr.go:16-161 | Expression.Eval: writes only the innermost scope and only appends output |
| Semantics.EvalAssign | hercodeinterpreter/BinOpExpr.go:19-38 | The `=` branch writes only the innermost scope |
| Semantics.EvalBinary | hercodeinterpreter/BinOpExpr.go:40-160 | The operator branch, left operand first, writes only the innermost scope |
| Semantics.EvalArgs | hercodeinterpreter/FuncCallExpr.go:34-44 | Either one value per argument, or the outcome that stopped the loop |
| Semantics.EvalCall | hercodeinterpreter/FuncCallExpr.go:24-130 | A call writes only the caller's innermost scope |
| Semantics.CallFunction | hercodeinterpreter/FuncCallExpr.go:103-129 | A user function runs in a new scope that is dropped afterwards: the caller's frames are unchanged and output only grows |
| Semantics.Exec | hercodeinterpreter/IfStmt.go:42-80 | Statement.Execute writes only the innermost scope |
| Semantics.RunBlock | hercodeinterpreter/IfStmt.go:55-65 | A statement list writes only the innermost scope |
| Semantics.ExecIf | hercodeinterpreter/IfStmt.go:42-80 | IfStmt.Execute writes only the innermost scope |
| Semantics.WhilePass | hercodeinterpreter/WhileStmt.go:20-47 | A loop pass goes on only when the condition was true, the body gave Void and fuel is left |
| Semantics.RunWhile | hercodeinterpreter/WhileStmt.go:19-49 | WhileStmt.Execute writes only the innermost scope |
| Semantics.ExecBind | hercodeinterpreter/VarDeclStmt.go:15-25 | VarDeclStmt and AssignStmt.Execute write only the innermost scope |
| Semantics.ExecSay | hercodeinterpreter/saystmt.go:13-34 | SayStmt.Execute writes no variable and only appends output |
| Semantics.SayLine | hercodeinterpreter/saystmt.go:19-31 | An Error value prints as an error line and a number as a number line, exactly; a string, a boolean, Void and a function value print their text; a slice or a map prints an empty line |
| Semantics.ExecCallStmt | hercodeinterpreter/FuncCallStmt.go:26-45 | FuncCallStmt.Execute writes only the innermost scope |
| Semantics.CallStmtOutcome | hercodeinterpreter/FuncCallStmt.go:34-44 | An Error value from the call is raised; a raised error is dropped and Go's zero Value returned; any other value is returned unchanged |
| Laws.BindParamsLookup | hercodeinterpreter/FuncCallExpr.go:106-112 | Parameter i, unless repeated later, is bound to argument i, or to Void when the call has fewer arguments |
| Laws.BindParamsIgnoresExtra | hercodeinterpreter/FuncCallExpr.go:106-112 | Extra arguments are ignored |
| Laws.AssignmentBinds | hercodeinterpreter/BinOpExpr.go:19-38 | `x = e` returns e's outcome; a value that is not an Error is bound to x, and otherwise nothing is bound |
| Laws.BindLeavesOthers | hercodeinterpreter/AssignStmt.go:11-21 | An assignment or declaration leaves every other name's binding as the expression left it |
| Laws.DeclarationBinds | hercodeinterpreter/VarDeclStmt.go:15-25 | A declaration whose value is not an Error gives Void and binds the name to the value |
| Laws.CallKeepsCallerScopes | hercodeinterpreter/FuncCallExpr.go:103-129 | A user-function call leaves the caller's environment as the argument evaluation left it |
| Laws.UndefinedCallEvaluatesNothing | hercodeinterpreter/FuncCallExpr.go:28-31 | Calling an unknown name gives the undefined-function Error and evaluates no argument |
| Laws.SayPrintsOneLine | hercodeinterpreter/saystmt.go:13-34 | A say whose expression gives a value (Error values included) prints exactly that value's line and gives Void; a raised error is passed on with nothing printed |
| Laws.RunBlockAppend | hercodeinterpreter/IfStmt.go:55-65 | Running `a + b` is running a, then b when a gave Void |
| Laws.SayBlockOutput | hercodeinterpreter/saystmt.go:13-34 | A block of says of literals prints their lines in order and gives Void |
| Laws.SayLiteral | hercodeinterpreter/saystmt.go:13-34 | Saying a literal prints its line and changes nothing else |
| Laws.RunBlockVoidStep | hercodeinterpreter/FuncCallExpr.go:115-129 | A block whose first statement gives Void goes on with the rest |
| Laws.WhileFalseRunsNoBody | hercodeinterpreter/WhileStmt.go:33-35 | A loop whose condition is false at the start runs no body statement and gives Void |
| Laws.WhileTrueUnrolls | hercodeinterpreter/WhileStmt.go:20-47 | A true condition runs the body; a Void result repeats the loop with one unit less fuel, any other result ends it |
| Laws.IfFalseWithoutElse | hercodeinterpreter/IfStmt.go:66-79 | A false condition with no else branch runs no statement and gives Void |
| Laws.NonBooleanCondition | hercodeinterpreter/IfStmt.go:51-52 | A non-boolean condition value is the condition Error, for if and for while alike |
| Laws.VariableReadsNearest | hercodeinterpreter/VarRefExpr.go:10-16 | A variable evaluates to its nearest binding, or the undefined-variable Error value, and changes nothing |
| Evaluator.EvalExpr | hercodeinterpreter/literalexpr.go:14-16 | Eval of any expression on a Context computes Semantics.Eval on its frames; the function tables are untouched |
| Evaluator.EvalAssignment | hercodeinterpreter/BinOpExpr.go:19-38 | The `=` branch with `ctx.SetVar` computes EvalAssign |
| Evaluator.EvalBinOp | hercodeinterpreter/BinOpExpr.go:16-161 | BinOpExpr.Eval computes EvalBinary |
| Evaluator.EvalFuncCall | hercodeinterpreter/FuncCallExpr.go:24-130 | FuncCallExpr.Eval computes EvalCall |
| Evaluator.EvalArguments | hercodeinterpreter/FuncCallExpr.go:34-44 | The argument loop computes EvalArgs |
| Evaluator.BindParameters | hercodeinterpreter/FuncCallExpr.go:106-112 | The SetVar loop leaves exactly BindParams in the new scope |
| Evaluator.CallUserFunction | hercodeinterpreter/FuncCallExpr.go:103-129 | The user-function branch computes CallFunction and leaves the caller's frames as they were |
| Evaluator.RunInScope | hercodeinterpreter/FuncCallExpr.go:103-129 | The body run in a new child context computes RunBlock on the caller's frames plus the parameter frame |
| Evaluator.CallScope | hercodeinterpreter/FuncCallExpr.go:103-112 | `NewContext(ctx)` and the parameter bindings: a fresh child whose frames are the caller's plus the parameter frame |
| Evaluator.CallFunctionRuns | hercodeinterpreter/FuncCallExpr.go:115-129 | Running the body in the parameter scope is the call |
| Evaluator.ExecuteStmt | hercodeinterpreter/ReturnStmt.go:10-19 | Execute of any statement computes Exec |
| Evaluator.ExecuteBlock | hercodeinterpreter/IfStmt.go:55-65 | The early-return statement loop computes RunBlock |
| Evaluator.ExecuteIf | hercodeinterpreter/IfStmt.go:42-80 | IfStmt.Execute computes ExecIf |
| Evaluator.ExecuteWhile | hercodeinterpreter/WhileStmt.go:19-49 | WhileStmt.Execute's loop computes RunWhile |
| Evaluator.WhileIteration | hercodeinterpreter/WhileStmt.go:20-47 | One iteration of that loop computes WhilePass |
| Evaluator.ExecuteBind | hercodeinterpreter/AssignStmt.go:11-21 | VarDeclStmt/AssignStmt.Execute with `ctx.SetVar` compute ExecBind |
| Evaluator.ExecuteSay | hercodeinterpreter/saystmt.go:13-34 | SayStmt.Execute computes ExecSay |
| Evaluator.ExecuteCallStmt | hercodeinterpreter/FuncCallStmt.go:26-45 | FuncCallStmt.Execute computes ExecCallStmt |
| Assembler.Append | hercodeinterpreter/hercodeinterpreter.go:175-194 | Adding to an if goes to its else list (now present) or its then list by the flag given; adding to a while goes to its body |
| Assembler.OpenBlock | hercodeinterpreter/hercodeinterpreter.go:286-292 | An if or while is pushed, the cursor points at it and the else flag is cleared |
| Assembler.ElseLine | hercodeinterpreter/hercodeinterpreter.go:143-162 | `else` fails exactly on an empty block stack or a top that is not an if; otherwise the top if's else list is replaced by an empty one, the cursor points at it and the flag is set |
| Assembler.CloseBlock | hercodeinterpreter/hercodeinterpreter.go:165-229 | `endif`/`endwhile` fail exactly on an empty stack; otherwise the top frame is popped whatever its kind, and the cursor and the flag are cleared; with a frame below, the lower frames and the body stay and the popped frame is appended to the new top; with none, it is appended to the function body |
| Assembler.AddLeaf | hercodeinterpreter/hercodeinterpreter.go:293-310 | A statement goes to the function body when there is no cursor; otherwise inside an if to its else list exactly when the else flag is set, inside a while to its body, with the body and the blocks below unchanged |
| Assembler.AddReturn | hercodeinterpreter/hercodeinterpreter.go:232-257 | A return goes to the function body when there is no cursor; inside an if it goes to the else list exactly when that list is non-empty and to the then list otherwise; inside a while to its body; the body and the blocks below are unchanged |
| Assembler.LeafAfterCloseGoesToBody | hercodeinterpreter/hercodeinterpreter.go:175-194 | After a nested block closes, the next statement goes to the function body, not the enclosing block |
| Assembler.ClosedBlockNeverInElse | hercodeinterpreter/hercodeinterpreter.go:175-186 | A closed block goes to the then list of an enclosing if, never to its else list, and to the body of an enclosing while; the frames below and the function body are unchanged |
| Assembler.OutermostCloseGoesToBody | hercodeinterpreter/hercodeinterpreter.go:187-194 | A block closed with nothing open around it becomes the function body's next statement |
| Assembler.ReturnIgnoresElseFlag | hercodeinterpreter/hercodeinterpreter.go:242-249 | The else flag plays no part in where a return goes |
| Assembler.ElseRouting | hercodeinterpreter/hercodeinterpreter.go:143-162 | Right after `else`, a statement goes to the else list, but a return goes to the then list (the else list is still empty) |
| Assembler.Initial | hercodeinterpreter/hercodeinterpreter.go:56-62 | Parse starts with both stacks empty, no cursor and no open function, every table entry kept |
| Assembler.SaveOpen | hercodeinterpreter/hercodeinterpreter.go:103-115 | A header while a function is open stores a new object for it, with the top frame's parameters and the statements so far; the stack object is not updated |
| Assembler.Open | hercodeinterpreter/hercodeinterpreter.go:117-127 | A new function object is stored under its name and pushed; reading goes on in it with no statements and no cursor |
| Assembler.FunctionLine | hercodeinterpreter/hercodeinterpreter.go:96-128 | After a header, the new function is open with the header's parameters, an empty body and no cursor, and is stored under its name; a function still open is first saved with its statements and parameters, and the new one is pushed on the function stack |
| Assembler.StartLine | hercodeinterpreter/hercodeinterpreter.go:131-140 | `start:` stores and pushes an empty `start` without saving the open function |
| Assembler.EndLine | hercodeinterpreter/hercodeinterpreter.go:260-276 | `end` stores the statements read into the top frame and pops it; the blocks and the flag survive, and the current function becomes the one now on top, or none; with an empty function stack it has no effect |
| Assembler.ReturnMatch | hercodeinterpreter/hercodeinterpreter.go:232-234 | `^return\s+(.*)`: the word, then at least one space |
| Assembler.StatementLine | hercodeinterpreter/hercodeinterpreter.go:279-313 | A statement changes only the cursor and blocks, never the table, the function stack or the current function; an if or while opens a block, any other statement is added as a leaf |
| Assembler.Classify | hercodeinterpreter/hercodeinterpreter.go:89-279 | Each kind holds exactly when its test passes and every earlier test, in the loop's order, fails: blank or `#` lines, `function ` headers, `if`/`while` starts, `else`, `endif`, `endwhile`, returns matching the regex, `end`; other lines are body lines only inside a function |
| Assembler.HeaderApply | hercodeinterpreter/hercodeinterpreter.go:96-101 | A bad header stops the parse at its line |
| Assembler.ElseApply | hercodeinterpreter/hercodeinterpreter.go:143-162 | A misplaced `else` stops the parse at its line |
| Assembler.CloseApply | hercodeinterpreter/hercodeinterpreter.go:165-229 | An unmatched `endif`/`endwhile` stops the parse with the error named after the keyword |
| Assembler.ReturnApply | hercodeinterpreter/hercodeinterpreter.go:232-257 | A bad return expression stops the parse at its line |
| Assembler.BodyApply | hercodeinterpreter/hercodeinterpreter.go:279-313 | A bad statement stops the parse at its line |
| Assembler.Apply | hercodeinterpreter/hercodeinterpreter.go:89-313 | Blank lines and statements outside functions change nothing; every failure names the line |
| Assembler.Step | hercodeinterpreter/hercodeinterpreter.go:80-313 | One loop iteration: a failure always names the current line and is never the end-of-input error |
| Assembler.Finish | hercodeinterpreter/hercodeinterpreter.go:316-320 | The end of input fails exactly when a function is still open, and names the bottom one (`funcStack[0]`) |
| Assembler.Assemble | hercodeinterpreter/hercodeinterpreter.go:79-320 | The loop from line k on keeps the state well formed |
| Assembler.Continue | hercodeinterpreter/hercodeinterpreter.go:79-314 | The same, for one line applied |
| Assembler.AssembleStep | hercodeinterpreter/hercodeinterpreter.go:79-314 | A line that applies moves the run on to the next line; a line that fails ends the run with its error |
| Assembler.StepByKind | hercodeinterpreter/hercodeinterpreter.go:86-92 | A line is cleaned, trimmed and classified before it is applied |
| Assembler.EndApplies | hercodeinterpreter/hercodeinterpreter.go:260-276 | An `end` line never fails |
| Assembler.ScanLines | hercodeinterpreter/hercodeinterpreter.go:56 | The lines of the script hold no newline |
| Assembler.DropCR | hercodeinterpreter/hercodeinterpreter.go:56 | A line ending in a carriage return loses exactly that one; any other line is unchanged |
| Assembler.ScanLinesRoundTrip | hercodeinterpreter/hercodeinterpreter.go:56 | Lines without newlines or a trailing carriage return, each written with its newline, scan back to themselves |
| Assembler.ParseScript | hercodeinterpreter/hercodeinterpreter.go:55-321 | The whole parse ends in a well-formed state |
| Assembler.SkippedLines | hercodeinterpreter/hercodeinterpreter.go:86-92 | Lines that are empty or start with `#` after comment stripping and trimming change nothing |
| Assembler.StatementOutsideFunctionDropped | hercodeinterpreter/hercodeinterpreter.go:279 | A statement line while no function is open is silently dropped |
| Assembler.OnlyOpenFunctionsFail | hercodeinterpreter/hercodeinterpreter.go:316-320 | With no function open, the end of input is no error, whatever blocks are left open |
| Assembler.FailureNamesItsLine | hercodeinterpreter/hercodeinterpreter.go:79-314 | A parse that stops on a line reports a number between the first unread line and the last line |
| Interpreter.ValueOf | hercodeinterpreter/hercodeinterpreter.go:344-346 | A statement's value, or Go's zero Value when it raised an error or ran out of fuel |
| Interpreter.ErrorOf | hercodeinterpreter/hercodeinterpreter.go:344-346 | A statement's error: none exactly when it gave a value |
| Interpreter.RunEach | hercodeinterpreter/hercodeinterpreter.go:343-348 | Every statement run in turn, with no early stop: one outcome per statement |
| Interpreter.RunEachAppend | hercodeinterpreter/hercodeinterpreter.go:343-348 | Running `a + b` is running a, then b from where a left off |
| Interpreter.RunEachAt | hercodeinterpreter/hercodeinterpreter.go:343-348 | Outcome i is statement i run in the state the statements before it left |
| Interpreter.RunEachFrom | hercodeinterpreter/hercodeinterpreter.go:343-348 | Running from statement i is running it, then the rest |
| Interpreter.ValuesOf | hercodeinterpreter/hercodeinterpreter.go:345 | One value per outcome |
| Interpreter.ErrorsOf | hercodeinterpreter/hercodeinterpreter.go:346 | One error per outcome |
| Interpreter.HerCodeInterpreter.constructor | hercodeinterpreter/hercodeinterpreter.go:23-28 | NewHerCodeInterpreter: an empty function table and a fresh global context with no parent; no built-ins are registered |
| Interpreter.HerCodeInterpreter.RegisterBuiltinFunctions | hercodeinterpreter/hercodeinterpreter.go:31-52 | Adds len(str), substr(str, start, end) and sqrt(num) with their return types and no body, and nothing else |
| Interpreter.HerCodeInterpreter.Parse | hercodeinterpreter/hercodeinterpreter.go:55-321 | Parse's result is ParseScript's error. Names it kept are the objects present before; names it made hold the assembler's functions; stacks and cursor are as the assembler left them; variables are untouched |
| Interpreter.HerCodeInterpreter.ParseNext | hercodeinterpreter/hercodeinterpreter.go:80-313 | One iteration of the loop does what Step says, or stops with Step's error |
| Interpreter.HerCodeInterpreter.ParseLine | hercodeinterpreter/hercodeinterpreter.go:96-313 | The dispatch on the line's kind does what Apply says |
| Interpreter.HerCodeInterpreter.HeaderLine | hercodeinterpreter/hercodeinterpreter.go:96-128 | A header line does what HeaderApply says |
| Interpreter.HerCodeInterpreter.StartEntryLine | hercodeinterpreter/hercodeinterpreter.go:131-140 | A `start:` line does what StartLine says |
| Interpreter.HerCodeInterpreter.FinalState | hercodeinterpreter/hercodeinterpreter.go:55-321 | The loop's correspondence with the assembler gives Parse's final state |
| Interpreter.HerCodeInterpreter.FunctionDefinitionLine | hercodeinterpreter/hercodeinterpreter.go:103-127 | Saving the open function and opening the new one does what FunctionLine says |
| Interpreter.HerCodeInterpreter.SaveOpenFunction | hercodeinterpreter/hercodeinterpreter.go:103-115 | Storing the open function does what SaveOpen says |
| Interpreter.HerCodeInterpreter.OpenFunction | hercodeinterpreter/hercodeinterpreter.go:117-127 | Creating, storing and pushing a function does what Open says |
| Interpreter.HerCodeInterpreter.ElseBranchLine | hercodeinterpreter/hercodeinterpreter.go:143-162 | An `else` line does what ElseApply says |
| Interpreter.HerCodeInterpreter.EndBlockLine | hercodeinterpreter/hercodeinterpreter.go:165-229 | An `endif`/`endwhile` line does what CloseApply says |
| Interpreter.HerCodeInterpreter.ReturnLine | hercodeinterpreter/hercodeinterpreter.go:232-257 | A `return` line does what ReturnApply says |
| Interpreter.HerCodeInterpreter.RouteReturn | hercodeinterpreter/hercodeinterpreter.go:238-256 | The return's placement is AddReturn's |
| Interpreter.HerCodeInterpreter.BodyStatementLine | hercodeinterpreter/hercodeinterpreter.go:279-313 | A statement line does what BodyApply says |
| Interpreter.HerCodeInterpreter.RouteStatement | hercodeinterpreter/hercodeinterpreter.go:286-312 | The statement's placement is StatementLine's |
| Interpreter.HerCodeInterpreter.EndFunctionLine | hercodeinterpreter/hercodeinterpreter.go:260-276 | An `end` line does what EndLine says, updating the object on top of the function stack in place |
| Interpreter.HerCodeInterpreter.Execute | hercodeinterpreter/hercodeinterpreter.go:324-353 | Without `start`: no values and exactly one error. Otherwise every top-level statement of `start` is run in order in the global context, with no early stop, giving one value and one error per statement (those of RunEach) |

## Left out

- Command-line handling, file loading and progress printing (main.go,
  readfile, itype) are not part of this model. They are input/output.
- `PrintFunctions` is a console dump for debugging and is not modelled.
- Console output is an output trace of `OutLine`s.
  - A number that `say` prints is recorded as the number itself
    (`NumberLine`). The text `fmt.Println` gives a float64 is not modelled.
  - The Chinese wording of error messages is replaced by error kinds.
- Numbers are exact reals, not float64.
  - Rounding, overflow, infinities and NaN are not modelled.
  - `int()` of huge or NaN floats is not modelled.
  - `%f` is rendered from the exact real.
- Operators.SubtractThenAdd: holds for exact reals only; in float64 a
  rounded difference need not add back to the first operand.
- Operators.DivideThenMultiply: holds for exact reals only, for the same
  rounding reason.
- Parser.NumberLiteral: only finite decimal literals are modelled.
  - `ParseFloat`'s hex floats and underscores are not modelled.
  - Out-of-range values (`1e400`) become ordinary reals, though `ParseFloat`
    reports an error for them.
  - `inf`, `infinity` and `nan` in any case are rejected as an expression
    (`NonFiniteNumber`), because a real cannot hold them; the Go code makes a
    Number literal of them.
- The value of `math.Sqrt` is a parameter `sqrt` of the evaluator. The
  argument checks are modelled.
- Whitespace is the six ASCII spaces. Go's `TrimSpace` and `Fields` also
  treat the Unicode spaces (U+0085, U+00A0 and others) as space, and text is
  treated as bytes. `splitArguments` walks runes and writes each back with
  `WriteRune`, so Go turns an invalid UTF-8 byte into the three bytes of
  U+FFFD; the model keeps the byte.
- Rendering a `FunctionType` value calls itself forever in Go; the model
  renders it as the empty text. No core operation creates such a value.
- Values.SortedKeys: Go iterates a map in an unspecified order; the model
  renders map entries in ascending key order. Only the one-key case is
  stated as a property.
- Fuel (Semantics.Eval, Semantics.RunWhile, Semantics.CallFunction): these
  are bounded by fuel. A `while` loop or a recursion that runs longer gives
  `OutOfFuel` instead of running on.
- The nil/empty slice distinction of statement lists is not modelled.
  - IfStmt.String printing "" for a nil then-branch is therefore left out.
    A parsed `if` always has a then list.
  - An `else` branch is a list plus a flag saying whether it exists.
- Operators.ApplyOp: `%` is sent to the corrected Operators.Modulo, so a
  divisor that is not 0 but truncates to 0 (`5 % 0.5`) gives the modulo
  Error value where the Go code panics (see Findings). Semantics.Eval and
  Evaluator.EvalBinOp inherit this.
- Scanners.ArgPieces and Scanners.OpPieces: their own contracts state only
  that there is at least one piece. Where the pieces are cut is stated by
  ArgPiecesSplitAt, ArgPiecesSkip, OpPiecesSplitAt, OpPiecesSkip,
  ArgumentsJoin and OperatorSplitJoin.
- Parser.AssignMatch: its own contract does not tie the value text to the
  line; ParserLaws.AssignMatchOf states it for every line of the pattern.
- Parser.ParseExpression, Parser.ParseCall and Parser.ParseBinary: their own
  contracts state only the shape of the trees built. The strategy order and
  the priority split are stated by ParseOfSimple, ParseCallOf, ParseBinaryAt
  and ParseNoOperator.
- Parser.ParseStatement, Parser.IfStatement, Parser.WhileStatement,
  Parser.AssignStatement and Parser.ReturnStatement: their own contracts
  state only the kind of node. What each kind holds is stated by the lemmas
  IfLine, WhileLine, AssignLine, SayLineOf, DeclLine, ReturnLine and CallLine
  in ParserLaws, for lines written in the usual way (one space after the
  keyword, trimmed operands).
- Contexts.Context.SetFunc states the new function table but not the frames
  view.
- `cleanQuotes` is modelled (Scanners.CleanQuotes), but nothing in Parse
  calls it, as in the Go code.
- The lines of a script are the `bufio.Scanner` lines (Assembler.ScanLines).
  Its 64 KiB line-length limit and its read errors are not modelled.
- `BinOpExpr.lineNum` is never set by the parser and plays no part.
- Semantics.Eval and the other evaluation functions state only what they may
  change. Their results are pinned by the lemmas in Laws and by the
  evaluator methods that are proved equal to them.

## Findings

| source | as written | input that shows it | evidently intended | confidence | as-written member | corrected member |
|---|---|---|---|---|---|---|
| hercodeinterpreter/BinOpExpr.go:87-94 | `%` tests the float divisor against 0, then takes `int(left) % int(right)` | `5 % 0.5`: the divisor is not 0, `int(0.5) == 0`, and Go's integer `%` panics (division by zero) | any divisor that truncates to 0 gives the modulo-by-zero Error value | not executed | Operators.ModuloFractionalDivisorPanics | Operators.ModuloAgreesWhereDefined |
