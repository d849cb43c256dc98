# glox scanner, modelled in Dafny

This project models the lexical scanner of glox, a Lox interpreter written in
Go, together with its token data model, and proves properties of both.

The scanner makes one pass over a byte string, from left to right. It keeps a
`start` cursor, a `current` cursor and a `line` counter, and it appends tokens
to a growing list. It recognises:

- one-byte punctuation;
- `!`, `=`, `<` and `>`, each with an optional `=`;
- `//` comments;
- whitespace and line feeds;
- string literals, which may span lines;
- decimal numbers, with an optional fraction.

It has no identifier or keyword scanning: a letter is an unexpected character.
Errors go through `report`, which raises a global error flag. Scanning then
continues, and the pass always ends with one end-of-file token.

The project has three modules.

- `Tokens` (`tokens.dfy`) covers `token.go`:
  - the 39 token kinds, as integer codes in declaration order;
  - their name table (`TokenType.String`);
  - the symbol switch `TokenTypeToString`;
  - the token record, `NewToken`, and the rendering functions `Token.String` and `TokenLiteralToString`.

  Each table has a reference decoding (`KindOfName`, `KindOfSymbol`), and the table is proved to read back through it.
- `Lexing` (`lexing.dfy`) is the scan as a function of the source:
  - `ScanStep` is one dispatch of `scanToken` at a position;
  - `LexFrom` is the loop of `ScanTokens`, as one piece per dispatch;
  - `Scan` and `ScanDiagnostics` give the tokens and the reported errors of a whole source.

  This module holds the lemmas about the token sequence: the EOF sentinel, the lexemes spelling the source, the line numbers, the shape of every token, and a few concrete scans.
- `Scanning` (`scanner.dfy`) is the imperative scanner:
  - a class `Scanner` whose fields are updated in place by methods that mirror the Go methods;
  - `scanToken` and `ScanTokens` are proved to do what `ScanStep` and `LexFrom` say;
  - the method `Tokenize` is what `run` in `main.go` does with a source: its result is exactly `Scan` and `ScanDiagnostics`, plus the error flag.

Choices made for the model:

- **Source.** The source is a `seq<Byte>`, one `char` below 256 per byte, because Go indexes bytes.
- **Unexpected character.** A byte of 0x80 or more is shown in the "Unexpected character" message by its two-byte UTF-8 encoding. The Go code converts the byte to a rune and formats it with `%s`, which produces that encoding.
- **Error flag.** The global `HadError` is a field of the scanner. It starts false, because a fresh process starts with it false.
- **Reports.** Each `report` call is recorded as a `Diagnostic(line, where, message)` in a `diagnostics` field, in place of the line written to standard error.
- **Literals.** A literal is `Absent` (Go's `nil`), `Str(text)` or `Num(lexeme)`. A number keeps its digit lexeme instead of a float.
- **Number errors.** `strconv.ParseFloat` on such a lexeme fails only when the value rounds past the largest binary64 value. This happens exactly when the integer digits are worth at least 2^1024 - 2^970 (`Float64OverflowBound`). That bound is reachable: any integer part of 310 digits or more without leading zeros exceeds it. In that case the scanner reports `Invalid number: +Inf`, since `%v` of +Inf is `+Inf`. The model keeps this branch.
- **Helper methods.** The loops written inline in `string`, `number` and the comment branch of `scanToken` are helper methods in the model: `SkipStringBody`, `SkipDigits`/`SkipNumber` and `SkipComment`. The repeated `match('=')` branches are `ScanOperator`, and the `/` branch is `ScanSlash`. Each one does exactly what the inline Go code does at that point.
- `isAtEnd` is the predicate `Scanner.IsAtEnd`, which guards the loops in the method bodies. `isDigit` is the predicate `Lexing.IsDigit`, which the contracts of the number members use.

## Model

| member | source | states |
|---|---|---|
| Tokens.KindName | cmd/interpreter/token.go:57-68 | definition: `TokenType.String`, the code looked up in the name array, one entry per kind in declaration order; its meaning is `KindNameRoundTrip` |
| Tokens.KindNameRoundTrip | cmd/interpreter/token.go:7-68 | the name table has one entry per kind: reading a kind's name back gives the kind, and every name starts with an upper-case letter and holds no space |
| Tokens.KindNamesDistinct | cmd/interpreter/token.go:57-68 | no two kinds share a name (`EQUAL_EQUAL` differs from `EQUAL`) |
| Tokens.Symbol | cmd/interpreter/token.go:86-167 | definition: the cases of the switch of `TokenTypeToString`, one per kind; its meaning is `SymbolRoundTrip` |
| Tokens.TokenTypeToString | cmd/interpreter/token.go:85-171 | a code of the enumeration gets a symbol that decodes back to that code; the result is `"N/A"` exactly for codes outside the enumeration |
| Tokens.SymbolRoundTrip | cmd/interpreter/token.go:85-167 | reading the symbol of a kind back gives the kind |
| Tokens.SymbolsDistinct | cmd/interpreter/token.go:86-167 | the results of `TokenTypeToString` are pairwise distinct over the 39 kinds |
| Tokens.OperatorSymbolsReadBack | cmd/interpreter/token.go:87-126 | each operator kind and `EOF` is shown by a symbol that decodes back to it (`BANG_EQUAL` is `!=`, `EOF` is the empty text) |
| Tokens.SymbolOfLiteralOrKeyword | cmd/interpreter/token.go:128-167 | a literal or keyword kind is shown by its upper-case name |
| Tokens.TokenTypeToStringNotApplicable | cmd/interpreter/token.go:169-170 | `"N/A"` is returned exactly for codes outside the enumeration |
| Tokens.NewToken | cmd/interpreter/token.go:77-79 | the token holds the four arguments unchanged |
| Tokens.TokenLiteralToString | cmd/interpreter/token.go:174-181 | an absent literal renders as `null`; a string literal renders as its text, without quotes |
| Tokens.TokenToString | cmd/interpreter/token.go:81-83 | definition: the kind name, a space, the lexeme, a space and the literal's rendering; its meaning is `RenderedTokenFields` |
| Tokens.RenderedTokenFields | cmd/interpreter/token.go:81-83 | the rendering is the kind name, a space, the lexeme, a space and the literal: its first word decodes to the kind, and for a lexeme without spaces the second word is the lexeme |
| Lexing.MatchAt | cmd/interpreter/scanner.go:112-122 | definition: what `match` tests, a byte at the position that is the expected one |
| Lexing.IsDigit | cmd/interpreter/scanner.go:160-162 | definition: `isDigit`, a byte from `0` to `9` |
| Lexing.CharAt | cmd/interpreter/scanner.go:124-136 | the byte at a position, or NUL past the end |
| Lexing.DigitRunEnd | cmd/interpreter/scanner.go:139-141 | the digit loop stops at the first non-digit, after digits only |
| Lexing.CommentEnd | cmd/interpreter/scanner.go:87-89 | the comment loop stops at the first line feed or at the end, passing no line feed |
| Lexing.StringEnd | cmd/interpreter/scanner.go:180-185 | the string loop stops at the first double quote or at the end, passing no double quote |
| Lexing.IntegerPartEnd | cmd/interpreter/scanner.go:138-141 | the integer part is the first digit and the digit run after it |
| Lexing.RuneText | cmd/interpreter/scanner.go:107 | `string(c)` of a byte rune: the byte itself below 0x80, else a two-byte UTF-8 sequence that decodes to it |
| Lexing.Single | cmd/interpreter/scanner.go:40-59 | definition: a one-byte token consumes its byte, keeps the line and emits its kind with no literal |
| Lexing.WithEqual | cmd/interpreter/scanner.go:60-83 | definition: the two-byte kind over two bytes when `=` follows, the one-byte kind over one byte otherwise, with no literal |
| Lexing.CommentStep | cmd/interpreter/scanner.go:84-92 | consumes at least the two slashes and stays inside the source; the rest of its meaning is `CommentStepShape` |
| Lexing.CommentStepShape | cmd/interpreter/scanner.go:84-92 | a comment emits nothing, keeps the line, consumes no line feed and stops at a line feed or at the end |
| Lexing.StringStep | cmd/interpreter/scanner.go:179-198 | consumes at least the opening quote and stays inside the source; the rest of its meaning is `StringStepShape` |
| Lexing.StringStepShape | cmd/interpreter/scanner.go:179-198 | a string fails exactly when no closing quote follows; a failure consumes the rest and reports "Unterminated string."; otherwise it emits `STRING` with the text between the quotes, none inside, on the line of the closing quote |
| Lexing.NumberEnd | cmd/interpreter/scanner.go:138-151 | ends at or after the integer part and inside the source; its meaning is `NumberEndShape` |
| Lexing.NumberEndShape | cmd/interpreter/scanner.go:138-151 | a number consumes a lexeme of digits with an optional dot and digits; no digit follows it, and a dot without a digit after it is left |
| Lexing.NumberIntegerDigits | cmd/interpreter/scanner.go:139-153 | the digits before the dot of the lexeme are the integer part that the first loop consumed |
| Lexing.ParseFloatOverflows | cmd/interpreter/scanner.go:153 | definition: whether `strconv.ParseFloat` fails on a number lexeme, that is, whether its integer digits are worth at least `Float64OverflowBound` |
| Lexing.NumberStep | cmd/interpreter/scanner.go:138-158 | consumes at least one byte and stays inside the source; its meaning is `NumberStepOutcome` |
| Lexing.NumberStepOutcome | cmd/interpreter/scanner.go:138-158 | a number fails with "Invalid number: +Inf" exactly when its integer part is at least the binary64 overflow bound, and otherwise emits `NUMBER` with its lexeme |
| Lexing.ScanStep | cmd/interpreter/scanner.go:37-110 | each dispatch consumes at least one byte and stays inside the source |
| Lexing.StepLine | cmd/interpreter/scanner.go:94-100 | the line moves by exactly the line feeds a dispatch consumes |
| Lexing.StringStepLine | cmd/interpreter/scanner.go:179-185 | a string moves the line by the line feeds between its quotes |
| Lexing.StepConsumesNoNewline | cmd/interpreter/scanner.go:37-110 | only a line feed or a string consumes a line feed |
| Lexing.LexFrom | cmd/interpreter/scanner.go:28-31 | definition: the loop of `ScanTokens`, one piece per dispatch from a position to the end; its meaning is `LexFromStep`, `LexFromSpellsSource`, `LexFromLines` and `LexFromWellFormed` |
| Lexing.Scan | cmd/interpreter/scanner.go:27-35 | definition: the tokens of the loop from position 0 on line 1, then `EOF` on line 1 plus the line feeds; its meaning is `ScanEndsWithEof`, `ScanWellFormed` and `ScanLines` |
| Lexing.ScanDiagnostics | cmd/interpreter/scanner.go:27-35 | definition: the errors the loop reports from position 0 on line 1, in order |
| Lexing.LexFromStep | cmd/interpreter/scanner.go:27-31 | one turn of the loop: the tokens and errors from a position are those of its dispatch followed by those from where it stopped |
| Lexing.LexFromSpellsSource | cmd/interpreter/scanner.go:174-177 | the consumed slices, in order, spell the source, so each lexeme is `source[start:current]` |
| Lexing.LexFromLines | cmd/interpreter/scanner.go:27-31 | token lines never decrease and lie between the start line and that line plus the line feeds left |
| Lexing.StepWellFormed | cmd/interpreter/scanner.go:37-110 | a token a dispatch emits is well formed and is never `EOF` |
| Lexing.StringWellFormed | cmd/interpreter/scanner.go:179-198 | a string token is its literal between two quotes, with no quote inside |
| Lexing.NumberWellFormed | cmd/interpreter/scanner.go:138-158 | a number token's lexeme is a number lexeme and its literal |
| Lexing.OperatorSymbols | cmd/interpreter/scanner.go:60-83 | an operator token's lexeme is the symbol of its kind |
| Lexing.PunctuationSymbols | cmd/interpreter/scanner.go:40-59 | a one-byte token's lexeme is the symbol of its kind |
| Lexing.LexFromWellFormed | cmd/interpreter/scanner.go:27-31 | every token of the loop is well formed and none is `EOF` |
| Lexing.ScanEndsWithEof | cmd/interpreter/scanner.go:27-35 | the last token is `EOF`, with an empty lexeme and no literal, on line 1 plus the line feeds of the source; no earlier token is `EOF` |
| Lexing.ScanWellFormed | cmd/interpreter/scanner.go:27-35 | every token returned is well formed; no identifier or keyword kind occurs |
| Lexing.ScanLines | cmd/interpreter/scanner.go:27-35 | token lines never decrease and run from 1 to the final line |
| Lexing.ScanEmpty | cmd/interpreter/scanner.go:17-35 | an empty source gives just `EOF` on line 1, and no error |
| Lexing.ScanBangEqual | cmd/interpreter/scanner.go:60-65 | `!=` is one `BANG_EQUAL` token |
| Lexing.ScanBangSpaceEqual | cmd/interpreter/scanner.go:60-71 | `! =` is `BANG` then `EQUAL` |
| Lexing.ScanCommentThenNumber | cmd/interpreter/scanner.go:84-151 | a comment runs to the line feed; in `1.5.` the number takes the fraction and leaves the trailing dot |
| Lexing.ScanMultilineString | cmd/interpreter/scanner.go:179-198 | a string over two lines is one token on the second line, with its literal unquoted |
| Lexing.ScanUnterminatedString | cmd/interpreter/scanner.go:187-190 | an unterminated string yields no token and one "Unterminated string." error |
| Lexing.LetterIsUnexpected | cmd/interpreter/scanner.go:103-108 | a letter or underscore is reported as an unexpected character, one byte at a time |
| Scanning.Scanner.constructor | cmd/interpreter/scanner.go:17-25 | both cursors at 0, line 1, no tokens, no error |
| Scanning.Scanner.IsAtEnd | cmd/interpreter/scanner.go:164-166 | definition: the cursor is at or past the end of the source |
| Scanning.Scanner.Peek | cmd/interpreter/scanner.go:124-129 | the byte at the cursor, or NUL at the end |
| Scanning.Scanner.PeekNext | cmd/interpreter/scanner.go:131-136 | the byte after the cursor, or NUL when there is none |
| Scanning.Scanner.Advance | cmd/interpreter/scanner.go:168-172 | returns the byte at the cursor and moves the cursor past it |
| Scanning.Scanner.Match | cmd/interpreter/scanner.go:112-122 | moves the cursor by one exactly when a byte is there and it is the expected one; the result says which |
| Scanning.Scanner.AddToken | cmd/interpreter/scanner.go:174-177 | appends the token with lexeme `source[start:current]` on the current line; earlier tokens are kept |
| Scanning.Scanner.Throw | cmd/interpreter/scanner.go:200-202 | a report with an empty location |
| Scanning.Scanner.Report | cmd/interpreter/scanner.go:204-207 | records the error and raises the flag |
| Scanning.Scanner.SkipStringBody | cmd/interpreter/scanner.go:180-185 | advances to `StringEnd`, counting the line feeds passed |
| Scanning.Scanner.ScanString | cmd/interpreter/scanner.go:179-198 | appends the token or error of the string dispatch and ends where it ends |
| Scanning.Scanner.SkipDigits | cmd/interpreter/scanner.go:139-141 | advances to `DigitRunEnd` |
| Scanning.Scanner.SkipNumber | cmd/interpreter/scanner.go:138-151 | advances to `NumberEnd` |
| Scanning.Scanner.ScanNumber | cmd/interpreter/scanner.go:138-158 | appends the token or error of the number dispatch and ends where it ends |
| Scanning.Scanner.SkipComment | cmd/interpreter/scanner.go:87-89 | advances to `CommentEnd` |
| Scanning.Scanner.ScanOperator | cmd/interpreter/scanner.go:60-83 | appends the two-byte kind when `=` follows, the one-byte kind otherwise |
| Scanning.Scanner.ScanSlash | cmd/interpreter/scanner.go:84-92 | skips a comment after `//`, else appends `SLASH` |
| Scanning.Scanner.ScanToken | cmd/interpreter/scanner.go:37-110 | one dispatch moves the cursor and line, and appends the token or error, as `ScanStep` says |
| Scanning.Scanner.ScanTokens | cmd/interpreter/scanner.go:27-35 | appends the tokens of `LexFrom` from the cursor, then one `EOF` on the final line; records its errors; raises the flag exactly when one was reported; returns the token list |
| Scanning.Tokenize | cmd/interpreter/main.go:49-51 | a new scanner over a source returns `Scan` of it, reports `ScanDiagnostics` of it, and has its flag up exactly when an error was reported |

## Left out

- `main.go` apart from `run`: argument handling, reading the file, printing the tokens and the exit codes. These are I/O.
- The text `report` writes to standard error. The model keeps the arguments of each call as a `Diagnostic` instead.
- The floating-point value of a number literal. The literal keeps its lexeme, and `TokenLiteralToString` takes the float formatting (`%0.1f` / `%g`) as a parameter `formatNumber`.
- The `[]rune` and default `%v` cases of `TokenLiteralToString`. The scanner never builds such literals.
- Which lexemes `strconv.ParseFloat` accepts, beyond what this scanner can pass it. A number lexeme is always well formed, so only the overflow to +Inf is modelled.
- Identifier and keyword scanning. The source has none.
- KindName: it is total over the 39 kinds because `TokenType` admits only their codes. Go's `TokenType.String` indexes its array and panics on any other value, and the model has no such value.
- The helper methods split out of loops that are inline in the Go code: `SkipStringBody`, `SkipDigits`, `SkipNumber`, `SkipComment`, `ScanOperator`, `ScanSlash`. Each runs the same statements as the inline Go code.
