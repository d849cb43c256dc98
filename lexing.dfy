/** The scan as a function of the source: what one dispatch of `scanToken`
    consumes and produces from a given position, the whole left-to-right
    pass built from those steps, and the properties of the token sequence
    that pass yields. The imperative scanner is proved against it. */
module Lexing {
  import opened Tokens

  /** The source is a byte string: one element per byte, as the scanner
      indexes it. */
  type Byte = c: char | c as int < 256 witness 'a'

  /** The NUL rune that `peek` and `peekNext` return past the end. */
  const Nul: char := 0 as char

  /** The byte at `i`, or NUL when `i` is past the end: `peek` at `i`, and
      `peekNext` when `i` is the current position plus one. */
  function CharAt(src: seq<Byte>, i: nat): (c: char)
    ensures i < |src| ==> c == src[i]
    ensures i >= |src| ==> c == Nul
  {
    if i < |src| then src[i] else Nul
  }

  /** `match` at position `i`: there is a byte there and it is `expected`. */
  predicate MatchAt(src: seq<Byte>, i: nat, expected: char)
  {
    i < |src| && src[i] == expected
  }

  /** `isDigit`. */
  predicate IsDigit(c: char)
  {
    '0' <= c <= '9'
  }

  predicate AllDigits(s: seq<char>)
  {
    forall k :: 0 <= k < |s| ==> IsDigit(s[k])
  }

  /** The number of line feeds in a text. */
  function NewlineCount(s: seq<char>): nat
  {
    if s == [] then 0
    else NewlineCount(s[..|s| - 1]) + (if s[|s| - 1] == '\n' then 1 else 0)
  }

  /** End of the run of digits that starts at `i`: the loop of `number`
      that advances while `peek` is a digit. */
  function DigitRunEnd(src: seq<Byte>, i: nat): (r: nat)
    requires i <= |src|
    ensures i <= r <= |src|
    ensures forall k :: i <= k < r ==> IsDigit(src[k])
    ensures !IsDigit(CharAt(src, r))
    decreases |src| - i
  {
    if i < |src| && IsDigit(src[i]) then DigitRunEnd(src, i + 1) else i
  }

  /** End of a line comment whose body starts at `i`: the first line feed at
      or after `i`, or the end of the source. */
  function CommentEnd(src: seq<Byte>, i: nat): (r: nat)
    requires i <= |src|
    ensures i <= r <= |src|
    ensures forall k :: i <= k < r ==> src[k] != '\n'
    ensures r == |src| || src[r] == '\n'
    decreases |src| - i
  {
    if CharAt(src, i) != '\n' && i < |src| then CommentEnd(src, i + 1) else i
  }

  /** End of the body of a string literal that starts at `i`: the first
      double quote at or after `i`, or the end of the source. */
  function StringEnd(src: seq<Byte>, i: nat): (r: nat)
    requires i <= |src|
    ensures i <= r <= |src|
    ensures forall k :: i <= k < r ==> src[k] != '"'
    ensures r == |src| || src[r] == '"'
    decreases |src| - i
  {
    if CharAt(src, i) != '"' && i < |src| then StringEnd(src, i + 1) else i
  }

  /** The value of a run of decimal digits. */
  function DigitsValue(s: seq<char>): nat
  {
    if s == [] then 0
    else
      var d := s[|s| - 1] as int - '0' as int;
      DigitsValue(s[..|s| - 1]) * 10 + (if 0 <= d then d else 0)
  }

  /** 2^1024 - 2^970, the midpoint between the largest finite binary64 value
      and 2^1024. A decimal value at or above it rounds (to even, upwards) out
      of range, and `strconv.ParseFloat` then fails with a range error and
      the value +Inf. */
  const Float64OverflowBound: nat := 179769313486231580793728971405303415079934132710037826936173778980444968292764750946649017977587207096330286416692887910946555547851940402630657488671505820681908902000708383676273854845817711531764475730270069855571366959622842914819860834936475292719074168444365510704342711559699508093042880177904174497792

  /** The UTF-8 encoding of the rune with the value of byte `c`, which is
      what `string(c)` yields for the rune `c` built from a source byte. */
  function RuneText(c: Byte): (s: string)
    ensures c as int < 0x80 ==> s == [c]
    ensures 0x80 <= c as int ==>
      && |s| == 2
      && 0xC0 <= s[0] as int < 0xE0 && 0x80 <= s[1] as int < 0xC0
      && (s[0] as int - 0xC0) * 64 + (s[1] as int - 0x80) == c as int
  {
    if c as int < 0x80 then [c]
    else [(0xC0 + c as int / 64) as char, (0x80 + c as int % 64) as char]
  }

  /** What one dispatch of `scanToken` does besides moving the cursor:
      append a token, nothing, or report an error. */
  datatype Outcome = Emit(kind: TokenType, literal: Literal) | Skip | Fail(message: string)

  /** The cursor and line after one dispatch, and what it did. */
  datatype Step = Step(next: nat, line: int, outcome: Outcome)

  /** A one-byte token. */
  function Single(cur: nat, line: int, kind: TokenType): Step
  {
    Step(cur + 1, line, Emit(kind, Absent))
  }

  /** A one-or-two-byte operator: `match('=')` picks the two-byte kind. */
  function WithEqual(src: seq<Byte>, cur: nat, line: int, two: TokenType, one: TokenType): Step
  {
    if MatchAt(src, cur + 1, '=') then Step(cur + 2, line, Emit(two, Absent))
    else Single(cur, line, one)
  }

  /** The `//` branch: everything up to the next line feed, or to the end, is
      consumed and nothing is emitted; the line feed itself is left. */
  function CommentStep(src: seq<Byte>, cur: nat, line: int): (st: Step)
    requires cur + 2 <= |src| && src[cur] == '/' && src[cur + 1] == '/'
    ensures cur + 2 <= st.next <= |src|
  {
    Step(CommentEnd(src, cur + 2), line, Skip)
  }

  /** A comment consumes no line feed, stops at one or at the end, and
      neither emits nor reports anything. */
  lemma CommentStepShape(src: seq<Byte>, cur: nat, line: int)
    requires cur + 2 <= |src| && src[cur] == '/' && src[cur + 1] == '/'
    ensures var st := CommentStep(src, cur, line);
      && st.outcome == Skip && st.line == line
      && (forall k :: cur <= k < st.next ==> src[k] != '\n')
      && (st.next == |src| || src[st.next] == '\n')
  {
  }

  /** A string literal: its lexeme runs from the opening quote at `cur` to the
      next double quote, and its literal is the lexeme without those quotes.
      Without a closing quote the rest of the source is consumed and an
      error is reported in place of a token. Either way the line has moved
      past every line feed inside. */
  function StringStep(src: seq<Byte>, cur: nat, line: int): (st: Step)
    requires cur < |src| && src[cur] == '"'
    ensures cur < st.next <= |src|
  {
    var end := StringEnd(src, cur + 1);
    if end == |src| then
      Step(|src|, line + NewlineCount(src[cur + 1..]), Fail("Unterminated string."))
    else
      Step(end + 1, line + NewlineCount(src[cur + 1..end]), Emit(String, Str(src[cur + 1..end])))
  }

  /** The lexeme of a string ends at the first double quote after the
      opening one: none lies inside it, and there is none after the opening
      quote exactly when the string is unterminated. An unterminated string
      consumes the rest of the source and reports an error; a terminated one
      emits its text between the quotes. Either way the line moves past the
      line feeds inside. */
  lemma StringStepShape(src: seq<Byte>, cur: nat, line: int)
    requires cur < |src| && src[cur] == '"'
    ensures var st := StringStep(src, cur, line);
      && (forall k :: cur < k < st.next - 1 ==> src[k] != '"')
      && (st.outcome.Fail? <==> (forall k :: cur < k < |src| ==> src[k] != '"'))
      && (st.outcome.Fail? ==>
        && st.next == |src|
        && st.line == line + NewlineCount(src[cur + 1..])
        && st.outcome.message == "Unterminated string.")
      && (!st.outcome.Fail? ==>
        && cur + 2 <= st.next
        && src[st.next - 1] == '"'
        && st.line == line + NewlineCount(src[cur + 1..st.next - 1])
        && st.outcome == Emit(String, Str(src[cur + 1..st.next - 1])))
  {
  }

  /** A number lexeme: one or more digits, optionally followed by a dot and
      one or more digits. */
  ghost predicate IsNumberLexeme(s: seq<char>)
  {
    || (s != [] && AllDigits(s))
    || (exists p :: 0 < p < |s| - 1 && s[p] == '.' && AllDigits(s[..p]) && AllDigits(s[p + 1..]))
  }

  /** The integer part of the number starting at `cur`: one digit already
      consumed and the digits that follow. */
  function IntegerPartEnd(src: seq<Byte>, cur: nat): (r: nat)
    requires cur < |src| && IsDigit(src[cur])
    ensures cur < r <= |src|
    ensures (forall k :: cur <= k < r ==> IsDigit(src[k])) && !IsDigit(CharAt(src, r))
  {
    DigitRunEnd(src, cur + 1)
  }

  /** End of the number starting at `cur`: the integer part, then a dot and
      a digit run only when a digit follows the dot. */
  function NumberEnd(src: seq<Byte>, cur: nat): (r: nat)
    requires cur < |src| && IsDigit(src[cur])
    ensures IntegerPartEnd(src, cur) <= r <= |src|
  {
    var intEnd := IntegerPartEnd(src, cur);
    if CharAt(src, intEnd) == '.' && IsDigit(CharAt(src, intEnd + 1))
    then DigitRunEnd(src, intEnd + 1)
    else intEnd
  }

  /** What `NumberEnd` consumes is a number lexeme, and it is the longest
      one: no digit follows it, and a dot is left unconsumed when no digit
      follows that dot. */
  lemma NumberEndShape(src: seq<Byte>, cur: nat)
    requires cur < |src| && IsDigit(src[cur])
    ensures var r := NumberEnd(src, cur);
      && IsNumberLexeme(src[cur..r])
      && (forall k :: cur <= k < r ==> src[k] == '.' || IsDigit(src[k]))
      && !IsDigit(CharAt(src, r))
      && ('.' !in src[cur..r] ==> !(CharAt(src, r) == '.' && IsDigit(CharAt(src, r + 1))))
  {
    var intEnd := IntegerPartEnd(src, cur);
    var r := NumberEnd(src, cur);
    if r != intEnd {
      var s := src[cur..r];
      assert s[..intEnd - cur] == src[cur..intEnd];
      assert s[intEnd - cur + 1..] == src[intEnd + 1..r];
      assert s[intEnd - cur] == '.';
      var p := intEnd - cur;
      assert r > intEnd + 1;
      assert AllDigits(s[..p]);
      assert AllDigits(s[p + 1..]);
      assert 0 < p < |s| - 1;
    } else {
      assert forall k :: 0 <= k < intEnd - cur ==> src[cur..intEnd][k] != '.';
    }
  }

  /** The digits before the first dot of a number lexeme. */
  function IntegerDigits(s: seq<char>): seq<char>
  {
    if s == [] || s[0] == '.' then []
    else [s[0]] + IntegerDigits(s[1..])
  }

  /** Whether `strconv.ParseFloat(lexeme, 64)` fails on a number lexeme.
      Such a lexeme is always well formed, so the only failure is the range
      error: the value rounds beyond the largest binary64 value, which
      happens exactly when its integer part is at or above
      `Float64OverflowBound` (a fraction never lifts a value below that
      integer bound to it). */
  function ParseFloatOverflows(lexeme: seq<char>): bool
  {
    DigitsValue(IntegerDigits(lexeme)) >= Float64OverflowBound
  }

  /** A number: its lexeme is kept as the literal, unless
      `strconv.ParseFloat` rejects it; the error then shows the +Inf it
      returns. */
  function NumberStep(src: seq<Byte>, cur: nat, line: int): (st: Step)
    requires cur < |src| && IsDigit(src[cur])
    ensures cur < st.next <= |src|
  {
    var next := NumberEnd(src, cur);
    if ParseFloatOverflows(src[cur..next]) then
      Step(next, line, Fail("Invalid number: +Inf"))
    else
      Step(next, line, Emit(Number, Num(src[cur..next])))
  }

  /** The part of a number lexeme that decides whether it overflows is the
      integer part that the first digit loop of `number` consumed. */
  lemma NumberIntegerDigits(src: seq<Byte>, cur: nat)
    requires cur < |src| && IsDigit(src[cur])
    ensures IntegerDigits(src[cur..NumberEnd(src, cur)]) == src[cur..IntegerPartEnd(src, cur)]
  {
    var s := src[cur..NumberEnd(src, cur)];
    var p := IntegerPartEnd(src, cur) - cur;
    NumberEndShape(src, cur);
    IntegerDigitsOfDigits(s, p);
  }

  /** What the number branch does: it stays on its line and consumes a
      number lexeme; it reports "Invalid number: +Inf" exactly when the
      digits of the integer part, which the first digit loop consumed, are
      worth at least `Float64OverflowBound`, and otherwise emits a `NUMBER`
      whose literal is its lexeme. */
  lemma NumberStepOutcome(src: seq<Byte>, cur: nat, line: int)
    requires cur < |src| && IsDigit(src[cur])
    ensures var st := NumberStep(src, cur, line);
      && st.line == line && IsNumberLexeme(src[cur..st.next])
      && (st.outcome.Fail? <==> DigitsValue(src[cur..IntegerPartEnd(src, cur)]) >= Float64OverflowBound)
      && (st.outcome.Fail? ==> st.outcome == Fail("Invalid number: +Inf"))
      && (!st.outcome.Fail? ==> st.outcome == Emit(Number, Num(src[cur..st.next])))
  {
    NumberEndShape(src, cur);
    NumberIntegerDigits(src, cur);
  }

  /** The integer digits of a text whose first `p` elements are digits
      followed by a dot or the end. */
  lemma {:induction false} IntegerDigitsOfDigits(s: seq<char>, p: nat)
    requires p <= |s| && AllDigits(s[..p]) && (p == |s| || s[p] == '.')
    ensures IntegerDigits(s) == s[..p]
  {
    if p > 0 {
      assert s[1..][..p - 1] == s[1..p];
      IntegerDigitsOfDigits(s[1..], p - 1);
      assert s[..p] == [s[0]] + s[1..p];
    }
  }

  /** One dispatch of `scanToken` at `cur`, on the line `line`. */
  function ScanStep(src: seq<Byte>, cur: nat, line: int): (st: Step)
    requires cur < |src|
    ensures cur < st.next <= |src|
  {
    var c := src[cur];
    if c == '(' then Single(cur, line, LeftParen)
    else if c == ')' then Single(cur, line, RightParen)
    else if c == '{' then Single(cur, line, LeftBrace)
    else if c == '}' then Single(cur, line, RightBrace)
    else if c == ',' then Single(cur, line, Comma)
    else if c == '.' then Single(cur, line, Dot)
    else if c == '-' then Single(cur, line, Minus)
    else if c == '+' then Single(cur, line, Plus)
    else if c == ';' then Single(cur, line, Semicolon)
    else if c == '*' then Single(cur, line, Star)
    else if c == '!' then WithEqual(src, cur, line, BangEqual, Bang)
    else if c == '=' then WithEqual(src, cur, line, EqualEqual, Equal)
    else if c == '<' then WithEqual(src, cur, line, LessEqual, Less)
    else if c == '>' then WithEqual(src, cur, line, GreaterEqual, Greater)
    else if c == '/' then
      (if MatchAt(src, cur + 1, '/') then CommentStep(src, cur, line) else Single(cur, line, Slash))
    else if c == ' ' || c == '\r' || c == '\t' then Step(cur + 1, line, Skip)
    else if c == '\n' then Step(cur + 1, line + 1, Skip)
    else if c == '"' then StringStep(src, cur, line)
    else if IsDigit(c) then NumberStep(src, cur, line)
    else Step(cur + 1, line, Fail("Unexpected character: " + RuneText(c)))
  }

  /** Line feeds are counted piecewise over a concatenation. */
  lemma {:induction false} NewlineCountAppend(a: seq<char>, b: seq<char>)
    ensures NewlineCount(a + b) == NewlineCount(a) + NewlineCount(b)
    decreases |b|
  {
    if b == [] {
      assert a + b == a;
    } else {
      assert (a + b)[..|a + b| - 1] == a + b[..|b| - 1];
      NewlineCountAppend(a, b[..|b| - 1]);
    }
  }

  /** A text without a line feed counts none. */
  lemma {:induction false} NewlineCountFree(s: seq<char>)
    requires forall k :: 0 <= k < |s| ==> s[k] != '\n'
    ensures NewlineCount(s) == 0
    decreases |s|
  {
    if s != [] {
      NewlineCountFree(s[..|s| - 1]);
    }
  }

  /** Extending a slice by one byte counts that byte if it is a line feed. */
  lemma NewlineCountExtend(s: seq<char>, i: nat, j: nat)
    requires i <= j < |s|
    ensures NewlineCount(s[i..j + 1]) == NewlineCount(s[i..j]) + (if s[j] == '\n' then 1 else 0)
  {
    assert s[i..j + 1][..j - i] == s[i..j];
  }

  /** Line feeds of a slice, split at `j`. */
  lemma NewlineCountSplit(s: seq<char>, i: nat, j: nat, k: nat)
    requires i <= j <= k <= |s|
    ensures NewlineCount(s[i..k]) == NewlineCount(s[i..j]) + NewlineCount(s[j..k])
  {
    assert s[i..k] == s[i..j] + s[j..k];
    NewlineCountAppend(s[i..j], s[j..k]);
  }

  /** Each dispatch moves the line forward by exactly the line feeds it
      consumes, whether between tokens or inside a string literal. */
  lemma StepLine(src: seq<Byte>, cur: nat, line: int)
    requires cur < |src|
    ensures var st := ScanStep(src, cur, line);
      st.line == line + NewlineCount(src[cur..st.next])
  {
    var st := ScanStep(src, cur, line);
    if src[cur] == '\n' {
      assert src[cur..st.next] == ['\n'];
      assert ['\n'][..0] == [];
    } else if src[cur] == '"' {
      StringStepLine(src, cur, line);
    } else {
      StepConsumesNoNewline(src, cur, line);
      NewlineCountFree(src[cur..st.next]);
    }
  }

  /** `StepLine` for a string literal. */
  lemma StringStepLine(src: seq<Byte>, cur: nat, line: int)
    requires cur < |src| && src[cur] == '"'
    ensures var st := StringStep(src, cur, line);
      st.line == line + NewlineCount(src[cur..st.next])
  {
    var st := StringStep(src, cur, line);
    var c := src[cur];
    NewlineCountFree([c]);
    if st.outcome.Fail? {
      assert src[cur..st.next] == [c] + src[cur + 1..];
      NewlineCountAppend([c], src[cur + 1..]);
    } else {
      var body := src[cur + 1..st.next - 1];
      assert src[cur..st.next] == [c] + body + [src[st.next - 1]];
      NewlineCountFree([src[st.next - 1]]);
      NewlineCountAppend([c] + body, [src[st.next - 1]]);
      NewlineCountAppend([c], body);
    }
  }

  /** Apart from a line feed and a string literal, a dispatch consumes no line feed. */
  lemma StepConsumesNoNewline(src: seq<Byte>, cur: nat, line: int)
    requires cur < |src| && src[cur] != '\n' && src[cur] != '"'
    ensures var st := ScanStep(src, cur, line);
      forall k :: cur <= k < st.next ==> src[k] != '\n'
  {
    if IsDigit(src[cur]) {
      NumberEndShape(src, cur);
    }
  }

  /** What a dispatch read (`source[start:current]`), the line it ended on
      (the line of any token or error it produced), and what it did. */
  datatype Piece = Piece(text: string, line: int, outcome: Outcome)

  /** The arguments of one `report` call; `throw` passes an empty `where`. */
  datatype Diagnostic = Diagnostic(line: int, where: string, message: string)

  /** The loop of `ScanTokens` from position `cur` on line `line`: one piece
      per dispatch until the end of the source. */
  function LexFrom(src: seq<Byte>, cur: nat, line: int): seq<Piece>
    requires cur <= |src|
    decreases |src| - cur
  {
    if cur == |src| then []
    else
      var st := ScanStep(src, cur, line);
      [Piece(src[cur..st.next], st.line, st.outcome)] + LexFrom(src, st.next, st.line)
  }

  /** The token a piece appends, if any: `addToken` with the piece's text and line. */
  function PieceTokens(p: Piece): seq<Token>
  {
    match p.outcome
    case Emit(kind, literal) => [NewToken(kind, p.text, literal, p.line)]
    case _ => []
  }

  /** The error a piece reports, if any. */
  function PieceDiagnostics(p: Piece): seq<Diagnostic>
  {
    match p.outcome
    case Fail(message) => [Diagnostic(p.line, "", message)]
    case _ => []
  }

  function TokensOf(ps: seq<Piece>): seq<Token>
  {
    if ps == [] then [] else PieceTokens(ps[0]) + TokensOf(ps[1..])
  }

  function DiagnosticsOf(ps: seq<Piece>): seq<Diagnostic>
  {
    if ps == [] then [] else PieceDiagnostics(ps[0]) + DiagnosticsOf(ps[1..])
  }

  function TextsOf(ps: seq<Piece>): string
  {
    if ps == [] then [] else ps[0].text + TextsOf(ps[1..])
  }

  /** The token list `ScanTokens` returns for a fresh scanner over `src`:
      the tokens of every dispatch, then the end-of-input token on the
      final line. */
  function Scan(src: seq<Byte>): seq<Token>
  {
    TokensOf(LexFrom(src, 0, 1)) + [NewToken(Eof, "", Absent, 1 + NewlineCount(src))]
  }

  /** The errors reported while scanning `src`, in order. */
  function ScanDiagnostics(src: seq<Byte>): seq<Diagnostic>
  {
    DiagnosticsOf(LexFrom(src, 0, 1))
  }

  /** One turn of the loop of `ScanTokens`: the tokens and errors from `cur`
      on are those of the dispatch at `cur`, then those from where it
      stopped; the line moves by the line feeds that dispatch consumed. */
  lemma LexFromStep(src: seq<Byte>, cur: nat, line: int)
    requires cur < |src|
    ensures var st := ScanStep(src, cur, line);
      var p := Piece(src[cur..st.next], st.line, st.outcome);
      && TokensOf(LexFrom(src, cur, line)) == PieceTokens(p) + TokensOf(LexFrom(src, st.next, st.line))
      && DiagnosticsOf(LexFrom(src, cur, line)) == PieceDiagnostics(p) + DiagnosticsOf(LexFrom(src, st.next, st.line))
      && line + NewlineCount(src[cur..]) == st.line + NewlineCount(src[st.next..])
  {
    var st := ScanStep(src, cur, line);
    var ps := LexFrom(src, cur, line);
    assert ps[1..] == LexFrom(src, st.next, st.line);
    StepLine(src, cur, line);
    assert src[cur..] == src[cur..st.next] + src[st.next..];
    NewlineCountAppend(src[cur..st.next], src[st.next..]);
  }

  /** Concatenation regroups. */
  lemma AppendRegroups<T>(a: seq<T>, b: seq<T>, c: seq<T>)
    ensures a + (b + c) == (a + b) + c
  {
  }

  /** The pieces read consecutive slices: together they spell out the rest
      of the source, so every lexeme is the slice its dispatch consumed. */
  lemma {:induction false} LexFromSpellsSource(src: seq<Byte>, cur: nat, line: int)
    requires cur <= |src|
    ensures TextsOf(LexFrom(src, cur, line)) == src[cur..]
    decreases |src| - cur
  {
    if cur < |src| {
      var st := ScanStep(src, cur, line);
      var ps := LexFrom(src, cur, line);
      LexFromSpellsSource(src, st.next, st.line);
      assert ps[1..] == LexFrom(src, st.next, st.line);
      assert src[cur..] == src[cur..st.next] + src[st.next..];
    }
  }

  /** Token lines never decrease, and all lie between the starting line and
      that line plus the line feeds of the rest of the source. */
  lemma {:induction false} LexFromLines(src: seq<Byte>, cur: nat, line: int)
    requires cur <= |src|
    ensures LinesWithin(TokensOf(LexFrom(src, cur, line)), line, line + NewlineCount(src[cur..]))
    decreases |src| - cur
  {
    if cur < |src| {
      var st := ScanStep(src, cur, line);
      var ps := LexFrom(src, cur, line);
      var hi := line + NewlineCount(src[cur..]);
      LexFromLines(src, st.next, st.line);
      StepLine(src, cur, line);
      assert src[cur..] == src[cur..st.next] + src[st.next..];
      NewlineCountAppend(src[cur..st.next], src[st.next..]);
      assert st.line + NewlineCount(src[st.next..]) == hi;
      assert ps[0].line == st.line;
      assert ps[1..] == LexFrom(src, st.next, st.line);
      LinesWithinCons(ps[0], TokensOf(ps[1..]), line, hi);
    }
  }

  /** The lines of `ts` never decrease and lie in `[lo, hi]`. */
  predicate LinesWithin(ts: seq<Token>, lo: int, hi: int)
  {
    && (forall i, j :: 0 <= i < j < |ts| ==> ts[i].line <= ts[j].line)
    && (forall i :: 0 <= i < |ts| ==> lo <= ts[i].line <= hi)
  }

  /** Putting a piece on a line in `[lo, hi]` in front of tokens that lie
      between its line and `hi` keeps the lines in order. */
  lemma LinesWithinCons(p: Piece, rest: seq<Token>, lo: int, hi: int)
    requires lo <= p.line <= hi && LinesWithin(rest, p.line, hi)
    ensures LinesWithin(PieceTokens(p) + rest, lo, hi)
  {
    var ts := PieceTokens(p) + rest;
    if p.outcome.Emit? {
      assert forall i :: 1 <= i < |ts| ==> ts[i] == rest[i - 1];
    } else {
      assert ts == rest;
    }
  }

  /** The shape of a token the scanner can produce. A string token is its
      literal text between two double quotes, with no double quote inside;
      a number token carries its own lexeme; any other token is an operator
      or the end of input, reads as what `TokenTypeToString` gives for its
      kind, and has no literal. Identifier and keyword kinds never occur. */
  ghost predicate WellFormed(t: Token)
  {
    if t.kind == String then
      && 2 <= |t.lexeme| && t.lexeme[0] == '"' && t.lexeme[|t.lexeme| - 1] == '"'
      && (forall k :: 1 <= k < |t.lexeme| - 1 ==> t.lexeme[k] != '"')
      && t.literal == Str(t.lexeme[1..|t.lexeme| - 1])
    else if t.kind == Number then
      IsNumberLexeme(t.lexeme) && t.literal == Num(t.lexeme)
    else
      !IsLiteralOrKeyword(t.kind) && t.lexeme == TokenTypeToString(t.kind) && t.literal == Absent
  }

  /** The token a dispatch at `cur` emits, if any. */
  function StepToken(src: seq<Byte>, cur: nat, line: int): Option<Token>
    requires cur < |src|
  {
    var st := ScanStep(src, cur, line);
    match st.outcome
    case Emit(kind, literal) => Some(Token(kind, src[cur..st.next], literal, st.line))
    case _ => None
  }

  /** A token that a dispatch at `cur` emits is well formed, and is never the
      end-of-input token. */
  lemma StepWellFormed(src: seq<Byte>, cur: nat, line: int)
    requires cur < |src|
    ensures var t := StepToken(src, cur, line);
      t.Some? ==> t.value.kind != Eof && WellFormed(t.value)
  {
    var c := src[cur];
    if c == '"' {
      StringWellFormed(src, cur, line);
    } else if IsDigit(c) {
      NumberWellFormed(src, cur, line);
    } else if c in {'!', '=', '<', '>'} {
      OperatorSymbols(src, cur, line);
    } else {
      PunctuationSymbols(src, cur, line);
    }
  }

  /** `StepWellFormed` for a string literal. */
  lemma StringWellFormed(src: seq<Byte>, cur: nat, line: int)
    requires cur < |src| && src[cur] == '"'
    ensures var t := StepToken(src, cur, line);
      t.Some? ==> t.value.kind != Eof && WellFormed(t.value)
  {
    var st := StringStep(src, cur, line);
    assert ScanStep(src, cur, line) == st;
    if st.outcome.Emit? {
      var lexeme: string := src[cur..st.next];
      assert |lexeme| == st.next - cur;
      assert forall k :: 0 <= k < |lexeme| ==> lexeme[k] == src[cur + k];
      assert lexeme[1..|lexeme| - 1] == src[cur + 1..st.next - 1];
    }
  }

  /** `StepWellFormed` for a number. */
  lemma NumberWellFormed(src: seq<Byte>, cur: nat, line: int)
    requires cur < |src| && IsDigit(src[cur])
    ensures var t := StepToken(src, cur, line);
      t.Some? ==> t.value.kind != Eof && WellFormed(t.value)
  {
    var st := NumberStep(src, cur, line);
    NumberEndShape(src, cur);
    assert ScanStep(src, cur, line) == st;
    if st.outcome.Emit? {
      var lexeme := src[cur..st.next];
      assert StepToken(src, cur, line) == Some(Token(Number, lexeme, Num(lexeme), line));
    }
  }

  /** `StepWellFormed` for the one-or-two-byte operators. */
  lemma OperatorSymbols(src: seq<Byte>, cur: nat, line: int)
    requires cur < |src| && src[cur] in {'!', '=', '<', '>'}
    ensures var t := StepToken(src, cur, line);
      t.Some? ==> t.value.kind != Eof && WellFormed(t.value)
  {
    if src[cur] in {'!', '='} {
      BangOrEqualSymbols(src, cur, line);
    } else {
      ComparisonSymbols(src, cur, line);
    }
  }

  /** `OperatorSymbols` for `!` and `=`. */
  lemma BangOrEqualSymbols(src: seq<Byte>, cur: nat, line: int)
    requires cur < |src| && src[cur] in {'!', '='}
    ensures var t := StepToken(src, cur, line);
      t.Some? ==> t.value.kind != Eof && WellFormed(t.value)
  {
    var st := ScanStep(src, cur, line);
    if MatchAt(src, cur + 1, '=') {
      assert src[cur..st.next] == [src[cur], '='];
    } else {
      assert src[cur..st.next] == [src[cur]];
    }
  }

  /** `OperatorSymbols` for `<` and `>`. */
  lemma ComparisonSymbols(src: seq<Byte>, cur: nat, line: int)
    requires cur < |src| && src[cur] in {'<', '>'}
    ensures var t := StepToken(src, cur, line);
      t.Some? ==> t.value.kind != Eof && WellFormed(t.value)
  {
    var st := ScanStep(src, cur, line);
    if MatchAt(src, cur + 1, '=') {
      assert src[cur..st.next] == [src[cur], '='];
    } else {
      assert src[cur..st.next] == [src[cur]];
    }
  }

  /** `StepWellFormed` for the other bytes that are neither a string nor a
      number: a one-byte token reading as its symbol, or no token. */
  lemma PunctuationSymbols(src: seq<Byte>, cur: nat, line: int)
    requires cur < |src| && src[cur] !in {'!', '=', '<', '>', '"'} && !IsDigit(src[cur])
    ensures var t := StepToken(src, cur, line);
      t.Some? ==> t.value.kind != Eof && WellFormed(t.value)
  {
    var st := ScanStep(src, cur, line);
    if st.outcome.Emit? {
      assert st.next == cur + 1;
    }
  }

  /** The tokens a piece appends are the token its dispatch emits. */
  lemma PieceTokensOfStep(src: seq<Byte>, cur: nat, line: int)
    requires cur < |src|
    ensures var st := ScanStep(src, cur, line);
      var t := StepToken(src, cur, line);
      PieceTokens(Piece(src[cur..st.next], st.line, st.outcome)) == if t.Some? then [t.value] else []
  {
  }

  /** Tokens that are all well formed, none of them the end of input. */
  ghost predicate AllWellFormedBeforeEof(ts: seq<Token>)
  {
    forall i :: 0 <= i < |ts| ==> ts[i].kind != Eof && WellFormed(ts[i])
  }

  /** Every token of the pass from `cur` on is well formed, and none of
      them is the end-of-input token. */
  lemma {:induction false} LexFromWellFormed(src: seq<Byte>, cur: nat, line: int)
    requires cur <= |src|
    ensures AllWellFormedBeforeEof(TokensOf(LexFrom(src, cur, line)))
    decreases |src| - cur
  {
    if cur < |src| {
      var st := ScanStep(src, cur, line);
      var ps := LexFrom(src, cur, line);
      LexFromWellFormed(src, st.next, st.line);
      StepWellFormed(src, cur, line);
      PieceTokensOfStep(src, cur, line);
      assert ps[1..] == LexFrom(src, st.next, st.line);
      assert TokensOf(ps) == PieceTokens(ps[0]) + TokensOf(ps[1..]);
    }
  }

  /** `ScanTokens` ends with exactly one end-of-input token: it comes last,
      has an empty lexeme and no literal, and lies on the final line, one
      plus the number of line feeds in the source. */
  lemma ScanEndsWithEof(src: seq<Byte>)
    ensures var ts := Scan(src);
      && |ts| >= 1
      && ts[|ts| - 1] == Token(Eof, "", Absent, 1 + NewlineCount(src))
      && forall i :: 0 <= i < |ts| - 1 ==> ts[i].kind != Eof
  {
    LexFromWellFormed(src, 0, 1);
    WellFormedThenEof(TokensOf(LexFrom(src, 0, 1)), 1 + NewlineCount(src));
  }

  /** Every token `ScanTokens` returns is well formed: no identifier or
      keyword kind ever occurs. */
  lemma ScanWellFormed(src: seq<Byte>)
    ensures var ts := Scan(src);
      forall i :: 0 <= i < |ts| ==> WellFormed(ts[i])
  {
    LexFromWellFormed(src, 0, 1);
    WellFormedThenEof(TokensOf(LexFrom(src, 0, 1)), 1 + NewlineCount(src));
  }

  /** Well-formed tokens other than the end of input, followed by the end of input. */
  lemma WellFormedThenEof(ts: seq<Token>, line: int)
    requires AllWellFormedBeforeEof(ts)
    ensures var all := ts + [NewToken(Eof, "", Absent, line)];
      && (forall i :: 0 <= i < |all| - 1 ==> all[i].kind != Eof)
      && (forall i :: 0 <= i < |all| ==> WellFormed(all[i]))
  {
    var all := ts + [NewToken(Eof, "", Absent, line)];
    assert forall i :: 0 <= i < |ts| ==> all[i] == ts[i];
    EofWellFormed(line);
  }

  /** The end-of-input token is well formed. */
  lemma EofWellFormed(line: int)
    ensures WellFormed(Token(Eof, "", Absent, line))
  {
  }

  /** The lines of the tokens never decrease, start at 1 at the earliest and
      end on the final line. */
  lemma ScanLines(src: seq<Byte>)
    ensures LinesWithin(Scan(src), 1, 1 + NewlineCount(src))
  {
    var ts := TokensOf(LexFrom(src, 0, 1));
    LexFromLines(src, 0, 1);
    assert src[0..] == src;
    var all := Scan(src);
    assert forall i :: 0 <= i < |ts| ==> all[i] == ts[i];
  }

  /** An empty source gives one token, the end of input on line 1, and no error. */
  lemma ScanEmpty()
    ensures Scan([]) == [Token(Eof, "", Absent, 1)]
    ensures ScanDiagnostics([]) == []
  {
  }

  /** `"!="` is one `BANG_EQUAL` token. */
  lemma ScanBangEqual()
    ensures Scan("!=") == [Token(BangEqual, "!=", Absent, 1), Token(Eof, "", Absent, 1)]
  {
    var s: seq<Byte> := "!=";
    assert ScanStep(s, 0, 1) == Step(2, 1, Emit(BangEqual, Absent));
    assert s[0..2] == "!=";
    assert LexFrom(s, 0, 1) == [Piece("!=", 1, Emit(BangEqual, Absent))] + LexFrom(s, 2, 1);
    NewlineCountFree(s);
  }

  /** With a space between, `"! ="` is a `BANG` and an `EQUAL`. */
  lemma ScanBangSpaceEqual()
    ensures Scan("! =") == [Token(Bang, "!", Absent, 1), Token(Equal, "=", Absent, 1), Token(Eof, "", Absent, 1)]
  {
    var s: seq<Byte> := "! =";
    assert ScanStep(s, 0, 1) == Step(1, 1, Emit(Bang, Absent));
    assert ScanStep(s, 1, 1) == Step(2, 1, Skip);
    assert ScanStep(s, 2, 1) == Step(3, 1, Emit(Equal, Absent));
    assert s[0..1] == "!" && s[1..2] == " " && s[2..3] == "=";
    assert LexFrom(s, 2, 1) == [Piece("=", 1, Emit(Equal, Absent))] + LexFrom(s, 3, 1);
    assert LexFrom(s, 1, 1) == [Piece(" ", 1, Skip)] + LexFrom(s, 2, 1);
    assert LexFrom(s, 0, 1) == [Piece("!", 1, Emit(Bang, Absent))] + LexFrom(s, 1, 1);
    NewlineCountFree(s);
  }

  /** A comment runs to the line feed; a number takes its fraction only when
      a digit follows the dot, so a trailing dot is a `DOT` of its own. */
  lemma ScanCommentThenNumber()
    ensures Scan("//x\n1.5.") ==
      [Token(Number, "1.5", Num("1.5"), 2), Token(Dot, ".", Absent, 2), Token(Eof, "", Absent, 2)]
  {
    CommentThenNumberPieces();
    CommentThenNumberLines();
  }

  /** The pieces of `ScanCommentThenNumber`. */
  lemma CommentThenNumberPieces()
    ensures LexFrom("//x\n1.5.", 0, 1) == [
      Piece("//x", 1, Skip), Piece("\n", 2, Skip),
      Piece("1.5", 2, Emit(Number, Num("1.5"))), Piece(".", 2, Emit(Dot, Absent))]
  {
    var s: seq<Byte> := "//x\n1.5.";
    CommentSteps();
    NumberSteps();
    assert s[0..3] == "//x" && s[3..4] == "\n" && s[4..7] == "1.5" && s[7..8] == ".";
    assert LexFrom(s, 7, 2) == [Piece(".", 2, Emit(Dot, Absent))] + LexFrom(s, 8, 2);
    assert LexFrom(s, 4, 2) == [Piece("1.5", 2, Emit(Number, Num("1.5")))] + LexFrom(s, 7, 2);
    assert LexFrom(s, 3, 1) == [Piece("\n", 2, Skip)] + LexFrom(s, 4, 2);
    assert LexFrom(s, 0, 1) == [Piece("//x", 1, Skip)] + LexFrom(s, 3, 1);
  }

  /** The comment and the line feed of `ScanCommentThenNumber`. */
  lemma CommentSteps()
    ensures var s: seq<Byte> := "//x\n1.5.";
      && ScanStep(s, 0, 1) == Step(3, 1, Skip)
      && ScanStep(s, 3, 1) == Step(4, 2, Skip)
  {
    var s: seq<Byte> := "//x\n1.5.";
    assert CommentEnd(s, 2) == 3;
  }

  /** The number and the dot of `ScanCommentThenNumber`. */
  lemma NumberSteps()
    ensures var s: seq<Byte> := "//x\n1.5.";
      && ScanStep(s, 4, 2) == Step(7, 2, Emit(Number, Num("1.5")))
      && ScanStep(s, 7, 2) == Step(8, 2, Emit(Dot, Absent))
  {
    NumberOfOnePointFive();
  }

  /** The number dispatch of `ScanCommentThenNumber`. */
  lemma NumberOfOnePointFive()
    ensures NumberStep("//x\n1.5.", 4, 2) == Step(7, 2, Emit(Number, Num("1.5")))
  {
    var s: seq<Byte> := "//x\n1.5.";
    NumberEndOfOnePointFive();
    assert s[4..7] == "1.5";
    assert IntegerDigits("1.5") == "1";
    assert DigitsValue("1") == 1;
  }

  /** The number `1.5` of `ScanCommentThenNumber` takes its fraction. */
  lemma NumberEndOfOnePointFive()
    ensures NumberEnd("//x\n1.5.", 4) == 7
  {
    var s: seq<Byte> := "//x\n1.5.";
    assert DigitRunEnd(s, 5) == 5;
    assert DigitRunEnd(s, 6) == 7;
  }

  /** The source of `ScanCommentThenNumber` has one line feed. */
  lemma CommentThenNumberLines()
    ensures NewlineCount("//x\n1.5.") == 1
  {
    var s: seq<Byte> := "//x\n1.5.";
    assert s == s[..3] + s[3..4] + s[4..];
    NewlineCountAppend(s[..3] + s[3..4], s[4..]);
    NewlineCountAppend(s[..3], s[3..4]);
    NewlineCountFree(s[..3]);
    NewlineCountFree(s[4..]);
    assert s[3..4] == ['\n'] && ['\n'][..0] == [];
  }

  /** A string token lies on the line of its closing quote; its literal drops the quotes. */
  lemma ScanMultilineString()
    ensures Scan("\"a\nb\"") == [Token(String, "\"a\nb\"", Str("a\nb"), 2), Token(Eof, "", Absent, 2)]
  {
    var s: seq<Byte> := "\"a\nb\"";
    MultilineStringStep();
    StepLine(s, 0, 1);
    assert s[0..5] == s;
    assert LexFrom(s, 0, 1) == [Piece(s, 2, Emit(String, Str("a\nb")))] + LexFrom(s, 5, 2);
  }

  /** The single dispatch of `ScanMultilineString`. */
  lemma MultilineStringStep()
    ensures ScanStep("\"a\nb\"", 0, 1) == Step(5, 2, Emit(String, Str("a\nb")))
  {
    var s: seq<Byte> := "\"a\nb\"";
    assert s[1..4] == "a\nb";
    assert StringEnd(s, 1) == 4;
    assert NewlineCount(s[1..4]) == 1 by {
      NewlineCountSplit(s, 1, 2, 4);
      NewlineCountSplit(s, 2, 3, 4);
      assert s[1..2] == ['a'] && s[2..3] == ['\n'] && s[3..4] == ['b'];
      assert ['a'][..0] == [] && ['\n'][..0] == [] && ['b'][..0] == [];
    }
  }

  /** An unterminated string reports an error and yields no token. */
  lemma ScanUnterminatedString()
    ensures Scan("\"ab") == [Token(Eof, "", Absent, 1)]
    ensures ScanDiagnostics("\"ab") == [Diagnostic(1, "", "Unterminated string.")]
  {
    var s: seq<Byte> := "\"ab";
    assert StringEnd(s, 1) == 3;
    NewlineCountFree(s);
    NewlineCountFree(s[1..]);
    assert ScanStep(s, 0, 1) == Step(3, 1, Fail("Unterminated string."));
    assert s[0..3] == s;
    assert LexFrom(s, 0, 1) == [Piece(s, 1, Fail("Unterminated string."))] + LexFrom(s, 3, 1);
  }

  /** There is no identifier scanning: a letter is an unexpected character,
      reported on its own, and the scan goes on after it. */
  lemma LetterIsUnexpected(src: seq<Byte>, cur: nat, line: int)
    requires cur < |src| && ('a' <= src[cur] <= 'z' || 'A' <= src[cur] <= 'Z' || src[cur] == '_')
    ensures ScanStep(src, cur, line) == Step(cur + 1, line, Fail("Unexpected character: " + [src[cur]]))
  {
  }
}
