/** The scanner as the source has it: an object over one source text whose
    methods move a cursor, count lines, append tokens and record errors in
    place. Each method is proved to do what the matching part of the scan
    function in `Lexing` describes. */
module Scanning {
  import opened Tokens
  import opened Lexing

  class Scanner {
    /** The text being scanned. */
    const source: seq<Byte>
    /** The tokens appended so far. */
    var tokens: seq<Token>
    /** Where the lexeme being scanned starts. */
    var start: nat
    /** The next byte to read. */
    var current: nat
    /** The line of `current`. */
    var line: int
    /** The error flag that `report` raises. */
    var hadError: bool
    /** The `report` calls, in order, in place of the lines written to the
        standard error stream. */
    var diagnostics: seq<Diagnostic>

    /** The cursors stay ordered inside the source, and lines count from 1. */
    ghost predicate Valid()
      reads this
    {
      start <= current <= |source| && 1 <= line
    }

    /** `NewScanner`: both cursors at the start, on line 1, with no tokens and no error. */
    constructor (source: seq<Byte>)
      ensures this.source == source && tokens == [] && diagnostics == []
      ensures start == 0 && current == 0 && line == 1 && !hadError
      ensures Valid()
    {
      this.source := source;
      tokens := [];
      start := 0;
      current := 0;
      line := 1;
      hadError := false;
      diagnostics := [];
    }

    /** `isAtEnd`. */
    predicate IsAtEnd()
      reads this
    {
      current >= |source|
    }

    /** `peek`: the byte at the cursor, or NUL at the end. */
    function Peek(): (c: char)
      reads this
      ensures c == CharAt(source, current)
    {
      if IsAtEnd() then Nul else source[current]
    }

    /** `peekNext`: the byte after the cursor, or NUL when there is none. */
    function PeekNext(): (c: char)
      reads this
      ensures c == CharAt(source, current + 1)
    {
      if current + 1 >= |source| then Nul else source[current + 1]
    }

    /** `advance`: returns the byte at the cursor and moves past it. */
    method Advance() returns (c: Byte)
      requires Valid() && current < |source|
      modifies this`current
      ensures Valid()
      ensures c == source[old(current)] && current == old(current) + 1
    {
      c := source[current];
      current := current + 1;
    }

    /** `match`: moves past the byte at the cursor exactly when there is one
        and it is `expected`; otherwise nothing changes. */
    method Match(expected: char) returns (matched: bool)
      requires Valid()
      modifies this`current
      ensures Valid()
      ensures matched == MatchAt(source, old(current), expected)
      ensures current == old(current) + (if matched then 1 else 0)
    {
      if IsAtEnd() {
        return false;
      }
      if source[current] != expected {
        return false;
      }
      current := current + 1;
      return true;
    }

    /** `addToken`: appends a token whose lexeme is the slice from `start`
        to `current`, on the current line; earlier tokens are kept. */
    method AddToken(kind: TokenType, literal: Literal)
      requires Valid()
      modifies this`tokens
      ensures tokens == old(tokens) + [NewToken(kind, source[start..current], literal, line)]
    {
      var text := source[start..current];
      tokens := tokens + [NewToken(kind, text, literal, line)];
    }

    /** `throw`: a report with an empty location. */
    method Throw(at: int, message: string)
      modifies this`diagnostics, this`hadError
      ensures diagnostics == old(diagnostics) + [Diagnostic(at, "", message)]
      ensures hadError
    {
      Report(at, "", message);
    }

    /** `report`: records the error and raises the flag, which nothing lowers. */
    method Report(at: int, where: string, message: string)
      modifies this`diagnostics, this`hadError
      ensures diagnostics == old(diagnostics) + [Diagnostic(at, where, message)]
      ensures hadError
    {
      diagnostics := diagnostics + [Diagnostic(at, where, message)];
      hadError := true;
    }

    /** The dispatch that started at `from` did what `st` says: the cursor
        and line are where it ends, and its token or error, if any, was
        appended. */
    twostate predicate Dispatched(from: nat, st: Step)
      reads this
      requires from <= st.next <= |source|
    {
      var p := Piece(source[from..st.next], st.line, st.outcome);
      && current == st.next && line == st.line
      && tokens == old(tokens) + PieceTokens(p)
      && diagnostics == old(diagnostics) + PieceDiagnostics(p)
      && hadError == (old(hadError) || st.outcome.Fail?)
    }

    /** The loop of `string`: advances to the next double quote or to the
        end, counting the line feeds it passes. */
    method SkipStringBody()
      requires Valid()
      modifies this`current, this`line
      ensures Valid()
      ensures current == StringEnd(source, old(current))
      ensures line == old(line) + NewlineCount(source[old(current)..current])
    {
      ghost var from := current;
      ghost var end := StringEnd(source, current);
      while Peek() != '"' && !IsAtEnd()
        invariant Valid() && from <= current <= end
        invariant StringEnd(source, current) == end
        invariant line == old(line) + NewlineCount(source[from..current])
        decreases |source| - current
      {
        NewlineCountExtend(source, from, current);
        if Peek() == '\n' {
          line := line + 1;
        }
        var _ := Advance();
      }
    }

    /** `string`, called once the opening quote at `start` is consumed. */
    method ScanString()
      requires Valid() && current == start + 1 && source[start] == '"'
      modifies this`current, this`line, this`tokens, this`diagnostics, this`hadError
      ensures Valid() && start == old(start)
      ensures Dispatched(start, StringStep(source, start, old(line)))
    {
      SkipStringBody();
      if IsAtEnd() {
        assert source[start + 1..current] == source[start + 1..];
        Throw(line, "Unterminated string.");
        return;
      }

      // Step over the quote that ends the literal.
      var _ := Advance();

      var value := source[start + 1..current - 1];
      AddToken(String, Str(value));
    }

    /** The digit loop of `number`: advances while `peek` is a digit. */
    method SkipDigits()
      requires Valid()
      modifies this`current
      ensures Valid()
      ensures current == DigitRunEnd(source, old(current))
    {
      ghost var end := DigitRunEnd(source, current);
      while IsDigit(Peek())
        invariant Valid() && current <= end
        invariant DigitRunEnd(source, current) == end
        decreases |source| - current
      {
        var _ := Advance();
      }
    }

    /** The two digit loops of `number`, with the dot between them when a
        digit follows it: the cursor ends where the number lexeme does. */
    method SkipNumber()
      requires Valid() && current == start + 1 && IsDigit(source[start])
      modifies this`current
      ensures Valid()
      ensures current == NumberEnd(source, start)
    {
      SkipDigits();

      // Digits after a dot belong to the number only when a digit follows the dot.
      if Peek() == '.' && IsDigit(PeekNext()) {
        var _ := Advance();
        SkipDigits();
      }
    }

    /** `number`, called once the first digit at `start` is consumed. */
    method ScanNumber()
      requires Valid() && current == start + 1 && IsDigit(source[start])
      modifies this`current, this`tokens, this`diagnostics, this`hadError
      ensures Valid() && start == old(start)
      ensures Dispatched(start, NumberStep(source, start, line))
    {
      SkipNumber();
      var lexeme := source[start..current];
      if !ParseFloatOverflows(lexeme) {
        AddToken(Number, Num(lexeme));
      } else {
        Throw(line, "Invalid number: +Inf");
      }
    }

    /** The loop of the `//` branch of `scanToken`: advances to the next line
        feed, which it leaves for the next dispatch, or to the end. */
    method SkipComment()
      requires Valid()
      modifies this`current
      ensures Valid()
      ensures current == CommentEnd(source, old(current))
    {
      ghost var end := CommentEnd(source, current);
      while Peek() != '\n' && !IsAtEnd()
        invariant Valid() && current <= end
        invariant CommentEnd(source, current) == end
        decreases |source| - current
      {
        var _ := Advance();
      }
    }

    /** The `match('=')` branches of `scanToken`: the two-byte kind when an
        equals sign follows, the one-byte kind otherwise. */
    method ScanOperator(two: TokenType, one: TokenType)
      requires Valid() && current == start + 1
      modifies this`current, this`tokens
      ensures Valid() && start == old(start)
      ensures Dispatched(start, WithEqual(source, start, line, two, one))
    {
      var equal := Match('=');
      AddToken(if equal then two else one, Absent);
    }

    /** The `/` branch of `scanToken`: a comment when a second slash
        follows, a division sign otherwise. */
    method ScanSlash()
      requires Valid() && current == start + 1 && source[start] == '/'
      modifies this`current, this`tokens
      ensures Valid() && start == old(start)
      ensures Dispatched(start, if MatchAt(source, start + 1, '/') then CommentStep(source, start, line)
                                else Single(start, line, Slash))
    {
      var comment := Match('/');
      if comment {
        // Everything up to the line feed is skipped; the line feed stays.
        SkipComment();
      } else {
        AddToken(Slash, Absent);
      }
    }

    /** `scanToken`: one dispatch on the byte at the cursor, which does what
        `ScanStep` says. */
    method ScanToken()
      requires Valid() && start == current && current < |source|
      modifies this`current, this`line, this`tokens, this`diagnostics, this`hadError
      ensures Valid() && start == old(start)
      ensures Dispatched(old(current), ScanStep(source, old(current), old(line)))
    {
      var c := Advance();
      if c == '(' {
        AddToken(LeftParen, Absent);
      } else if c == ')' {
        AddToken(RightParen, Absent);
      } else if c == '{' {
        AddToken(LeftBrace, Absent);
      } else if c == '}' {
        AddToken(RightBrace, Absent);
      } else if c == ',' {
        AddToken(Comma, Absent);
      } else if c == '.' {
        AddToken(Dot, Absent);
      } else if c == '-' {
        AddToken(Minus, Absent);
      } else if c == '+' {
        AddToken(Plus, Absent);
      } else if c == ';' {
        AddToken(Semicolon, Absent);
      } else if c == '*' {
        AddToken(Star, Absent);
      } else if c == '!' {
        ScanOperator(BangEqual, Bang);
      } else if c == '=' {
        ScanOperator(EqualEqual, Equal);
      } else if c == '<' {
        ScanOperator(LessEqual, Less);
      } else if c == '>' {
        ScanOperator(GreaterEqual, Greater);
      } else if c == '/' {
        ScanSlash();
      } else if c == ' ' || c == '\r' || c == '\t' {
        // Blank bytes produce nothing.
      } else if c == '\n' {
        line := line + 1;
      } else if c == '"' {
        ScanString();
      } else if IsDigit(c) {
        ScanNumber();
      } else {
        Throw(line, "Unexpected character: " + RuneText(c));
      }
    }

    /** `ScanTokens`: dispatches until the end of the source, then appends the
        end-of-file token on the last line. What it appends, and the errors it
        reports, are those `LexFrom` reads from the cursor on. */
    method ScanTokens() returns (result: seq<Token>)
      requires Valid()
      modifies this`start, this`current, this`line, this`tokens, this`diagnostics, this`hadError
      ensures Valid() && current == |source|
      ensures line == old(line) + NewlineCount(source[old(current)..])
      ensures tokens == old(tokens) + TokensOf(LexFrom(source, old(current), old(line)))
                        + [NewToken(Eof, "", Absent, line)]
      ensures diagnostics == old(diagnostics) + DiagnosticsOf(LexFrom(source, old(current), old(line)))
      ensures hadError == (old(hadError) || diagnostics != old(diagnostics))
      ensures result == tokens
    {
      ghost var pieces := LexFrom(source, current, line);
      while !IsAtEnd()
        invariant Valid()
        invariant line + NewlineCount(source[current..]) == old(line) + NewlineCount(source[old(current)..])
        invariant tokens + TokensOf(LexFrom(source, current, line)) == old(tokens) + TokensOf(pieces)
        invariant diagnostics + DiagnosticsOf(LexFrom(source, current, line))
                  == old(diagnostics) + DiagnosticsOf(pieces)
        invariant |old(diagnostics)| <= |diagnostics|
        invariant hadError == (old(hadError) || |diagnostics| > |old(diagnostics)|)
        decreases |source| - current
      {
        ghost var cur, ln, ts, ds := current, line, tokens, diagnostics;
        start := current;
        ScanToken();
        LexFromStep(source, cur, ln);
        ghost var st := ScanStep(source, cur, ln);
        ghost var p := Piece(source[cur..current], line, st.outcome);
        AppendRegroups(ts, PieceTokens(p), TokensOf(LexFrom(source, current, line)));
        AppendRegroups(ds, PieceDiagnostics(p), DiagnosticsOf(LexFrom(source, current, line)));
      }
      assert source[current..] == [];
      tokens := tokens + [NewToken(Eof, "", Absent, line)];
      result := tokens;
    }
  }

  /** What the interpreter's entry point does with a source text: scan it
      with a new scanner and look at the error flag. The tokens and the
      errors are those of `Scan` and `ScanDiagnostics`, and the flag is up
      exactly when an error was reported. */
  method Tokenize(source: seq<Byte>) returns (tokens: seq<Token>, diagnostics: seq<Diagnostic>, hadError: bool)
    ensures tokens == Scan(source) && diagnostics == ScanDiagnostics(source)
    ensures hadError <==> diagnostics != []
  {
    var scanner := new Scanner(source);
    tokens := scanner.ScanTokens();
    diagnostics := scanner.diagnostics;
    hadError := scanner.hadError;
  }
}
