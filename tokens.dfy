/** The token data model: the closed set of token kinds, the token record,
    and the display forms used when tokens are printed. */
module Tokens {

  datatype Option<T> = None | Some(value: T)

  /** Number of kinds in the enumeration. */
  const KindCount: nat := 39

  /** A token kind is an integer code; the enumeration is the codes 0..38,
      given in declaration order as `iota` assigns them. */
  type TokenType = k: int | 0 <= k < KindCount

  // Kinds of the one-byte operators and punctuation.
  const LeftParen: TokenType := 0
  const RightParen: TokenType := 1
  const LeftBrace: TokenType := 2
  const RightBrace: TokenType := 3
  const Comma: TokenType := 4
  const Dot: TokenType := 5
  const Minus: TokenType := 6
  const Plus: TokenType := 7
  const Semicolon: TokenType := 8
  const Slash: TokenType := 9
  const Star: TokenType := 10

  // Kinds of the operators that may take a second `=`.
  const Bang: TokenType := 11
  const BangEqual: TokenType := 12
  const Equal: TokenType := 13
  const EqualEqual: TokenType := 14
  const Greater: TokenType := 15
  const GreaterEqual: TokenType := 16
  const Less: TokenType := 17
  const LessEqual: TokenType := 18

  // Kinds that carry a value.
  const Identifier: TokenType := 19
  const String: TokenType := 20
  const Number: TokenType := 21

  // Kinds of the reserved words.
  const And: TokenType := 22
  const Class: TokenType := 23
  const Else: TokenType := 24
  const False: TokenType := 25
  const Fun: TokenType := 26
  const For: TokenType := 27
  const If: TokenType := 28
  const Nil: TokenType := 29
  const Or: TokenType := 30
  const Print: TokenType := 31
  const Return: TokenType := 32
  const Super: TokenType := 33
  const This: TokenType := 34
  const True: TokenType := 35
  const Var: TokenType := 36
  const While: TokenType := 37

  // The sentinel that closes every scan.
  const Eof: TokenType := 38

  /** `TokenType.String`'s array: the canonical name of every kind, one entry
      per constant, in declaration order. */
  const TypeNames: seq<string> := [
    "LEFT_PAREN", "RIGHT_PAREN", "LEFT_BRACE", "RIGHT_BRACE",
    "COMMA", "DOT", "MINUS", "PLUS", "SEMICOLON", "SLASH", "STAR",
    "BANG", "BANG_EQUAL", "EQUAL", "EQUAL_EQUAL",
    "GREATER", "GREATER_EQUAL", "LESS", "LESS_EQUAL",
    "IDENTIFIER", "STRING", "NUMBER",
    "AND", "CLASS", "ELSE", "FALSE", "FUN", "FOR", "IF", "NIL", "OR",
    "PRINT", "RETURN", "SUPER", "THIS", "TRUE", "VAR", "WHILE",
    "EOF"
  ]

  /** `TokenType.String`: the kind's canonical name, looked up by its code;
      defined for every kind, since the array has one entry per code. */
  function KindName(t: TokenType): string
  {
    TypeNames[t]
  }

  /** Reads a canonical name back into its kind: the reference decoding
      against which the name array is shown to be one-to-one. */
  function KindOfName(s: string): (r: Option<TokenType>)
  {
    if s == [] then None
    else match s[0]
      case 'L' =>
        if s == "LEFT_PAREN" then Some(LeftParen)
        else if s == "LEFT_BRACE" then Some(LeftBrace)
        else if s == "LESS" then Some(Less)
        else if s == "LESS_EQUAL" then Some(LessEqual)
        else None
      case 'R' =>
        if s == "RIGHT_PAREN" then Some(RightParen)
        else if s == "RIGHT_BRACE" then Some(RightBrace)
        else if s == "RETURN" then Some(Return)
        else None
      case 'C' =>
        if s == "COMMA" then Some(Comma)
        else if s == "CLASS" then Some(Class)
        else None
      case 'D' =>
        if s == "DOT" then Some(Dot)
        else None
      case 'M' =>
        if s == "MINUS" then Some(Minus)
        else None
      case 'P' =>
        if s == "PLUS" then Some(Plus)
        else if s == "PRINT" then Some(Print)
        else None
      case 'S' =>
        if s == "SEMICOLON" then Some(Semicolon)
        else if s == "SLASH" then Some(Slash)
        else if s == "STAR" then Some(Star)
        else if s == "STRING" then Some(String)
        else if s == "SUPER" then Some(Super)
        else None
      case 'B' =>
        if s == "BANG" then Some(Bang)
        else if s == "BANG_EQUAL" then Some(BangEqual)
        else None
      case 'E' =>
        if s == "EQUAL" then Some(Equal)
        else if s == "EQUAL_EQUAL" then Some(EqualEqual)
        else if s == "ELSE" then Some(Else)
        else if s == "EOF" then Some(Eof)
        else None
      case 'G' =>
        if s == "GREATER" then Some(Greater)
        else if s == "GREATER_EQUAL" then Some(GreaterEqual)
        else None
      case 'I' =>
        if s == "IDENTIFIER" then Some(Identifier)
        else if s == "IF" then Some(If)
        else None
      case 'N' =>
        if s == "NUMBER" then Some(Number)
        else if s == "NIL" then Some(Nil)
        else None
      case 'A' =>
        if s == "AND" then Some(And)
        else None
      case 'F' =>
        if s == "FALSE" then Some(False)
        else if s == "FUN" then Some(Fun)
        else if s == "FOR" then Some(For)
        else None
      case 'O' =>
        if s == "OR" then Some(Or)
        else None
      case 'T' =>
        if s == "THIS" then Some(This)
        else if s == "TRUE" then Some(True)
        else None
      case 'V' =>
        if s == "VAR" then Some(Var)
        else None
      case 'W' =>
        if s == "WHILE" then Some(While)
        else None
      case _ => None
  }

  /** A non-empty text that starts with an upper-case letter and holds no space. */
  predicate IsWordLike(s: string)
  {
    s != [] && 'A' <= s[0] <= 'Z' && ' ' !in s
  }

  /** Reading a kind's name back gives the kind, so no two kinds share a
      name (`EQUAL_EQUAL` is told apart from `EQUAL`); every name is a word.
      The cases are checked in groups, to keep each proof small. */
  lemma KindNameRoundTrip(t: TokenType)
    ensures KindOfName(KindName(t)) == Some(t) && IsWordLike(KindName(t))
  {
    if t < Comma { BracketNamesAreWords(t); }
    else if t < Bang { PunctuationNamesAreWords(t); }
    else if t < Identifier { OperatorNamesAreWords(t); }
    else { LiteralAndKeywordNamesAreWords(t); }
    if t < LeftBrace { ParenNamesReadBack(t); }
    else if t < Comma { BraceNamesReadBack(t); }
    else if t < Bang { PunctuationNamesReadBack(t); }
    else if t < Greater { BangEqualNamesReadBack(t); }
    else if t < Identifier { ComparisonNamesReadBack(t); }
    else if t < And { LiteralNamesReadBack(t); }
    else if t < Or { EarlyKeywordNamesReadBack(t); }
    else { LateKeywordAndEofNamesReadBack(t); }
  }

  /** The names of the parentheses and braces are words. */
  lemma BracketNamesAreWords(t: TokenType)
    requires t < Comma
    ensures IsWordLike(KindName(t))
  {
  }

  /** The names of the other one-byte operators are words. */
  lemma PunctuationNamesAreWords(t: TokenType)
    requires Comma <= t < Bang
    ensures IsWordLike(KindName(t))
  {
  }

  /** The names of the one-or-two-byte operators are words. */
  lemma OperatorNamesAreWords(t: TokenType)
    requires Bang <= t < Identifier
    ensures IsWordLike(KindName(t))
  {
  }

  /** The names of the literal and keyword kinds and of the end of input are words. */
  lemma LiteralAndKeywordNamesAreWords(t: TokenType)
    requires Identifier <= t
    ensures IsWordLike(KindName(t))
  {
  }

  /** `KindNameRoundTrip` for the parentheses. */
  lemma ParenNamesReadBack(t: TokenType)
    requires t < LeftBrace
    ensures KindOfName(KindName(t)) == Some(t)
  {
  }

  /** `KindNameRoundTrip` for the braces. */
  lemma BraceNamesReadBack(t: TokenType)
    requires LeftBrace <= t < Comma
    ensures KindOfName(KindName(t)) == Some(t)
  {
  }

  /** `KindNameRoundTrip` for the other single-character kinds. */
  lemma PunctuationNamesReadBack(t: TokenType)
    requires Comma <= t < Bang
    ensures KindOfName(KindName(t)) == Some(t)
  {
  }

  /** `KindNameRoundTrip` for `BANG` to `EQUAL_EQUAL`. */
  lemma BangEqualNamesReadBack(t: TokenType)
    requires Bang <= t < Greater
    ensures KindOfName(KindName(t)) == Some(t)
  {
  }

  /** `KindNameRoundTrip` for `GREATER` to `LESS_EQUAL`. */
  lemma ComparisonNamesReadBack(t: TokenType)
    requires Greater <= t < Identifier
    ensures KindOfName(KindName(t)) == Some(t)
  {
  }

  /** `KindNameRoundTrip` for the literal kinds. */
  lemma LiteralNamesReadBack(t: TokenType)
    requires Identifier <= t < And
    ensures KindOfName(KindName(t)) == Some(t)
  {
  }

  /** `KindNameRoundTrip` for the keywords `AND` to `NIL`. */
  lemma EarlyKeywordNamesReadBack(t: TokenType)
    requires And <= t < Or
    ensures KindOfName(KindName(t)) == Some(t)
  {
  }

  /** `KindNameRoundTrip` for the keywords `OR` to `WHILE` and for `EOF`. */
  lemma LateKeywordAndEofNamesReadBack(t: TokenType)
    requires Or <= t
    ensures KindOfName(KindName(t)) == Some(t)
  {
  }

  /** The kinds of the literals (`IDENTIFIER`, `STRING`, `NUMBER`) and of the keywords. */
  predicate IsLiteralOrKeyword(t: TokenType)
  {
    Identifier <= t < Eof
  }

  /** The switch of `TokenTypeToString`, for a kind of the enumeration: the
      source symbol of an operator, the empty text for the end of input, the
      upper-case name of a literal or keyword kind. */
  function Symbol(t: TokenType): string
  {
    if t == LeftParen then "("
    else if t == RightParen then ")"
    else if t == LeftBrace then "{"
    else if t == RightBrace then "}"
    else if t == Comma then ","
    else if t == Dot then "."
    else if t == Minus then "-"
    else if t == Plus then "+"
    else if t == Semicolon then ";"
    else if t == Star then "*"
    else if t == Eof then ""
    else if t == BangEqual then "!="
    else if t == Bang then "!"
    else if t == EqualEqual then "=="
    else if t == Equal then "="
    else if t == LessEqual then "<="
    else if t == Less then "<"
    else if t == GreaterEqual then ">="
    else if t == Greater then ">"
    else if t == Slash then "/"
    else if t == Identifier then "IDENTIFIER"
    else if t == String then "STRING"
    else if t == Number then "NUMBER"
    else if t == And then "AND"
    else if t == Class then "CLASS"
    else if t == Else then "ELSE"
    else if t == False then "FALSE"
    else if t == Fun then "FUN"
    else if t == For then "FOR"
    else if t == If then "IF"
    else if t == Nil then "NIL"
    else if t == Or then "OR"
    else if t == Print then "PRINT"
    else if t == Return then "RETURN"
    else if t == Super then "SUPER"
    else if t == This then "THIS"
    else if t == True then "TRUE"
    else if t == Var then "VAR"
    else if t == While then "WHILE"
    else assert false; ""
  }

  /** `TokenTypeToString` on a raw kind code: the switch above for a code of
      the enumeration, `"N/A"` for any other integer. */
  function TokenTypeToString(code: int): (r: string)
    ensures 0 <= code < KindCount ==> r == Symbol(code) && KindOfSymbol(r) == Some(code)
    ensures r == "N/A" <==> !(0 <= code < KindCount)
  {
    if 0 <= code < KindCount then
      SymbolRoundTrip(code);
      assert KindOfSymbol("N/A") == None;
      Symbol(code)
    else "N/A"
  }

  /** Reads a displayed symbol back into its kind: the reference decoding
      against which the switch of `TokenTypeToString` is shown to be one-to-one. */
  function KindOfSymbol(s: string): (r: Option<TokenType>)
  {
    if s == [] then Some(Eof)
    else match s[0]
      case '(' => if s == "(" then Some(LeftParen) else None
      case ')' => if s == ")" then Some(RightParen) else None
      case '{' => if s == "{" then Some(LeftBrace) else None
      case '}' => if s == "}" then Some(RightBrace) else None
      case ',' => if s == "," then Some(Comma) else None
      case '.' => if s == "." then Some(Dot) else None
      case '-' => if s == "-" then Some(Minus) else None
      case '+' => if s == "+" then Some(Plus) else None
      case ';' => if s == ";" then Some(Semicolon) else None
      case '*' => if s == "*" then Some(Star) else None
      case '/' => if s == "/" then Some(Slash) else None
      case '!' => if s == "!=" then Some(BangEqual) else if s == "!" then Some(Bang) else None
      case '=' => if s == "==" then Some(EqualEqual) else if s == "=" then Some(Equal) else None
      case '<' => if s == "<=" then Some(LessEqual) else if s == "<" then Some(Less) else None
      case '>' => if s == ">=" then Some(GreaterEqual) else if s == ">" then Some(Greater) else None
      case _ =>
        match KindOfName(s)
        case Some(t) => if IsLiteralOrKeyword(t) then Some(t) else None
        case None => None
  }

  /** A literal or keyword kind is displayed by its upper-case canonical name. */
  lemma SymbolOfLiteralOrKeyword(t: TokenType)
    requires IsLiteralOrKeyword(t)
    ensures Symbol(t) == KindName(t)
  {
  }

  /** Reading a kind's symbol back gives the kind: the results of
      `TokenTypeToString` are pairwise distinct over the enumeration. */
  lemma SymbolRoundTrip(t: TokenType)
    ensures KindOfSymbol(Symbol(t)) == Some(t)
  {
    if IsLiteralOrKeyword(t) {
      SymbolOfLiteralOrKeyword(t);
      KindNameRoundTrip(t);
      KindOfSymbolOfWord(Symbol(t));
    } else {
      OperatorSymbolsReadBack(t);
    }
  }

  /** A word is read back as a symbol exactly when it names a literal or keyword kind. */
  lemma KindOfSymbolOfWord(s: string)
    requires IsWordLike(s)
    ensures KindOfSymbol(s) == match KindOfName(s)
      case Some(t) => if IsLiteralOrKeyword(t) then Some(t) else None
      case None => None
  {
  }

  /** `SymbolRoundTrip` for the operators and the end of input. */
  lemma OperatorSymbolsReadBack(t: TokenType)
    requires !IsLiteralOrKeyword(t)
    ensures KindOfSymbol(Symbol(t)) == Some(t)
  {
  }

  /** No two kinds share a name. */
  lemma KindNamesDistinct(a: TokenType, b: TokenType)
    ensures a != b ==> KindName(a) != KindName(b)
  {
    KindNameRoundTrip(a);
    KindNameRoundTrip(b);
  }

  /** No two kinds share what `TokenTypeToString` gives for them. */
  lemma SymbolsDistinct(a: TokenType, b: TokenType)
    ensures a != b ==> TokenTypeToString(a) != TokenTypeToString(b)
  {
    SymbolRoundTrip(a);
    SymbolRoundTrip(b);
  }

  /** `"N/A"` is returned exactly for the codes outside the enumeration. */
  lemma TokenTypeToStringNotApplicable(code: int)
    ensures TokenTypeToString(code) == "N/A" <==> !(0 <= code < KindCount)
  {
    if 0 <= code < KindCount {
      SymbolRoundTrip(code);
      assert KindOfSymbol("N/A") == None;
    }
  }

  /** The payload of a token: none, the text of a string literal, or a
      number, kept as its digit lexeme rather than as a floating-point value. */
  datatype Literal = Absent | Str(text: string) | Num(lexeme: string)

  /** One lexical unit. */
  datatype Token = Token(kind: TokenType, lexeme: string, literal: Literal, line: int)

  /** `NewToken`: a token holding exactly the four given values. */
  function NewToken(kind: TokenType, lexeme: string, literal: Literal, line: int): (t: Token)
    ensures t.kind == kind && t.lexeme == lexeme && t.literal == literal && t.line == line
  {
    Token(kind, lexeme, literal, line)
  }

  /** `TokenLiteralToString`: `"null"` for no literal, the text itself (no
      quotes) for a string; a number is rendered by `formatNumber`, which
      stands for the floating-point formatting of its decoded value. */
  function TokenLiteralToString(literal: Literal, formatNumber: string -> string): (r: string)
    ensures literal == Absent ==> r == "null"
    ensures literal.Str? ==> r == literal.text
  {
    match literal
    case Absent => "null"
    case Str(text) => text
    case Num(lexeme) => formatNumber(lexeme)
  }

  /** `Token.String`: the kind name, a space, the lexeme, a space, the literal. */
  function TokenToString(t: Token, formatNumber: string -> string): string
  {
    KindName(t.kind) + " " + t.lexeme + " " + TokenLiteralToString(t.literal, formatNumber)
  }

  /** Splits a text at its first space: the part before it, and the part after
      it (`None` when there is no space). */
  function SplitAtSpace(s: string): (r: (string, Option<string>))
    ensures ' ' !in r.0
    ensures r.1.None? ==> r.0 == s
    ensures r.1.Some? ==> s == r.0 + " " + r.1.value
    decreases |s|
  {
    if s == [] then ([], None)
    else if s[0] == ' ' then ([], Some(s[1..]))
    else
      var (head, tail) := SplitAtSpace(s[1..]);
      ([s[0]] + head, tail)
  }

  /** Splitting `a + " " + b` where `a` holds no space gives back `a` and `b`. */
  lemma {:induction false} SplitAtSpaceOfJoin(a: string, b: string)
    requires ' ' !in a
    ensures SplitAtSpace(a + " " + b) == (a, Some(b))
  {
    if a != [] {
      assert (a + " " + b)[1..] == a[1..] + " " + b;
      SplitAtSpaceOfJoin(a[1..], b);
      assert [a[0]] + a[1..] == a;
    }
  }

  /** A rendered token can be read back: its first word names its kind, and
      when its lexeme holds no space the second word is the lexeme and the
      rest is the literal's rendering. */
  lemma RenderedTokenFields(t: Token, formatNumber: string -> string)
    ensures var (name, rest) := SplitAtSpace(TokenToString(t, formatNumber));
      && KindOfName(name) == Some(t.kind)
      && rest == Some(t.lexeme + " " + TokenLiteralToString(t.literal, formatNumber))
    ensures ' ' !in t.lexeme ==>
      var (_, rest) := SplitAtSpace(TokenToString(t, formatNumber));
      rest.Some? && SplitAtSpace(rest.value) == (t.lexeme, Some(TokenLiteralToString(t.literal, formatNumber)))
  {
    var lit := TokenLiteralToString(t.literal, formatNumber);
    KindNameRoundTrip(t.kind);
    assert TokenToString(t, formatNumber) == KindName(t.kind) + " " + (t.lexeme + " " + lit);
    SplitAtSpaceOfJoin(KindName(t.kind), t.lexeme + " " + lit);
    if ' ' !in t.lexeme {
      SplitAtSpaceOfJoin(t.lexeme, lit);
    }
  }
}
