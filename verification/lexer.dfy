/** The lexer (Sources/Lexer/Lexer.swift) as pure functions over the input
    text and a position. The Swift class keeps `currentPosition`, with
    `readPosition` always one ahead and `character` the character at
    `currentPosition` (nil past the end); here the position alone is the state. */
module Lexer {
  import opened Results
  import opened Tokens
  import Numerals

  predicate IsLetter(c: char) {
    ('a' <= c <= 'z') || ('A' <= c <= 'Z') || c == '_'
  }

  predicate IsDigit(c: char) {
    Numerals.IsDigit(c)
  }

  predicate IsWhitespace(c: char) {
    c == ' ' || c == '\t' || c == '\n' || c == '\r'
  }

  /** `isString`: anything but the closing quotation mark. */
  predicate IsStringBody(c: char) {
    c != '"'
  }

  /** The conditions `readCharacter(while:)` is called with. */
  datatype CharClass = Letters | Digits | StringBody

  predicate InClass(cls: CharClass, c: char) {
    match cls
    case Letters => IsLetter(c)
    case Digits => IsDigit(c)
    case StringBody => IsStringBody(c)
  }

  /** `character` when the lexer stands at `p`. */
  function CharAt(input: string, p: nat): Option<char> {
    if p < |input| then Some(input[p]) else None
  }

  /** What `peekCharacter` does as written: its guard admits
      `readPosition == input.count`, and subscripting a Swift string at its end
      index traps. `OutOfBounds` stands for that trap. */
  datatype Peeked = Peeked(c: Option<char>) | OutOfBounds

  function PeekAsWritten(input: string, p: nat): Peeked {
    var readPosition := p + 1;
    if readPosition <= |input| then
      if readPosition < |input| then Peeked(Some(input[readPosition])) else OutOfBounds
    else Peeked(None)
  }

  /** `peekCharacter` with a bounds-checked guard: the character after `p`,
      nil when there is none. This is what the rest of the model uses. */
  function Peek(input: string, p: nat): (r: Option<char>)
    ensures r.Some? <==> p + 1 < |input|
    ensures r.Some? ==> r.value == input[p + 1]
  {
    if p + 1 < |input| then Some(input[p + 1]) else None
  }

  /** The two peeks agree everywhere except where the one as written traps,
      which is exactly when `p` is the last position of the input. */
  lemma PeekAgreesWhereDefined(input: string, p: nat)
    ensures PeekAsWritten(input, p) == OutOfBounds <==> p + 1 == |input|
    ensures PeekAsWritten(input, p) != OutOfBounds ==> PeekAsWritten(input, p) == Peeked(Peek(input, p))
  {
  }

  /** The as-written peek traps on the input "=": the lexer looks past `=`
      (and `!`) whenever one of them is the last character. */
  lemma PeekTrapsOnTrailingAssign()
    ensures CharAt("=", 0) == Some('=') && PeekAsWritten("=", 0) == OutOfBounds
    ensures Peek("=", 0) == None
  {
  }

  /** `skipWhitespace`: the first position at or after `p` that does not hold
      a space, tab, line feed or carriage return. */
  function SkipWhitespace(input: string, p: nat): (q: nat)
    ensures q >= p
    ensures forall i :: p <= i < q ==> i < |input| && IsWhitespace(input[i])
    ensures q < |input| ==> !IsWhitespace(input[q])
    ensures q > |input| ==> q == p
    decreases |input| - p
  {
    if p < |input| && IsWhitespace(input[p]) then SkipWhitespace(input, p + 1) else p
  }

  /** `readCharacter(while:)`: the end of the longest run of `cls` characters
      starting at `p`. */
  function ReadWhile(input: string, p: nat, cls: CharClass): (q: nat)
    requires p <= |input|
    ensures p <= q <= |input|
    ensures forall i :: p <= i < q ==> InClass(cls, input[i])
    ensures q < |input| ==> !InClass(cls, input[q])
    decreases |input| - p
  {
    if p < |input| && InClass(cls, input[p]) then ReadWhile(input, p + 1, cls) else p
  }

  /** `readString`, with the lexer standing on the opening quotation mark:
      the text up to the next quotation mark (or the end of the input), and
      the position after the closing mark. */
  function ReadString(input: string, p: nat): (r: (string, nat))
    requires p < |input| && input[p] == '"'
    ensures r.1 >= p + 2 && r.1 <= |input| + 1
    ensures r.0 == input[p + 1..r.1 - 1]
    ensures forall i :: 0 <= i < |r.0| ==> r.0[i] != '"'
    ensures r.1 - 1 < |input| ==> input[r.1 - 1] == '"'
  {
    var e := ReadWhile(input, p + 1, StringBody);
    (input[p + 1..e], e + 1)
  }

  /** Characters that begin a token other than `Illegal` and `Eof`. */
  predicate StartsToken(c: char) {
    c in "=+-!*/,;<>(){}\"" || IsLetter(c) || IsDigit(c)
  }

  /** The one-character operators and delimiters of the `nextToken` switch.
      `[`, `]` and `:` are not among them. */
  function SingleCharKind(c: char): (r: Option<TokenType>)
    ensures r.Some? ==> r.value.IsSingleSymbol() && Literal(r.value) == [c]
  {
    match c
    case '+' => Some(Plus)
    case '-' => Some(Minus)
    case '*' => Some(Asterisk)
    case '/' => Some(Slash)
    case ',' => Some(Comma)
    case ';' => Some(Semicolon)
    case '<' => Some(LessThan)
    case '>' => Some(GreaterThan)
    case '(' => Some(LeftParen)
    case ')' => Some(RightParen)
    case '{' => Some(LeftBrace)
    case '}' => Some(RightBrace)
    case _ => None
  }

  /** The `=` and `!` cases of `nextToken`: with a `=` right after, the two
      characters form `==` or `!=`; otherwise the one character stands
      alone. */
  function ScanAssignOrBang(input: string, q: nat): (r: (Token, nat))
    requires q < |input| && (input[q] == '=' || input[q] == '!')
    ensures r.0.kind in {Equal, NotEqual, Assign, Bang}
    ensures q < r.1 <= |input| && r.0.literal == input[q..r.1]
  {
    var two := Peek(input, q) == Some('=');
    if input[q] == '=' then
      if two then
        assert input[q..q + 2] == "==";
        (TokenOf(Equal), q + 2)
      else
        assert input[q..q + 1] == "=";
        (TokenOf(Assign), q + 1)
    else
      if two then
        assert input[q..q + 2] == "!=";
        (TokenOf(NotEqual), q + 2)
      else
        assert input[q..q + 1] == "!";
        (TokenOf(Bang), q + 1)
  }

  /** The body of `nextToken` once whitespace is skipped, with the lexer
      standing on position `q`. */
  function ScanToken(input: string, q: nat): (r: (Token, nat))
    ensures r.1 >= q
    ensures r.0.kind == Eof <==> q >= |input|
    ensures (r.0.kind == Eof || r.0.kind == Illegal) ==> r.1 == q
    ensures r.0.kind != Eof && r.0.kind != Illegal ==> q < r.1 <= |input| + 1
    ensures r.0.kind != Eof && r.0.kind != Illegal && r.0.kind != String ==>
              r.1 <= |input| && r.0.literal == input[q..r.1]
  {
    if q >= |input| then (TokenOf(Eof), q)
    else
      var c := input[q];
      if c == '=' || c == '!' then ScanAssignOrBang(input, q)
      else if c == '"' then
        var (s, e) := ReadString(input, q);
        (MakeString(s), e)
      else if SingleCharKind(c).Some? then
        assert input[q..q + 1] == [c];
        (TokenOf(SingleCharKind(c).value), q + 1)
      else if IsLetter(c) then
        var e := ReadWhile(input, q, Letters);
        (MakeIdentifier(input[q..e]), e)
      else if IsDigit(c) then
        var e := ReadWhile(input, q, Digits);
        (MakeNumber(input[q..e]), e)
      else (TokenOf(Illegal), q)
  }

  /** `nextToken`: the token read from position `p`, and the position after it.
      `Eof` and `Illegal` leave the position on the character that produced
      them (after skipping whitespace), so asking again repeats them; every
      other token consumes at least one character. */
  function NextToken(input: string, p: nat): (r: (Token, nat))
    ensures r.1 >= p
    ensures (r.0.kind == Eof || r.0.kind == Illegal) ==> r.1 == SkipWhitespace(input, p)
    ensures r.0.kind != Eof && r.0.kind != Illegal ==> p < r.1 <= |input| + 1
    ensures r.0.kind == Eof <==> SkipWhitespace(input, p) >= |input|
  {
    ScanToken(input, SkipWhitespace(input, p))
  }

  /** The tokens the lexer yields from position `p` up to and including the
      first `Eof` or `Illegal`; after that token the lexer repeats it forever. */
  function Tokenize(input: string, p: nat): (ts: seq<Token>)
    requires p <= |input| + 1
    ensures |ts| > 0
    ensures ts[|ts| - 1].kind == Eof || ts[|ts| - 1].kind == Illegal
    ensures forall i :: 0 <= i < |ts| - 1 ==> ts[i].kind != Eof && ts[i].kind != Illegal
    decreases |input| + 1 - p
  {
    var (t, q) := NextToken(input, p);
    if t.kind == Eof || t.kind == Illegal then [t] else [t] + Tokenize(input, q)
  }

  /** The whole input's token stream, as the parser pulls it. */
  function Lex(input: string): (ts: seq<Token>)
    ensures |ts| > 0
    ensures ts[|ts| - 1].kind == Eof || ts[|ts| - 1].kind == Illegal
  {
    Tokenize(input, 0)
  }

  /** The `n`-th token (from 0) the lexer hands out when called repeatedly
      from position `p`. */
  function Pull(input: string, p: nat, n: nat): Token
    decreases n
  {
    var (t, q) := NextToken(input, p);
    if n == 0 then t else Pull(input, q, n - 1)
  }

  /** `Eof` and `Illegal` are fixed points: asking again from where they left
      the lexer yields the same token at the same position. */
  lemma StuckTokenRepeats(input: string, p: nat)
    requires NextToken(input, p).0.kind == Eof || NextToken(input, p).0.kind == Illegal
    ensures NextToken(input, NextToken(input, p).1) == NextToken(input, p)
  {
  }

  /** Reading the stream from `Tokenize`, with its last token repeated past the
      end, is the same as calling `nextToken` over and over. */
  lemma {:induction false} TokenizeMatchesPull(input: string, p: nat, n: nat)
    requires p <= |input| + 1
    ensures var ts := Tokenize(input, p);
            Pull(input, p, n) == if n < |ts| then ts[n] else ts[|ts| - 1]
    decreases n
  {
    var r := NextToken(input, p);
    if n > 0 && r.0.kind != Eof && r.0.kind != Illegal {
      TokenizeMatchesPull(input, r.1, n - 1);
      AdvancedStreamMatchesPull(input, p, n);
    } else {
      FirstOrStuckMatchesPull(input, p, n);
    }
  }

  lemma {:induction false} FirstOrStuckMatchesPull(input: string, p: nat, n: nat)
    requires p <= |input| + 1
    requires n == 0 || NextToken(input, p).0.kind == Eof || NextToken(input, p).0.kind == Illegal
    ensures var ts := Tokenize(input, p);
            Pull(input, p, n) == if n < |ts| then ts[n] else ts[|ts| - 1]
  {
    if n == 0 {
      FirstPullIsFirstToken(input, p);
    } else {
      StuckStreamMatchesPull(input, p, n);
    }
  }

  lemma {:induction false} FirstPullIsFirstToken(input: string, p: nat)
    requires p <= |input| + 1
    ensures Pull(input, p, 0) == Tokenize(input, p)[0]
  {
    var r := NextToken(input, p);
    if r.0.kind == Eof || r.0.kind == Illegal {
      TokenizeStops(input, p, r.0);
    } else {
      TokenizeAdvances(input, p, r.0, r.1);
    }
  }

  /** A stream that stops at once is its one token, which every pull
      repeats. */
  lemma {:induction false} StuckStreamMatchesPull(input: string, p: nat, n: nat)
    requires p <= |input| + 1
    requires NextToken(input, p).0.kind == Eof || NextToken(input, p).0.kind == Illegal
    ensures var ts := Tokenize(input, p);
            Pull(input, p, n) == if n < |ts| then ts[n] else ts[|ts| - 1]
  {
    TokenizeStops(input, p, NextToken(input, p).0);
    PullStuck(input, p, n);
  }

  /** After an ordinary token, the `n`-th pull from `p` is the `n - 1`-th
      from where that token ends, and so is the `n`-th stream element. */
  lemma {:induction false} AdvancedStreamMatchesPull(input: string, p: nat, n: nat)
    requires p <= |input| + 1 && n > 0
    requires NextToken(input, p).0.kind != Eof && NextToken(input, p).0.kind != Illegal
    requires var rest := Tokenize(input, NextToken(input, p).1);
             Pull(input, NextToken(input, p).1, n - 1) == if n - 1 < |rest| then rest[n - 1] else rest[|rest| - 1]
    ensures var ts := Tokenize(input, p);
            Pull(input, p, n) == if n < |ts| then ts[n] else ts[|ts| - 1]
  {
    var r := NextToken(input, p);
    TokenizeAdvances(input, p, r.0, r.1);
  }

  /** Once the lexer is stuck on `Eof` or `Illegal`, every later call yields it. */
  lemma {:induction false} PullStuck(input: string, p: nat, n: nat)
    requires NextToken(input, p).0.kind == Eof || NextToken(input, p).0.kind == Illegal
    ensures Pull(input, p, n) == NextToken(input, p).0
    decreases n
  {
    if n > 0 {
      StuckTokenRepeats(input, p);
      PullStuck(input, NextToken(input, p).1, n - 1);
    }
  }

  /** Every token except `Eof`, `Illegal` and strings carries exactly the text
      it consumed, after the skipped whitespace. */
  lemma LiteralIsConsumedText(input: string, p: nat)
    ensures var (t, e) := NextToken(input, p);
            var q := SkipWhitespace(input, p);
            t.kind != Eof && t.kind != Illegal && t.kind != String ==>
              q < e <= |input| && t.literal == input[q..e]
  {
  }

  /** Whitespace never reaches the literal of a token other than a string. */
  lemma WhitespaceNeverInLiteral(input: string, p: nat)
    ensures var t := NextToken(input, p).0;
            t.kind != String ==> forall i :: 0 <= i < |t.literal| ==> !IsWhitespace(t.literal[i])
  {
    var t := NextToken(input, p).0;
    var q := SkipWhitespace(input, p);
    if t.kind != String && t.kind != Eof && t.kind != Illegal {
      LiteralIsConsumedText(input, p);
    }
  }

  /** `==` and `!=` are single tokens; a `=` or `!` not followed by `=` is
      `Assign` or `Bang` on its own. */
  lemma TwoCharacterOperators(input: string, p: nat)
    requires SkipWhitespace(input, p) < |input|
    ensures var q := SkipWhitespace(input, p);
            var r := NextToken(input, p);
            var twice := q + 1 < |input| && input[q + 1] == '=';
            && (input[q] == '=' && twice ==> r == (Token(Equal, "=="), q + 2))
            && (input[q] == '=' && !twice ==> r == (Token(Assign, "="), q + 1))
            && (input[q] == '!' && twice ==> r == (Token(NotEqual, "!="), q + 2))
            && (input[q] == '!' && !twice ==> r == (Token(Bang, "!"), q + 1))
  {
  }

  /** An identifier is the longest run of letters and underscores, classified
      by the keyword table; a digit ends the run. */
  lemma IdentifierIsMaximalLetterRun(input: string, p: nat)
    requires SkipWhitespace(input, p) < |input| && IsLetter(input[SkipWhitespace(input, p)])
    ensures var q := SkipWhitespace(input, p);
            var (t, e) := NextToken(input, p);
            && q < e <= |input|
            && t == Token(KindOfIdentifier(input[q..e]), input[q..e])
            && (forall i :: q <= i < e ==> IsLetter(input[i]))
            && (e < |input| ==> !IsLetter(input[e]))
  {
  }

  /** An integer token is the longest run of decimal digits. */
  lemma NumberIsMaximalDigitRun(input: string, p: nat)
    requires SkipWhitespace(input, p) < |input| && IsDigit(input[SkipWhitespace(input, p)])
    ensures var q := SkipWhitespace(input, p);
            var (t, e) := NextToken(input, p);
            && q < e <= |input|
            && t == Token(Int, input[q..e])
            && (forall i :: q <= i < e ==> IsDigit(input[i]))
            && (e < |input| ==> !IsDigit(input[e]))
  {
  }

  /** A string token holds exactly the characters between the quotation marks,
      with no escapes; both marks are consumed, and an unterminated string
      takes the rest of the input. */
  lemma StringIsTextBetweenQuotes(input: string, p: nat)
    requires SkipWhitespace(input, p) < |input| && input[SkipWhitespace(input, p)] == '"'
    ensures var q := SkipWhitespace(input, p);
            var (t, e) := NextToken(input, p);
            && t.kind == String
            && q + 2 <= e <= |input| + 1
            && t.literal == input[q + 1..e - 1]
            && (forall i :: 0 <= i < |t.literal| ==> t.literal[i] != '"')
            && (e <= |input| ==> input[e - 1] == '"')
            && (e == |input| + 1 ==> t.literal == input[q + 1..])
  {
  }

  /** Any character that starts no token, `[`, `]` and `:` among them, gives
      `Illegal` without being consumed. */
  lemma IllegalIsNotConsumed(input: string, p: nat)
    ensures var q := SkipWhitespace(input, p);
            var (t, e) := NextToken(input, p);
            (t.kind == Illegal <==> q < |input| && !StartsToken(input[q]))
            && (t.kind == Illegal ==> t.literal == "Illegal" && e == q)
  {
  }

  /** At the end of the input the lexer answers `Eof` and stays put. */
  lemma EndOfInputIsEof(input: string, p: nat)
    requires p >= |input|
    ensures NextToken(input, p) == (Token(Eof, "EOF"), p)
  {
  }

  /** The first two steps of the operator line of the lexer test. */
  lemma OperatorLineBangMinus()
    ensures NextToken("!-/*5;", 0) == (Token(Bang, "!"), 1)
    ensures NextToken("!-/*5;", 1) == (Token(Minus, "-"), 2)
  {
    var input := "!-/*5;";
    assert SkipWhitespace(input, 0) == 0 && ScanToken(input, 0) == (Token(Bang, "!"), 1);
    assert SkipWhitespace(input, 1) == 1 && ScanToken(input, 1) == (Token(Minus, "-"), 2);
  }

  lemma OperatorLineSlashAsterisk()
    ensures NextToken("!-/*5;", 2) == (Token(Slash, "/"), 3)
    ensures NextToken("!-/*5;", 3) == (Token(Asterisk, "*"), 4)
  {
    var input := "!-/*5;";
    assert SkipWhitespace(input, 2) == 2 && ScanToken(input, 2) == (Token(Slash, "/"), 3);
    assert SkipWhitespace(input, 3) == 3 && ScanToken(input, 3) == (Token(Asterisk, "*"), 4);
  }

  lemma OperatorLineNumber()
    ensures NextToken("!-/*5;", 4) == (Token(Int, "5"), 5)
  {
    var input := "!-/*5;";
    assert input[4] == '5' && ReadWhile(input, 5, Digits) == 5 && ReadWhile(input, 4, Digits) == 5;
    assert input[4..5] == "5";
    assert SkipWhitespace(input, 4) == 4 && ScanToken(input, 4) == (Token(Int, "5"), 5);
  }

  lemma OperatorLineEnd()
    ensures NextToken("!-/*5;", 5) == (Token(Semicolon, ";"), 6)
    ensures NextToken("!-/*5;", 6) == (Token(Eof, "EOF"), 6)
  {
    var input := "!-/*5;";
    assert SkipWhitespace(input, 5) == 5 && ScanToken(input, 5) == (Token(Semicolon, ";"), 6);
    assert SkipWhitespace(input, 6) == 6 && ScanToken(input, 6) == (Token(Eof, "EOF"), 6);
  }

  lemma TokenizeStops(input: string, p: nat, t: Token)
    requires p <= |input| + 1
    requires NextToken(input, p).0 == t && (t.kind == Eof || t.kind == Illegal)
    ensures Tokenize(input, p) == [t]
  {
  }

  lemma TokenizeAdvances(input: string, p: nat, t: Token, q: nat)
    requires q <= |input| + 1
    requires NextToken(input, p) == (t, q) && t.kind != Eof && t.kind != Illegal
    ensures Tokenize(input, p) == [t] + Tokenize(input, q)
  {
  }
}
