/** Token kinds, the symbol and keyword tables, and the fixed literal of each
    kind (Sources/Syntax/Token.swift, TokenSymbol.swift, TokenKeyword.swift). */
module Tokens {
  import opened Results

  datatype TokenType =
    | Unknown | Illegal | Eof
      // identifiers and literals
    | Identifier | Int | String
      // operators and punctuation
    | Assign | Plus | Minus | Bang | Asterisk | Slash | Comma | Colon | Semicolon
    | LessThan | GreaterThan | Equal | NotEqual
    | LeftParen | RightParen | LeftBrace | RightBrace | LeftBracket | RightBracket
      // keywords
    | Function | Let | True | False | If | Else | Return
  {
    /** Kinds whose literal is scanned text rather than a fixed spelling. */
    predicate IsLiteralKind() {
      Identifier? || Int? || String?
    }

    predicate IsKeyword() {
      Function? || Let? || True? || False? || If? || Else? || Return?
    }

    /** Kinds spelled by exactly one character of the symbol table. */
    predicate IsSingleSymbol() {
      || Assign? || Plus? || Minus? || Bang? || Asterisk? || Slash? || Comma?
      || Colon? || Semicolon? || LessThan? || GreaterThan?
      || LeftParen? || RightParen? || LeftBrace? || RightBrace?
      || LeftBracket? || RightBracket?
    }
  }

  datatype Token = Token(kind: TokenType, literal: string)

  /** The characters of `TokenSymbol`, each with its raw value. */
  datatype TokenSymbol =
    | EqualSymbol | PlusSymbol | MinusSymbol | BangSymbol | AsteriskSymbol
    | SlashSymbol | CommaSymbol | ColonSymbol | SemicolonSymbol
    | LeftParenSymbol | RightParenSymbol | LeftBraceSymbol | RightBraceSymbol
    | LeftBracketSymbol | RightBracketSymbol | LessThanSymbol | GreaterThanSymbol
    | DoubleQuotation

  function SymbolRaw(s: TokenSymbol): char {
    match s
    case EqualSymbol => '='
    case PlusSymbol => '+'
    case MinusSymbol => '-'
    case BangSymbol => '!'
    case AsteriskSymbol => '*'
    case SlashSymbol => '/'
    case CommaSymbol => ','
    case ColonSymbol => ':'
    case SemicolonSymbol => ';'
    case LeftParenSymbol => '('
    case RightParenSymbol => ')'
    case LeftBraceSymbol => '{'
    case RightBraceSymbol => '}'
    case LeftBracketSymbol => '['
    case RightBracketSymbol => ']'
    case LessThanSymbol => '<'
    case GreaterThanSymbol => '>'
    case DoubleQuotation => '"'
  }

  /** `TokenSymbol(rawValue:)`: the symbol spelled by `c`, if any. */
  function SymbolFromRaw(c: char): (r: Option<TokenSymbol>)
    ensures r.Some? ==> SymbolRaw(r.value) == c
  {
    match c
    case '=' => Some(EqualSymbol)
    case '+' => Some(PlusSymbol)
    case '-' => Some(MinusSymbol)
    case '!' => Some(BangSymbol)
    case '*' => Some(AsteriskSymbol)
    case '/' => Some(SlashSymbol)
    case ',' => Some(CommaSymbol)
    case ':' => Some(ColonSymbol)
    case ';' => Some(SemicolonSymbol)
    case '(' => Some(LeftParenSymbol)
    case ')' => Some(RightParenSymbol)
    case '{' => Some(LeftBraceSymbol)
    case '}' => Some(RightBraceSymbol)
    case '[' => Some(LeftBracketSymbol)
    case ']' => Some(RightBracketSymbol)
    case '<' => Some(LessThanSymbol)
    case '>' => Some(GreaterThanSymbol)
    case '"' => Some(DoubleQuotation)
    case _ => None
  }

  /** Every symbol is recovered from its raw character, so the symbol table
      has no two entries with the same character. */
  lemma SymbolRawRoundTrip(s: TokenSymbol)
    ensures SymbolFromRaw(SymbolRaw(s)) == Some(s)
  {
  }

  /** The reserved words of `TokenKeyword`. */
  datatype TokenKeyword = Fn | LetKeyword | TrueKeyword | FalseKeyword | IfKeyword | ElseKeyword | ReturnKeyword

  function KeywordRaw(k: TokenKeyword): string {
    match k
    case Fn => "fn"
    case LetKeyword => "let"
    case TrueKeyword => "true"
    case FalseKeyword => "false"
    case IfKeyword => "if"
    case ElseKeyword => "else"
    case ReturnKeyword => "return"
  }

  /** The seven reserved spellings. */
  const KeywordSpellings: set<string> := {"fn", "let", "true", "false", "if", "else", "return"}

  /** `TokenKeyword(rawValue:)`: the keyword spelled by `s`, if any. */
  function KeywordFromRaw(s: string): (r: Option<TokenKeyword>)
    ensures r.Some? ==> KeywordRaw(r.value) == s
    ensures r.Some? <==> s in KeywordSpellings
  {
    if s == "fn" then Some(Fn)
    else if s == "let" then Some(LetKeyword)
    else if s == "true" then Some(TrueKeyword)
    else if s == "false" then Some(FalseKeyword)
    else if s == "if" then Some(IfKeyword)
    else if s == "else" then Some(ElseKeyword)
    else if s == "return" then Some(ReturnKeyword)
    else None
  }

  /** The symbol whose character spells a one-character kind. */
  function SymbolOf(k: TokenType): (s: TokenSymbol)
    requires k.IsSingleSymbol()
    ensures s != DoubleQuotation
  {
    match k
    case Assign => EqualSymbol
    case Plus => PlusSymbol
    case Minus => MinusSymbol
    case Bang => BangSymbol
    case Asterisk => AsteriskSymbol
    case Slash => SlashSymbol
    case Comma => CommaSymbol
    case Colon => ColonSymbol
    case Semicolon => SemicolonSymbol
    case LessThan => LessThanSymbol
    case GreaterThan => GreaterThanSymbol
    case LeftParen => LeftParenSymbol
    case RightParen => RightParenSymbol
    case LeftBrace => LeftBraceSymbol
    case RightBrace => RightBraceSymbol
    case LeftBracket => LeftBracketSymbol
    case RightBracket => RightBracketSymbol
  }

  /** The keyword that spells a keyword kind. */
  function KeywordOf(k: TokenType): TokenKeyword
    requires k.IsKeyword()
  {
    match k
    case Function => Fn
    case Let => LetKeyword
    case True => TrueKeyword
    case False => FalseKeyword
    case If => IfKeyword
    case Else => ElseKeyword
    case Return => ReturnKeyword
  }

  /** The fixed literal `Token(type:)` gives a kind: a symbol's character, a
      keyword's spelling, or one of five special spellings. The scanned kinds
      have none: the source stops with `assertionFailure` for them. */
  function Literal(k: TokenType): string
    requires !k.IsLiteralKind()
  {
    if k.IsSingleSymbol() then [SymbolRaw(SymbolOf(k))]
    else if k.IsKeyword() then KeywordRaw(KeywordOf(k))
    else
      match k
      case Illegal => "Illegal"
      case Eof => "EOF"
      case Equal => [SymbolRaw(EqualSymbol), SymbolRaw(EqualSymbol)]
      case NotEqual => [SymbolRaw(BangSymbol), SymbolRaw(EqualSymbol)]
      case Unknown => ""
  }

  /** `Token(type:)`: a token of kind `k` carrying the kind's fixed literal. */
  function TokenOf(k: TokenType): (t: Token)
    requires !k.IsLiteralKind()
    ensures t.kind == k
  {
    Token(k, Literal(k))
  }

  /** `TokenType(symbol:)`. The double quotation mark is excluded: the source
      stops with `fatalError` on it. `=` always gives `Assign`; the lexer alone
      forms the two-character kinds. */
  function KindOfSymbol(c: char): (k: TokenType)
    requires c != '"'
    ensures k == Unknown <==> SymbolFromRaw(c).None?
    ensures k != Unknown ==> k.IsSingleSymbol() && |Literal(k)| == 1 && Literal(k)[0] == c
  {
    match SymbolFromRaw(c)
    case None => Unknown
    case Some(s) => SymbolKind(s)
  }

  /** The `switch symbol` of `TokenType(symbol:)`. */
  function SymbolKind(s: TokenSymbol): (k: TokenType)
    requires s != DoubleQuotation
    ensures k.IsSingleSymbol() && SymbolOf(k) == s
  {
    match s
    case EqualSymbol => Assign
    case PlusSymbol => Plus
    case MinusSymbol => Minus
    case BangSymbol => Bang
    case AsteriskSymbol => Asterisk
    case SlashSymbol => Slash
    case CommaSymbol => Comma
    case ColonSymbol => Colon
    case SemicolonSymbol => Semicolon
    case LessThanSymbol => LessThan
    case GreaterThanSymbol => GreaterThan
    case LeftParenSymbol => LeftParen
    case RightParenSymbol => RightParen
    case LeftBraceSymbol => LeftBrace
    case RightBraceSymbol => RightBrace
    case LeftBracketSymbol => LeftBracket
    case RightBracketSymbol => RightBracket
  }

  /** `TokenType(identifier:)`: a reserved spelling gives its keyword kind,
      any other text gives `Identifier`. */
  function KindOfIdentifier(s: string): (k: TokenType)
    ensures k == Identifier <==> s !in KeywordSpellings
    ensures k != Identifier ==> k.IsKeyword() && Literal(k) == s
  {
    match KeywordFromRaw(s)
    case None => Identifier
    case Some(w) => KeywordKind(w)
  }

  /** The `switch keyword` of `TokenType(identifier:)`. */
  function KeywordKind(w: TokenKeyword): (k: TokenType)
    ensures k.IsKeyword() && KeywordOf(k) == w
  {
    match w
    case Fn => Function
    case LetKeyword => Let
    case TrueKeyword => True
    case FalseKeyword => False
    case IfKeyword => If
    case ElseKeyword => Else
    case ReturnKeyword => Return
  }

  /** `TokenType(number:)`: always `Int`. */
  function KindOfNumber(s: string): TokenType {
    Int
  }

  /** `Token.makeIdentifier`: the text is kept as the literal. */
  function MakeIdentifier(s: string): (t: Token)
    ensures t.literal == s
    ensures t.kind == Identifier || t.kind.IsKeyword()
  {
    Token(KindOfIdentifier(s), s)
  }

  /** `Token.makeNumber`: kind `Int`, the text kept as the literal. */
  function MakeNumber(s: string): (t: Token)
    ensures t.kind == Int && t.literal == s
  {
    Token(KindOfNumber(s), s)
  }

  /** `Token.makeString`: kind `String`, the text kept as the literal. */
  function MakeString(s: string): (t: Token)
    ensures t.kind == String && t.literal == s
  {
    Token(String, s)
  }

  /** The literal table read backwards: the kind whose fixed literal is
      `s`, if any. */
  function KindOfLiteral(s: string): (k: Option<TokenType>)
    ensures k.Some? ==> !k.value.IsLiteralKind() && Literal(k.value) == s
  {
    if s == "Illegal" then Some(Illegal)
    else if s == "EOF" then Some(Eof)
    else if s == "" then Some(Unknown)
    else if s == "==" then Some(Equal)
    else if s == "!=" then Some(NotEqual)
    else if |s| == 1 && s[0] != '"' && KindOfSymbol(s[0]) != Unknown then Some(KindOfSymbol(s[0]))
    else if s in KeywordSpellings then Some(KindOfIdentifier(s))
    else None
  }

  /** Every keyword is recovered from its spelling. */
  lemma KeywordRawRoundTrip(w: TokenKeyword)
    ensures KeywordFromRaw(KeywordRaw(w)) == Some(w)
  {
  }

  /** Every keyword kind is recovered from its own literal. */
  lemma KeywordRoundTrip(k: TokenType)
    requires k.IsKeyword()
    ensures KindOfIdentifier(Literal(k)) == k
  {
    KeywordRawRoundTrip(KeywordOf(k));
    assert KeywordKind(KeywordOf(k)) == k;
  }

  /** Every one-character symbol kind is recovered from its own literal. */
  lemma SymbolRoundTrip(k: TokenType)
    requires k.IsSingleSymbol()
    ensures |Literal(k)| == 1 && Literal(k)[0] != '"'
    ensures KindOfSymbol(Literal(k)[0]) == k
  {
    SymbolRawRoundTrip(SymbolOf(k));
    assert SymbolKind(SymbolOf(k)) == k;
  }

  /** Every kind with a fixed literal is recovered from that literal. */
  lemma LiteralRoundTrip(k: TokenType)
    requires !k.IsLiteralKind()
    ensures KindOfLiteral(Literal(k)) == Some(k)
  {
    if k.IsSingleSymbol() {
      SymbolRoundTrip(k);
      assert Literal(k) != "" && Literal(k) != "==" && Literal(k) != "!=";
    } else if k.IsKeyword() {
      KeywordRoundTrip(k);
      assert Literal(k) in KeywordSpellings;
    } else {
      match k
      case Illegal =>
      case Eof =>
      case Unknown =>
      case Equal => assert Literal(k) == "==";
      case NotEqual => assert Literal(k) == "!=";
    }
  }

  /** Distinct non-scanned kinds have distinct literals, so the literal
      table can be read backwards. */
  lemma LiteralInjective(k1: TokenType, k2: TokenType)
    requires !k1.IsLiteralKind() && !k2.IsLiteralKind()
    requires Literal(k1) == Literal(k2)
    ensures k1 == k2
  {
    LiteralRoundTrip(k1);
    LiteralRoundTrip(k2);
  }
}
