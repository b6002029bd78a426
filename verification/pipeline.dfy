/** The three stages end to end on small inputs, as the evaluator tests run
    them: lex, parse, evaluate, inspect. */
module Pipeline {
  import opened Results
  import opened Tokens
  import opened Ast
  import opened Lexer
  import opened Parser
  import opened Objects
  import opened Evaluator
  import ParserProperties

  /** Which stage rejected the input. */
  datatype Failure = ParseFailed(parserError: ParserError) | EvaluationFailed(evaluatorError: EvaluatorError)

  /** Lex, parse and evaluate `input`: the value, or the first stage's
      error. */
  function Run(input: string): Result<Object, Failure> {
    match Parse(Lex(input))
    case Err(e) => Err(ParseFailed(e))
    case Ok(p) =>
      match Evaluate(ProgramNode(p))
      case Err(e) => Err(EvaluationFailed(e))
      case Ok(o) => Ok(o)
  }

  /** An input that is one token: the token, then `Eof`. */
  lemma LexSingle(input: string, t: Token)
    requires NextToken(input, 0) == (t, |input|)
    requires t.kind != Eof && t.kind != Illegal
    ensures Lex(input) == [t, Token(Eof, "EOF")]
  {
    assert SkipWhitespace(input, |input|) == |input|;
    TokenizeStops(input, |input|, Token(Eof, "EOF"));
    TokenizeAdvances(input, 0, t, |input|);
  }

  lemma ParseSingle(t: Token, e: Expression)
    requires HasPrefixRule(t.kind)
    requires ParsePrefixOperator([TokenOf(Unknown), t, Token(Eof, "EOF")], 1) == Ok(Parsed(Some(e), 1))
    ensures Parse([t, Token(Eof, "EOF")]) == Ok(Program([ExpressionStatement(t, e)]))
  {
    var stream: TokenStream := [TokenOf(Unknown), t, Token(Eof, "EOF")];
    assert [TokenOf(Unknown)] + [t, Token(Eof, "EOF")] == stream;
    assert At(stream, 0) == TokenOf(Unknown) && At(stream, 1) == t && At(stream, 2).kind == Eof;
    ParserProperties.LoopStops(stream, e, e, 1, Lowest);
    ExpressionStep(stream, e);
    var s := ExpressionStatement(t, e);
    StatementStep(stream, s);
    assert ParseProgram(stream, 2, [s]) == Ok([s]);
    assert ParseStatement(stream, 0) == Ok(Parsed(None, 0));
    assert ParseProgram(stream, 1, []) == ParseProgram(stream, 2, [] + [s]);
    assert [] + [s] == [s];
  }

  lemma ExpressionStep(stream: TokenStream, e: Expression)
    requires ParsePrefixOperator(stream, 1) == Ok(Parsed(Some(e), 1))
    requires ParseInfixLoop(stream, e, e, 1, Lowest) == Ok(Parsed(e, 1))
    ensures ParseExpression(stream, 1, Lowest) == Ok(Parsed(Some(e), 1))
  {
  }

  lemma StatementStep(stream: TokenStream, s: Statement)
    requires HasPrefixRule(At(stream, 1).kind) && At(stream, 2).kind == Eof
    requires s.ExpressionStatement? && s.token == At(stream, 1)
    requires ParseExpression(stream, 1, Lowest) == Ok(Parsed(Some(s.expression), 1))
    ensures ParseStatement(stream, 1) == Ok(Parsed(Some(s), 1))
  {
    assert ParseExpressionStatement(stream, 1) == Ok(Parsed(Some(s), 1));
  }

  /** `5` evaluates to the integer 5, which inspects as "5". */
  lemma IntegerProgram()
    ensures Run("5") == Ok(Integer(5))
    ensures Inspect(Integer(5)) == "5"
  {
    IntegerLexes();
    IntegerParses();
    assert Numerals.DecimalString(5) == "5";
    Numerals.DecimalRoundTrip(5);
  }

  lemma IntegerLexes()
    ensures Lex("5") == [Token(Int, "5"), Token(Eof, "EOF")]
  {
    var input := "5";
    assert ReadWhile(input, 1, Digits) == 1 && ReadWhile(input, 0, Digits) == 1;
    assert input[0..1] == "5";
    assert SkipWhitespace(input, 0) == 0 && ScanToken(input, 0) == (Token(Int, "5"), 1);
    LexSingle(input, Token(Int, "5"));
  }

  lemma IntegerParses()
    ensures Parse([Token(Int, "5"), Token(Eof, "EOF")])
         == Ok(Program([ExpressionStatement(Token(Int, "5"), IntegerLiteral(MakeNumber("5")))]))
  {
    var lit := IntegerLiteral(MakeNumber("5"));
    assert ParsePrefixOperator([TokenOf(Unknown), Token(Int, "5"), Token(Eof, "EOF")], 1) == Ok(Parsed(Some(lit), 1));
    ParseSingle(Token(Int, "5"), lit);
  }

  lemma LexTrue()
    ensures NextToken("true", 0) == (Token(True, "true"), 4)
  {
    var input := "true";
    assert ReadWhile(input, 4, Letters) == 4;
    assert ReadWhile(input, 3, Letters) == 4;
    assert ReadWhile(input, 2, Letters) == 4;
    assert ReadWhile(input, 1, Letters) == 4;
    assert ReadWhile(input, 0, Letters) == 4;
    assert input[0..4] == "true";
    assert KindOfIdentifier("true") == True;
    assert SkipWhitespace(input, 0) == 0;
    assert ScanToken(input, 0) == (Token(True, "true"), 4);
  }

  /** `true` evaluates to the boolean true. */
  lemma BooleanProgram()
    ensures Run("true") == Ok(Boolean(true))
  {
    BooleanLexes();
    BooleanParses();
  }

  lemma BooleanLexes()
    ensures Lex("true") == [Token(True, "true"), Token(Eof, "EOF")]
  {
    LexTrue();
    LexSingle("true", Token(True, "true"));
  }

  lemma BooleanParses()
    ensures Parse([Token(True, "true"), Token(Eof, "EOF")])
         == Ok(Program([ExpressionStatement(Token(True, "true"), BooleanLiteral(Token(True, "true")))]))
  {
    var lit := BooleanLiteral(Token(True, "true"));
    assert ParsePrefixOperator([TokenOf(Unknown), Token(True, "true"), Token(Eof, "EOF")], 1) == Ok(Parsed(Some(lit), 1));
    ParseSingle(Token(True, "true"), lit);
  }

  /** A lone identifier parses but is not something the evaluator knows. */
  lemma IdentifierProgram()
    ensures Run("x") == Err(EvaluationFailed(UnknownNode(ExpressionNode(Ident(Id(Token(Identifier, "x")))))))
  {
    var t := Token(Identifier, "x");
    IdentifierLexes();
    IdentifierParses();
    IdentifierIsUnknown(t);
  }

  lemma IdentifierLexes()
    ensures Lex("x") == [Token(Identifier, "x"), Token(Eof, "EOF")]
  {
    var input := "x";
    assert ReadWhile(input, 1, Letters) == 1 && ReadWhile(input, 0, Letters) == 1;
    assert input[0..1] == "x";
    assert SkipWhitespace(input, 0) == 0 && ScanToken(input, 0) == (Token(Identifier, "x"), 1);
    LexSingle(input, Token(Identifier, "x"));
  }

  lemma IdentifierParses()
    ensures Parse([Token(Identifier, "x"), Token(Eof, "EOF")])
         == Ok(Program([ExpressionStatement(Token(Identifier, "x"), Ident(Id(Token(Identifier, "x"))))]))
  {
    var t := Token(Identifier, "x");
    assert ParsePrefixOperator([TokenOf(Unknown), t, Token(Eof, "EOF")], 1) == Ok(Parsed(Some(Ident(Id(t))), 1));
    ParseSingle(t, Ident(Id(t)));
  }

  /** Empty input has no statements and fails in the parser. */
  lemma EmptyProgram()
    ensures Run("") == Err(ParseFailed(NoValidStatements))
  {
    EndOfInputIsEof("", 0);
    ParserProperties.EmptyInputIsError();
  }
}
