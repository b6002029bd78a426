/** The Pratt parser (Sources/Sema/Parser.swift) as mutually recursive pure
    functions over a token stream and a position.

    The Swift parser keeps `currentToken` and `peekToken` and pulls tokens
    from the lexer one by one. Here the stream is a sequence whose last token
    is `Eof` or `Illegal`, the two tokens the lexer repeats forever once it
    reaches them, so `At` answers the last token for every position past the
    end. A position `pos` stands for "the current token is `At(toks, pos)`";
    the peek token is `At(toks, pos + 1)` and `consumeToken` is `pos + 1`.
    Each parse function returns the position of the current token when the
    Swift function returns: the last token of the construct it read. */
module Parser {
  import opened Results
  import opened Tokens
  import opened Ast

  datatype ParserError =
    | NoValidStatements
    | PeekTokenNotMatch(expected: TokenType, actual: TokenType)
    | ExpressionParsingFailed(token: Token)

  /** The errors a statement or an expression can fail with: only `parse`
      itself reports `NoValidStatements`. */
  type SyntaxError = e: ParserError | !e.NoValidStatements? witness PeekTokenNotMatch(Eof, Eof)

  /** Binding strength, weakest first (Sources/Parser/Constants.swift). */
  datatype PrecedenceKind = Lowest | Equals | LessOrGreater | Sum | Product | Prefix | Call

  function Rank(p: PrecedenceKind): nat {
    match p
    case Lowest => 0
    case Equals => 1
    case LessOrGreater => 2
    case Sum => 3
    case Product => 4
    case Prefix => 5
    case Call => 6
  }

  /** `PrecedenceKind.precedence(for:)`. */
  function PrecedenceOf(k: TokenType): PrecedenceKind {
    match k
    case Equal | NotEqual => Equals
    case LessThan | GreaterThan => LessOrGreater
    case Plus | Minus => Sum
    case Asterisk | Slash => Product
    case LeftParen | LeftBracket => Call
    case _ => Lowest
  }

  /** Token kinds `parsePrefixOperator` has a rule for. */
  predicate HasPrefixRule(k: TokenType) {
    k == Identifier || k == Int || k == String || k == True || k == False ||
    k == Bang || k == Minus || k == LeftParen || k == Function ||
    k == LeftBracket || k == LeftBrace
  }

  /** Token kinds that begin no statement: `parseStatement` yields nothing
      for them. */
  predicate StartsNoStatement(k: TokenType) {
    !HasPrefixRule(k) && k != Let && k != Return && k != If && k != Illegal
  }

  predicate IsStuck(k: TokenType) {
    k == Eof || k == Illegal
  }

  /** A token sequence as the lexer delivers it: it ends with the token the
      lexer then repeats forever. */
  type TokenStream = ts: seq<Token> | |ts| > 0 && IsStuck(ts[|ts| - 1].kind) witness [Token(Eof, "EOF")]

  /** The token at position `i`; past the end, the repeated last token. */
  function At(toks: TokenStream, i: nat): Token
  {
    if i < |toks| then toks[i] else toks[|toks| - 1]
  }

  /** The termination measure: tokens left before the end of the stream. */
  function Remaining(toks: TokenStream, i: nat): nat {
    if i < |toks| then |toks| - i else 0
  }

  /** A parse result: the node and the position of the last token read. */
  datatype Parsed<T> = Parsed(node: T, last: nat)

  type Outcome<T> = Result<Parsed<T>, SyntaxError>

  /** `consumeTokenIf`: advance exactly one token when the peek token has kind
      `kind`, otherwise fail naming the expected and the actual kind. */
  function ConsumeTokenIf(toks: TokenStream, pos: nat, kind: TokenType): (r: Result<nat, SyntaxError>)
    ensures r.Ok? <==> At(toks, pos + 1).kind == kind
    ensures r.Ok? ==> r.value == pos + 1
    ensures r.Err? ==> r.error == PeekTokenNotMatch(kind, At(toks, pos + 1).kind)
  {
    if At(toks, pos + 1).kind == kind then Ok(pos + 1)
    else Err(PeekTokenNotMatch(kind, At(toks, pos + 1).kind))
  }

  /** The optional trailing `;` after a let, return or expression statement. */
  function SkipSemicolon(toks: TokenStream, pos: nat): (q: nat)
    ensures q == pos || q == pos + 1
    ensures q == pos + 1 <==> At(toks, pos + 1).kind == Semicolon
  {
    if At(toks, pos + 1).kind == Semicolon then pos + 1 else pos
  }

  /** Whether the statement loop stops at a token of kind `k`: at `Eof`, and
      inside a block also at `}`. */
  predicate EndsStatements(k: TokenType, inBlock: bool) {
    k == Eof || (inBlock && k == RightBrace)
  }

  /** The first position at or after `pos` where the statement loop either
      stops or finds a token that begins a statement. Every token before it
      begins no statement, so the loop steps over it. */
  function StatementStart(toks: TokenStream, pos: nat, inBlock: bool): (i: nat)
    ensures pos <= i
    ensures EndsStatements(At(toks, i).kind, inBlock) || !StartsNoStatement(At(toks, i).kind)
    decreases Remaining(toks, pos)
  {
    var k := At(toks, pos).kind;
    if EndsStatements(k, inBlock) || !StartsNoStatement(k) then pos
    else StatementStart(toks, pos + 1, inBlock)
  }

  /** Every token the statement loop passes before the statement start
      begins no statement and does not end the loop. */
  lemma {:induction false} SkippedBeforeStart(toks: TokenStream, pos: nat, inBlock: bool, j: nat)
    requires pos <= j < StatementStart(toks, pos, inBlock)
    ensures StartsNoStatement(At(toks, j).kind) && !EndsStatements(At(toks, j).kind, inBlock)
    decreases Remaining(toks, pos)
  {
    if j > pos {
      SkippedBeforeStart(toks, pos + 1, inBlock, j);
    }
  }

  /** Putting the `Unknown` start token in front of a stream moves every
      statement start one position on. */
  lemma {:induction false} StatementStartShift(toks: TokenStream, pos: nat, inBlock: bool)
    ensures StatementStart([TokenOf(Unknown)] + toks, pos + 1, inBlock) == StatementStart(toks, pos, inBlock) + 1
    ensures At([TokenOf(Unknown)] + toks, StatementStart([TokenOf(Unknown)] + toks, pos + 1, inBlock))
         == At(toks, StatementStart(toks, pos, inBlock))
    decreases Remaining(toks, pos)
  {
    var stream: TokenStream := [TokenOf(Unknown)] + toks;
    assert At(stream, pos + 1) == At(toks, pos);
    var k := At(toks, pos).kind;
    if !EndsStatements(k, inBlock) && StartsNoStatement(k) {
      assert pos < |toks| - 1;
      StatementStartShift(toks, pos + 1, inBlock);
      assert StatementStart(stream, pos + 1, inBlock) == StatementStart(stream, pos + 2, inBlock);
    } else {
      assert StatementStart(stream, pos + 1, inBlock) == pos + 1;
    }
  }

  /** `parse`: statements in source order until `Eof`; `NoValidStatements`
      exactly when every token before `Eof` begins no statement. The Swift
      parser starts with the `Unknown` token as its current token and the
      first lexed token as its peek. */
  function Parse(toks: TokenStream): (r: Result<Program, ParserError>)
    ensures r.Ok? ==> |r.value.statements| > 0
    ensures r == Err(NoValidStatements) <==> At(toks, StatementStart(toks, 0, false)).kind == Eof
    ensures r.Ok? ==> !r.value.statements[0].BlockStatement? &&
                      r.value.statements[0].token == At(toks, StatementStart(toks, 0, false))
  {
    StatementStartShift(toks, 0, false);
    var stream: TokenStream := [TokenOf(Unknown)] + toks;
    var statements :- ParseProgram(stream, 0, []);
    if |statements| == 0 then Err(NoValidStatements) else Ok(Program(statements))
  }

  /** The loop of `parse`: parse a statement at the current token, keep it if
      one was produced, step past its last token, until the current token
      is `Eof`. */
  function ParseProgram(toks: TokenStream, pos: nat, acc: seq<Statement>): (r: Result<seq<Statement>, SyntaxError>)
    ensures r.Ok? ==> acc <= r.value
    ensures At(toks, StatementStart(toks, pos, false)).kind == Eof ==> r == Ok(acc)
    ensures r.Ok? && |r.value| == |acc| ==> At(toks, StatementStart(toks, pos, false)).kind == Eof
    ensures r.Ok? && |r.value| > |acc| ==>
              !r.value[|acc|].BlockStatement? && r.value[|acc|].token == At(toks, StatementStart(toks, pos, false))
    decreases Remaining(toks, pos)
  {
    if At(toks, pos).kind == Eof then Ok(acc)
    else
      var s :- ParseStatement(toks, pos);
      ParseProgram(toks, s.last + 1, if s.node.Some? then acc + [s.node.value] else acc)
  }

  /** `parseStatement`: dispatch on the current token. */
  function ParseStatement(toks: TokenStream, pos: nat): (r: Outcome<Option<Statement>>)
    ensures r.Ok? ==> r.value.last >= pos
    ensures At(toks, pos).kind == Illegal ==> r == Err(ExpressionParsingFailed(At(toks, pos)))
    ensures r.Ok? && r.value.node.Some? ==>
              !r.value.node.value.BlockStatement? && r.value.node.value.token == At(toks, pos)
    ensures StartsNoStatement(At(toks, pos).kind) ==> r == Ok(Parsed(None, pos))
    ensures r.Ok? && r.value.node.None? ==> StartsNoStatement(At(toks, pos).kind)
    decreases Remaining(toks, pos), 8
  {
    var k := At(toks, pos).kind;
    if k == Let then Present(ParseLetStatement(toks, pos))
    else if k == Return then Present(ParseReturnStatement(toks, pos))
    else if k == If then Present(ParseIfStatement(toks, pos))
    else if k == Illegal then Err(ExpressionParsingFailed(At(toks, pos)))
    else ParseExpressionStatement(toks, pos)
  }

  /** `let <identifier> = <expression>` with an optional `;`. */
  function ParseLetStatement(toks: TokenStream, pos: nat): (r: Outcome<Statement>)
    requires At(toks, pos).kind == Let
    ensures r.Ok? ==> r.value.last >= pos
    ensures r.Ok? ==> r.value.node.LetStatement? && r.value.node.token == At(toks, pos) &&
                      r.value.node.name == Id(At(toks, pos + 1)) &&
                      At(toks, pos + 1).kind == Identifier && At(toks, pos + 2).kind == Assign
    ensures At(toks, pos + 1).kind != Identifier ==> r == Err(PeekTokenNotMatch(Identifier, At(toks, pos + 1).kind))
    ensures At(toks, pos + 1).kind == Identifier && At(toks, pos + 2).kind != Assign ==>
              r == Err(PeekTokenNotMatch(Assign, At(toks, pos + 2).kind))
    decreases Remaining(toks, pos), 7
  {
    var letToken := At(toks, pos);
    var nameAt :- ConsumeTokenIf(toks, pos, Identifier);
    var name := Id(At(toks, nameAt));
    var assignAt :- ConsumeTokenIf(toks, nameAt, Assign);
    var value :- ParseExpression(toks, assignAt + 1, Lowest);
    match value.node
    case None => Err(ExpressionParsingFailed(At(toks, assignAt + 1)))
    case Some(v) => Ok(Parsed(LetStatement(letToken, name, v), SkipSemicolon(toks, value.last)))
  }

  /** `return <expression>` with an optional `;`. */
  function ParseReturnStatement(toks: TokenStream, pos: nat): (r: Outcome<Statement>)
    requires At(toks, pos).kind == Return
    ensures r.Ok? ==> r.value.last >= pos
    ensures r.Ok? ==> r.value.node.ReturnStatement? && r.value.node.token == At(toks, pos)
    ensures !HasPrefixRule(At(toks, pos + 1).kind) ==> r == Err(ExpressionParsingFailed(At(toks, pos + 1)))
    decreases Remaining(toks, pos), 7
  {
    var returnToken := At(toks, pos);
    var value :- ParseExpression(toks, pos + 1, Lowest);
    match value.node
    case None => Err(ExpressionParsingFailed(At(toks, pos + 1)))
    case Some(v) => Ok(Parsed(ReturnStatement(returnToken, v), SkipSemicolon(toks, value.last)))
  }

  /** `if (<condition>) { ... }` with an optional `else { ... }`. */
  function ParseIfStatement(toks: TokenStream, pos: nat): (r: Outcome<Statement>)
    requires At(toks, pos).kind == If
    ensures r.Ok? ==> r.value.last >= pos
    ensures r.Ok? ==> r.value.node.IfStatement? && r.value.node.token == At(toks, pos)
    ensures At(toks, pos + 1).kind != LeftParen ==> r == Err(PeekTokenNotMatch(LeftParen, At(toks, pos + 1).kind))
    decreases Remaining(toks, pos), 7
  {
    var ifToken := At(toks, pos);
    var open :- ConsumeTokenIf(toks, pos, LeftParen);
    var condition :- ParseExpression(toks, open + 1, Lowest);
    match condition.node
    case None => Err(ExpressionParsingFailed(At(toks, open + 1)))
    case Some(c) =>
      var close :- ConsumeTokenIf(toks, condition.last, RightParen);
      var brace :- ConsumeTokenIf(toks, close, LeftBrace);
      ParseIfBlocks(toks, ifToken, c, brace)
  }

  /** The blocks of an if statement, from the `{` after its condition: the
      consequence, and after an `else` the `{`-block of the alternative. */
  function ParseIfBlocks(toks: TokenStream, ifToken: Token, c: Expression, brace: nat): (r: Outcome<Statement>)
    requires At(toks, brace).kind == LeftBrace
    ensures r.Ok? ==> r.value.last > brace
    ensures r.Ok? ==> r.value.node.IfStatement? && r.value.node.token == ifToken && r.value.node.condition == c
    decreases Remaining(toks, brace), 1
  {
    var consequence :- ParseBlockStatement(toks, brace);
    if At(toks, consequence.last + 1).kind == Else then
      var elseBrace :- ConsumeTokenIf(toks, consequence.last + 1, LeftBrace);
      var alternative :- ParseBlockStatement(toks, elseBrace);
      Ok(Parsed(IfStatement(ifToken, c, consequence.node, Some(alternative.node)), alternative.last))
    else
      Ok(Parsed(IfStatement(ifToken, c, consequence.node, None), consequence.last))
  }

  /** An expression statement; none when the current token starts no
      expression. */
  function ParseExpressionStatement(toks: TokenStream, pos: nat): (r: Outcome<Option<Statement>>)
    ensures r.Ok? ==> r.value.last >= pos
    ensures r.Ok? && r.value.node.Some? ==>
              r.value.node.value.ExpressionStatement? && r.value.node.value.token == At(toks, pos)
    ensures r == Ok(Parsed(None, pos)) <==> !HasPrefixRule(At(toks, pos).kind)
    ensures r.Ok? && r.value.node.None? ==> r.value.last == pos
    decreases Remaining(toks, pos), 7
  {
    var token := At(toks, pos);
    var e :- ParseExpression(toks, pos, Lowest);
    match e.node
    case None => Ok(Parsed(None, pos))
    case Some(x) => Ok(Parsed(Some(ExpressionStatement(token, x)), SkipSemicolon(toks, e.last)))
  }

  /** `parseBlockStatement`, standing on `{`: statements until `}` or `Eof`. */
  function ParseBlockStatement(toks: TokenStream, pos: nat): (r: Outcome<Block>)
    requires At(toks, pos).kind == LeftBrace
    ensures r.Ok? ==> r.value.last > pos
    ensures r.Ok? ==> r.value.node.token == At(toks, pos)
    ensures r.Ok? ==> At(toks, r.value.last).kind == RightBrace || At(toks, r.value.last).kind == Eof
    decreases Remaining(toks, pos), 0
  {
    var statements :- ParseBlockStatements(toks, pos + 1, []);
    Ok(Parsed(Block(At(toks, pos), statements.node), statements.last))
  }

  function ParseBlockStatements(toks: TokenStream, pos: nat, acc: seq<Statement>): (r: Outcome<seq<Statement>>)
    ensures r.Ok? ==> r.value.last >= pos && acc <= r.value.node
    ensures r.Ok? ==> At(toks, r.value.last).kind == RightBrace || At(toks, r.value.last).kind == Eof
    decreases Remaining(toks, pos), 9
  {
    if At(toks, pos).kind == RightBrace || At(toks, pos).kind == Eof then Ok(Parsed(acc, pos))
    else
      var s :- ParseStatement(toks, pos);
      ParseBlockStatements(toks, s.last + 1, if s.node.Some? then acc + [s.node.value] else acc)
  }

  /** `parseExpression(for:)`: a prefix rule for the current token, then infix
      rules while the peek token is not `;` and binds more tightly than
      `precedence`. None when the current token has no prefix rule. */
  function ParseExpression(toks: TokenStream, pos: nat, precedence: PrecedenceKind): (r: Outcome<Option<Expression>>)
    ensures r.Ok? ==> r.value.last >= pos
    ensures r.Ok? && r.value.node.None? ==> r.value.last == pos
    ensures r == Ok(Parsed(None, pos)) <==> !HasPrefixRule(At(toks, pos).kind)
    decreases Remaining(toks, pos), 6
  {
    var left :- ParsePrefixOperator(toks, pos);
    match left.node
    case None => Ok(Parsed(None, pos))
    case Some(l) =>
      var e :- ParseInfixLoop(toks, l, l, left.last, precedence);
      Ok(Parsed(Some(e.node), e.last))
  }

  /** The loop of `parseExpression`. `origin` is the prefix expression the
      loop started from: the Swift loop returns it when the peek token binds
      tightly but has no infix rule (no token kind does). */
  function ParseInfixLoop(toks: TokenStream, origin: Expression, left: Expression, pos: nat, precedence: PrecedenceKind): (r: Outcome<Expression>)
    ensures r.Ok? ==> r.value.last >= pos
    decreases Remaining(toks, pos), 5
  {
    var peek := At(toks, pos + 1);
    if peek.kind != Semicolon && Rank(precedence) < Rank(PrecedenceOf(peek.kind)) then
      var next :- ParseInfixOperator(toks, left, pos);
      match next.node
      case None => Ok(Parsed(origin, pos))
      case Some(e) => ParseInfixLoop(toks, origin, e, next.last, precedence)
    else Ok(Parsed(left, pos))
  }

  /** Token kinds with an infix rule that builds an `InfixExpression`. */
  predicate IsBinaryOperator(k: TokenType) {
    k == Plus || k == Minus || k == Slash || k == Asterisk ||
    k == Equal || k == NotEqual || k == LessThan || k == GreaterThan
  }

  /** A parse result with its node marked present. */
  function Present<T>(r: Outcome<T>): Outcome<Option<T>> {
    match r
    case Ok(p) => Ok(Parsed(Some(p.node), p.last))
    case Err(e) => Err(e)
  }

  /** `parseInfixOperator(with:)`: the infix rule of the peek token, entered
      on that token; None when the peek token has none. */
  function ParseInfixOperator(toks: TokenStream, left: Expression, pos: nat): (r: Outcome<Option<Expression>>)
    ensures r.Ok? && r.value.node.Some? ==> r.value.last > pos
    ensures r.Ok? && r.value.node.None? ==> r.value.last == pos
    decreases Remaining(toks, pos), 4
  {
    var k := At(toks, pos + 1).kind;
    if IsBinaryOperator(k) then Present(ParseInfixExpression(toks, left, pos + 1))
    else if k == LeftParen then Present(ParseCallExpression(toks, left, pos + 1))
    else if k == LeftBracket then Present(ParseIndexExpression(toks, left, pos + 1))
    else Ok(Parsed(None, pos))
  }

  /** `parseInfixExpression(with:)`, standing on the operator: the right
      operand is read at the operator's own precedence. */
  function ParseInfixExpression(toks: TokenStream, left: Expression, pos: nat): (r: Outcome<Expression>)
    requires IsBinaryOperator(At(toks, pos).kind)
    ensures r.Ok? ==> r.value.last > pos
    decreases Remaining(toks, pos), 0
  {
    var operator := At(toks, pos);
    var right :- ParseExpression(toks, pos + 1, PrecedenceOf(operator.kind));
    match right.node
    case None => Err(ExpressionParsingFailed(At(toks, pos + 1)))
    case Some(x) => Ok(Parsed(InfixExpression(operator, left, x), right.last))
  }

  /** `parseCallExpression(with:)`, standing on `(`: the node carries the
      token the parser stands on after the arguments, the `)`. */
  function ParseCallExpression(toks: TokenStream, left: Expression, pos: nat): (r: Outcome<Expression>)
    requires At(toks, pos).kind == LeftParen
    ensures r.Ok? ==> r.value.last > pos
    decreases Remaining(toks, pos), 4
  {
    var arguments :- ParseExpressionList(toks, pos, RightParen);
    Ok(Parsed(CallExpression(At(toks, arguments.last), left, arguments.node), arguments.last))
  }

  /** `parseIndexExpression(with:)`, standing on `[`. */
  function ParseIndexExpression(toks: TokenStream, left: Expression, pos: nat): (r: Outcome<Expression>)
    requires At(toks, pos).kind == LeftBracket
    ensures r.Ok? ==> r.value.last > pos && At(toks, r.value.last).kind == RightBracket
    decreases Remaining(toks, pos), 0
  {
    var index :- ParseExpression(toks, pos + 1, Lowest);
    match index.node
    case None => Err(ExpressionParsingFailed(At(toks, pos + 1)))
    case Some(x) =>
      var close :- ConsumeTokenIf(toks, index.last, RightBracket);
      Ok(Parsed(IndexExpression(At(toks, pos), left, x), close))
  }

  /** `parsePrefixOperator`: the prefix rule of the current token, if any. */
  function ParsePrefixOperator(toks: TokenStream, pos: nat): (r: Outcome<Option<Expression>>)
    ensures r.Ok? ==> r.value.last >= pos
    ensures r.Ok? && r.value.node.None? ==> r.value.last == pos
    ensures r == Ok(Parsed(None, pos)) <==> !HasPrefixRule(At(toks, pos).kind)
    decreases Remaining(toks, pos), 5
  {
    var t := At(toks, pos);
    var k := t.kind;
    if k == Identifier then Ok(Parsed(Some(Ident(Id(t))), pos))
    else if k == Int then Ok(Parsed(Some(IntegerLiteral(MakeNumber(t.literal))), pos))
    else if k == String then Ok(Parsed(Some(StringLiteral(MakeString(t.literal))), pos))
    else if k == True || k == False then Ok(Parsed(Some(BooleanLiteral(t)), pos))
    else if k == Bang || k == Minus then Present(ParsePrefixExpression(toks, pos))
    else if k == LeftParen then Present(ParseGroupedExpression(toks, pos))
    else if k == Function then Present(ParseFunctionLiteral(toks, pos))
    else if k == LeftBracket then Present(ParseArrayLiteral(toks, pos))
    else if k == LeftBrace then Present(ParseDictionaryLiteral(toks, pos))
    else Ok(Parsed(None, pos))
  }

  /** `parsePrefixExpression`, standing on `!` or `-`: the operand is read
      at prefix precedence and the node is built with the token the parser
      stands on after the operand. */
  function ParsePrefixExpression(toks: TokenStream, pos: nat): (r: Outcome<Expression>)
    requires At(toks, pos).kind == Bang || At(toks, pos).kind == Minus
    ensures r.Ok? ==> r.value.last > pos
    decreases Remaining(toks, pos), 0
  {
    var right :- ParseExpression(toks, pos + 1, Prefix);
    match right.node
    case None => Err(ExpressionParsingFailed(At(toks, pos + 1)))
    case Some(x) => Ok(Parsed(PrefixExpression(At(toks, right.last), At(toks, pos).literal, x), right.last))
  }

  /** `parseGroupedExpression`, standing on `(`: the inner expression itself,
      ending on the `)`. */
  function ParseGroupedExpression(toks: TokenStream, pos: nat): (r: Outcome<Expression>)
    requires At(toks, pos).kind == LeftParen
    ensures r.Ok? ==> r.value.last > pos && At(toks, r.value.last).kind == RightParen
    decreases Remaining(toks, pos), 0
  {
    var inner :- ParseExpression(toks, pos + 1, Lowest);
    match inner.node
    case None => Err(ExpressionParsingFailed(At(toks, pos + 1)))
    case Some(x) =>
      var close :- ConsumeTokenIf(toks, inner.last, RightParen);
      Ok(Parsed(x, close))
  }

  /** `parseFunctionLiteral`, standing on `fn`: `(`, the parameters, `{` and
      the body block. */
  function ParseFunctionLiteral(toks: TokenStream, pos: nat): (r: Outcome<Expression>)
    requires At(toks, pos).kind == Function
    ensures r.Ok? ==> r.value.last > pos && (At(toks, r.value.last).kind == RightBrace || At(toks, r.value.last).kind == Eof)
    decreases Remaining(toks, pos), 0
  {
    var open :- ConsumeTokenIf(toks, pos, LeftParen);
    var parameters :- ParseFunctionParameters(toks, open);
    var brace :- ConsumeTokenIf(toks, parameters.last, LeftBrace);
    var body :- ParseBlockStatement(toks, brace);
    Ok(Parsed(FunctionLiteral(At(toks, pos), parameters.node, body.node), body.last))
  }

  /** `parseArrayLiteral`, standing on `[`. */
  function ParseArrayLiteral(toks: TokenStream, pos: nat): (r: Outcome<Expression>)
    requires At(toks, pos).kind == LeftBracket
    ensures r.Ok? ==> r.value.last > pos && At(toks, r.value.last).kind == RightBracket
    decreases Remaining(toks, pos), 4
  {
    var elements :- ParseExpressionList(toks, pos, RightBracket);
    Ok(Parsed(ArrayLiteral(At(toks, pos), elements.node), elements.last))
  }

  /** `parseDictionaryLiteral`, standing on `{`: the pairs, then `}`. */
  function ParseDictionaryLiteral(toks: TokenStream, pos: nat): (r: Outcome<Expression>)
    requires At(toks, pos).kind == LeftBrace
    ensures r.Ok? ==> r.value.last > pos && At(toks, r.value.last).kind == RightBrace
    decreases Remaining(toks, pos), 4
  {
    var pairs :- ParseHashPairs(toks, pos, []);
    // The pair loop only stops when the peek token is `}`, so the closing
    // `consumeTokenIf(.rightBrace)` always succeeds and moves one token on.
    Ok(Parsed(HashLiteral(At(toks, pos), pairs.node), pairs.last + 1))
  }

  /** `parseExpressionList(until:)`, standing on `(` or `[`: empty when the
      peek token is the terminator, otherwise comma-separated expressions
      followed by the terminator. */
  function ParseExpressionList(toks: TokenStream, pos: nat, end: TokenType): (r: Outcome<seq<Expression>>)
    requires At(toks, pos).kind == LeftParen || At(toks, pos).kind == LeftBracket
    ensures r.Ok? ==> r.value.last > pos && At(toks, r.value.last).kind == end
    ensures At(toks, pos + 1).kind == end ==> r == Ok(Parsed([], pos + 1))
    decreases Remaining(toks, pos), 3
  {
    if At(toks, pos + 1).kind == end then Ok(Parsed([], pos + 1))
    else
      var first :- ParseExpression(toks, pos + 1, Lowest);
      match first.node
      case None => Err(ExpressionParsingFailed(At(toks, pos + 1)))
      case Some(x) =>
        var all :- ParseListTail(toks, [x], first.last);
        var close :- ConsumeTokenIf(toks, all.last, end);
        Ok(Parsed(all.node, close))
  }

  /** The `while isPeekToken(.comma)` loop of `parseExpressionList`. */
  function ParseListTail(toks: TokenStream, acc: seq<Expression>, pos: nat): (r: Outcome<seq<Expression>>)
    ensures r.Ok? ==> r.value.last >= pos && acc <= r.value.node
    ensures r.Ok? ==> At(toks, r.value.last + 1).kind != Comma
    decreases Remaining(toks, pos), 3
  {
    if At(toks, pos + 1).kind == Comma then
      var next :- ParseExpression(toks, pos + 2, Lowest);
      match next.node
      case None => Err(ExpressionParsingFailed(At(toks, pos + 2)))
      case Some(x) => ParseListTail(toks, acc + [x], next.last)
    else Ok(Parsed(acc, pos))
  }

  /** The pair loop of `parseDictionaryLiteral`, standing on `{` or on the
      `,` after a pair: `key : value` pairs in source order, a comma between
      pairs unless the peek token is `}`. When a pair is followed by `}` the
      Swift loop re-tests its condition and stops; here that test is folded
      into the pair step. */
  function ParseHashPairs(toks: TokenStream, pos: nat, acc: seq<HashPair>): (r: Outcome<seq<HashPair>>)
    requires At(toks, pos).kind == LeftBrace || At(toks, pos).kind == Comma
    ensures r.Ok? ==> r.value.last >= pos && acc <= r.value.node
    ensures r.Ok? ==> At(toks, r.value.last + 1).kind == RightBrace
    decreases Remaining(toks, pos), 3
  {
    if At(toks, pos + 1).kind == RightBrace then Ok(Parsed(acc, pos))
    else
      var pair :- ParseHashPair(toks, pos);
      var pairs := acc + [pair.node];
      if At(toks, pair.last + 1).kind != RightBrace then
        var comma :- ConsumeTokenIf(toks, pair.last, Comma);
        ParseHashPairs(toks, comma, pairs)
      else Ok(Parsed(pairs, pair.last))
  }

  /** One `key : value` pair of the loop, from the token after `pos`; the
      pair ends on the value's last token. */
  function ParseHashPair(toks: TokenStream, pos: nat): (r: Outcome<HashPair>)
    requires At(toks, pos).kind == LeftBrace || At(toks, pos).kind == Comma
    ensures r.Ok? ==> r.value.last > pos + 1
    ensures !HasPrefixRule(At(toks, pos + 1).kind) ==> r == Err(ExpressionParsingFailed(At(toks, pos + 1)))
    decreases Remaining(toks, pos), 2
  {
    var key :- ParseExpression(toks, pos + 1, Lowest);
    match key.node
    case None => Err(ExpressionParsingFailed(At(toks, pos + 1)))
    case Some(k) =>
      var colon :- ConsumeTokenIf(toks, key.last, Colon);
      var value :- ParseExpression(toks, colon + 1, Lowest);
      match value.node
      case None => Err(ExpressionParsingFailed(At(toks, colon + 1)))
      case Some(v) => Ok(Parsed(HashPair(k, v), value.last))
  }

  /** The identifiers made from the `n` tokens at `from`, `from + 2`, ...:
      the parameters, read from every other token. */
  function EveryOther(toks: TokenStream, from: nat, n: nat): (ids: seq<Identifier>)
    ensures |ids| == n
    ensures forall i :: 0 <= i < n ==> ids[i] == Id(At(toks, from + 2 * i))
    decreases n
  {
    if n == 0 then [] else [Id(At(toks, from))] + EveryOther(toks, from + 2, n - 1)
  }

  /** The `n` tokens at `from`, `from + 2`, ... are commas. */
  predicate CommasAt(toks: TokenStream, from: nat, n: nat)
    decreases n
  {
    n == 0 || (At(toks, from).kind == Comma && CommasAt(toks, from + 2, n - 1))
  }

  /** `parseFunctionParameters`, standing on `(`: the tokens between the
      parentheses at even offsets become parameters, whatever their kind. */
  function ParseFunctionParameters(toks: TokenStream, pos: nat): (r: Outcome<seq<Identifier>>)
    requires At(toks, pos).kind == LeftParen
    ensures r.Ok? ==> r.value.last > pos && At(toks, r.value.last).kind == RightParen
    ensures At(toks, pos + 1).kind == RightParen ==> r == Ok(Parsed([], pos + 1))
    ensures r.Ok? && At(toks, pos + 1).kind != RightParen ==>
              var n := |r.value.node|;
              n > 0 && r.value.last == pos + 2 * n &&
              r.value.node == EveryOther(toks, pos + 1, n) && CommasAt(toks, pos + 2, n - 1)
    ensures r.Err? ==> r.error.PeekTokenNotMatch? && r.error.expected == RightParen && r.error.actual != Comma
  {
    if At(toks, pos + 1).kind == RightParen then Ok(Parsed([], pos + 1))
    else
      var ids := ParameterTail(toks, [Id(At(toks, pos + 1))], pos + 1);
      var close :- ConsumeTokenIf(toks, ids.last, RightParen);
      Ok(Parsed(ids.node, close))
  }

  /** The `while isPeekToken(.comma)` loop of `parseFunctionParameters`:
      after each comma the next token becomes a parameter. */
  function ParameterTail(toks: TokenStream, acc: seq<Identifier>, pos: nat): (r: Parsed<seq<Identifier>>)
    ensures At(toks, r.last + 1).kind != Comma
    ensures var n := |r.node| - |acc|;
            n >= 0 && r.last == pos + 2 * n &&
            r.node == acc + EveryOther(toks, pos + 2, n) && CommasAt(toks, pos + 1, n)
    decreases Remaining(toks, pos)
  {
    if At(toks, pos + 1).kind == Comma then
      var r := ParameterTail(toks, acc + [Id(At(toks, pos + 2))], pos + 2);
      assert acc + [Id(At(toks, pos + 2))] + EveryOther(toks, pos + 4, |r.node| - |acc| - 1)
          == acc + EveryOther(toks, pos + 2, |r.node| - |acc|);
      r
    else Parsed(acc, pos)
  }
}
