/** Properties of statement parsing: what the statement loops of `parse`
    and `parseBlockStatement` collect, and the parts of let, return and if
    statements and of function literals, each stated for whatever the
    sub-parsers read. */
module StatementProperties {
  import opened Results
  import opened Tokens
  import opened Ast
  import opened Parser
  import ParserProperties

  /** At a token that begins a statement the loop of `parse` appends the
      statement parsed there and goes on after it. */
  lemma {:induction false} ProgramTakes(toks: TokenStream, pos: nat, acc: seq<Statement>)
    requires !StartsNoStatement(At(toks, pos).kind) && At(toks, pos).kind != Eof
    ensures ParseProgram(toks, pos, acc) ==
            match ParseStatement(toks, pos)
            case Err(e) => Err(e)
            case Ok(s) => ParseProgram(toks, s.last + 1, acc + [s.node.value])
  {
  }

  /** The loop of `parse` steps over every token before the next statement
      start and resumes there with nothing added. */
  lemma {:induction false} ProgramSkipsToStart(toks: TokenStream, pos: nat, acc: seq<Statement>)
    ensures ParseProgram(toks, pos, acc) == ParseProgram(toks, StatementStart(toks, pos, false), acc)
    decreases Remaining(toks, pos)
  {
    var k := At(toks, pos).kind;
    if !EndsStatements(k, false) && StartsNoStatement(k) {
      assert StatementStart(toks, pos, false) == StatementStart(toks, pos + 1, false);
      ParserProperties.SkippableTokenIsSkipped(toks, pos, acc);
      ProgramSkipsToStart(toks, pos + 1, acc);
    } else {
      assert StatementStart(toks, pos, false) == pos;
    }
  }

  /** The loop of `parse`, from any position that does not stand at the end
      of the input, goes to the next token that begins a statement, appends
      the statement parsed there and goes on after its last token, or fails
      with that statement's error. */
  lemma {:induction false} ProgramTakesNext(toks: TokenStream, pos: nat, acc: seq<Statement>)
    requires At(toks, StatementStart(toks, pos, false)).kind != Eof
    ensures ParseProgram(toks, pos, acc) ==
            match ParseStatement(toks, StatementStart(toks, pos, false))
            case Err(e) => Err(e)
            case Ok(s) => ParseProgram(toks, s.last + 1, acc + [s.node.value])
  {
    ProgramSkipsToStart(toks, pos, acc);
    ProgramTakes(toks, StatementStart(toks, pos, false), acc);
  }

  /** A token that begins no statement and does not end the block is
      stepped over by the loop of `parseBlockStatement`. */
  lemma {:induction false} BlockSkips(toks: TokenStream, pos: nat, acc: seq<Statement>)
    requires StartsNoStatement(At(toks, pos).kind) && !EndsStatements(At(toks, pos).kind, true)
    ensures ParseBlockStatements(toks, pos, acc) == ParseBlockStatements(toks, pos + 1, acc)
  {
    assert ParseStatement(toks, pos) == Ok(Parsed(None, pos));
  }

  /** At a token that begins a statement the loop of `parseBlockStatement`
      appends the statement parsed there and goes on after it. */
  lemma {:induction false} BlockTakes(toks: TokenStream, pos: nat, acc: seq<Statement>)
    requires !StartsNoStatement(At(toks, pos).kind) && !EndsStatements(At(toks, pos).kind, true)
    ensures ParseBlockStatements(toks, pos, acc) ==
            match ParseStatement(toks, pos)
            case Err(e) => Err(e)
            case Ok(s) => ParseBlockStatements(toks, s.last + 1, acc + [s.node.value])
  {
  }

  /** The loop of `parseBlockStatement` stops at once, keeping what it has,
      when the next statement start is `}` or the end of the input; it adds
      nothing only when it stops there; and the first statement it adds
      comes from that start. */
  lemma {:induction false} BlockLoopAtStart(toks: TokenStream, pos: nat, acc: seq<Statement>)
    ensures var i := StatementStart(toks, pos, true);
            EndsStatements(At(toks, i).kind, true) ==> ParseBlockStatements(toks, pos, acc) == Ok(Parsed(acc, i))
    ensures var r := ParseBlockStatements(toks, pos, acc);
            r.Ok? && |r.value.node| == |acc| ==> r.value.last == StatementStart(toks, pos, true)
    ensures var r := ParseBlockStatements(toks, pos, acc);
            r.Ok? && |r.value.node| > |acc| ==>
              !r.value.node[|acc|].BlockStatement? && r.value.node[|acc|].token == At(toks, StatementStart(toks, pos, true))
    decreases Remaining(toks, pos)
  {
    var k := At(toks, pos).kind;
    if !EndsStatements(k, true) {
      if StartsNoStatement(k) {
        BlockSkips(toks, pos, acc);
        BlockLoopAtStart(toks, pos + 1, acc);
      } else {
        match ParseStatement(toks, pos)
        case Err(_) =>
        case Ok(s) =>
          assert StatementStart(toks, pos, true) == pos;
          BlockLoopAtStart(toks, s.last + 1, acc + [s.node.value]);
      }
    }
  }

  /** The loop of `parseBlockStatement` steps over every token before the
      next statement start and resumes there with nothing added. */
  lemma {:induction false} BlockSkipsToStart(toks: TokenStream, pos: nat, acc: seq<Statement>)
    ensures ParseBlockStatements(toks, pos, acc) == ParseBlockStatements(toks, StatementStart(toks, pos, true), acc)
    decreases Remaining(toks, pos)
  {
    var k := At(toks, pos).kind;
    if !EndsStatements(k, true) && StartsNoStatement(k) {
      assert StatementStart(toks, pos, true) == StatementStart(toks, pos + 1, true);
      BlockSkips(toks, pos, acc);
      BlockSkipsToStart(toks, pos + 1, acc);
    } else {
      assert StatementStart(toks, pos, true) == pos;
    }
  }

  /** The loop of `parseBlockStatement`, likewise: from any position whose
      next statement start is neither `}` nor the end of the input, it
      appends the statement parsed there and goes on after its last token,
      or fails with that statement's error. */
  lemma {:induction false} BlockTakesNext(toks: TokenStream, pos: nat, acc: seq<Statement>)
    requires !EndsStatements(At(toks, StatementStart(toks, pos, true)).kind, true)
    ensures ParseBlockStatements(toks, pos, acc) ==
            match ParseStatement(toks, StatementStart(toks, pos, true))
            case Err(e) => Err(e)
            case Ok(s) => ParseBlockStatements(toks, s.last + 1, acc + [s.node.value])
  {
    BlockSkipsToStart(toks, pos, acc);
    BlockTakes(toks, StatementStart(toks, pos, true), acc);
  }

  /** A block, standing on `{`, is empty and ends on the `}` (or `Eof`)
      when only tokens that begin no statement come before it; it is empty
      only then; and its first statement is the one that starts at the
      first token after the `{` that begins a statement. */
  lemma {:induction false} BlockHoldsStatements(toks: TokenStream, pos: nat)
    requires At(toks, pos).kind == LeftBrace
    ensures var i := StatementStart(toks, pos + 1, true);
            EndsStatements(At(toks, i).kind, true) ==>
              ParseBlockStatement(toks, pos) == Ok(Parsed(Block(At(toks, pos), []), i))
    ensures var r := ParseBlockStatement(toks, pos);
            r.Ok? && |r.value.node.statements| == 0 ==> r.value.last == StatementStart(toks, pos + 1, true)
    ensures var r := ParseBlockStatement(toks, pos);
            r.Ok? && |r.value.node.statements| > 0 ==>
              !r.value.node.statements[0].BlockStatement? &&
              r.value.node.statements[0].token == At(toks, StatementStart(toks, pos + 1, true))
  {
    BlockLoopAtStart(toks, pos + 1, []);
  }

  /** `Program.tokenLiteral` of a parsed program is the literal of the
      first token that begins a statement. */
  lemma ProgramTokenLiteralIsFirstStart(toks: TokenStream, p: Program)
    requires Parse(toks) == Ok(p)
    ensures ProgramTokenLiteral(p) == At(toks, StatementStart(toks, 0, false)).literal
  {
  }

  /** `let name = value`: a let statement binding the identifier after
      `let` to a value is read exactly when `=` follows the identifier and
      the value is the expression after `=`; a `;` right after the value is
      taken in. */
  lemma {:induction false} LetExactly(toks: TokenStream, pos: nat, value: Expression, last: nat)
    requires At(toks, pos).kind == Let
    ensures ParseLetStatement(toks, pos) == Ok(Parsed(LetStatement(At(toks, pos), Id(At(toks, pos + 1)), value), last))
        <==> At(toks, pos + 1).kind == Identifier && At(toks, pos + 2).kind == Assign &&
             var e := ParseExpression(toks, pos + 3, Lowest);
             e.Ok? && e.value.node == Some(value) && last == SkipSemicolon(toks, e.value.last)
  {
  }

  /** `let name =` followed by a token that starts no expression fails on
      that token. */
  lemma {:induction false} LetNeedsValue(toks: TokenStream, pos: nat)
    requires At(toks, pos).kind == Let && At(toks, pos + 1).kind == Identifier && At(toks, pos + 2).kind == Assign
    requires !HasPrefixRule(At(toks, pos + 3).kind)
    ensures ParseLetStatement(toks, pos) == Err(ExpressionParsingFailed(At(toks, pos + 3)))
  {
  }

  /** `return value`: a return statement is read exactly when the value is
      the expression after `return`; a `;` right after it is taken in. */
  lemma {:induction false} ReturnExactly(toks: TokenStream, pos: nat, value: Expression, last: nat)
    requires At(toks, pos).kind == Return
    ensures ParseReturnStatement(toks, pos) == Ok(Parsed(ReturnStatement(At(toks, pos), value), last))
        <==> var e := ParseExpression(toks, pos + 1, Lowest);
             e.Ok? && e.value.node == Some(value) && last == SkipSemicolon(toks, e.value.last)
  {
  }

  /** `if ( c )` followed by `{`: the rest of the statement is read as the
      blocks of an if statement whose condition is `c`. */
  lemma {:induction false} IfReadsCondition(toks: TokenStream, pos: nat, c: Expression, q: nat)
    requires At(toks, pos).kind == If && At(toks, pos + 1).kind == LeftParen
    requires ParseExpression(toks, pos + 2, Lowest) == Ok(Parsed(Some(c), q))
    requires At(toks, q + 1).kind == RightParen && At(toks, q + 2).kind == LeftBrace
    ensures ParseIfStatement(toks, pos) == ParseIfBlocks(toks, At(toks, pos), c, q + 2)
  {
    assert ConsumeTokenIf(toks, pos, LeftParen) == Ok(pos + 1);
    assert ConsumeTokenIf(toks, q, RightParen) == Ok(q + 1);
    assert ConsumeTokenIf(toks, q + 1, LeftBrace) == Ok(q + 2);
  }

  /** The blocks of an if statement are read exactly when the consequence
      is the block at the `{`, and the alternative is the block after
      `else {` when `else` follows the consequence and absent otherwise; the
      statement ends on the last block's end. */
  lemma {:induction false} IfBlocksExactly(toks: TokenStream, t: Token, c: Expression, brace: nat,
                                           b: Block, alt: Option<Block>, last: nat)
    requires At(toks, brace).kind == LeftBrace
    ensures ParseIfBlocks(toks, t, c, brace) == Ok(Parsed(IfStatement(t, c, b, alt), last))
        <==> var cb := ParseBlockStatement(toks, brace);
             cb.Ok? && cb.value.node == b &&
             if At(toks, cb.value.last + 1).kind == Else then
               At(toks, cb.value.last + 2).kind == LeftBrace && alt.Some? &&
               ParseBlockStatement(toks, cb.value.last + 2) == Ok(Parsed(alt.value, last))
             else alt.None? && last == cb.value.last
  {
  }

  /** `else` must be followed by `{`. */
  lemma {:induction false} ElseNeedsBrace(toks: TokenStream, t: Token, c: Expression, brace: nat, b: Block, e: nat)
    requires At(toks, brace).kind == LeftBrace
    requires ParseBlockStatement(toks, brace) == Ok(Parsed(b, e))
    requires At(toks, e + 1).kind == Else && At(toks, e + 2).kind != LeftBrace
    ensures ParseIfBlocks(toks, t, c, brace) == Err(PeekTokenNotMatch(LeftBrace, At(toks, e + 2).kind))
  {
  }

  /** `if ( c ) { B }` with no `else` after the block: the condition, the
      block, and no alternative; the statement ends on the block's end. */
  lemma {:induction false} IfWithoutElse(toks: TokenStream, pos: nat, c: Expression, q: nat, b: Block, e: nat)
    requires At(toks, pos).kind == If && At(toks, pos + 1).kind == LeftParen
    requires ParseExpression(toks, pos + 2, Lowest) == Ok(Parsed(Some(c), q))
    requires At(toks, q + 1).kind == RightParen && At(toks, q + 2).kind == LeftBrace
    requires ParseBlockStatement(toks, q + 2) == Ok(Parsed(b, e))
    requires At(toks, e + 1).kind != Else
    ensures ParseIfStatement(toks, pos) == Ok(Parsed(IfStatement(At(toks, pos), c, b, None), e))
  {
    IfReadsCondition(toks, pos, c, q);
    IfBlocksExactly(toks, At(toks, pos), c, q + 2, b, None, e);
  }

  /** `if ( c ) { B } else { B2 }`: the second block is the alternative and
      the statement ends on its end. */
  lemma {:induction false} IfWithElse(toks: TokenStream, pos: nat, c: Expression, q: nat, b: Block, e: nat, b2: Block, e2: nat)
    requires At(toks, pos).kind == If && At(toks, pos + 1).kind == LeftParen
    requires ParseExpression(toks, pos + 2, Lowest) == Ok(Parsed(Some(c), q))
    requires At(toks, q + 1).kind == RightParen && At(toks, q + 2).kind == LeftBrace
    requires ParseBlockStatement(toks, q + 2) == Ok(Parsed(b, e))
    requires At(toks, e + 1).kind == Else && At(toks, e + 2).kind == LeftBrace
    requires ParseBlockStatement(toks, e + 2) == Ok(Parsed(b2, e2))
    ensures ParseIfStatement(toks, pos) == Ok(Parsed(IfStatement(At(toks, pos), c, b, Some(b2)), e2))
  {
    IfReadsCondition(toks, pos, c, q);
    IfBlocksExactly(toks, At(toks, pos), c, q + 2, b, Some(b2), e2);
  }

  /** `if (` followed by a token that starts no expression fails on that
      token. */
  lemma {:induction false} IfNeedsCondition(toks: TokenStream, pos: nat)
    requires At(toks, pos).kind == If && At(toks, pos + 1).kind == LeftParen
    requires !HasPrefixRule(At(toks, pos + 2).kind)
    ensures ParseIfStatement(toks, pos) == Err(ExpressionParsingFailed(At(toks, pos + 2)))
  {
  }

  /** After the condition the parser demands `)` and then `{`, and fails
      naming the kind it found instead. */
  lemma {:induction false} IfNeedsCloseThenBrace(toks: TokenStream, pos: nat, c: Expression, q: nat)
    requires At(toks, pos).kind == If && At(toks, pos + 1).kind == LeftParen
    requires ParseExpression(toks, pos + 2, Lowest) == Ok(Parsed(Some(c), q))
    ensures At(toks, q + 1).kind != RightParen ==>
              ParseIfStatement(toks, pos) == Err(PeekTokenNotMatch(RightParen, At(toks, q + 1).kind))
    ensures At(toks, q + 1).kind == RightParen && At(toks, q + 2).kind != LeftBrace ==>
              ParseIfStatement(toks, pos) == Err(PeekTokenNotMatch(LeftBrace, At(toks, q + 2).kind))
  {
  }

  /** A function literal is read exactly when `fn` is followed by `(`, the
      parameters up to their `)`, then `{` and the body block. */
  lemma {:induction false} FunctionLiteralExactly(toks: TokenStream, pos: nat, params: seq<Identifier>, body: Block, e: nat)
    requires At(toks, pos).kind == Function
    ensures ParseFunctionLiteral(toks, pos) == Ok(Parsed(FunctionLiteral(At(toks, pos), params, body), e))
        <==> At(toks, pos + 1).kind == LeftParen &&
             var ps := ParseFunctionParameters(toks, pos + 1);
             ps.Ok? && ps.value.node == params && At(toks, ps.value.last + 1).kind == LeftBrace &&
             ParseBlockStatement(toks, ps.value.last + 1) == Ok(Parsed(body, e))
  {
    if At(toks, pos + 1).kind == LeftParen {
      assert ConsumeTokenIf(toks, pos, LeftParen) == Ok(pos + 1);
      var ps := ParseFunctionParameters(toks, pos + 1);
      if ps.Ok? && At(toks, ps.value.last + 1).kind == LeftBrace {
        assert ConsumeTokenIf(toks, ps.value.last, LeftBrace) == Ok(ps.value.last + 1);
      }
    }
  }

  /** `fn` must be followed by `(`, and the parameters by `{`. */
  lemma {:induction false} FunctionNeedsParenThenBrace(toks: TokenStream, pos: nat, params: seq<Identifier>, q: nat)
    requires At(toks, pos).kind == Function
    ensures At(toks, pos + 1).kind != LeftParen ==>
              ParseFunctionLiteral(toks, pos) == Err(PeekTokenNotMatch(LeftParen, At(toks, pos + 1).kind))
    ensures At(toks, pos + 1).kind == LeftParen && ParseFunctionParameters(toks, pos + 1) == Ok(Parsed(params, q)) &&
            At(toks, q + 1).kind != LeftBrace ==>
              ParseFunctionLiteral(toks, pos) == Err(PeekTokenNotMatch(LeftBrace, At(toks, q + 1).kind))
  {
  }
}
