/** Properties of the Pratt parser: precedence and associativity, prefix
    operands, grouping, the statement loop, expression lists and hash
    literals. Lemmas about shapes of input are stated over token streams,
    since the lexer produces no `[`, `]` or `:`. */
module ParserProperties {
  import opened Results
  import opened Tokens
  import opened Ast
  import opened Parser

  /** Token kinds that begin no statement and are not `Eof`: the statement
      loop steps over them. */
  predicate Skippable(k: TokenType) {
    StartsNoStatement(k) && k != Eof
  }

  function Atom(t: Token): Expression {
    Ident(Id(t))
  }

  lemma {:induction false} BinaryOperatorsOutrankLowest(k: TokenType)
    requires IsBinaryOperator(k)
    ensures 0 < Rank(PrecedenceOf(k)) < Rank(Prefix)
  {
  }

  /** Exactly the tokens with a prefix rule start an expression: any other
      token yields no expression and leaves the position where it was. */
  lemma {:induction false} PrefixRuleExactly(toks: TokenStream, pos: nat)
    ensures ParsePrefixOperator(toks, pos) == Ok(Parsed(None, pos)) <==> !HasPrefixRule(At(toks, pos).kind)
  {
  }

  /** An identifier is its own prefix expression; the infix loop starts
      from it. */
  lemma {:induction false} AtomExpression(toks: TokenStream, pos: nat, precedence: PrecedenceKind)
    requires At(toks, pos).kind == Identifier
    ensures ParseExpression(toks, pos, precedence)
         == Present(ParseInfixLoop(toks, Atom(At(toks, pos)), Atom(At(toks, pos)), pos, precedence))
  {
    assert ParsePrefixOperator(toks, pos) == Ok(Parsed(Some(Atom(At(toks, pos))), pos));
  }

  /** An identifier followed by a token without infix precedence is a whole
      expression at any precedence. */
  lemma {:induction false} AtomAlone(toks: TokenStream, pos: nat, precedence: PrecedenceKind)
    requires At(toks, pos).kind == Identifier
    requires PrecedenceOf(At(toks, pos + 1).kind) == Lowest
    ensures ParseExpression(toks, pos, precedence) == Ok(Parsed(Some(Atom(At(toks, pos))), pos))
  {
    var a := Atom(At(toks, pos));
    AtomExpression(toks, pos, precedence);
    LoopStops(toks, a, a, pos, precedence);
  }

  /** The infix loop stops, returning what it has, when the peek token is
      `;` or binds no more tightly than the current level. */
  lemma {:induction false} LoopStops(toks: TokenStream, origin: Expression, left: Expression, pos: nat, precedence: PrecedenceKind)
    requires At(toks, pos + 1).kind == Semicolon || Rank(PrecedenceOf(At(toks, pos + 1).kind)) <= Rank(precedence)
    ensures ParseInfixLoop(toks, origin, left, pos, precedence) == Ok(Parsed(left, pos))
  {
  }

  /** One turn of the infix loop: the peek token binds tightly enough and
      its infix rule gives the new left expression. */
  lemma {:induction false} LoopContinues(toks: TokenStream, origin: Expression, left: Expression, pos: nat, precedence: PrecedenceKind, e: Expression, q: nat)
    requires At(toks, pos + 1).kind != Semicolon && Rank(precedence) < Rank(PrecedenceOf(At(toks, pos + 1).kind))
    requires ParseInfixOperator(toks, left, pos) == Ok(Parsed(Some(e), q))
    ensures ParseInfixLoop(toks, origin, left, pos, precedence) == ParseInfixLoop(toks, origin, e, q, precedence)
  {
  }

  /** One turn of the infix loop on a binary operator: the right operand is
      read at the operator's own precedence and becomes the new left. */
  lemma {:induction false} InfixStep(toks: TokenStream, origin: Expression, left: Expression, pos: nat, precedence: PrecedenceKind, right: Expression, q: nat)
    requires IsBinaryOperator(At(toks, pos + 1).kind)
    requires Rank(precedence) < Rank(PrecedenceOf(At(toks, pos + 1).kind))
    requires ParseExpression(toks, pos + 2, PrecedenceOf(At(toks, pos + 1).kind)) == Ok(Parsed(Some(right), q))
    ensures ParseInfixLoop(toks, origin, left, pos, precedence)
         == ParseInfixLoop(toks, origin, InfixExpression(At(toks, pos + 1), left, right), q, precedence)
  {
    InfixOperatorStep(toks, left, pos, right, q);
    LoopContinues(toks, origin, left, pos, precedence, InfixExpression(At(toks, pos + 1), left, right), q);
  }

  lemma {:induction false} InfixOperatorStep(toks: TokenStream, left: Expression, pos: nat, right: Expression, q: nat)
    requires IsBinaryOperator(At(toks, pos + 1).kind)
    requires ParseExpression(toks, pos + 2, PrecedenceOf(At(toks, pos + 1).kind)) == Ok(Parsed(Some(right), q))
    ensures ParseInfixOperator(toks, left, pos) == Ok(Parsed(Some(InfixExpression(At(toks, pos + 1), left, right)), q))
  {
    assert ParseInfixExpression(toks, left, pos + 1) == Ok(Parsed(InfixExpression(At(toks, pos + 1), left, right), q));
  }

  /** `a o1 b o2 c`: equal precedence associates to the left and the
      tighter operator takes the middle operand. */
  lemma {:induction false} BinaryPrecedence(toks: TokenStream)
    requires At(toks, 0).kind == Identifier && At(toks, 2).kind == Identifier && At(toks, 4).kind == Identifier
    requires IsBinaryOperator(At(toks, 1).kind) && IsBinaryOperator(At(toks, 3).kind)
    requires PrecedenceOf(At(toks, 5).kind) == Lowest
    ensures var a, o1, b, o2, c := Atom(At(toks, 0)), At(toks, 1), Atom(At(toks, 2)), At(toks, 3), Atom(At(toks, 4));
            ParseExpression(toks, 0, Lowest) == Ok(Parsed(Some(
              if Rank(PrecedenceOf(o1.kind)) >= Rank(PrecedenceOf(o2.kind))
              then InfixExpression(o2, InfixExpression(o1, a, b), c)
              else InfixExpression(o1, a, InfixExpression(o2, b, c))), 4))
  {
    var a, o1, b, o2, c := Atom(At(toks, 0)), At(toks, 1), Atom(At(toks, 2)), At(toks, 3), Atom(At(toks, 4));
    var p1, p2 := PrecedenceOf(o1.kind), PrecedenceOf(o2.kind);
    BinaryOperatorsOutrankLowest(o1.kind);
    BinaryOperatorsOutrankLowest(o2.kind);
    AtomAlone(toks, 4, p2);
    if Rank(p1) >= Rank(p2) {
      LoopStops(toks, b, b, 2, p1);
      assert ParseExpression(toks, 2, p1) == Ok(Parsed(Some(b), 2));
      InfixStep(toks, a, a, 0, Lowest, b, 2);
      var ab := InfixExpression(o1, a, b);
      InfixStep(toks, a, ab, 2, Lowest, c, 4);
      LoopStops(toks, a, InfixExpression(o2, ab, c), 4, Lowest);
    } else {
      var bc := InfixExpression(o2, b, c);
      InfixStep(toks, b, b, 2, p1, c, 4);
      LoopStops(toks, b, bc, 4, p1);
      assert ParseExpression(toks, 2, p1) == Ok(Parsed(Some(bc), 4));
      InfixStep(toks, a, a, 0, Lowest, bc, 4);
      LoopStops(toks, a, InfixExpression(o1, a, bc), 4, Lowest);
    }
  }

  /** The printed form of `a o1 b o2 c` shows its grouping:
      `((a o1 b) o2 c)` or `(a o1 (b o2 c))`. */
  lemma {:induction false} BinaryPrecedenceText(toks: TokenStream)
    requires At(toks, 0).kind == Identifier && At(toks, 2).kind == Identifier && At(toks, 4).kind == Identifier
    requires IsBinaryOperator(At(toks, 1).kind) && IsBinaryOperator(At(toks, 3).kind)
    requires PrecedenceOf(At(toks, 5).kind) == Lowest
    ensures var r := ParseExpression(toks, 0, Lowest);
            var a, o1, b, o2, c := At(toks, 0).literal, At(toks, 1).literal, At(toks, 2).literal, At(toks, 3).literal, At(toks, 4).literal;
            r.Ok? && r.value.node.Some? &&
            Describe(r.value.node.value)
              == if Rank(PrecedenceOf(At(toks, 1).kind)) >= Rank(PrecedenceOf(At(toks, 3).kind))
                 then "((" + a + " " + o1 + " " + b + ") " + o2 + " " + c + ")"
                 else "(" + a + " " + o1 + " (" + b + " " + o2 + " " + c + "))"
  {
    BinaryPrecedence(toks);
    DescribeGrouping(At(toks, 0), At(toks, 1), At(toks, 2), At(toks, 3), At(toks, 4));
  }

  /** The printed forms of the two groupings of `a o1 b o2 c`. */
  lemma {:induction false} DescribeGrouping(a: Token, o1: Token, b: Token, o2: Token, c: Token)
    ensures Describe(InfixExpression(o2, InfixExpression(o1, Atom(a), Atom(b)), Atom(c)))
         == "((" + a.literal + " " + o1.literal + " " + b.literal + ") " + o2.literal + " " + c.literal + ")"
    ensures Describe(InfixExpression(o1, Atom(a), InfixExpression(o2, Atom(b), Atom(c))))
         == "(" + a.literal + " " + o1.literal + " (" + b.literal + " " + o2.literal + " " + c.literal + "))"
  {
    var ab := InfixExpression(o1, Atom(a), Atom(b));
    assert Describe(ab) == "(" + a.literal + " " + o1.literal + " " + b.literal + ")";
    assert Describe(InfixExpression(o2, ab, Atom(c))) == "(" + Describe(ab) + " " + o2.literal + " " + c.literal + ")";
    var bc := InfixExpression(o2, Atom(b), Atom(c));
    assert Describe(bc) == "(" + b.literal + " " + o2.literal + " " + c.literal + ")";
    assert Describe(InfixExpression(o1, Atom(a), bc)) == "(" + a.literal + " " + o1.literal + " " + Describe(bc) + ")";
  }

  /** `-a o b`: the operand of a unary operator is read at prefix
      precedence, so the operator applies to `a` alone. The node carries the
      token the parser stands on after the operand. */
  lemma {:induction false} PrefixBindsTighter(toks: TokenStream)
    requires At(toks, 0).kind == Minus || At(toks, 0).kind == Bang
    requires At(toks, 1).kind == Identifier && At(toks, 3).kind == Identifier
    requires IsBinaryOperator(At(toks, 2).kind)
    requires PrecedenceOf(At(toks, 4).kind) == Lowest
    ensures ParseExpression(toks, 0, Lowest) == Ok(Parsed(Some(
              InfixExpression(At(toks, 2), PrefixExpression(At(toks, 1), At(toks, 0).literal, Atom(At(toks, 1))), Atom(At(toks, 3)))), 3))
  {
    var a, o, b := Atom(At(toks, 1)), At(toks, 2), Atom(At(toks, 3));
    BinaryOperatorsOutrankLowest(o.kind);
    LoopStops(toks, a, a, 1, Prefix);
    assert ParseExpression(toks, 1, Prefix) == Ok(Parsed(Some(a), 1));
    var negated := PrefixExpression(At(toks, 1), At(toks, 0).literal, a);
    assert ParsePrefixOperator(toks, 0) == Ok(Parsed(Some(negated), 1));
    AtomAlone(toks, 3, PrecedenceOf(o.kind));
    InfixStep(toks, negated, negated, 1, Lowest, b, 3);
    LoopStops(toks, negated, InfixExpression(o, negated, b), 3, Lowest);
  }

  /** `! - a`: unary operators nest to the right. */
  lemma {:induction false} PrefixNests(toks: TokenStream)
    requires At(toks, 0).kind == Bang && At(toks, 1).kind == Minus && At(toks, 2).kind == Identifier
    requires PrecedenceOf(At(toks, 3).kind) == Lowest
    ensures ParseExpression(toks, 0, Lowest) == Ok(Parsed(Some(
              PrefixExpression(At(toks, 2), At(toks, 0).literal, PrefixExpression(At(toks, 2), At(toks, 1).literal, Atom(At(toks, 2))))), 2))
  {
    var a := Atom(At(toks, 2));
    AtomAlone(toks, 2, Prefix);
    var inner := PrefixExpression(At(toks, 2), At(toks, 1).literal, a);
    assert ParsePrefixExpression(toks, 1) == Ok(Parsed(inner, 2));
    assert ParsePrefixOperator(toks, 1) == Ok(Parsed(Some(inner), 2));
    LoopStops(toks, inner, inner, 2, Prefix);
    var outer := PrefixExpression(At(toks, 2), At(toks, 0).literal, inner);
    assert ParsePrefixExpression(toks, 0) == Ok(Parsed(outer, 2));
    assert ParsePrefixOperator(toks, 0) == Ok(Parsed(Some(outer), 2));
    LoopStops(toks, outer, outer, 2, Lowest);
  }

  /** `( e )` is `e` itself, ending on the `)`. */
  lemma {:induction false} GroupIsInner(toks: TokenStream, pos: nat, inner: Expression, q: nat)
    requires At(toks, pos).kind == LeftParen
    requires ParseExpression(toks, pos + 1, Lowest) == Ok(Parsed(Some(inner), q))
    requires At(toks, q + 1).kind == RightParen
    ensures ParsePrefixOperator(toks, pos) == Ok(Parsed(Some(inner), q + 1))
  {
    assert ParseGroupedExpression(toks, pos) == Ok(Parsed(inner, q + 1));
  }

  /** `( e` without the closing parenthesis is an error naming what came
      instead. */
  lemma {:induction false} GroupNeedsClose(toks: TokenStream, pos: nat, inner: Expression, q: nat)
    requires At(toks, pos).kind == LeftParen
    requires ParseExpression(toks, pos + 1, Lowest) == Ok(Parsed(Some(inner), q))
    requires At(toks, q + 1).kind != RightParen
    ensures ParsePrefixOperator(toks, pos) == Err(PeekTokenNotMatch(RightParen, At(toks, q + 1).kind))
  {
    assert ParseGroupedExpression(toks, pos) == Err(PeekTokenNotMatch(RightParen, At(toks, q + 1).kind));
  }

  /** `( a o1 b ) o2 c`: parentheses override precedence. */
  lemma {:induction false} GroupOverridesPrecedence(toks: TokenStream)
    requires At(toks, 0).kind == LeftParen && At(toks, 4).kind == RightParen
    requires At(toks, 1).kind == Identifier && At(toks, 3).kind == Identifier && At(toks, 6).kind == Identifier
    requires IsBinaryOperator(At(toks, 2).kind) && IsBinaryOperator(At(toks, 5).kind)
    requires PrecedenceOf(At(toks, 7).kind) == Lowest
    ensures ParseExpression(toks, 0, Lowest) == Ok(Parsed(Some(
              InfixExpression(At(toks, 5), InfixExpression(At(toks, 2), Atom(At(toks, 1)), Atom(At(toks, 3))), Atom(At(toks, 6)))), 6))
  {
    var a, o1, b, o2, c := Atom(At(toks, 1)), At(toks, 2), Atom(At(toks, 3)), At(toks, 5), Atom(At(toks, 6));
    BinaryOperatorsOutrankLowest(o1.kind);
    BinaryOperatorsOutrankLowest(o2.kind);
    AtomAlone(toks, 3, PrecedenceOf(o1.kind));
    var ab := InfixExpression(o1, a, b);
    InfixStep(toks, a, a, 1, Lowest, b, 3);
    LoopStops(toks, a, ab, 3, Lowest);
    assert ParseExpression(toks, 1, Lowest) == Ok(Parsed(Some(ab), 3));
    GroupIsInner(toks, 0, ab, 3);
    AtomAlone(toks, 6, PrecedenceOf(o2.kind));
    InfixStep(toks, ab, ab, 4, Lowest, c, 6);
    LoopStops(toks, ab, InfixExpression(o2, ab, c), 6, Lowest);
  }

  /** An `Illegal` token where a statement starts stops the parse with
      `expressionParsingFailed` carrying that token. */
  lemma {:induction false} IllegalStopsProgram(toks: TokenStream, pos: nat, acc: seq<Statement>)
    requires At(toks, pos).kind == Illegal
    ensures ParseProgram(toks, pos, acc) == Err(ExpressionParsingFailed(At(toks, pos)))
  {
  }

  lemma {:induction false} IllegalFirstToken(toks: TokenStream)
    requires toks[0].kind == Illegal
    ensures Parse(toks) == Err(ExpressionParsingFailed(toks[0]))
  {
    var stream: TokenStream := [TokenOf(Unknown)] + toks;
    assert At(stream, 1) == toks[0];
    SkippableTokenIsSkipped(stream, 0, []);
    IllegalStopsProgram(stream, 1, []);
  }

  /** A token that starts no statement yields nothing and is stepped over. */
  lemma {:induction false} SkippableTokenIsSkipped(toks: TokenStream, pos: nat, acc: seq<Statement>)
    requires Skippable(At(toks, pos).kind)
    ensures ParseStatement(toks, pos) == Ok(Parsed(None, pos))
    ensures ParseProgram(toks, pos, acc) == ParseProgram(toks, pos + 1, acc)
  {
    assert ParseExpression(toks, pos, Lowest) == Ok(Parsed(None, pos));
    assert ParseExpressionStatement(toks, pos) == Ok(Parsed(None, pos));
  }

  /** A stream of tokens none of which starts a statement parses to no
      statements at all. */
  lemma {:induction false} SkippablesParseToNothing(toks: TokenStream, pos: nat, acc: seq<Statement>)
    requires toks[|toks| - 1].kind == Eof
    requires forall i :: pos <= i < |toks| - 1 ==> Skippable(toks[i].kind)
    ensures ParseProgram(toks, pos, acc) == Ok(acc)
    decreases |toks| - pos
  {
    if pos < |toks| - 1 {
      SkippableTokenIsSkipped(toks, pos, acc);
      SkippablesParseToNothing(toks, pos + 1, acc);
    }
  }

  /** `parse` rejects a stream with no statement in it: the empty input and
      any sequence of stray tokens alike. */
  lemma {:induction false} NoStatementsIsError(toks: TokenStream)
    requires toks[|toks| - 1].kind == Eof
    requires forall i :: 0 <= i < |toks| - 1 ==> Skippable(toks[i].kind)
    ensures Parse(toks) == Err(NoValidStatements)
  {
    var stream: TokenStream := [TokenOf(Unknown)] + toks;
    StrayTokensAfterStart(toks);
    SkippablesParseToNothing(stream, 0, []);
  }

  /** The start token that `parse` puts in front is skippable too. */
  lemma {:induction false} StrayTokensAfterStart(toks: seq<Token>)
    requires forall i :: 0 <= i < |toks| - 1 ==> Skippable(toks[i].kind)
    ensures forall i :: 0 <= i < |toks| ==> Skippable(([TokenOf(Unknown)] + toks)[i].kind)
  {
    forall i | 0 <= i < |toks|
      ensures Skippable(([TokenOf(Unknown)] + toks)[i].kind)
    {
      if i > 0 {
        assert ([TokenOf(Unknown)] + toks)[i] == toks[i - 1];
      }
    }
  }

  lemma {:induction false} EmptyInputIsError()
    ensures Parse([Token(Eof, "EOF")]) == Err(NoValidStatements)
  {
    NoStatementsIsError([Token(Eof, "EOF")]);
  }

  /** A produced statement is appended after those before it. */
  lemma {:induction false} StatementsInSourceOrder(toks: TokenStream, pos: nat, acc: seq<Statement>, s: Statement, q: nat)
    requires At(toks, pos).kind != Eof
    requires ParseStatement(toks, pos) == Ok(Parsed(Some(s), q))
    ensures ParseProgram(toks, pos, acc) == ParseProgram(toks, q + 1, acc + [s])
    ensures ParseProgram(toks, pos, acc).Ok? ==> acc + [s] <= ParseProgram(toks, pos, acc).value
  {
  }

  /** The identifiers `ids` separated by commas, from position `pos`, and
      then a token of kind `end`. */
  predicate CommaList(toks: TokenStream, pos: nat, ids: seq<Token>, end: TokenType)
    decreases |ids|
  {
    |ids| > 0 && At(toks, pos) == ids[0] && ids[0].kind == Identifier &&
    if |ids| == 1 then At(toks, pos + 1).kind == end
    else At(toks, pos + 1).kind == Comma && CommaList(toks, pos + 2, ids[1..], end)
  }

  function Atoms(ids: seq<Token>): (es: seq<Expression>)
    ensures |es| == |ids|
    ensures forall i :: 0 <= i < |ids| ==> es[i] == Atom(ids[i])
  {
    if |ids| == 0 then [] else [Atom(ids[0])] + Atoms(ids[1..])
  }

  lemma {:induction false} AtomsAfter(acc: seq<Expression>, ids: seq<Token>)
    requires |ids| > 0
    ensures acc + [Atom(ids[0])] + Atoms(ids[1..]) == acc + Atoms(ids)
  {
  }

  predicate IsListEnd(k: TokenType) {
    k == RightParen || k == RightBracket
  }

  lemma {:induction false} CommaListEnds(toks: TokenStream, pos: nat, ids: seq<Token>, end: TokenType)
    requires CommaList(toks, pos, ids, end)
    ensures At(toks, pos + 2 * |ids| - 1).kind == end
    decreases |ids|
  {
    if |ids| > 1 {
      CommaListEnds(toks, pos + 2, ids[1..], end);
    }
  }

  /** One turn of the comma loop of an expression list. */
  lemma {:induction false} ListTailStep(toks: TokenStream, acc: seq<Expression>, pos: nat, x: Expression, q: nat)
    requires At(toks, pos + 1).kind == Comma
    requires ParseExpression(toks, pos + 2, Lowest) == Ok(Parsed(Some(x), q))
    ensures ParseListTail(toks, acc, pos) == ParseListTail(toks, acc + [x], q)
  {
  }

  lemma {:induction false} ListTailStops(toks: TokenStream, acc: seq<Expression>, pos: nat)
    requires At(toks, pos + 1).kind != Comma
    ensures ParseListTail(toks, acc, pos) == Ok(Parsed(acc, pos))
  {
  }

  /** The comma loop reads the remaining identifiers in order and stops on
      the last one. */
  lemma {:induction false} ListTailReads(toks: TokenStream, acc: seq<Expression>, pos: nat, ids: seq<Token>, end: TokenType)
    requires CommaList(toks, pos, ids, end) && IsListEnd(end)
    ensures ParseListTail(toks, acc, pos) == Ok(Parsed(acc + Atoms(ids[1..]), pos + 2 * (|ids| - 1)))
    decreases |ids|
  {
    if |ids| == 1 {
      ListTailAtLast(toks, acc, pos, ids, end);
    } else {
      ListTailReads(toks, acc + [Atom(ids[1])], pos + 2, ids[1..], end);
      ListTailThenRest(toks, acc, pos, ids, end);
    }
  }

  lemma {:induction false} ListTailThenRest(toks: TokenStream, acc: seq<Expression>, pos: nat, ids: seq<Token>, end: TokenType)
    requires CommaList(toks, pos, ids, end) && IsListEnd(end) && |ids| > 1
    requires ParseListTail(toks, acc + [Atom(ids[1])], pos + 2)
          == Ok(Parsed(acc + [Atom(ids[1])] + Atoms(ids[1..][1..]), pos + 2 + 2 * (|ids[1..]| - 1)))
    ensures ParseListTail(toks, acc, pos) == Ok(Parsed(acc + Atoms(ids[1..]), pos + 2 * (|ids| - 1)))
  {
    ListTailNext(toks, acc, pos, ids, end);
    AtomsAfter(acc, ids[1..]);
  }

  lemma {:induction false} ListTailAtLast(toks: TokenStream, acc: seq<Expression>, pos: nat, ids: seq<Token>, end: TokenType)
    requires CommaList(toks, pos, ids, end) && IsListEnd(end) && |ids| == 1
    ensures ParseListTail(toks, acc, pos) == Ok(Parsed(acc + Atoms(ids[1..]), pos))
  {
    ListTailStops(toks, acc, pos);
    assert acc + Atoms(ids[1..]) == acc;
  }

  lemma {:induction false} ListTailNext(toks: TokenStream, acc: seq<Expression>, pos: nat, ids: seq<Token>, end: TokenType)
    requires CommaList(toks, pos, ids, end) && IsListEnd(end) && |ids| > 1
    ensures CommaList(toks, pos + 2, ids[1..], end)
    ensures ParseListTail(toks, acc, pos) == ParseListTail(toks, acc + [Atom(ids[1])], pos + 2)
  {
    var rest := ids[1..];
    assert At(toks, pos + 2) == rest[0];
    AtomAlone(toks, pos + 2, Lowest);
    ListTailStep(toks, acc, pos, Atom(rest[0]), pos + 2);
  }

  /** A non-empty list: every element in source order, ending on the
      terminator. */
  lemma {:induction false} ExpressionListReads(toks: TokenStream, pos: nat, ids: seq<Token>, end: TokenType)
    requires At(toks, pos).kind == LeftParen || At(toks, pos).kind == LeftBracket
    requires CommaList(toks, pos + 1, ids, end) && IsListEnd(end)
    ensures ParseExpressionList(toks, pos, end) == Ok(Parsed(Atoms(ids), pos + 2 * |ids|))
  {
    AtomAlone(toks, pos + 1, Lowest);
    ListTailReads(toks, [Atom(ids[0])], pos + 1, ids, end);
    CommaListEnds(toks, pos + 1, ids, end);
    AtomsAfter([], ids);
    ListOfFirstAndTail(toks, pos, end, Atom(ids[0]), Atoms(ids), pos + 2 * |ids| - 1);
  }

  /** A list whose first element is followed by the comma loop's result and
      then the terminator is that result. */
  lemma {:induction false} ListOfFirstAndTail(toks: TokenStream, pos: nat, end: TokenType, x: Expression, all: seq<Expression>, last: nat)
    requires At(toks, pos).kind == LeftParen || At(toks, pos).kind == LeftBracket
    requires At(toks, pos + 1).kind != end
    requires ParseExpression(toks, pos + 1, Lowest) == Ok(Parsed(Some(x), pos + 1))
    requires ParseListTail(toks, [x], pos + 1) == Ok(Parsed(all, last))
    requires At(toks, last + 1).kind == end
    ensures ParseExpressionList(toks, pos, end) == Ok(Parsed(all, last + 1))
  {
  }

  /** The terminator right after the opening token gives the empty list. */
  lemma {:induction false} EmptyExpressionList(toks: TokenStream, pos: nat, end: TokenType)
    requires At(toks, pos).kind == LeftParen || At(toks, pos).kind == LeftBracket
    requires At(toks, pos + 1).kind == end
    ensures ParseExpressionList(toks, pos, end) == Ok(Parsed([], pos + 1))
  {
  }

  /** A list whose elements are not followed by a comma or the terminator
      is an error naming the terminator. */
  lemma {:induction false} ListNeedsTerminator(toks: TokenStream, pos: nat, end: TokenType)
    requires At(toks, pos).kind == LeftParen || At(toks, pos).kind == LeftBracket
    requires IsListEnd(end)
    requires At(toks, pos + 1).kind == Identifier
    requires PrecedenceOf(At(toks, pos + 2).kind) == Lowest
    requires At(toks, pos + 2).kind != Comma && At(toks, pos + 2).kind != end
    ensures ParseExpressionList(toks, pos, end) == Err(PeekTokenNotMatch(end, At(toks, pos + 2).kind))
  {
    AtomAlone(toks, pos + 1, Lowest);
  }

  /** `[a, b, ...]`: an array literal holds its elements in order and
      carries the `[` token. */
  lemma {:induction false} ArrayOfAtoms(toks: TokenStream, pos: nat, ids: seq<Token>)
    requires At(toks, pos).kind == LeftBracket
    requires CommaList(toks, pos + 1, ids, RightBracket)
    ensures ParsePrefixOperator(toks, pos) == Ok(Parsed(Some(ArrayLiteral(At(toks, pos), Atoms(ids))), pos + 2 * |ids|))
  {
    ArrayElements(toks, pos, ids);
    BracketIsArray(toks, pos, ArrayLiteral(At(toks, pos), Atoms(ids)), pos + 2 * |ids|);
  }

  /** `[` as the current token hands over to the array rule. */
  lemma {:induction false} BracketIsArray(toks: TokenStream, pos: nat, e: Expression, q: nat)
    requires At(toks, pos).kind == LeftBracket
    requires ParseArrayLiteral(toks, pos) == Ok(Parsed(e, q))
    ensures ParsePrefixOperator(toks, pos) == Ok(Parsed(Some(e), q))
  {
  }

  lemma {:induction false} ArrayElements(toks: TokenStream, pos: nat, ids: seq<Token>)
    requires At(toks, pos).kind == LeftBracket
    requires CommaList(toks, pos + 1, ids, RightBracket)
    ensures ParseArrayLiteral(toks, pos) == Ok(Parsed(ArrayLiteral(At(toks, pos), Atoms(ids)), pos + 2 * |ids|))
  {
    ExpressionListReads(toks, pos, ids, RightBracket);
  }

  /** `f(a, b, ...)`: a call holds the callee and the arguments in order; its
      token is the closing parenthesis the parser stands on. */
  lemma {:induction false} CallOfAtoms(toks: TokenStream, pos: nat, ids: seq<Token>)
    requires At(toks, pos).kind == Identifier && At(toks, pos + 1).kind == LeftParen
    requires CommaList(toks, pos + 2, ids, RightParen)
    requires PrecedenceOf(At(toks, pos + 2 * |ids| + 2).kind) == Lowest
    ensures ParseExpression(toks, pos, Lowest) == Ok(Parsed(Some(
              CallExpression(At(toks, pos + 2 * |ids| + 1), Atom(At(toks, pos)), Atoms(ids))), pos + 2 * |ids| + 1))
  {
    var f := Atom(At(toks, pos));
    var close := pos + 2 * |ids| + 1;
    CallArguments(toks, f, pos + 1, ids);
    CalleeThenCall(toks, pos, CallExpression(At(toks, close), f, Atoms(ids)), close);
  }

  /** An identifier followed by a call that the next token does not extend
      is that call, as a whole expression. */
  lemma {:induction false} CalleeThenCall(toks: TokenStream, pos: nat, call: Expression, close: nat)
    requires At(toks, pos).kind == Identifier && At(toks, pos + 1).kind == LeftParen
    requires ParseCallExpression(toks, Atom(At(toks, pos)), pos + 1) == Ok(Parsed(call, close))
    requires PrecedenceOf(At(toks, close + 1).kind) == Lowest
    ensures ParseExpression(toks, pos, Lowest) == Ok(Parsed(Some(call), close))
  {
    AtomExpression(toks, pos, Lowest);
    CallLoop(toks, Atom(At(toks, pos)), pos, call, close);
  }

  /** After a callee, `(` binds at call precedence and the loop ends on the
      call when the token after `)` binds no further. */
  lemma {:induction false} CallLoop(toks: TokenStream, f: Expression, pos: nat, call: Expression, close: nat)
    requires At(toks, pos + 1).kind == LeftParen
    requires ParseCallExpression(toks, f, pos + 1) == Ok(Parsed(call, close))
    requires PrecedenceOf(At(toks, close + 1).kind) == Lowest
    ensures ParseInfixLoop(toks, f, f, pos, Lowest) == Ok(Parsed(call, close))
  {
    CallOperator(toks, f, pos, call, close);
    LoopContinues(toks, f, f, pos, Lowest, call, close);
    LoopStops(toks, f, call, close, Lowest);
  }

  /** `(` as the peek token hands the left expression to the call rule. */
  lemma {:induction false} CallOperator(toks: TokenStream, left: Expression, pos: nat, call: Expression, q: nat)
    requires At(toks, pos + 1).kind == LeftParen
    requires ParseCallExpression(toks, left, pos + 1) == Ok(Parsed(call, q))
    ensures ParseInfixOperator(toks, left, pos) == Ok(Parsed(Some(call), q))
  {
    assert !IsBinaryOperator(At(toks, pos + 1).kind);
  }

  lemma {:induction false} CallArguments(toks: TokenStream, f: Expression, pos: nat, ids: seq<Token>)
    requires At(toks, pos).kind == LeftParen
    requires CommaList(toks, pos + 1, ids, RightParen)
    ensures ParseCallExpression(toks, f, pos) == Ok(Parsed(CallExpression(At(toks, pos + 2 * |ids|), f, Atoms(ids)), pos + 2 * |ids|))
  {
    ExpressionListReads(toks, pos, ids, RightParen);
  }

  /** `a[b]`: an index expression carries the `[` token. */
  lemma {:induction false} IndexOfAtoms(toks: TokenStream, pos: nat)
    requires At(toks, pos).kind == Identifier && At(toks, pos + 1).kind == LeftBracket
    requires At(toks, pos + 2).kind == Identifier && At(toks, pos + 3).kind == RightBracket
    requires PrecedenceOf(At(toks, pos + 4).kind) == Lowest
    ensures ParseExpression(toks, pos, Lowest) == Ok(Parsed(Some(
              IndexExpression(At(toks, pos + 1), Atom(At(toks, pos)), Atom(At(toks, pos + 2)))), pos + 3))
  {
    var a := Atom(At(toks, pos));
    AtomAlone(toks, pos + 2, Lowest);
    var index := IndexExpression(At(toks, pos + 1), a, Atom(At(toks, pos + 2)));
    assert ParseIndexExpression(toks, a, pos + 1) == Ok(Parsed(index, pos + 3));
    assert ParseInfixOperator(toks, a, pos) == Ok(Parsed(Some(index), pos + 3));
    AtomExpression(toks, pos, Lowest);
    LoopContinues(toks, a, a, pos, Lowest, index, pos + 3);
    LoopStops(toks, a, index, pos + 3, Lowest);
  }

  /** The pairs `key : value` of `ps`, from position `pos`, separated by
      commas and followed by `}`. */
  predicate PairList(toks: TokenStream, pos: nat, ps: seq<(Token, Token)>)
    decreases |ps|
  {
    |ps| > 0 && At(toks, pos) == ps[0].0 && ps[0].0.kind == Identifier &&
    At(toks, pos + 1).kind == Colon && At(toks, pos + 2) == ps[0].1 && ps[0].1.kind == Identifier &&
    if |ps| == 1 then At(toks, pos + 3).kind == RightBrace
    else At(toks, pos + 3).kind == Comma && PairList(toks, pos + 4, ps[1..])
  }

  function AtomPairs(ps: seq<(Token, Token)>): (hs: seq<HashPair>)
    ensures |hs| == |ps|
    ensures forall i :: 0 <= i < |ps| ==> hs[i] == HashPair(Atom(ps[i].0), Atom(ps[i].1))
  {
    if |ps| == 0 then [] else [HashPair(Atom(ps[0].0), Atom(ps[0].1))] + AtomPairs(ps[1..])
  }

  /** A pair followed by a comma: the loop keeps it and goes on from the
      comma. */
  lemma {:induction false} HashPairThenComma(toks: TokenStream, pos: nat, acc: seq<HashPair>)
    requires At(toks, pos).kind == LeftBrace || At(toks, pos).kind == Comma
    requires At(toks, pos + 1).kind == Identifier && At(toks, pos + 2).kind == Colon && At(toks, pos + 3).kind == Identifier
    requires At(toks, pos + 4).kind == Comma
    ensures ParseHashPairs(toks, pos, acc)
         == ParseHashPairs(toks, pos + 4, acc + [HashPair(Atom(At(toks, pos + 1)), Atom(At(toks, pos + 3)))])
  {
    AtomAlone(toks, pos + 1, Lowest);
    AtomAlone(toks, pos + 3, Lowest);
  }

  /** A pair followed by `}`: the loop keeps it and stops on its value. */
  lemma {:induction false} HashPairThenClose(toks: TokenStream, pos: nat, acc: seq<HashPair>)
    requires At(toks, pos).kind == LeftBrace || At(toks, pos).kind == Comma
    requires At(toks, pos + 1).kind == Identifier && At(toks, pos + 2).kind == Colon && At(toks, pos + 3).kind == Identifier
    requires At(toks, pos + 4).kind == RightBrace
    ensures ParseHashPairs(toks, pos, acc)
         == Ok(Parsed(acc + [HashPair(Atom(At(toks, pos + 1)), Atom(At(toks, pos + 3)))], pos + 3))
  {
    AtomAlone(toks, pos + 1, Lowest);
    AtomAlone(toks, pos + 3, Lowest);
  }

  lemma {:induction false} PairListHead(toks: TokenStream, pos: nat, ps: seq<(Token, Token)>)
    requires PairList(toks, pos, ps)
    ensures At(toks, pos).kind == Identifier && At(toks, pos + 1).kind == Colon && At(toks, pos + 2).kind == Identifier
    ensures Atom(At(toks, pos)) == Atom(ps[0].0) && Atom(At(toks, pos + 2)) == Atom(ps[0].1)
    ensures |ps| == 1 ==> At(toks, pos + 3).kind == RightBrace
    ensures |ps| > 1 ==> At(toks, pos + 3).kind == Comma && PairList(toks, pos + 4, ps[1..])
  {
  }

  lemma {:induction false} AtomPairsAfter(acc: seq<HashPair>, ps: seq<(Token, Token)>)
    requires |ps| > 0
    ensures acc + [HashPair(Atom(ps[0].0), Atom(ps[0].1))] + AtomPairs(ps[1..]) == acc + AtomPairs(ps)
  {
  }

  /** The pair loop keeps every pair, in source order, and stops on the last
      value with `}` next. */
  lemma {:induction false} HashPairsRead(toks: TokenStream, pos: nat, acc: seq<HashPair>, ps: seq<(Token, Token)>)
    requires At(toks, pos).kind == LeftBrace || At(toks, pos).kind == Comma
    requires PairList(toks, pos + 1, ps)
    ensures ParseHashPairs(toks, pos, acc) == Ok(Parsed(acc + AtomPairs(ps), pos + 4 * |ps| - 1))
    decreases |ps|
  {
    if |ps| == 1 {
      LastPairRead(toks, pos, acc, ps);
    } else {
      var pair := HashPair(Atom(ps[0].0), Atom(ps[0].1));
      HashPairsRead(toks, pos + 4, acc + [pair], ps[1..]);
      PairThenRestRead(toks, pos, acc, ps);
    }
  }

  lemma {:induction false} LastPairRead(toks: TokenStream, pos: nat, acc: seq<HashPair>, ps: seq<(Token, Token)>)
    requires At(toks, pos).kind == LeftBrace || At(toks, pos).kind == Comma
    requires PairList(toks, pos + 1, ps) && |ps| == 1
    ensures ParseHashPairs(toks, pos, acc) == Ok(Parsed(acc + AtomPairs(ps), pos + 3))
  {
    PairListHead(toks, pos + 1, ps);
    var pair := HashPair(Atom(ps[0].0), Atom(ps[0].1));
    assert HashPair(Atom(At(toks, pos + 1)), Atom(At(toks, pos + 3))) == pair;
    HashPairThenClose(toks, pos, acc);
    assert AtomPairs(ps) == [pair];
  }

  lemma {:induction false} PairThenRestRead(toks: TokenStream, pos: nat, acc: seq<HashPair>, ps: seq<(Token, Token)>)
    requires At(toks, pos).kind == LeftBrace || At(toks, pos).kind == Comma
    requires PairList(toks, pos + 1, ps) && |ps| > 1
    requires ParseHashPairs(toks, pos + 4, acc + [HashPair(Atom(ps[0].0), Atom(ps[0].1))])
          == Ok(Parsed(acc + [HashPair(Atom(ps[0].0), Atom(ps[0].1))] + AtomPairs(ps[1..]), pos + 4 * |ps| - 1))
    ensures ParseHashPairs(toks, pos, acc) == Ok(Parsed(acc + AtomPairs(ps), pos + 4 * |ps| - 1))
  {
    AtomPairsAfter(acc, ps);
    PairListHead(toks, pos + 1, ps);
    assert HashPair(Atom(At(toks, pos + 1)), Atom(At(toks, pos + 3))) == HashPair(Atom(ps[0].0), Atom(ps[0].1));
    HashPairThenComma(toks, pos, acc);
  }

  /** `{k1: v1, k2: v2, ...}`: a hash literal holds its pairs in source order
      and carries the `{` token. */
  lemma {:induction false} HashOfPairs(toks: TokenStream, pos: nat, ps: seq<(Token, Token)>)
    requires At(toks, pos).kind == LeftBrace
    requires PairList(toks, pos + 1, ps)
    ensures ParsePrefixOperator(toks, pos) == Ok(Parsed(Some(HashLiteral(At(toks, pos), AtomPairs(ps))), pos + 4 * |ps|))
  {
    DictionaryPairs(toks, pos, ps);
    BraceIsDictionary(toks, pos, HashLiteral(At(toks, pos), AtomPairs(ps)), pos + 4 * |ps|);
  }

  /** `{` as the current token hands over to the dictionary rule. */
  lemma {:induction false} BraceIsDictionary(toks: TokenStream, pos: nat, e: Expression, q: nat)
    requires At(toks, pos).kind == LeftBrace
    requires ParseDictionaryLiteral(toks, pos) == Ok(Parsed(e, q))
    ensures ParsePrefixOperator(toks, pos) == Ok(Parsed(Some(e), q))
  {
  }

  lemma {:induction false} DictionaryPairs(toks: TokenStream, pos: nat, ps: seq<(Token, Token)>)
    requires At(toks, pos).kind == LeftBrace
    requires PairList(toks, pos + 1, ps)
    ensures ParseDictionaryLiteral(toks, pos) == Ok(Parsed(HashLiteral(At(toks, pos), AtomPairs(ps)), pos + 4 * |ps|))
  {
    HashPairsRead(toks, pos, [], ps);
    assert [] + AtomPairs(ps) == AtomPairs(ps);
    DictionaryOfPairs(toks, pos, AtomPairs(ps), pos + 4 * |ps| - 1);
  }

  /** The pairs the pair loop reads make the hash literal, which ends on the
      `}` after them. */
  lemma {:induction false} DictionaryOfPairs(toks: TokenStream, pos: nat, hs: seq<HashPair>, last: nat)
    requires At(toks, pos).kind == LeftBrace
    requires ParseHashPairs(toks, pos, []) == Ok(Parsed(hs, last))
    ensures ParseDictionaryLiteral(toks, pos) == Ok(Parsed(HashLiteral(At(toks, pos), hs), last + 1))
  {
  }

  /** `{}` is a hash literal with no pairs. */
  lemma {:induction false} EmptyHash(toks: TokenStream, pos: nat)
    requires At(toks, pos).kind == LeftBrace && At(toks, pos + 1).kind == RightBrace
    ensures ParsePrefixOperator(toks, pos) == Ok(Parsed(Some(HashLiteral(At(toks, pos), [])), pos + 1))
  {
    assert ParseDictionaryLiteral(toks, pos) == Ok(Parsed(HashLiteral(At(toks, pos), []), pos + 1));
  }

  /** `{k: v,}`: a comma before the closing brace is accepted. */
  lemma {:induction false} TrailingCommaAccepted(toks: TokenStream, pos: nat)
    requires At(toks, pos).kind == LeftBrace
    requires At(toks, pos + 1).kind == Identifier && At(toks, pos + 2).kind == Colon && At(toks, pos + 3).kind == Identifier
    requires At(toks, pos + 4).kind == Comma && At(toks, pos + 5).kind == RightBrace
    ensures ParsePrefixOperator(toks, pos) == Ok(Parsed(Some(
              HashLiteral(At(toks, pos), [HashPair(Atom(At(toks, pos + 1)), Atom(At(toks, pos + 3)))])), pos + 5))
  {
    var pair := HashPair(Atom(At(toks, pos + 1)), Atom(At(toks, pos + 3)));
    TrailingCommaPairs(toks, pos);
    assert ParseDictionaryLiteral(toks, pos) == Ok(Parsed(HashLiteral(At(toks, pos), [pair]), pos + 5));
  }

  lemma {:induction false} TrailingCommaPairs(toks: TokenStream, pos: nat)
    requires At(toks, pos).kind == LeftBrace
    requires At(toks, pos + 1).kind == Identifier && At(toks, pos + 2).kind == Colon && At(toks, pos + 3).kind == Identifier
    requires At(toks, pos + 4).kind == Comma && At(toks, pos + 5).kind == RightBrace
    ensures ParseHashPairs(toks, pos, []) == Ok(Parsed([HashPair(Atom(At(toks, pos + 1)), Atom(At(toks, pos + 3)))], pos + 4))
  {
    var pair := HashPair(Atom(At(toks, pos + 1)), Atom(At(toks, pos + 3)));
    HashPairThenComma(toks, pos, []);
    assert [] + [pair] == [pair];
    assert ParseHashPairs(toks, pos + 4, [pair]) == Ok(Parsed([pair], pos + 4));
  }

  /** Two pairs with no comma between them are an error naming the comma. */
  lemma {:induction false} PairsNeedComma(toks: TokenStream, pos: nat)
    requires At(toks, pos).kind == LeftBrace
    requires At(toks, pos + 1).kind == Identifier && At(toks, pos + 2).kind == Colon && At(toks, pos + 3).kind == Identifier
    requires PrecedenceOf(At(toks, pos + 4).kind) == Lowest
    requires At(toks, pos + 4).kind != Comma && At(toks, pos + 4).kind != RightBrace
    ensures ParsePrefixOperator(toks, pos) == Err(PeekTokenNotMatch(Comma, At(toks, pos + 4).kind))
  {
    MissingComma(toks, pos);
    assert ParseDictionaryLiteral(toks, pos) == Err(PeekTokenNotMatch(Comma, At(toks, pos + 4).kind));
  }

  lemma {:induction false} MissingComma(toks: TokenStream, pos: nat)
    requires At(toks, pos).kind == LeftBrace
    requires At(toks, pos + 1).kind == Identifier && At(toks, pos + 2).kind == Colon && At(toks, pos + 3).kind == Identifier
    requires PrecedenceOf(At(toks, pos + 4).kind) == Lowest
    requires At(toks, pos + 4).kind != Comma && At(toks, pos + 4).kind != RightBrace
    ensures ParseHashPairs(toks, pos, []) == Err(PeekTokenNotMatch(Comma, At(toks, pos + 4).kind))
  {
    AtomAlone(toks, pos + 1, Lowest);
    AtomAlone(toks, pos + 3, Lowest);
    assert ParseHashPair(toks, pos) == Ok(Parsed(HashPair(Atom(At(toks, pos + 1)), Atom(At(toks, pos + 3))), pos + 3));
  }
}
