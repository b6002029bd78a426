/** Properties of the comma-separated constructs of the parser, stated for
    whatever expressions the sub-parsers read: expression lists (array
    elements and call arguments), index expressions and the pairs of a hash
    literal. Each construct gets a relational description of its tokens and
    lemmas showing the parser accepts exactly what that description allows. */
module ListProperties {
  import opened Results
  import opened Tokens
  import opened Ast
  import opened Parser
  import ParserProperties

  /** After an element ending at `pos`: `, x1 , x2 ...`, each element read
      at the lowest precedence right after its comma, the last one ending at
      `last`, and no comma after it. */
  predicate TailElements(toks: TokenStream, pos: nat, xs: seq<Expression>, last: nat)
    decreases |xs|
  {
    if |xs| == 0 then last == pos && At(toks, pos + 1).kind != Comma
    else
      At(toks, pos + 1).kind == Comma &&
      var e := ParseExpression(toks, pos + 2, Lowest);
      e.Ok? && e.value.node == Some(xs[0]) && TailElements(toks, e.value.last, xs[1..], last)
  }

  /** A list standing on its opening token at `pos`: either the terminator
      right away, or a first element followed by the comma elements and
      then the terminator at `last`. */
  predicate ListElements(toks: TokenStream, pos: nat, end: TokenType, xs: seq<Expression>, last: nat) {
    if |xs| == 0 then At(toks, pos + 1).kind == end && last == pos + 1
    else
      At(toks, pos + 1).kind != end && last > 0 && At(toks, last).kind == end &&
      var e := ParseExpression(toks, pos + 1, Lowest);
      e.Ok? && e.value.node == Some(xs[0]) && TailElements(toks, e.value.last, xs[1..], last - 1)
  }

  /** The comma loop accepts any tail its description allows, appending the
      elements in source order. */
  lemma {:induction false} ListTailSound(toks: TokenStream, acc: seq<Expression>, pos: nat, xs: seq<Expression>, last: nat)
    requires TailElements(toks, pos, xs, last)
    ensures ParseListTail(toks, acc, pos) == Ok(Parsed(acc + xs, last))
    decreases |xs|
  {
    if |xs| == 0 {
      assert acc + xs == acc;
    } else {
      var q := ParseExpression(toks, pos + 2, Lowest).value.last;
      assert ParseListTail(toks, acc, pos) == ParseListTail(toks, acc + [xs[0]], q);
      ListTailSound(toks, acc + [xs[0]], q, xs[1..], last);
      assert acc + [xs[0]] + xs[1..] == acc + xs;
    }
  }

  /** Whatever the comma loop appends is a tail its description allows. */
  lemma {:induction false} ListTailComplete(toks: TokenStream, acc: seq<Expression>, pos: nat)
    ensures var r := ParseListTail(toks, acc, pos);
            r.Ok? ==> TailElements(toks, pos, r.value.node[|acc|..], r.value.last)
    decreases Remaining(toks, pos)
  {
    var r := ParseListTail(toks, acc, pos);
    if r.Ok? {
      if At(toks, pos + 1).kind == Comma {
        var e := ParseExpression(toks, pos + 2, Lowest);
        var x := e.value.node.value;
        var q := e.value.last;
        assert r == ParseListTail(toks, acc + [x], q);
        ListTailComplete(toks, acc + [x], q);
        var xs := r.value.node[|acc|..];
        assert xs[0] == x && xs[1..] == r.value.node[|acc| + 1..];
      } else {
        assert r.value.node[|acc|..] == [];
      }
    }
  }

  /** An expression list accepts any tokens its description allows. */
  lemma {:induction false} ExpressionListSound(toks: TokenStream, pos: nat, end: TokenType, xs: seq<Expression>, last: nat)
    requires At(toks, pos).kind == LeftParen || At(toks, pos).kind == LeftBracket
    requires ListElements(toks, pos, end, xs, last)
    ensures ParseExpressionList(toks, pos, end) == Ok(Parsed(xs, last))
  {
    if |xs| > 0 {
      var q := ParseExpression(toks, pos + 1, Lowest).value.last;
      ListTailSound(toks, [xs[0]], q, xs[1..], last - 1);
      assert [xs[0]] + xs[1..] == xs;
      assert ConsumeTokenIf(toks, last - 1, end) == Ok(last);
    }
  }

  /** Whatever an expression list reads is described by its tokens. */
  lemma {:induction false} ExpressionListComplete(toks: TokenStream, pos: nat, end: TokenType)
    requires At(toks, pos).kind == LeftParen || At(toks, pos).kind == LeftBracket
    ensures var r := ParseExpressionList(toks, pos, end);
            r.Ok? ==> ListElements(toks, pos, end, r.value.node, r.value.last)
  {
    var r := ParseExpressionList(toks, pos, end);
    if r.Ok? && At(toks, pos + 1).kind != end {
      ListFirstThenTail(toks, pos, end);
      var e := ParseExpression(toks, pos + 1, Lowest).value;
      var x := e.node.value;
      var tail := ParseListTail(toks, [x], e.last);
      ListTailComplete(toks, [x], e.last);
      assert r.value.node[0] == x && r.value.node[1..] == tail.value.node[|[x]|..];
    }
  }

  /** A list that does not end at once and is read is its first element
      followed by what the comma loop reads, and then the terminator. */
  lemma {:induction false} ListFirstThenTail(toks: TokenStream, pos: nat, end: TokenType)
    requires At(toks, pos).kind == LeftParen || At(toks, pos).kind == LeftBracket
    requires At(toks, pos + 1).kind != end && ParseExpressionList(toks, pos, end).Ok?
    ensures var e := ParseExpression(toks, pos + 1, Lowest);
            e.Ok? && e.value.node.Some? &&
            var tail := ParseListTail(toks, [e.value.node.value], e.value.last);
            tail.Ok? && At(toks, tail.value.last + 1).kind == end &&
            ParseExpressionList(toks, pos, end).value == Parsed(tail.value.node, tail.value.last + 1)
  {
  }

  /** An expression list is read exactly when its tokens are a list of the
      given elements ending on the terminator at `last`. */
  lemma {:induction false} ExpressionListExactly(toks: TokenStream, pos: nat, end: TokenType, xs: seq<Expression>, last: nat)
    requires At(toks, pos).kind == LeftParen || At(toks, pos).kind == LeftBracket
    ensures ParseExpressionList(toks, pos, end) == Ok(Parsed(xs, last)) <==> ListElements(toks, pos, end, xs, last)
  {
    ExpressionListComplete(toks, pos, end);
    if ListElements(toks, pos, end, xs, last) {
      ExpressionListSound(toks, pos, end, xs, last);
    }
  }

  /** An element missing where the list needs one is an error on that
      token: at the start of a list whose terminator does not follow. */
  lemma {:induction false} ListNeedsFirstElement(toks: TokenStream, pos: nat, end: TokenType)
    requires At(toks, pos).kind == LeftParen || At(toks, pos).kind == LeftBracket
    requires At(toks, pos + 1).kind != end && !HasPrefixRule(At(toks, pos + 1).kind)
    ensures ParseExpressionList(toks, pos, end) == Err(ExpressionParsingFailed(At(toks, pos + 1)))
  {
  }

  /** ... and after a comma. */
  lemma {:induction false} ListNeedsElementAfterComma(toks: TokenStream, acc: seq<Expression>, pos: nat)
    requires At(toks, pos + 1).kind == Comma && !HasPrefixRule(At(toks, pos + 2).kind)
    ensures ParseListTail(toks, acc, pos) == Err(ExpressionParsingFailed(At(toks, pos + 2)))
  {
  }

  /** Elements not followed by a comma or the terminator are an error
      naming the terminator. */
  lemma {:induction false} ListNeedsEnd(toks: TokenStream, pos: nat, end: TokenType, x: Expression, q: nat, all: seq<Expression>, l: nat)
    requires At(toks, pos).kind == LeftParen || At(toks, pos).kind == LeftBracket
    requires At(toks, pos + 1).kind != end
    requires ParseExpression(toks, pos + 1, Lowest) == Ok(Parsed(Some(x), q))
    requires ParseListTail(toks, [x], q) == Ok(Parsed(all, l))
    requires At(toks, l + 1).kind != end
    ensures ParseExpressionList(toks, pos, end) == Err(PeekTokenNotMatch(end, At(toks, l + 1).kind))
  {
    assert ConsumeTokenIf(toks, l, end) == Err(PeekTokenNotMatch(end, At(toks, l + 1).kind));
  }

  /** An array literal, standing on `[`, holds exactly the elements of the
      list up to its `]`, and carries the `[` token. */
  lemma {:induction false} ArrayHoldsElements(toks: TokenStream, pos: nat, xs: seq<Expression>, last: nat)
    requires At(toks, pos).kind == LeftBracket
    ensures ParseArrayLiteral(toks, pos) == Ok(Parsed(ArrayLiteral(At(toks, pos), xs), last))
        <==> ListElements(toks, pos, RightBracket, xs, last)
  {
    ExpressionListExactly(toks, pos, RightBracket, xs, last);
  }

  /** A call, with `(` at `pos`, holds the callee and exactly the arguments
      of the list up to its `)`, and carries that `)` token. */
  lemma {:induction false} CallHoldsArguments(toks: TokenStream, f: Expression, pos: nat, args: seq<Expression>, last: nat)
    requires At(toks, pos).kind == LeftParen
    ensures ParseCallExpression(toks, f, pos) == Ok(Parsed(CallExpression(At(toks, last), f, args), last))
        <==> ListElements(toks, pos, RightParen, args, last)
  {
    ExpressionListExactly(toks, pos, RightParen, args, last);
  }

  /** An index expression, with `[` at `pos`, holds the left expression and
      the expression after `[`, read at the lowest precedence, and ends on
      the `]` right after it. */
  lemma {:induction false} IndexHoldsIndex(toks: TokenStream, left: Expression, pos: nat, x: Expression, last: nat)
    requires At(toks, pos).kind == LeftBracket
    ensures ParseIndexExpression(toks, left, pos) == Ok(Parsed(IndexExpression(At(toks, pos), left, x), last))
        <==> last > 0 && At(toks, last).kind == RightBracket &&
             ParseExpression(toks, pos + 1, Lowest) == Ok(Parsed(Some(x), last - 1))
  {
  }

  /** A missing index, or a missing `]` after it, is an error. */
  lemma {:induction false} IndexNeedsIndexThenClose(toks: TokenStream, left: Expression, pos: nat, x: Expression, q: nat)
    requires At(toks, pos).kind == LeftBracket
    ensures !HasPrefixRule(At(toks, pos + 1).kind) ==>
              ParseIndexExpression(toks, left, pos) == Err(ExpressionParsingFailed(At(toks, pos + 1)))
    ensures ParseExpression(toks, pos + 1, Lowest) == Ok(Parsed(Some(x), q)) && At(toks, q + 1).kind != RightBracket ==>
              ParseIndexExpression(toks, left, pos) == Err(PeekTokenNotMatch(RightBracket, At(toks, q + 1).kind))
  {
  }

  /** One pair, after the `{` or `,` at `pos`: the key read at the lowest
      precedence, `:`, and the value read at the lowest precedence, ending
      at `last`. */
  predicate PairAt(toks: TokenStream, pos: nat, p: HashPair, last: nat) {
    var k := ParseExpression(toks, pos + 1, Lowest);
    k.Ok? && k.value.node == Some(p.key) && At(toks, k.value.last + 1).kind == Colon &&
    ParseExpression(toks, k.value.last + 2, Lowest) == Ok(Parsed(Some(p.value), last))
  }

  /** A pair is read exactly when its tokens are a key, `:` and a value. */
  lemma {:induction false} HashPairExactly(toks: TokenStream, pos: nat, p: HashPair, last: nat)
    requires At(toks, pos).kind == LeftBrace || At(toks, pos).kind == Comma
    ensures ParseHashPair(toks, pos) == Ok(Parsed(p, last)) <==> PairAt(toks, pos, p, last)
  {
  }

  /** A key not followed by `:` is an error naming the colon. */
  lemma {:induction false} PairNeedsColon(toks: TokenStream, pos: nat, k: Expression, q: nat)
    requires At(toks, pos).kind == LeftBrace || At(toks, pos).kind == Comma
    requires ParseExpression(toks, pos + 1, Lowest) == Ok(Parsed(Some(k), q))
    requires At(toks, q + 1).kind != Colon
    ensures ParseHashPair(toks, pos) == Err(PeekTokenNotMatch(Colon, At(toks, q + 1).kind))
  {
    assert ConsumeTokenIf(toks, q, Colon) == Err(PeekTokenNotMatch(Colon, At(toks, q + 1).kind));
  }

  /** `:` not followed by a value is an error on the token after it. */
  lemma {:induction false} PairNeedsValue(toks: TokenStream, pos: nat, k: Expression, q: nat)
    requires At(toks, pos).kind == LeftBrace || At(toks, pos).kind == Comma
    requires ParseExpression(toks, pos + 1, Lowest) == Ok(Parsed(Some(k), q))
    requires At(toks, q + 1).kind == Colon && !HasPrefixRule(At(toks, q + 2).kind)
    ensures ParseHashPair(toks, pos) == Err(ExpressionParsingFailed(At(toks, q + 2)))
  {
    var key := ParseExpression(toks, pos + 1, Lowest);
    assert key.value.node == Some(k) && key.value.last == q;
    assert ConsumeTokenIf(toks, q, Colon) == Ok(q + 1);
    var value := ParseExpression(toks, q + 2, Lowest);
    assert value == Ok(Parsed(None, q + 2));
  }

  /** The pairs after the `{` or `,` at `pos`: `}` next (the loop stops on
      `pos`), or a pair and then either `}` (the loop stops on the pair's
      value) or `,` and more pairs. A `,` right before `}` is allowed. */
  predicate PairElements(toks: TokenStream, pos: nat, ps: seq<HashPair>, last: nat)
    decreases |ps|
  {
    (At(toks, pos).kind == LeftBrace || At(toks, pos).kind == Comma) &&
    if |ps| == 0 then At(toks, pos + 1).kind == RightBrace && last == pos
    else
      var p := ParseHashPair(toks, pos);
      At(toks, pos + 1).kind != RightBrace && p.Ok? && p.value.node == ps[0] &&
      if At(toks, p.value.last + 1).kind == RightBrace then |ps| == 1 && last == p.value.last
      else At(toks, p.value.last + 1).kind == Comma && PairElements(toks, p.value.last + 1, ps[1..], last)
  }

  /** A pair followed by `,`: the loop keeps it and goes on from the
      comma. */
  lemma {:induction false} PairThenComma(toks: TokenStream, pos: nat, acc: seq<HashPair>, p: HashPair, q: nat)
    requires At(toks, pos).kind == LeftBrace || At(toks, pos).kind == Comma
    requires At(toks, pos + 1).kind != RightBrace
    requires ParseHashPair(toks, pos) == Ok(Parsed(p, q))
    requires At(toks, q + 1).kind == Comma
    ensures ParseHashPairs(toks, pos, acc) == ParseHashPairs(toks, q + 1, acc + [p])
  {
    assert ConsumeTokenIf(toks, q, Comma) == Ok(q + 1);
  }

  /** A pair followed by `}`: the loop keeps it and stops on its value. */
  lemma {:induction false} PairThenClose(toks: TokenStream, pos: nat, acc: seq<HashPair>, p: HashPair, q: nat)
    requires At(toks, pos).kind == LeftBrace || At(toks, pos).kind == Comma
    requires At(toks, pos + 1).kind != RightBrace
    requires ParseHashPair(toks, pos) == Ok(Parsed(p, q))
    requires At(toks, q + 1).kind == RightBrace
    ensures ParseHashPairs(toks, pos, acc) == Ok(Parsed(acc + [p], q))
  {
  }

  /* Sequence facts used by the loop inductions below. Proved in lemmas of
     their own, they keep the inductions' proofs small. */

  lemma AppendAssociates<T>(a: seq<T>, b: seq<T>, c: seq<T>)
    ensures a + b + c == a + (b + c)
  {
  }

  lemma EmptyPrefix<T>(s: seq<T>)
    ensures [] + s == s
  {
  }

  lemma WholeSuffix<T>(s: seq<T>)
    ensures s[0..] == s
  {
  }

  lemma HeadTail<T>(s: seq<T>)
    requires |s| > 0
    ensures [s[0]] + s[1..] == s
  {
  }

  /** A pair followed by `,` and then more pairs: the loop keeps the pair
      ahead of them. */
  lemma PairsContinue(toks: TokenStream, pos: nat, acc: seq<HashPair>, p: HashPair, q: nat, rest: seq<HashPair>, last: nat)
    requires At(toks, pos).kind == LeftBrace || At(toks, pos).kind == Comma
    requires At(toks, pos + 1).kind != RightBrace
    requires ParseHashPair(toks, pos) == Ok(Parsed(p, q))
    requires At(toks, q + 1).kind == Comma
    requires ParseHashPairs(toks, q + 1, acc + [p]) == Ok(Parsed(acc + [p] + rest, last))
    ensures ParseHashPairs(toks, pos, acc) == Ok(Parsed(acc + ([p] + rest), last))
  {
    PairThenComma(toks, pos, acc, p, q);
    AppendAssociates(acc, [p], rest);
  }

  /** The pair loop accepts any pairs their description allows, appending
      them in source order. */
  lemma {:induction false} HashPairsSound(toks: TokenStream, pos: nat, acc: seq<HashPair>, ps: seq<HashPair>, last: nat)
    requires PairElements(toks, pos, ps, last)
    ensures ParseHashPairs(toks, pos, acc) == Ok(Parsed(acc + ps, last))
    decreases |ps|
  {
    if |ps| == 0 {
      assert acc + ps == acc;
    } else {
      var r := ParseHashPair(toks, pos);
      assert r.Ok? && r.value.node == ps[0];
      var q := r.value.last;
      assert r == Ok(Parsed(ps[0], q));
      if At(toks, q + 1).kind == RightBrace {
        PairThenClose(toks, pos, acc, ps[0], q);
        assert ps == [ps[0]];
      } else {
        assert At(toks, q + 1).kind == Comma && PairElements(toks, q + 1, ps[1..], last);
        HashPairsSound(toks, q + 1, acc + [ps[0]], ps[1..], last);
        PairsContinue(toks, pos, acc, ps[0], q, ps[1..], last);
        HeadTail(ps);
      }
    }
  }

  /** Whatever the pair loop appends is a list of pairs its description
      allows. */
  lemma {:induction false} HashPairsComplete(toks: TokenStream, pos: nat, acc: seq<HashPair>)
    requires At(toks, pos).kind == LeftBrace || At(toks, pos).kind == Comma
    ensures var r := ParseHashPairs(toks, pos, acc);
            r.Ok? ==> PairElements(toks, pos, r.value.node[|acc|..], r.value.last)
    decreases Remaining(toks, pos)
  {
    var r := ParseHashPairs(toks, pos, acc);
    if r.Ok? {
      if At(toks, pos + 1).kind == RightBrace {
        assert r.value.node[|acc|..] == [];
      } else {
        var p := ParseHashPair(toks, pos).value;
        var ps := r.value.node[|acc|..];
        if At(toks, p.last + 1).kind == RightBrace {
          PairThenClose(toks, pos, acc, p.node, p.last);
          assert ps == [p.node];
        } else {
          PairThenComma(toks, pos, acc, p.node, p.last);
          HashPairsComplete(toks, p.last + 1, acc + [p.node]);
          assert ps[0] == p.node && ps[1..] == r.value.node[|acc| + 1..];
        }
      }
    }
  }

  /** A hash literal, standing on `{`, holds exactly the pairs up to its
      `}`, and carries the `{` token. */
  lemma {:induction false} DictionaryHoldsPairs(toks: TokenStream, pos: nat, ps: seq<HashPair>, last: nat)
    requires At(toks, pos).kind == LeftBrace
    ensures ParseDictionaryLiteral(toks, pos) == Ok(Parsed(HashLiteral(At(toks, pos), ps), last))
        <==> last > 0 && PairElements(toks, pos, ps, last - 1)
  {
    var r := ParseHashPairs(toks, pos, []);
    HashPairsComplete(toks, pos, []);
    if r.Ok? {
      ParserProperties.DictionaryOfPairs(toks, pos, r.value.node, r.value.last);
      WholeSuffix(r.value.node);
    }
    if last > 0 && PairElements(toks, pos, ps, last - 1) {
      HashPairsSound(toks, pos, [], ps, last - 1);
      EmptyPrefix(ps);
    }
  }
}
