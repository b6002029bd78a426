/** The syntax tree (Sources/Sema/AST.swift) as immutable datatypes, with
    `tokenLiteral` and `description`, the fully parenthesised text the parser
    tests compare against. `StringLiteral` (spelled `StringLigeral` in the
    source), `ArrayLiteral`, `HashLiteral`, `IndexExpression` and
    `IfStatement` are built by the parser but not declared in that file; they
    carry the fields the parser passes. */
module Ast {
  import opened Results
  import opened Tokens
  import Numerals

  /** An identifier is its token; its name is the token's literal. Two
      identifiers are equal exactly when their tokens (kind and literal) are. */
  datatype Identifier = Id(token: Token)

  datatype Expression =
    | Ident(id: Identifier)
    | IntegerLiteral(token: Token)
    | BooleanLiteral(token: Token)
    | StringLiteral(token: Token)
    | PrefixExpression(token: Token, operator: string, right: Expression)
      // the operator of an infix node is its token's literal
    | InfixExpression(token: Token, left: Expression, right: Expression)
    | IfExpression(token: Token, condition: Expression, consequence: Block, alternative: Option<Block>)
    | FunctionLiteral(token: Token, parameters: seq<Identifier>, body: Block)
    | CallExpression(token: Token, callee: Expression, arguments: seq<Expression>)
    | ArrayLiteral(token: Token, elements: seq<Expression>)
    | HashLiteral(token: Token, pairs: seq<HashPair>)
    | IndexExpression(token: Token, left: Expression, index: Expression)

  /** One `key : value` entry of a hash literal, in source order. */
  datatype HashPair = HashPair(key: Expression, value: Expression)

  datatype Block = Block(token: Token, statements: seq<Statement>)

  datatype Statement =
    | LetStatement(token: Token, name: Identifier, value: Expression)
    | ReturnStatement(token: Token, value: Expression)
    | ExpressionStatement(token: Token, expression: Expression)
    | BlockStatement(block: Block)
    | IfStatement(token: Token, condition: Expression, consequence: Block, alternative: Option<Block>)

  /** `Program`, which the parser returns under the name `SourceFile`. */
  datatype Program = Program(statements: seq<Statement>)

  /** Anything the evaluator can be handed. */
  datatype Node = ProgramNode(program: Program) | StatementNode(statement: Statement) | ExpressionNode(expression: Expression)

  /** `joined(separator:)`. */
  function Join(parts: seq<string>, separator: string): string {
    if |parts| == 0 then ""
    else if |parts| == 1 then parts[0]
    else Join(parts[..|parts| - 1], separator) + separator + parts[|parts| - 1]
  }

  /** The names of a parameter list. */
  function Names(ids: seq<Identifier>): (names: seq<string>)
    ensures |names| == |ids|
    ensures forall i :: 0 <= i < |ids| ==> names[i] == ids[i].token.literal
  {
    if |ids| == 0 then [] else Names(ids[..|ids| - 1]) + [ids[|ids| - 1].token.literal]
  }

  function Describe(e: Expression): string
    decreases e, 1
  {
    match e
    case Ident(id) => id.token.literal
    case IntegerLiteral(t) => t.literal
    case BooleanLiteral(t) => t.literal
    case StringLiteral(t) => t.literal
    case PrefixExpression(_, op, right) => "(" + op + Describe(right) + ")"
    case InfixExpression(t, left, right) => "(" + Describe(left) + " " + t.literal + " " + Describe(right) + ")"
    case IfExpression(_, c, cons, alt) =>
      "if " + Describe(c) + " " + DescribeBlock(cons) + DescribeElse(alt)
    case FunctionLiteral(t, params, body) => t.literal + "(" + Join(Names(params), ", ") + ")" + DescribeBlock(body)
    case CallExpression(_, f, args) => Describe(f) + "(" + Join(DescribeAll(args), ", ") + ")"
    case ArrayLiteral(_, elements) => "[" + Join(DescribeAll(elements), ", ") + "]"
    case HashLiteral(_, pairs) => "{" + Join(DescribePairs(pairs), ", ") + "}"
    case IndexExpression(_, left, index) => "(" + Describe(left) + "[" + Describe(index) + "])"
  }

  function DescribeElse(alt: Option<Block>): string
    decreases alt
  {
    match alt
    case Some(b) => "else " + DescribeBlock(b)
    case None => ""
  }

  function DescribeAll(es: seq<Expression>): (ds: seq<string>)
    ensures |ds| == |es|
    decreases es
  {
    if |es| == 0 then [] else DescribeAll(es[..|es| - 1]) + [Describe(es[|es| - 1])]
  }

  function DescribePairs(ps: seq<HashPair>): (ds: seq<string>)
    ensures |ds| == |ps|
    decreases ps
  {
    if |ps| == 0 then []
    else DescribePairs(ps[..|ps| - 1]) + [DescribePair(ps[|ps| - 1])]
  }

  /** A pair prints as `key:value`. No source file declares the hash node or
      its text, so this form is assumed; the array and index forms follow the
      precedence tests. */
  function DescribePair(p: HashPair): string
    decreases p
  {
    Describe(p.key) + ":" + Describe(p.value)
  }

  function DescribeStatement(s: Statement): string
    decreases s
  {
    match s
    case LetStatement(t, name, value) => t.literal + " " + name.token.literal + " = " + Describe(value) + ";"
    case ReturnStatement(t, value) => t.literal + " " + Describe(value) + ";"
    case ExpressionStatement(_, e) => Describe(e)
    case BlockStatement(b) => DescribeBlock(b)
    case IfStatement(_, c, cons, alt) =>
      "if " + Describe(c) + " " + DescribeBlock(cons) + DescribeElse(alt)
  }

  function DescribeBlock(b: Block): string
    decreases b
  {
    DescribeStatements(b.statements)
  }

  /** The `reduce("")` over the statements: each description appended to
      the text so far, with no separator. */
  function DescribeStatements(ss: seq<Statement>): string
    decreases ss
  {
    if |ss| == 0 then "" else DescribeStatements(ss[..|ss| - 1]) + DescribeStatement(ss[|ss| - 1])
  }

  function DescribeProgram(p: Program): string {
    DescribeStatements(p.statements)
  }

  function ExpressionTokenLiteral(e: Expression): string {
    match e
    case Ident(id) => id.token.literal
    case _ => e.token.literal
  }

  function StatementTokenLiteral(s: Statement): string {
    match s
    case BlockStatement(b) => b.token.literal
    case _ => s.token.literal
  }

  /** `Program.tokenLiteral`: empty for no statements, otherwise the first
      statement's. */
  function ProgramTokenLiteral(p: Program): string {
    if |p.statements| == 0 then "" else StatementTokenLiteral(p.statements[0])
  }

  /** `IntegerLiteral.value`: the literal read as a 64-bit integer, or 0 when
      it does not parse. */
  function IntegerValue(t: Token): (v: Numerals.Int64)
    ensures Numerals.ParseInt64(t.literal).Some? ==> v == Numerals.ParseInt64(t.literal).value
    ensures Numerals.ParseInt64(t.literal).None? ==> v == 0
    ensures |t.literal| > 0 && Numerals.AllDigits(t.literal) ==>
              v == if Numerals.DigitsValue(t.literal) <= Numerals.MaxInt64 then Numerals.DigitsValue(t.literal) else 0
  {
    match Numerals.ParseInt64(t.literal)
    case Some(v) => v
    case None => 0
  }

  /** Swift's `Bool(text)`: only the exact spellings parse. */
  function ParseBool(s: string): Option<bool> {
    if s == "true" then Some(true) else if s == "false" then Some(false) else None
  }

  /** `Boolean.value`: `Bool(literal) ?? false`. */
  function BooleanValue(t: Token): bool {
    match ParseBool(t.literal)
    case Some(b) => b
    case None => false
  }

  /** A boolean node is true exactly when its literal is "true". */
  lemma BooleanValueIsTrueSpelling(t: Token)
    ensures BooleanValue(t) <==> t.literal == "true"
  {
  }

  /** A number token made from the decimal spelling of a 64-bit value reads
      back as that value. */
  lemma IntegerValueRoundTrip(v: Numerals.Int64)
    ensures IntegerValue(MakeNumber(Numerals.DecimalString(v))) == v
  {
    Numerals.DecimalRoundTrip(v);
  }

  /** A digit run too large for 64 bits reads as 0. */
  lemma IntegerValueOverflowIsZero(s: string)
    requires |s| > 0 && Numerals.AllDigits(s)
    requires Numerals.DigitsValue(s) > Numerals.MaxInt64
    ensures IntegerValue(MakeNumber(s)) == 0
  {
    assert s[0] != '-' && s[0] != '+';
  }

  /** Joining two non-empty lists puts exactly one separator between them. */
  lemma {:induction false} JoinAppend(xs: seq<string>, ys: seq<string>, separator: string)
    requires |xs| > 0 && |ys| > 0
    ensures Join(xs + ys, separator) == Join(xs, separator) + separator + Join(ys, separator)
    decreases |ys|
  {
    if |ys| == 1 {
      assert (xs + ys)[..|xs + ys| - 1] == xs;
    } else {
      var ys' := ys[..|ys| - 1];
      assert (xs + ys)[..|xs + ys| - 1] == xs + ys';
      JoinAppend(xs, ys', separator);
    }
  }

  /** Program and block text is the plain concatenation of the statements'
      text: splitting the statement list splits the description. */
  lemma {:induction false} DescribeStatementsAppend(xs: seq<Statement>, ys: seq<Statement>)
    ensures DescribeStatements(xs + ys) == DescribeStatements(xs) + DescribeStatements(ys)
    decreases |ys|
  {
    if |ys| == 0 {
      assert xs + ys == xs;
    } else {
      var ys' := ys[..|ys| - 1];
      assert (xs + ys)[..|xs + ys| - 1] == xs + ys';
      DescribeStatementsAppend(xs, ys');
    }
  }

  /** The description of a let statement built as in the AST test. */
  lemma LetStatementExample()
    ensures DescribeProgram(Program([LetStatement(TokenOf(Let), Id(MakeIdentifier("x")), IntegerLiteral(MakeNumber("5")))]))
            == "let x = 5;"
  {
  }
}
