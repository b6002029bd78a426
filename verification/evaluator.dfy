/** The evaluator of Sources/AST/Evaluator.swift: programs, expression
    statements, integer and boolean literals. Every other node is an
    `unknownNode` error carrying that node. */
module Evaluator {
  import opened Results
  import opened Tokens
  import opened Ast
  import opened Objects
  import Numerals

  datatype EvaluatorError =
    | UnknownNode(node: Node)
    | NoValidExpression(statements: seq<Statement>)

  /** `toBooleanObject`. */
  function ToBooleanObject(b: bool): (o: Object)
    ensures TypeOf(o) == BooleanType && Inspect(o) == (if b then "true" else "false")
  {
    if b then Boolean(true) else Boolean(false)
  }

  /** `evaluate(astNode:)` on the three kinds of node. */
  function Evaluate(node: Node): Result<Object, EvaluatorError> {
    match node
    case ProgramNode(p) => EvaluateStatements(p.statements)
    case StatementNode(s) => EvaluateStatement(s)
    case ExpressionNode(e) => EvaluateExpression(e)
  }

  function EvaluateExpression(e: Expression): (r: Result<Object, EvaluatorError>)
    ensures r.Err? ==> r.error == UnknownNode(ExpressionNode(e))
  {
    match e
    case IntegerLiteral(t) => Ok(Integer(IntegerValue(t)))
    case BooleanLiteral(t) => Ok(ToBooleanObject(BooleanValue(t)))
    case _ => Err(UnknownNode(ExpressionNode(e)))
  }

  /** An expression statement evaluates to its expression's value. */
  function EvaluateStatement(s: Statement): (r: Result<Object, EvaluatorError>)
    ensures s.ExpressionStatement? ==> r == EvaluateExpression(s.expression)
    ensures !s.ExpressionStatement? ==> r == Err(UnknownNode(StatementNode(s)))
  {
    match s
    case ExpressionStatement(_, e) => EvaluateExpression(e)
    case _ => Err(UnknownNode(StatementNode(s)))
  }

  /** `statements.map(evaluate)`: every statement in order; the first
      failure is the outcome and nothing after it is evaluated. */
  function EvaluateAll(ss: seq<Statement>): (r: Result<seq<Object>, EvaluatorError>)
    ensures r.Ok? <==> forall i :: 0 <= i < |ss| ==> EvaluateStatement(ss[i]).Ok?
    ensures r.Ok? ==> |r.value| == |ss| && forall i :: 0 <= i < |ss| ==> r.value[i] == EvaluateStatement(ss[i]).value
    ensures r.Err? ==> exists i :: 0 <= i < |ss| && FirstFailure(ss, i) && r.error == EvaluateStatement(ss[i]).error
  {
    if |ss| == 0 then Ok([])
    else
      var first :- EvaluateStatement(ss[0]);
      var rest :- EvaluateAll(ss[1..]);
      Ok([first] + rest)
  }

  /** Statement `i` is the first one that fails. */
  predicate FirstFailure(ss: seq<Statement>, i: nat)
    requires i < |ss|
  {
    EvaluateStatement(ss[i]).Err? && forall j :: 0 <= j < i ==> EvaluateStatement(ss[j]).Ok?
  }

  /** `evaluateStatements`: the value of the last statement once all have
      evaluated, and `noValidExpression` when there are none. */
  function EvaluateStatements(ss: seq<Statement>): (r: Result<Object, EvaluatorError>)
    ensures r.Ok? <==> |ss| > 0 && forall i :: 0 <= i < |ss| ==> EvaluateStatement(ss[i]).Ok?
    ensures r.Ok? ==> r.value == EvaluateStatement(ss[|ss| - 1]).value
    ensures |ss| == 0 ==> r == Err(NoValidExpression(ss))
  {
    var objects :- EvaluateAll(ss);
    if |objects| == 0 then Err(NoValidExpression(ss)) else Ok(objects[|objects| - 1])
  }

  /** The first failing statement decides the program's error. */
  lemma {:induction false} FirstFailureAborts(ss: seq<Statement>, i: nat)
    requires i < |ss| && FirstFailure(ss, i)
    ensures EvaluateStatements(ss) == Err(EvaluateStatement(ss[i]).error)
  {
    assert EvaluateAll(ss).Err?;
    var k :| 0 <= k < |ss| && FirstFailure(ss, k) && EvaluateAll(ss).error == EvaluateStatement(ss[k]).error;
    FirstFailureUnique(ss, i, k);
  }

  /** Whatever follows the first failing statement has no effect on the
      outcome. */
  lemma {:induction false} LaterStatementsIgnored(ss: seq<Statement>, i: nat, later: seq<Statement>)
    requires i < |ss| && FirstFailure(ss, i)
    ensures EvaluateStatements(ss[..i + 1] + later) == EvaluateStatements(ss)
  {
    var ts := ss[..i + 1] + later;
    assert forall j :: 0 <= j <= i ==> ts[j] == ss[j];
    assert FirstFailure(ts, i);
    FirstFailureAborts(ss, i);
    FirstFailureAborts(ts, i);
  }

  lemma FirstFailureUnique(ss: seq<Statement>, i: nat, k: nat)
    requires i < |ss| && k < |ss| && FirstFailure(ss, i) && FirstFailure(ss, k)
    ensures i == k
  {
  }

  /** A program's value is its last statement's value. */
  lemma ProgramValueIsLast(p: Program)
    requires |p.statements| > 0
    requires forall i :: 0 <= i < |p.statements| ==> EvaluateStatement(p.statements[i]).Ok?
    ensures Evaluate(ProgramNode(p)) == EvaluateStatement(p.statements[|p.statements| - 1])
  {
  }

  /** A program with no statements is the `noValidExpression` error. */
  lemma EmptyProgramIsError()
    ensures Evaluate(ProgramNode(Program([]))) == Err(NoValidExpression([]))
  {
  }

  /** The statements the evaluator supports: expression statements whose
      expression is an integer or boolean literal. */
  predicate Supported(s: Statement) {
    s.ExpressionStatement? && (s.expression.IntegerLiteral? || s.expression.BooleanLiteral?)
  }

  lemma SupportedExactly(s: Statement)
    ensures EvaluateStatement(s).Ok? <==> Supported(s)
  {
  }

  /** A number literal, as the lexer produces it (a run of digits, leading
      zeros allowed), evaluates to the integer the digits denote when that
      fits in 64 bits, and to 0 when it does not. */
  lemma IntegerLiteralValue(s: string)
    requires |s| > 0 && Numerals.AllDigits(s)
    ensures var n := Numerals.DigitsValue(s);
            EvaluateExpression(IntegerLiteral(MakeNumber(s))) == Ok(Integer(if n <= Numerals.MaxInt64 then n else 0))
  {
  }

  /** A number literal spelled as a 64-bit value's decimal text evaluates to
      that value, which inspects as that spelling again. */
  lemma IntegerLiteralInspects(v: Numerals.Int64)
    ensures EvaluateExpression(IntegerLiteral(MakeNumber(Numerals.DecimalString(v)))) == Ok(Integer(v))
    ensures Inspect(Integer(v)) == Numerals.DecimalString(v)
  {
    IntegerValueRoundTrip(v);
  }

  /** A boolean literal evaluates to true exactly when it is spelled
      `true`. */
  lemma BooleanLiteralValue(t: Token)
    ensures EvaluateExpression(BooleanLiteral(t)) == Ok(Boolean(t.literal == "true"))
  {
    BooleanValueIsTrueSpelling(t);
  }

  /** An identifier is not evaluated: it is reported as an unknown node. */
  lemma IdentifierIsUnknown(t: Token)
    ensures Evaluate(ProgramNode(Program([ExpressionStatement(t, Ident(Id(t)))])))
         == Err(UnknownNode(ExpressionNode(Ident(Id(t)))))
  {
  }
}
