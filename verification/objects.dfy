/** Runtime values (Sources/AST/Object.swift) with their type tags
    (Sources/AST/ObjectType.swift). The Swift `Object` protocol is a closed
    sum here. A function value captures an environment; since environments
    hold objects, the two types are declared together. */
module Objects {
  import opened Results
  import opened Tokens
  import opened Ast
  import Numerals

  /** `ObjectType`, a string-backed enumeration. */
  datatype ObjectType =
    | IntegerType | BooleanType | StringType | ArrayType
    | NullType | ReturnType | FunctionType | BuiltinType
  {
    /** The enumeration's raw value: the case name. */
    function RawValue(): string {
      match this
      case IntegerType => "integer"
      case BooleanType => "boolean"
      case StringType => "string"
      case ArrayType => "array"
      case NullType => "null"
      case ReturnType => "return"
      case FunctionType => "function"
      case BuiltinType => "builtin"
    }
  }

  const AllObjectTypes: seq<ObjectType> :=
    [IntegerType, BooleanType, StringType, ArrayType, NullType, ReturnType, FunctionType, BuiltinType]

  /** `ObjectType(rawValue:)`: the case whose raw value is `s`, if any. */
  function ObjectTypeFromRaw(s: string): (r: Option<ObjectType>)
    ensures r.Some? ==> r.value.RawValue() == s
  {
    if s == "integer" then Some(IntegerType)
    else if s == "boolean" then Some(BooleanType)
    else if s == "string" then Some(StringType)
    else if s == "array" then Some(ArrayType)
    else if s == "null" then Some(NullType)
    else if s == "return" then Some(ReturnType)
    else if s == "function" then Some(FunctionType)
    else if s == "builtin" then Some(BuiltinType)
    else None
  }

  datatype Object =
    | Integer(value: Numerals.Int64)
    | Boolean(truth: bool)
    | Null
    | ReturnValue(inner: Object)
    | Function(parameters: seq<Identifier>, body: Block, environment: Environment)

  /** A single frame of bindings (Sources/AST/Environment.swift). Identifiers
      are keys by value: equal exactly when their tokens are. */
  datatype Environment = Environment(store: map<Identifier, Object>)

  /** The `type` of each object. */
  function TypeOf(o: Object): ObjectType {
    match o
    case Integer(_) => IntegerType
    case Boolean(_) => BooleanType
    case Null => NullType
    case ReturnValue(_) => ReturnType
    case Function(_, _, _) => FunctionType
  }

  /** `inspect()`: a return value shows what it wraps; a function shows its
      parameters and its body on a line of its own. */
  function Inspect(o: Object): string {
    match o
    case Integer(v) => Numerals.DecimalString(v)
    case Boolean(b) => if b then "true" else "false"
    case Null => NullType.RawValue()
    case ReturnValue(inner) => Inspect(inner)
    case Function(parameters, body, _) =>
      "fn(" + Join(Names(parameters), ", ") + ") {\n" + DescribeBlock(body) + "\n}"
  }

  /** Every tag is recovered from its raw value, and only tags' raw values
      name a tag. */
  lemma RawValueRoundTrip(t: ObjectType)
    ensures ObjectTypeFromRaw(t.RawValue()) == Some(t)
  {
  }

  lemma RawValueInjective(s: ObjectType, t: ObjectType)
    ensures s.RawValue() == t.RawValue() <==> s == t
  {
    RawValueRoundTrip(s);
    RawValueRoundTrip(t);
  }

  /** `o` wrapped in `n` return values. */
  function Wrap(o: Object, n: nat): (w: Object)
    ensures n > 0 ==> TypeOf(w) == ReturnType
  {
    if n == 0 then o else ReturnValue(Wrap(o, n - 1))
  }

  /** A return value inspects exactly as the object it wraps, at any depth. */
  lemma {:induction false} ReturnValueIsTransparent(o: Object, n: nat)
    ensures Inspect(Wrap(o, n)) == Inspect(o)
  {
    if n > 0 {
      ReturnValueIsTransparent(o, n - 1);
    }
  }

  /** An integer inspects as a decimal that reads back as the same value. */
  lemma IntegerInspectRoundTrip(v: Numerals.Int64)
    ensures TypeOf(Integer(v)) == IntegerType
    ensures Numerals.ParseInt64(Inspect(Integer(v))) == Some(v)
  {
    Numerals.DecimalRoundTrip(v);
  }

  /** A boolean inspects as the spelling Swift's `Bool(_:)` reads back. */
  lemma BooleanInspectRoundTrip(b: bool)
    ensures TypeOf(Boolean(b)) == BooleanType
    ensures ParseBool(Inspect(Boolean(b))) == Some(b)
  {
  }

  /** Null inspects as its own tag's raw value. */
  lemma NullInspectsAsTag()
    ensures Inspect(Null) == "null" && ObjectTypeFromRaw(Inspect(Null)) == Some(TypeOf(Null))
  {
  }

  /** A function value shows the same header as the function literal it
      comes from, then the body between braces on its own lines; the
      captured environment does not show. */
  lemma FunctionInspectMatchesLiteral(fnToken: Token, parameters: seq<Identifier>, body: Block, env: Environment)
    requires fnToken.literal == "fn"
    ensures var header := Describe(FunctionLiteral(fnToken, parameters, body));
            var shown := DescribeBlock(body);
            |header| >= |shown| &&
            header[|header| - |shown|..] == shown &&
            Inspect(Object.Function(parameters, body, env)) == header[..|header| - |shown|] + " {\n" + shown + "\n}"
  {
    var header := Describe(FunctionLiteral(fnToken, parameters, body));
    var open := "fn(" + Join(Names(parameters), ", ") + ")";
    assert header == open + DescribeBlock(body);
    assert header[..|header| - |DescribeBlock(body)|] == open;
  }
}
