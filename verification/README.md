# Monkey front end in Dafny

A model of the front end of a Swift interpreter for the Monkey language. It
covers:

- the token table: token kinds, the symbol and keyword tables, and the fixed
  literal of each kind;
- the lexer: maximal-munch identifiers and numbers, quoted strings, and a
  one-character look-ahead for `==` and `!=`;
- the syntax tree and its `description` printer;
- the Pratt parser: statements, prefix and infix rules, and precedence
  climbing;
- runtime objects and their `inspect()` text;
- the single-frame environment;
- the small evaluator, which handles programs, expression statements, and
  integer and boolean literals.

Everything is immutable data and pure functions.

- The lexer is a function of the input text and a position. Each token except
  `Eof` and `Illegal` consumes at least one character.
- The parser works on the token sequence the lexer yields. That sequence ends
  with the `Eof` or `Illegal` token the lexer then repeats forever. Each parse
  function takes the position of the current token. It returns the node and
  the position of the last token it read.
- Termination uses the number of tokens left, paired with a rank per parse
  function.
- Swift's `throws` becomes a `Result` value. The parser's errors are
  `noValidStatements`, `peekTokenNotMatch(expected, actual)` and
  `expressionParsingFailed(token)`. The evaluator's errors are
  `unknownNode(node)` and `noValidExpression(statements)`.

Files, one module each:

| file | module | contents |
|---|---|---|
| `results.dfy` | `Results` | `Option` and `Result` |
| `tokens.dfy` | `Tokens` | token kinds, the tables, literals |
| `numerals.dfy` | `Numerals` | `Int64(String)` and the decimal rendering |
| `lexer.dfy` | `Lexer` | the lexer |
| `ast.dfy` | `Ast` | the syntax tree and printer |
| `parser.dfy` | `Parser` | the parser |
| `parser_props.dfy` | `ParserProperties` | lemmas about expressions, precedence and the statement loop |
| `statement_props.dfy` | `StatementProperties` | lemmas about the statement loops, statements, blocks and function literals |
| `list_props.dfy` | `ListProperties` | lemmas about expression lists, index expressions and hash pairs |
| `objects.dfy` | `Objects` | objects and their type tags |
| `environment.dfy` | `Environments` | the environment |
| `evaluator.dfy` | `Evaluator` | the evaluator |
| `pipeline.dfy` | `Pipeline` | lex, parse and evaluate end to end |

The lexer never produces `[`, `]` or `:`. So the lemmas about arrays,
indexing and hash literals are stated over token sequences rather than over
text.

Where the tests and the code disagree, the model follows the code:

- `if` is parsed only where a statement starts, into an `IfStatement`
  (Sources/Sema/Parser.swift:53). The tests expect an `if` expression.
- A prefix node carries the token the parser stands on after its operand
  (Sources/Sema/Parser.swift:197), not the operator token.
- A call node carries the closing `)` (Sources/Sema/Parser.swift:217).

`PrecedenceKind` is not part of this model's sources. Its order follows the
`Precedence` enumeration in Sources/Parser/Constants.swift:8-16. Its token
mapping is fixed by the precedence tests in
Tests/SemaTests/ParserTests.swift:119-145:

- `==` and `!=` are equals;
- `<` and `>` are less-or-greater;
- `+` and `-` are sum;
- `*` and `/` are product;
- `(` and `[` are call;
- every other token is lowest.

## Model

| member | source | states |
|---|---|---|
| Tokens.SymbolFromRaw | Sources/Syntax/TokenSymbol.swift:8-27 | `TokenSymbol(rawValue:)`: any symbol found is spelled by the given character |
| Tokens.SymbolRawRoundTrip | Sources/Syntax/TokenSymbol.swift:8-27 | every symbol is found again from its character, so no two symbols share a character |
| Tokens.KeywordFromRaw | Sources/Syntax/TokenKeyword.swift:8-16 | `TokenKeyword(rawValue:)` finds a keyword exactly for the seven reserved spellings, and the keyword found is spelled by the text |
| Tokens.KeywordRawRoundTrip | Sources/Syntax/TokenKeyword.swift:8-16 | every keyword is found again from its spelling |
| Tokens.SymbolOf | Sources/Syntax/Token.swift:90-108 | the symbol that spells a one-character kind is never the quotation mark |
| Tokens.TokenOf | Sources/Syntax/Token.swift:80-119 | `Token(type:)` keeps the kind; it is only defined for kinds with a fixed literal |
| Tokens.KindOfSymbol | Sources/Syntax/Token.swift:22-48 | `TokenType(symbol:)`: `unknown` exactly for characters outside the symbol table; otherwise a one-character kind whose literal is that character, so `=` gives `assign` and never `equal` |
| Tokens.SymbolKind | Sources/Syntax/Token.swift:28-47 | each symbol other than the quotation mark maps to a one-character kind spelled by that symbol |
| Tokens.KindOfIdentifier | Sources/Syntax/Token.swift:56-71 | `TokenType(identifier:)`: `identifier` exactly for text that is not a reserved word; otherwise a keyword kind whose literal is the text |
| Tokens.KeywordKind | Sources/Syntax/Token.swift:62-70 | each keyword maps to a keyword kind spelled by that keyword |
| Tokens.MakeIdentifier | Sources/Syntax/Token.swift:126-129 | `makeIdentifier` keeps the text as the literal; the kind is `identifier` or a keyword |
| Tokens.MakeNumber | Sources/Syntax/Token.swift:131-134 | `makeNumber` gives kind `int` and keeps the text as the literal |
| Tokens.MakeString | Sources/Syntax/Token.swift:136-138 | `makeString` gives kind `string` and keeps the text as the literal |
| Tokens.KindOfLiteral | Sources/Syntax/Token.swift:80-119 | reads the literal table backwards: any kind returned has no scanned literal, and its fixed literal is the text |
| Tokens.KeywordRoundTrip | Sources/Syntax/Token.swift:109-115 | for every keyword kind, `TokenType(identifier:)` of its literal is that kind |
| Tokens.SymbolRoundTrip | Sources/Syntax/Token.swift:22-48 | for every one-character kind, its literal is one character other than `"`, and `TokenType(symbol:)` maps it back to the kind |
| Tokens.LiteralRoundTrip | Sources/Syntax/Token.swift:80-119 | every kind with a fixed literal ("EOF", "Illegal", "", "==", "!=", symbols, keywords) is recovered from that literal |
| Tokens.LiteralInjective | Sources/Syntax/Token.swift:80-119 | two kinds with the same fixed literal are the same kind |
| Numerals.ParseInt64 | Sources/Sema/AST.swift:276-279 | Swift's `Int64(text)`: a value only for a digit run, optionally after one `+` or `-`; the value the digits denote (negated after `-`) exactly when it fits in 64 bits, nothing otherwise |
| Numerals.LeadingZeroValue | Sources/Sema/AST.swift:278 | a leading zero does not change the value of a digit run |
| Numerals.PaddingIgnored | Sources/Sema/AST.swift:278 | `Int64` reads a digit run the same with a leading `0` or `+` |
| Numerals.DigitsRoundTrip | Sources/AST/Object.swift:28-30 | the decimal digits of a natural number read back as that number |
| Numerals.DecimalRoundTrip | Sources/AST/Object.swift:28-30 | the decimal text of every 64-bit integer, sign included, parses back as that integer |
| Lexer.Peek | Sources/Lexer/Lexer.swift:120-126 | `peekCharacter` with a bounds-checked guard: the next character exactly when there is one |
| Lexer.PeekAgreesWhereDefined | Sources/Lexer/Lexer.swift:120-126 | the guard as written traps exactly when the lexer stands on the last character; everywhere else it agrees with the checked peek |
| Lexer.PeekTrapsOnTrailingAssign | Sources/Lexer/Lexer.swift:120-126 | on the input "=" the guard as written subscripts past the end, where the checked peek answers nil |
| Lexer.SkipWhitespace | Sources/Lexer/Lexer.swift:128-135 | `skipWhitespace` passes over exactly the run of spaces, tabs, line feeds and carriage returns |
| Lexer.ReadWhile | Sources/Lexer/Lexer.swift:91-100 | `readCharacter(while:)` ends at the end of the longest run of the character class |
| Lexer.ReadString | Sources/Lexer/Lexer.swift:106-114 | `readString` gives the text up to the next quotation mark, with no `"` in it, and steps past the closing mark |
| Lexer.SingleCharKind | Sources/Lexer/Lexer.swift:35-63 | the one-character cases of `nextToken` give a one-character kind whose literal is that character |
| Lexer.ScanToken | Sources/Lexer/Lexer.swift:29-77 | `Eof` exactly at the end; `Eof` and `Illegal` do not advance; every other token advances, and its literal is the text it consumed (strings excepted) |
| Lexer.NextToken | Sources/Lexer/Lexer.swift:24-78 | `nextToken` skips whitespace first; `Eof` exactly when only whitespace is left; `Eof` and `Illegal` stay on the skipped position; every other token consumes text |
| Lexer.Tokenize | Sources/Sema/Parser.swift:415-418 | the tokens the parser pulls, up to the first `Eof` or `Illegal`, which ends the sequence and appears nowhere earlier |
| Lexer.Lex | Sources/Sema/Parser.swift:24-29 | the whole input's stream is non-empty and ends with `Eof` or `Illegal` |
| Lexer.StuckTokenRepeats | Sources/Lexer/Lexer.swift:70-73 | asking again after `Eof` or `Illegal` yields the same token at the same position |
| Lexer.TokenizeMatchesPull | Sources/Sema/Parser.swift:415-418 | the stream, with its last token repeated past its end, equals calling `nextToken` over and over |
| Lexer.PullStuck | Sources/Lexer/Lexer.swift:70-73 | once stuck on `Eof` or `Illegal`, every later call yields that token |
| Lexer.LiteralIsConsumedText | Sources/Lexer/Lexer.swift:24-78 | every token except `Eof`, `Illegal` and strings carries exactly the text it consumed after the whitespace |
| Lexer.WhitespaceNeverInLiteral | Sources/Lexer/Lexer.swift:128-135 | no token other than a string has whitespace in its literal |
| Lexer.TwoCharacterOperators | Sources/Lexer/Lexer.swift:30-43 | `==` and `!=` are single two-character tokens; `=` or `!` without a following `=` is `assign` or `bang` |
| Lexer.IdentifierIsMaximalLetterRun | Sources/Lexer/Lexer.swift:91-104 | an identifier is the longest run of letters and `_`, classified by the keyword table |
| Lexer.NumberIsMaximalDigitRun | Sources/Lexer/Lexer.swift:116-118 | an integer token is the longest run of decimal digits |
| Lexer.StringIsTextBetweenQuotes | Sources/Lexer/Lexer.swift:106-114 | a string token holds exactly the characters between the quotes, with no escapes; an unterminated string takes the rest of the input |
| Lexer.IllegalIsNotConsumed | Sources/Lexer/Lexer.swift:29-74 | `illegal` exactly for a character that starts no token (`[`, `]` and `:` among them); it carries "Illegal" and does not advance |
| Lexer.EndOfInputIsEof | Sources/Lexer/Lexer.swift:70-71 | at the end of the input the lexer answers `Eof` and stays put |
| Lexer.OperatorLineBangMinus | Tests/LexerTests/LexerTests.swift:43 | on the test line `!-/*5;`, `nextToken` gives bang then minus, one character each |
| Lexer.OperatorLineSlashAsterisk | Tests/LexerTests/LexerTests.swift:43 | on the same line, slash then asterisk follow, one character each |
| Lexer.OperatorLineNumber | Tests/LexerTests/LexerTests.swift:43 | the `5` of that line is an integer token spelled "5" |
| Lexer.OperatorLineEnd | Tests/LexerTests/LexerTests.swift:43 | the line ends with a semicolon and then `Eof`, which does not advance |
| Ast.IntegerValue | Sources/Sema/AST.swift:276-279 | the value `Int64(literal)` parses, 0 when it parses nothing; for a digit run, its value when that fits in 64 bits and 0 otherwise |
| Ast.BooleanValueIsTrueSpelling | Sources/Sema/AST.swift:296-299 | a boolean node is true exactly when its literal is "true" |
| Ast.IntegerValueRoundTrip | Sources/Sema/AST.swift:276-279 | a number token spelled as the decimal text of a 64-bit value reads back as that value |
| Ast.IntegerValueOverflowIsZero | Sources/Sema/AST.swift:278 | a digit run too large for 64 bits reads as 0 |
| Ast.JoinAppend | Sources/Sema/AST.swift:215-218 | joining two non-empty lists puts exactly one separator between them |
| Ast.DescribeStatementsAppend | Sources/Sema/AST.swift:35-39 | program and block text is the plain concatenation of the statements' text |
| Ast.LetStatementExample | Tests/SemaTests/AstTests.swift:37 | `let x = 5` built as in the test prints "let x = 5;" |
| Objects.ObjectTypeFromRaw | Sources/AST/ObjectType.swift:8-17 | `ObjectType(rawValue:)`: any tag found has that raw value |
| Objects.RawValueRoundTrip | Sources/AST/ObjectType.swift:8-17 | every tag is found again from its raw value |
| Objects.RawValueInjective | Sources/AST/ObjectType.swift:8-17 | two tags have the same raw value exactly when they are the same tag |
| Objects.ReturnValueIsTransparent | Sources/AST/Object.swift:71-78 | a return value inspects exactly as the object it wraps, at any depth |
| Objects.IntegerInspectRoundTrip | Sources/AST/Object.swift:23-30 | an integer has tag `integer` and inspects as decimal text that parses back as the same value |
| Objects.BooleanInspectRoundTrip | Sources/AST/Object.swift:41-48 | a boolean has tag `boolean` and inspects as the spelling `Bool(_:)` reads back |
| Objects.NullInspectsAsTag | Sources/AST/Object.swift:53-60 | null inspects as "null", the raw value of its own tag |
| Objects.FunctionInspectMatchesLiteral | Sources/AST/Object.swift:93-101 | a function inspects as its literal's header `fn(params)`, then the body between braces on lines of its own; the environment does not show |
| Environments.Empty | Sources/AST/Environment.swift:21-23 | a fresh environment has no binding for any identifier |
| Environments.Set | Sources/AST/Environment.swift:29-31 | after `set`, the identifier yields the object; every other identifier yields what it did before |
| Environments.SetOverwrites | Sources/AST/Environment.swift:29-31 | a second `set` of the same identifier replaces the first as if it had never been made |
| Environments.SetCommutes | Sources/AST/Environment.swift:29-31 | bindings of distinct identifiers can be made in either order |
| Environments.KeysCompareWholeTokens | Sources/Sema/AST.swift:242-247 | keys are whole tokens: the same spelling with another kind is a different key |
| Environments.LookupDeterminesFrame | Sources/AST/Environment.swift:17-32 | a frame is determined by its lookups alone; there is no outer frame behind it |
| Evaluator.ToBooleanObject | Sources/AST/Evaluator.swift:12-20 | a boolean object with the given truth, inspecting as "true" or "false" |
| Evaluator.EvaluateExpression | Sources/AST/Evaluator.swift:24-37 | an expression fails only as `unknownNode` carrying that expression |
| Evaluator.EvaluateStatement | Sources/AST/Evaluator.swift:28-29 | an expression statement has its expression's value; every other statement is `unknownNode` carrying it |
| Evaluator.EvaluateAll | Sources/AST/Evaluator.swift:40 | `map(evaluate)`: succeeds exactly when every statement does, with their values in order; otherwise fails with the first failing statement's error |
| Evaluator.EvaluateStatements | Sources/AST/Evaluator.swift:39-44 | succeeds exactly when there are statements and all evaluate; the value is the last one's; no statements is `noValidExpression` |
| Evaluator.FirstFailureAborts | Sources/AST/Evaluator.swift:40 | the first failing statement's error is the program's error |
| Evaluator.LaterStatementsIgnored | Sources/AST/Evaluator.swift:40 | statements after the first failure do not change the outcome |
| Evaluator.ProgramValueIsLast | Sources/AST/Evaluator.swift:26-27 | a program whose statements all evaluate has its last statement's value |
| Evaluator.EmptyProgramIsError | Sources/AST/Evaluator.swift:40-41 | a program with no statements fails with `noValidExpression` |
| Evaluator.SupportedExactly | Sources/AST/Evaluator.swift:24-37 | a statement evaluates exactly when it is an expression statement of an integer or boolean literal |
| Evaluator.IntegerLiteralValue | Sources/AST/Evaluator.swift:30-31 | a number literal spelled by any digit run evaluates to the integer the digits denote, or to 0 when that does not fit in 64 bits |
| Evaluator.IntegerLiteralInspects | Sources/AST/Evaluator.swift:30-31 | the decimal text of a 64-bit value evaluates to that value, which inspects as that text |
| Evaluator.BooleanLiteralValue | Sources/AST/Evaluator.swift:32-33 | a boolean literal evaluates to true exactly when it is spelled "true" |
| Evaluator.IdentifierIsUnknown | Tests/ASTTests/EvaluatorTests.swift:181 | a program that is one identifier fails with `unknownNode` carrying the identifier |
| Parser.ConsumeTokenIf | Sources/Sema/Parser.swift:420-426 | advances exactly one token when the peek token has the expected kind; otherwise `peekTokenNotMatch(expected, actual peek kind)` |
| Parser.SkipSemicolon | Sources/Sema/Parser.swift:77-79 | the optional `;` moves the parser one token exactly when the peek token is `;`, and otherwise not at all |
| Parser.StatementStart | Sources/Sema/Parser.swift:34-41 | the first position from which the statement loop stops or finds a token that begins a statement |
| Parser.SkippedBeforeStart | Sources/Sema/Parser.swift:34-41 | every token before the statement start begins no statement and does not stop the loop |
| Parser.StatementStartShift | Sources/Sema/Parser.swift:24-29 | the `Unknown` token the parser starts on moves every statement start one place on |
| Parser.Parse | Sources/Sema/Parser.swift:31-47 | a parsed program has statements, the first starting at the first token that begins one; `noValidStatements` exactly when no token before `Eof` begins a statement |
| Parser.ParseProgram | Sources/Sema/Parser.swift:34-41 | the statement loop only appends; it stops with nothing added exactly when `Eof` is the next statement start, and otherwise the first statement it adds starts there |
| Parser.ParseStatement | Sources/Sema/Parser.swift:49-57 | `illegal` is `expressionParsingFailed` carrying it; no statement, without moving, exactly when the token begins none; a produced statement carries the token it starts on and is never a block |
| Parser.ParseLetStatement | Sources/Sema/Parser.swift:59-82 | the node carries `let` and the identifier after it; a missing identifier or `=` is `peekTokenNotMatch` naming the token found |
| Parser.ParseReturnStatement | Sources/Sema/Parser.swift:84-99 | the node carries `return`; a value that starts no expression is `expressionParsingFailed` on that token |
| Parser.ParseIfStatement | Sources/Sema/Parser.swift:101-136 | the node carries `if`; a missing `(` is `peekTokenNotMatch` |
| Parser.ParseIfBlocks | Sources/Sema/Parser.swift:119-135 | the blocks of an if statement keep its `if` token and condition and end after the `{` |
| Parser.ParseExpressionStatement | Sources/Sema/Parser.swift:138-150 | a produced statement is an expression statement carrying its first token; none, without moving, exactly when the token has no prefix rule |
| Parser.ParseBlockStatement | Sources/Sema/Parser.swift:152-167 | the block carries `{` and ends on `}` or `Eof` |
| Parser.ParseBlockStatements | Sources/Sema/Parser.swift:157-165 | the block loop only appends and stops on `}` or `Eof` |
| Parser.ParseExpression | Sources/Sema/Parser.swift:169-186 | no expression, without moving, exactly when the current token has no prefix rule |
| Parser.ParseInfixLoop | Sources/Sema/Parser.swift:176-183 | the infix loop never moves backwards |
| Parser.ParseInfixOperator | Sources/Sema/Parser.swift:300-313 | an infix rule consumes tokens; no rule leaves the position unchanged |
| Parser.ParseInfixExpression | Sources/Sema/Parser.swift:286-298 | the operand is read after the operator |
| Parser.ParseCallExpression | Sources/Sema/Parser.swift:215-218 | the arguments are read after `(` |
| Parser.ParseIndexExpression | Sources/Sema/Parser.swift:220-235 | an index expression ends on `]` |
| Parser.ParsePrefixOperator | Sources/Sema/Parser.swift:271-284 | no expression, without moving, exactly when the token has no prefix rule |
| Parser.ParsePrefixExpression | Sources/Sema/Parser.swift:188-198 | the operand is read after the operator |
| Parser.ParseGroupedExpression | Sources/Sema/Parser.swift:200-213 | a grouped expression ends on `)` |
| Parser.ParseFunctionLiteral | Sources/Sema/Parser.swift:319-333 | a function literal ends on the body's `}` or on `Eof` |
| Parser.ParseArrayLiteral | Sources/Sema/Parser.swift:375-379 | an array literal ends on `]` |
| Parser.ParseDictionaryLiteral | Sources/Sema/Parser.swift:381-413 | a hash literal ends on `}` |
| Parser.ParseExpressionList | Sources/Sema/Parser.swift:237-269 | the list ends on the terminator; the terminator right away gives the empty list |
| Parser.ParseListTail | Sources/Sema/Parser.swift:254-264 | the comma loop only appends and stops where no comma follows |
| Parser.ParseHashPairs | Sources/Sema/Parser.swift:384-407 | the pair loop only appends and stops with `}` next |
| Parser.ParseHashPair | Sources/Sema/Parser.swift:385-401 | a key that starts no expression is `expressionParsingFailed` on it |
| Parser.EveryOther | Sources/Sema/Parser.swift:335-361 | the identifiers made from every other token, in order |
| Parser.ParseFunctionParameters | Sources/Sema/Parser.swift:335-361 | `()` gives no parameters; otherwise the n parameters are the identifiers of the tokens at every other position after `(`, with commas between them and `)` 2n tokens on; a failure names `)` and a token that is not a comma |
| Parser.ParameterTail | Sources/Sema/Parser.swift:349-355 | the comma loop appends the identifier after each comma, in order, and stops where no comma follows |
| ParserProperties.BinaryOperatorsOutrankLowest | Sources/Sema/Parser.swift:302 | every binary operator binds more tightly than lowest and less tightly than prefix |
| ParserProperties.PrefixRuleExactly | Sources/Sema/Parser.swift:271-284 | exactly the tokens with a prefix rule start an expression |
| ParserProperties.AtomExpression | Sources/Sema/Parser.swift:169-186 | an identifier is its own prefix expression, and the infix loop starts from it |
| ParserProperties.AtomAlone | Sources/Sema/Parser.swift:169-186 | an identifier followed by a token of lowest precedence is a whole expression at any level |
| ParserProperties.LoopStops | Sources/Sema/Parser.swift:176-185 | the loop returns what it has when the peek token is `;` or binds no more tightly than the level |
| ParserProperties.LoopContinues | Sources/Sema/Parser.swift:176-182 | while the peek token binds more tightly, its infix rule's result becomes the new left expression |
| ParserProperties.InfixStep | Sources/Sema/Parser.swift:286-298 | one turn on a binary operator reads the right operand at the operator's own precedence |
| ParserProperties.InfixOperatorStep | Sources/Sema/Parser.swift:300-304 | a binary operator as peek token builds an infix node from the left expression and the operand |
| ParserProperties.BinaryPrecedence | Tests/SemaTests/ParserTests.swift:123-129 | in `a o1 b o2 c`, equal precedence groups to the left and the tighter operator takes the middle operand |
| ParserProperties.BinaryPrecedenceText | Tests/SemaTests/ParserTests.swift:123-129 | `a o1 b o2 c` prints `((a o1 b) o2 c)` or `(a o1 (b o2 c))` accordingly |
| ParserProperties.DescribeGrouping | Sources/Sema/AST.swift:167-169 | the printed forms of the two groupings of three operands |
| ParserProperties.PrefixBindsTighter | Tests/SemaTests/ParserTests.swift:121 | in `-a o b` the unary operator applies to `a` alone |
| ParserProperties.PrefixNests | Tests/SemaTests/ParserTests.swift:122 | in `!-a` unary operators nest to the right |
| ParserProperties.GroupIsInner | Sources/Sema/Parser.swift:200-213 | `( e )` is `e` itself with no wrapper node, ending on `)` |
| ParserProperties.GroupNeedsClose | Sources/Sema/Parser.swift:209-210 | `( e` without `)` is `peekTokenNotMatch` naming what came instead |
| ParserProperties.GroupOverridesPrecedence | Tests/SemaTests/ParserTests.swift:138 | `( a o1 b ) o2 c` groups the parenthesised pair first, whatever the precedences |
| ParserProperties.IllegalStopsProgram | Sources/Sema/Parser.swift:54 | `illegal` where a statement starts stops the parse with `expressionParsingFailed` carrying it |
| ParserProperties.IllegalFirstToken | Sources/Sema/Parser.swift:31-47 | a stream starting with `illegal` fails on that token |
| ParserProperties.SkippableTokenIsSkipped | Sources/Sema/Parser.swift:138-143 | a token that starts no statement yields nothing and is stepped over |
| ParserProperties.SkippablesParseToNothing | Sources/Sema/Parser.swift:34-41 | stray tokens up to `Eof` add no statements |
| ParserProperties.NoStatementsIsError | Sources/Sema/Parser.swift:43-45 | a stream with no statement in it is `noValidStatements` |
| ParserProperties.EmptyInputIsError | Sources/Sema/Parser.swift:43-45 | the empty stream is `noValidStatements` |
| ParserProperties.StatementsInSourceOrder | Sources/Sema/Parser.swift:35-40 | a produced statement is appended after those before it, and the parse goes on after its last token |
| ParserProperties.CommaListEnds | Sources/Sema/Parser.swift:237-269 | a comma-separated list of n identifiers ends 2n-1 tokens after its start |
| ParserProperties.ListTailStep | Sources/Sema/Parser.swift:254-263 | one turn of the comma loop appends the next element |
| ParserProperties.ListTailStops | Sources/Sema/Parser.swift:254 | the comma loop stops where no comma follows |
| ParserProperties.ListTailReads | Sources/Sema/Parser.swift:254-264 | the comma loop reads the remaining identifiers in order |
| ParserProperties.ListTailNext | Sources/Sema/Parser.swift:254-263 | after one identifier and a comma, the loop goes on with the rest of the list |
| ParserProperties.ExpressionListReads | Sources/Sema/Parser.swift:237-269 | a non-empty list gives every element in source order and ends on the terminator |
| ParserProperties.EmptyExpressionList | Sources/Sema/Parser.swift:241-243 | the terminator right after the opener gives the empty list |
| ParserProperties.ListNeedsTerminator | Sources/Sema/Parser.swift:266 | elements followed by neither a comma nor the terminator are `peekTokenNotMatch` naming the terminator |
| ParserProperties.ArrayOfAtoms | Sources/Sema/Parser.swift:375-379 | `[a, b, ...]` is an array literal of the elements in order, carrying `[` |
| ParserProperties.ArrayElements | Sources/Sema/Parser.swift:375-379 | the array rule reads its elements through the shared expression list |
| ParserProperties.CallOfAtoms | Sources/Sema/Parser.swift:215-218 | `f(a, b, ...)` is a call of `f` with the arguments in order, carrying the closing `)` |
| ParserProperties.CallLoop | Sources/Sema/Parser.swift:176-183 | after a callee, `(` binds at call precedence and the loop ends after `)` |
| ParserProperties.CallOperator | Sources/Sema/Parser.swift:305-307 | `(` as the peek token hands the expression before it to the call rule, whose result the infix step returns |
| ParserProperties.CallArguments | Sources/Sema/Parser.swift:215-218 | the call rule reads its arguments through the shared expression list |
| ParserProperties.IndexOfAtoms | Sources/Sema/Parser.swift:220-235 | `a[b]` is an index expression carrying `[` |
| ParserProperties.HashPairThenComma | Sources/Sema/Parser.swift:384-407 | a pair followed by a comma is kept and the loop goes on after the comma |
| ParserProperties.HashPairThenClose | Sources/Sema/Parser.swift:384-407 | a pair followed by `}` is kept and the loop stops on its value |
| ParserProperties.PairListHead | Sources/Sema/Parser.swift:384-407 | the first pair of a pair list and what follows it |
| ParserProperties.AtomPairsAfter | Sources/Sema/Parser.swift:401 | appending the first pair and then the rest gives all pairs |
| ParserProperties.HashPairsRead | Sources/Sema/Parser.swift:384-407 | the pair loop keeps every pair, in source order, and stops on the last value with `}` next |
| ParserProperties.LastPairRead | Sources/Sema/Parser.swift:384-407 | a single pair is kept and the loop stops on its value |
| ParserProperties.PairThenRestRead | Sources/Sema/Parser.swift:384-407 | a pair, a comma, and then the rest read as all the pairs |
| ParserProperties.HashOfPairs | Sources/Sema/Parser.swift:381-413 | `{k1: v1, ...}` is a hash literal of the pairs in source order, carrying `{` |
| ParserProperties.DictionaryPairs | Sources/Sema/Parser.swift:381-413 | the dictionary rule reads all pairs and then the `}` |
| ParserProperties.EmptyHash | Sources/Sema/Parser.swift:384 | `{}` is a hash literal with no pairs |
| ParserProperties.TrailingCommaAccepted | Sources/Sema/Parser.swift:403-406 | `{k: v,}` is accepted: a comma before `}` is allowed |
| ParserProperties.TrailingCommaPairs | Sources/Sema/Parser.swift:403-406 | the pair loop reads one pair, consumes the comma, and stops at `}` |
| ParserProperties.PairsNeedComma | Sources/Sema/Parser.swift:403-406 | two pairs without a comma between them are `peekTokenNotMatch` naming the comma |
| ParserProperties.MissingComma | Sources/Sema/Parser.swift:403-406 | the pair loop fails on a missing comma |
| ParserProperties.DictionaryOfPairs | Sources/Sema/Parser.swift:381-413 | the pairs the pair loop reads make the hash literal, which ends on the `}` after them |
| StatementProperties.ProgramTakes | Sources/Sema/Parser.swift:34-41 | at a token that begins a statement, the loop of `parse` appends the statement parsed there and goes on after its last token, or fails with its error |
| StatementProperties.ProgramSkipsToStart | Sources/Sema/Parser.swift:34-41 | the loop of `parse` steps over every token before the next statement start and adds nothing for them |
| StatementProperties.ProgramTakesNext | Sources/Sema/Parser.swift:34-41 | from any position not at the end, the loop of `parse` appends the statement parsed at the next statement start and goes on after it, or fails with that statement's error |
| StatementProperties.BlockSkips | Sources/Sema/Parser.swift:158-164 | a token that begins no statement and does not end the block is stepped over |
| StatementProperties.BlockTakes | Sources/Sema/Parser.swift:158-164 | at a token that begins a statement, the block loop appends the statement parsed there and goes on after its last token, or fails with its error |
| StatementProperties.BlockLoopAtStart | Sources/Sema/Parser.swift:158-165 | the block loop keeps what it has and stops at the next statement start when that is `}` or `Eof`; it adds nothing only then; the first statement it adds starts there |
| StatementProperties.BlockSkipsToStart | Sources/Sema/Parser.swift:158-164 | the block loop steps over every token before the next statement start and adds nothing for them |
| StatementProperties.BlockTakesNext | Sources/Sema/Parser.swift:158-165 | from any position whose next statement start is not `}` or `Eof`, the block loop appends the statement parsed there and goes on after it, or fails with its error |
| StatementProperties.BlockHoldsStatements | Sources/Sema/Parser.swift:152-167 | a block is empty and ends on `}` or `Eof` when only tokens that begin no statement precede it, is empty only then, and its first statement starts at the first token after `{` that begins one |
| StatementProperties.LetExactly | Sources/Sema/Parser.swift:59-82 | `let` with a given value is read exactly when an identifier and `=` follow and the value is the expression after `=`; the statement ends on the value or on a `;` right after it |
| StatementProperties.LetNeedsValue | Sources/Sema/Parser.swift:71-75 | `let x =` followed by a token that starts no expression is `expressionParsingFailed` on that token |
| StatementProperties.ReturnExactly | Sources/Sema/Parser.swift:84-99 | `return` with a given value is read exactly when the value is the expression after `return`; the statement ends on it or on a `;` right after it |
| StatementProperties.IfReadsCondition | Sources/Sema/Parser.swift:101-120 | after `if (`, a condition, `)` and `{`, the rest is read as the blocks of an if statement with that condition |
| StatementProperties.IfBlocksExactly | Sources/Sema/Parser.swift:119-135 | the consequence is the block at `{`; the alternative is the block after `else {` exactly when `else` follows, and absent otherwise; the statement ends on the last block's end |
| StatementProperties.ElseNeedsBrace | Sources/Sema/Parser.swift:123-127 | `else` not followed by `{` is `peekTokenNotMatch` naming what came instead |
| StatementProperties.IfWithoutElse | Sources/Sema/Parser.swift:101-136 | `if (c) {B}` without `else` is an if statement with condition c, consequence B and no alternative |
| StatementProperties.IfWithElse | Sources/Sema/Parser.swift:101-136 | `if (c) {B} else {B2}` is an if statement with condition c, consequence B and alternative B2, ending on B2's end |
| StatementProperties.IfNeedsCondition | Sources/Sema/Parser.swift:107-112 | `if (` followed by a token that starts no expression is `expressionParsingFailed` on that token |
| StatementProperties.IfNeedsCloseThenBrace | Sources/Sema/Parser.swift:114-117 | after the condition, a missing `)` and then a missing `{` are `peekTokenNotMatch` naming what came instead |
| StatementProperties.FunctionLiteralExactly | Sources/Sema/Parser.swift:319-333 | `fn` with given parameters and body is read exactly when `(`, the parameters up to `)`, `{` and that body block follow |
| StatementProperties.FunctionNeedsParenThenBrace | Sources/Sema/Parser.swift:319-333 | a missing `(` after `fn`, or a missing `{` after the parameters, is `peekTokenNotMatch` naming what came instead |
| ListProperties.ListTailSound | Sources/Sema/Parser.swift:254-264 | the comma loop accepts every sequence of `, expression` pairs with no comma after, appending the expressions in order |
| ListProperties.ListTailComplete | Sources/Sema/Parser.swift:254-264 | whatever the comma loop appends is such a sequence of `, expression` pairs |
| ListProperties.ExpressionListSound | Sources/Sema/Parser.swift:237-269 | a list accepts its terminator right away, or a first expression, the comma elements and then the terminator |
| ListProperties.ExpressionListComplete | Sources/Sema/Parser.swift:237-269 | whatever a list reads is described that way |
| ListProperties.ListFirstThenTail | Sources/Sema/Parser.swift:245-268 | a list that does not end at once is its first expression, what the comma loop reads, and then the terminator |
| ListProperties.ExpressionListExactly | Sources/Sema/Parser.swift:237-269 | an expression list holds given elements exactly when its tokens are a list of them ending on the terminator |
| ListProperties.ListNeedsFirstElement | Sources/Sema/Parser.swift:245-251 | a list whose first token is neither the terminator nor the start of an expression is `expressionParsingFailed` on it |
| ListProperties.ListNeedsElementAfterComma | Sources/Sema/Parser.swift:254-262 | a comma not followed by an expression is `expressionParsingFailed` on the token after it |
| ListProperties.ListNeedsEnd | Sources/Sema/Parser.swift:266 | elements followed by neither a comma nor the terminator are `peekTokenNotMatch` naming the terminator |
| ListProperties.ArrayHoldsElements | Sources/Sema/Parser.swift:375-379 | an array literal carries `[` and holds exactly the elements of the list up to its `]` |
| ListProperties.CallHoldsArguments | Sources/Sema/Parser.swift:215-218 | a call carries its closing `)`, the callee, and exactly the arguments of the list up to that `)` |
| ListProperties.IndexHoldsIndex | Sources/Sema/Parser.swift:220-235 | an index expression carries `[`, the left expression and exactly the expression after `[`, and ends on the `]` right after it |
| ListProperties.IndexNeedsIndexThenClose | Sources/Sema/Parser.swift:220-235 | a missing index is `expressionParsingFailed`; a missing `]` after it is `peekTokenNotMatch` naming what came instead |
| ListProperties.HashPairExactly | Sources/Sema/Parser.swift:385-401 | a pair is read exactly when its tokens are a key expression, `:` and a value expression |
| ListProperties.PairNeedsColon | Sources/Sema/Parser.swift:393-394 | a key not followed by `:` is `peekTokenNotMatch` naming what came instead |
| ListProperties.PairNeedsValue | Sources/Sema/Parser.swift:396-400 | `:` not followed by an expression is `expressionParsingFailed` on the token after it |
| ListProperties.PairThenComma | Sources/Sema/Parser.swift:384-407 | a pair followed by `,` is kept and the pair loop goes on from the comma |
| ListProperties.PairThenClose | Sources/Sema/Parser.swift:384-407 | a pair followed by `}` is kept and the pair loop stops on its value |
| ListProperties.HashPairsSound | Sources/Sema/Parser.swift:384-407 | the pair loop accepts every sequence of pairs separated by commas and closed by `}`, a comma before `}` allowed, keeping the pairs in order |
| ListProperties.HashPairsComplete | Sources/Sema/Parser.swift:384-407 | whatever the pair loop keeps is such a sequence of pairs |
| ListProperties.DictionaryHoldsPairs | Sources/Sema/Parser.swift:381-413 | a hash literal carries `{` and holds exactly the pairs up to its `}` |
| StatementProperties.ProgramTokenLiteralIsFirstStart | Sources/Sema/AST.swift:27-33 | the token literal of a parsed program is the literal of the first token that begins a statement |
| Pipeline.LexSingle | Sources/Lexer/Lexer.swift:70-71 | input that is one token lexes to that token and `Eof` |
| Pipeline.ParseSingle | Sources/Sema/Parser.swift:31-47 | one token with a prefix rule parses to one expression statement carrying it |
| Pipeline.ExpressionStep | Sources/Sema/Parser.swift:169-186 | an expression is its prefix part when the infix loop stops at once |
| Pipeline.StatementStep | Sources/Sema/Parser.swift:138-150 | an expression statement is built from its first token and the expression |
| Pipeline.IntegerProgram | Tests/ASTTests/EvaluatorTests.swift:17 | "5" evaluates to the integer 5, which inspects as "5" |
| Pipeline.LexTrue | Sources/Lexer/Lexer.swift:66-67 | "true" lexes to the keyword token `true` |
| Pipeline.BooleanProgram | Tests/ASTTests/EvaluatorTests.swift:42 | "true" evaluates to the boolean true |
| Pipeline.IdentifierProgram | Tests/ASTTests/EvaluatorTests.swift:181 | a lone identifier parses but is an `unknownNode` to the evaluator |
| Pipeline.EmptyProgram | Sources/Sema/Parser.swift:43-45 | empty input fails in the parser with `noValidStatements` |

## Left out

- Console input and output, the REPL (Sources/Repl/Repl.swift) and the
  program entry point: they only read lines and print.
- Swift's `Character`: grapheme clusters become Dafny `char`s, and the
  strings become `seq<char>`.
- The environment's reference semantics: `Environment` is a class mutated in
  place. Here `Set` returns the updated frame.
- The `assert` in `TokenType(number:)`: it is active only in debug builds,
  so `KindOfNumber` is always `Int`, as in a release build.
- `fatalError` and `assertionFailure`: they become preconditions.
  - `Token(type:)` is never given a scanned kind.
  - `TokenType(symbol:)` is never given the quotation mark.
- Tokens.TokenOf: its contract states only the kind. The literal table is
  stated by `LiteralRoundTrip` and `LiteralInjective`.
- `Int64`: it is a subset type of the unbounded integers. The model has no
  arithmetic, so no overflow arises.
- Evaluation beyond the evaluator shown: arithmetic, `if`, `let`, returns,
  closures, arrays, hashes and built-ins. Only the evaluator tests assert
  these, and they target types absent from the evaluator's sources.
- The superseded snapshots of the token, AST, parser and constants files:
  they redefine the same types with other shapes.
  - Sources/AST/EvaluatorError.swift declares only `unknownObject`. The
    evaluator throws `unknownNode` and `noValidExpression`, and the model
    defines those two.
- Token positions and source locations: the code records none.
- The fallback in `parseExpression` that returns the first prefix
  expression when the peek token binds tightly but has no infix rule: no
  token kind reaches it. It is modelled, through `origin`, but no lemma is
  about it.
- `parseDictionaryLiteral`'s closing `consumeTokenIf(.rightBrace)`: the
  pair loop only stops with `}` next, so that call always succeeds. The
  model steps over the `}` directly.
- `if` as an expression, which the parser tests expect: the code parses
  `if` only as a statement.
- Parser.ParseInfixLoop: its contract states only positions. How it groups
  operands is stated by the `ParserProperties` lemmas, on token shapes
  rather than for every input.
- Parser.ParseInfixExpression: its contract states only positions and the
  node's shape. Grouping is stated by the `ParserProperties` lemmas, on
  token shapes.
- Parser.ParsePrefixExpression: its contract states only positions and the
  node's shape. Nesting is stated by `ParserProperties.PrefixNests` and
  `ParserProperties.PrefixBindsTighter`, on token shapes.
- Parser.ParseLetStatement: its own contract states the node's shape, name
  and errors. The bound value and the end position are stated for every
  input by `StatementProperties.LetExactly`, the missing-value error by
  `StatementProperties.LetNeedsValue`.
- Parser.ParseReturnStatement: its own contract states the node's shape and
  errors. The value is stated by `StatementProperties.ReturnExactly`.
- Parser.ParseIfStatement: its own contract states the node's shape and the
  condition errors. The blocks are stated by
  `StatementProperties.IfReadsCondition` and
  `StatementProperties.IfBlocksExactly`.
- Parser.ParseBlockStatement: its own contract states the node's token and
  the end position. The statements are stated by
  `StatementProperties.BlockHoldsStatements` and
  `StatementProperties.BlockTakesNext`.
- Parser.ParseBlockStatements: its own contract states that it keeps what it
  has and where it stops. Each step is stated by
  `StatementProperties.BlockTakesNext` and
  `StatementProperties.BlockSkipsToStart`.
- Parser.ParseFunctionLiteral: its own contract states the node's shape and
  the end position. The parameters and body are stated by
  `StatementProperties.FunctionLiteralExactly`.
- Parser.ParseExpressionList: its own contract states positions and errors.
  The elements are stated by `ListProperties.ExpressionListExactly`.
- Parser.ParseListTail: its own contract states positions. The elements are
  stated by `ListProperties.ListTailSound` and
  `ListProperties.ListTailComplete`.
- Parser.ParseArrayLiteral: its own contract states the node's shape. The
  elements are stated by `ListProperties.ArrayHoldsElements`.
- Parser.ParseCallExpression: its own contract states the node's shape. The
  arguments are stated by `ListProperties.CallHoldsArguments`.
- Parser.ParseIndexExpression: its own contract states the node's shape.
  The index and the closing `]` are stated by
  `ListProperties.IndexHoldsIndex`.
- Parser.ParseHashPair: its own contract states positions. The key, colon
  and value are stated by `ListProperties.HashPairExactly`, the missing
  colon and value by `ListProperties.PairNeedsColon` and
  `ListProperties.PairNeedsValue`.
- Parser.ParseHashPairs: its own contract states positions. The pairs are
  stated by `ListProperties.HashPairsSound` and
  `ListProperties.HashPairsComplete`.
- Parser.ParseDictionaryLiteral: its own contract states the node's shape.
  The pairs are stated by `ListProperties.DictionaryHoldsPairs`.
- ParserProperties.ArrayElements: an instance with identifiers as elements;
  `ListProperties.ArrayHoldsElements` states it for any expressions.
- ParserProperties.CallArguments: an instance with identifiers as
  arguments; `ListProperties.CallHoldsArguments` states it for any
  expressions.
- ParserProperties.HashPairsRead: an instance with identifiers as keys and
  values; `ListProperties.HashPairsSound` states it for any expressions.
- ParserProperties.DictionaryPairs: an instance with identifiers as keys
  and values; `ListProperties.DictionaryHoldsPairs` states it for any
  expressions.
- Lexer.NextToken: the model compares single code points; Swift compares
  `Character`s (grapheme clusters) by canonical equivalence, on their
  normalised scalars. So the two differ on non-ASCII input:
  - a letter or digit followed by a combining mark that composes with it
    (`e` and U+0301 make `é`) is one `Character` outside `"a"..."z"`,
    `"A"..."Z"` and `"0"..."9"`, so Swift lexes it as `illegal`;
  - a pair that does not compose (`q` and U+0301, `5` and U+0301) sorts
    inside its range unless its base is the range's last character, so
    Swift reads it into the identifier or number (such a number's
    `IntegerLiteral` value is 0);
  - a single scalar canonically equivalent to an ASCII character matches
    the ASCII case: U+037E GREEK QUESTION MARK is `;` and U+212A KELVIN SIGN
    lies inside `"A"..."Z"`;
  - the model reads the ASCII letter or digit alone and then lexes the mark
    as `Illegal`, and it lexes U+037E and U+212A as `Illegal`.
- Lexer.SkipWhitespace: Swift reads "\r\n" as one `Character`, which
  equals none of the four whitespace characters, so `nextToken` lexes it as
  `illegal`; the model skips two whitespace characters.
- Pipeline: the end-to-end lemmas cover single-token programs only.
- Ast.DescribePair: the `key:value` text of a pair, and the `{` `}` and
  `, ` around the pairs of a hash literal, are assumed. No source file
  declares the hash node or its `description`. The array and index forms
  follow the expected strings of Tests/SemaTests/ParserTests.swift:143-144.

## Findings

| source | as written | input that shows it | evidently intended | confidence | as-written member | corrected member |
|---|---|---|---|---|---|---|
| Sources/Lexer/Lexer.swift:120-126 | `peekCharacter` guards with `readPosition <= input.count`, so at the last character it subscripts the string at its end index | the input "=" (or any input ending in `=` or `!`) | `readPosition < input.count`: answer nil when there is no next character | not executed | Lexer.PeekTrapsOnTrailingAssign | Lexer.PeekAgreesWhereDefined |
