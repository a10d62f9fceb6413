# A verified model of Yoru

Yoru is a small language: a byte-level lexer, a Pratt parser, an effect checker
and a tree-walking evaluator, with actors and supervisors, tools described by
JSON Schema, pipelines, an in-memory database and a few self-contained
algorithms around it.  This project models eight of its parts and proves what
they promise.

- **Front end.** `Lexing` says what the scanner returns at a cursor and `Lexer`
  is the object that computes it; `LexPositions` compares reported lines and
  columns with those of the byte offset, `LexRoundTrip` renders tokens and lexes
  them back, `LexTables` says its tables from the side of the text. `Grammar` is
  the whole recursive-descent family, declarations included, as total functions
  over a token sequence; `Parser` is the object with two tokens of lookahead,
  one method a parse function, proved against it with the loop steps in
  `ParserLoops`. `Printer` writes operator trees with parentheses only where the
  precedence table needs them; `PrattRoundTrip` and `PrattYield` are the two
  directions of the theorem about it, and `SourceRoundTrip` takes trees to text
  and back. `Grouping` says what every chain of operators is parsed to, from a
  list of tiers alone; `GrammarRules` and `DeclarationRules` say form by form
  which tokens are read as which tree.
- **Effects.** `EffectStack` is the handler stack with its rebuilt cache,
  `Evaluation` the evaluator over a store of scopes, `Interpreter` the object
  whose fields it saves and restores, `Checking` the effect checker.
  `EffectSoundness` and `EffectTheorem` prove that a program that passes never
  reaches an effect without a handler, in the first-order fragment;
  `EffectLimits` shows for each restriction of that fragment programs that pass
  and fail, and which names make them pass.  `EffectOccurrences` says what the
  checker finds by where calls occur.  `EvaluationRules` and `EvaluationCalls` are
  the rules of the language, `EvaluationLaws` what programs come to by them.
- **Supervisors.** `Supervisor` is a step system of actors, callbacks and the
  lock-holding handler; `SupervisorObject` updates the child records in place;
  `SupervisorRuns` has the theorems over all interleavings, including the
  sliding restart budget, and `SupervisorEffects` what each strategy, stopping and
  removing leave behind.
- **Imports.** `Imports` is the memoised depth-first search over a file graph;
  `ImportOrder` says in which order.
- **Tool arguments.** `ToolArgs` has schemas, validation, lowering and
  evaluation; `ToolSchemas` generates a schema and says when that ends;
  `ToolAgreement` proves that all of them agree on well-made declarations, and
  `ToolDifferences` says for every declaration exactly when schema and validator
  do, `ToolStrict` what a schema accepts, and `ToolValues` what an argument arrives
  as.
- **Partitioned pipelines.** `Partition` is the step system of feeder, workers
  and collector; `PartitionRuns` proves that the result does not depend on the
  schedule, `PartitionLaws` says which it is.
- **Database.** `Tables` says what statements do to values, `MemoryDb` does it
  to heap rows in place, `Isolation` runs any interleaving of clients, `TableLaws`
  says how values compare and rows are ordered.
- **Bounded algorithms.** `Fuzzy`, `FuzzyLevels`, `FuzzyReplace`, `BlankNeedle` and `EvenEdit`,
  `TokenBucket` and `IntegerLimiter`.

Where the source changes state step by step the model is a class whose methods
are proved against a function of the old state, and the theorems are about that
function.  Clocks, schedules, the results of builtins and the text of numbers
are parameters, and the theorems hold for all of them.

Where code and comments differ the model follows the code:

- `fuzzyReplaceLoop` is described as replacing all matches for count 0; with a
  replacement that itself holds the needle it goes on for ever
  (`FuzzyReplace.Endless`; exactly when is said by `BlankNeedle.OneLineExact` for
  needles of one line and by `EvenEdit.ShortExact` for replacements of no more
  lines), and a replacement can lose a last empty line it did not match
  (`FuzzyReplace.LastLineLost`).
- Taking a snapshot is described as a copy; it turns a nil table into an empty
  one, which a WHERE without an argument can tell apart
  (`Tables.CopyObservable`).
- The effect checker is described as making unhandled effects impossible; seven
  kinds of programs pass it and fail (`EffectLimits`).
- Schema and validator are meant to describe the same values; they differ for
  nested options, enums without variants, payload fields called `kind` and type
  names declared twice.  `ToolAgreement.StripsOnce` and the lemmas of
  `ToolDifferences` whose names end in `Exact` say for every such declaration
  exactly when.
- Schema generation does not end on declarations that reach themselves; it ends
  exactly on the others (`ToolSchemas.SchemaExists`).

## Model

| member | source | states |
|---|---|---|
| `Lexer.Lexer.constructor` | lexer/lexer.go:13-17 | a new lexer stands before the first byte, on line 1 |
| `Lexer.Lexer.ReadChar` | lexer/lexer.go:19-28 | every call moves the cursor one byte and one column, past the end too, where the byte is NUL |
| `Lexer.Lexer.PeekChar` | lexer/lexer.go:30-35 | the byte after the cursor, NUL past the end |
| `Lexer.Lexer.SkipWhitespace` | lexer/lexer.go:195-199 | the loop ends at the first byte that is no blank |
| `Lexer.Lexer.SkipSingleLineComment` | lexer/lexer.go:201-205 | the loop ends at the newline or the end of input |
| `Lexer.Lexer.SkipMultiLineComment` | lexer/lexer.go:208-226 | skipped to the first comment end or the end of input, counting lines; comments do not nest |
| `Lexer.Lexer.ReadIdentifier` | lexer/lexer.go:228-234 | the longest run of letters and digits |
| `Lexer.Lexer.ReadNumber` | lexer/lexer.go:239-262 | text and kind of an int, float or duration, with the longest decimal and the unit that fits |
| `Lexer.Lexer.PeekDurationSuffix` | lexer/lexer.go:266-292 | length of the duration unit at the cursor, none when a letter or digit follows |
| `Lexer.Lexer.ReadString` | lexer/lexer.go:295-322 | the unescaped text up to the closing quote, with the loop over escapes |
| `Lexer.Lexer.Take` | lexer/lexer.go:37-192 | one token of known width |
| `Lexer.Lexer.NextToken` | lexer/lexer.go:37-192 | the token object-level lexing returns, and the cursor it leaves, are those of the functional scanner; every non-EOF token advances |
| `Lexer.CollectAll` | lexer/lexer.go:333-343 | the loop returns all tokens up to and including the first EOF |
| `Lexing.Next` | lexer/lexer.go:37-192 | a token ends strictly later than the cursor stood, and one that is not EOF is found only from a cursor inside the input |
| `Lexing.Collect` | lexer/lexer.go:333-343 | the token list ends in its only EOF |
| `LexPositions.TriviaFollows` | lexer/lexer.go:195-226 | white space and both comment forms keep the line and column exact |
| `LexPositions.NextPosition` | lexer/lexer.go:37-192 | from an exact cursor a token's line and column are those of its byte offset, and the cursor stays exact exactly when the token is no string with a raw newline |
| `LexPositions.LagStays` | lexer/lexer.go:295-322 | once a raw newline in a string has been missed, some reported position is wrong |
| `LexPositions.PositionsExact` | lexer/lexer.go:19-28 | all reported positions are right if and only if no string literal contains a raw newline |
| `LexPositions.StartExact` | lexer/lexer.go:13-17 | the lexer starts with an exact position |
| `LexRoundTrip.ScanWord` | lexer/token.go:223-228 | a word is read whole and gets the kind of the keyword table |
| `LexRoundTrip.ScanInt` | lexer/lexer.go:239-262 | digits alone are read as an int |
| `LexRoundTrip.ScanFloat` | lexer/lexer.go:239-262 | digits, a point and digits are read as a float |
| `LexRoundTrip.ScanDuration` | lexer/lexer.go:239-292 | a decimal with a unit is read as a duration |
| `LexRoundTrip.ScanString` | lexer/lexer.go:295-322 | an escaped string is read back unescaped |
| `LexRoundTrip.ScanToken` | lexer/lexer.go:37-192 | the text of any well-formed token is read as that token |
| `LexRoundTrip.RenderThenLex` | lexer/lexer.go:333-343 | rendering any list of well-formed tokens with separating spaces and lexing it gives the same kinds and literals, then one EOF |
| `LexTables.KeywordIs` | lexer/token.go:159-228 | a word is a keyword exactly when it is spelled like one, and of that kind; the spellings are listed by kind |
| `LexTables.LongestOperator` | lexer/lexer.go:37-192 | the operator read stands there, and none that stands there is longer; any other byte is illegal by itself |
| `LexTables.CharactersAre` | lexer/lexer.go:195-331 | which bytes are letters, digits and blanks |
| `LexTables.EscapesAre` | lexer/lexer.go:295-322 | five escapes stand for one byte, before any other byte the backslash is kept |
| `LexTables.UnitIs` | lexer/lexer.go:266-292 | a number takes a unit exactly when one stands behind it that ends as a word does |
| `LexTables.BlockCommentIs` | lexer/lexer.go:208-226 | a block comment ends at the first end mark or with the text, whatever it holds |
| `LexTables.LineCommentIs` | lexer/lexer.go:201-206 | a line comment ends before the newline or with the text |
| `Grammar.ParseExpression` | parser/parser.go:373-391 | total on every token sequence; the current token never moves back |
| `Grammar.InfixLoop` | parser/parser.go:382-390 | the precedence loop ends on every token sequence |
| `Grammar.Statements` | parser/parser.go:142-154 | the statement loop ends at its closing token or at EOF on every token sequence, whatever statements and declarations it meets |
| `Grammar.ParseMatch` | parser/parser.go:713-735 | matching terminates on malformed arms too |
| `Grammar.ParsePattern` | parser/parser.go:757-834 | pattern parsing terminates on every token sequence |
| `Grammar.ParseBlockExpression` | parser/parser.go:599-658 | block and bare-object parsing terminate |
| `Grammar.ParseDecl` | parser/parser.go:1049-2120 | every declaration parser ends and never moves back, on every token sequence |
| `Grammar.Members` | parser/parser.go:1049-2054 | the member loop of a declaration ends on every token sequence |
| `Grammar.ParseFnDecl` | parser/parser.go:1218-1246 | parameters, result type, effects and body end on every token sequence |
| `GrammarRules.IfForm` | parser/parser.go:660-711 | `if` with nothing, a block or a chained `if` behind it |
| `GrammarRules.WhileForm` | parser/parser.go:945-962 | `while` and its block |
| `GrammarRules.ForForm` | parser/parser.go:922-943 | `for x in list` and its block |
| `GrammarRules.HandleForm` | parser/parser.go:879-920 | the effect, the handler and the body of `handle` |
| `GrammarRules.MatchForm` | parser/parser.go:713-735 | subject and arms |
| `GrammarRules.ArmForms` | parser/parser.go:713-755 | pattern, body, and a comma or none |
| `GrammarRules.GuardedArm` | parser/parser.go:737-755 | a guard between pattern and body |
| `GrammarRules.PatternForms` | parser/parser.go:757-834 | wildcard, literal, name and dotted name |
| `GrammarRules.BindingPattern` | parser/parser.go:757-834 | a name with a binding |
| `GrammarRules.ParamsForms` | parser/parser.go:1248-1303 | a parameter list, empty or not |
| `GrammarRules.ParamForms` | parser/parser.go:1262-1303 | `self`, a name, a default, a type |
| `GrammarRules.LambdaForms` | parser/parser.go:836-870 | parameters, result type, and an expression or a block |
| `GrammarRules.BlockForm` | parser/parser.go:599-621 | a block, unless a name and a colon follow the brace |
| `GrammarRules.BareObjectForms` | parser/parser.go:623-658 | the fields of an unnamed object |
| `GrammarRules.ObjectForms` | parser/parser.go:393-440 | an object with or without fields |
| `GrammarRules.ObjectFieldForms` | parser/parser.go:404-440 | its fields, with commas or without |
| `GrammarRules.OtherForms` | parser/parser.go:872-877 | `spawn`; likewise spread and leading dot |
| `GrammarRules.StatementLists` | parser/parser.go:142-154 | statements in order up to the closing token |
| `GrammarRules.StatementForms` | parser/parser.go:217-371 | `let`, `mut`, `return`, `break`, `continue` |
| `GrammarRules.TypedBinding` | parser/parser.go:273-344 | a binding with a type |
| `GrammarRules.ExpressionStatements` | parser/parser.go:264-271 | anything else that begins like an expression |
| `GrammarRules.FunctionForm` | parser/parser.go:1218-1246 | name, parameters, result type, effects and body |
| `DeclarationRules.DeclarationForm` | parser/parser.go:1049-2054 | kind, name and members of a declaration |
| `DeclarationRules.ImplForm` | parser/parser.go:1987-2021 | protocol and name of an `impl` |
| `DeclarationRules.MemberLists` | parser/parser.go:1049-2054 | members in order up to the closing brace |
| `DeclarationRules.FieldForm` | parser/parser.go:1113-1160 | a field with a type, and a default or none |
| `DeclarationRules.VariantForms` | parser/parser.go:1162-1192 | a variant with or without payload |
| `DeclarationRules.PayloadLists` | parser/parser.go:1194-1216 | the fields of a payload |
| `DeclarationRules.StateForm` | parser/parser.go:1352-1370 | a state field |
| `DeclarationRules.ReceiveForm` | parser/parser.go:1372-1395 | message, parameters, result type and body |
| `DeclarationRules.StageForm` | parser/parser.go:1397-1470 | the stages of a pipeline |
| `DeclarationRules.OperationForm` | parser/parser.go:2023-2054 | an operation of an effect |
| `DeclarationRules.RouteForm` | parser/parser.go:1776-1830 | a route to a named handler |
| `DeclarationRules.AliasAndImportForms` | parser/parser.go:2056-2120 | a type alias, and the three imports |
| `Parser.Parser.constructor` | parser/parser.go:70-135 | two tokens are read ahead, newlines dropped |
| `Parser.Parser.Pull` | parser/parser.go:156-164 | the inner loop drops newline tokens |
| `Parser.Parser.NextToken` | parser/parser.go:156-164 | current and peek token move one visible token on |
| `Parser.Parser.ExpectPeek` | parser/parser.go:174-187 | advances when the kind fits, else records one error |
| `Parser.Parser.ParseExpression` | parser/parser.go:373-391 | tree, position and errors are those of the functional grammar |
| `Parser.Parser.ExtendWithInfix` | parser/parser.go:382-390 | one operand at a time, the loop builds what the functional loop says |
| `Parser.Parser.ParsePrefix` | parser/parser.go:373-381 | dispatch to the prefix function of the current token, for every kind that has one |
| `Parser.Parser.ParseInfix` | parser/parser.go:382-390 | dispatch on the operator token |
| `Parser.Parser.ParseInfixExpression` | parser/parser.go:959-969 | the right operand is parsed at the operator's own precedence |
| `Parser.Parser.ParseIndex` | parser/parser.go:1031-1039 | index and closing bracket |
| `Parser.Parser.ParseIdentifier` | parser/parser.go:393-402 | a name, or an object literal after an upper-case name: tree, position and errors are those of the functional grammar |
| `Parser.Parser.ParseNumber` | parser/parser.go:448-472 | a number literal, or nothing and an error when its text is refused |
| `Parser.Parser.ParsePrefixExpression` | parser/parser.go:577-582 | operand at PREFIX precedence |
| `Parser.Parser.ParseGrouped` | parser/parser.go:584-591 | a group closes with its parenthesis or yields nothing |
| `Parser.Parser.ParseExpressionList` | parser/parser.go:2178-2203 | list elements up to the closing token |
| `Parser.Parser.ParseMoreExpressions` | parser/parser.go:2178-2203 | the comma loop with its trailing comma |
| `Parser.Parser.ParseCallArgs` | parser/parser.go:995-1029 | argument list of a call |
| `Parser.Parser.ParseArgs` | parser/parser.go:995-1029 | the argument loop |
| `Parser.Parser.ParseArg` | parser/parser.go:995-1029 | a named or positional argument |
| `Parser.Parser.ParseStatement` | parser/parser.go:217-271 | dispatch of all statements and declarations: result, position and errors are those of the functional grammar |
| `Parser.Parser.ParseExpressionStatement` | parser/parser.go:359-368 | an expression with an optional semicolon |
| `Parser.Parser.ParseObjectLiteral` | parser/parser.go:404-446 | the fields of a named object literal, or nothing and an error without a colon |
| `Parser.Parser.ParseObjectFields` | parser/parser.go:404-446 | the field loop, with or without commas, up to `}` or EOF |
| `Parser.Parser.ParseLeadingDot` | parser/parser.go:508-543 | `.name` with optional arguments |
| `Parser.Parser.ParseBlockExpression` | parser/parser.go:599-619 | a block, or an unnamed object literal when a name and a colon follow |
| `Parser.Parser.ParseBareObject` | parser/parser.go:623-658 | the fields of an unnamed object literal, with its three ways to fail |
| `Parser.Parser.ParseStatements` | parser/parser.go:698-711 | the statement loop up to the closing token or EOF; nil statements are dropped, nil pointers kept |
| `Parser.Parser.ParseBlockBody` | parser/parser.go:698-711 | a block after its brace |
| `Parser.Parser.ParseIf` | parser/parser.go:660-696 | condition, block and optional else |
| `Parser.Parser.ParseElse` | parser/parser.go:660-696 | no else, a chained if wrapped in a block, or a block |
| `Parser.Parser.ParseMatch` | parser/parser.go:713-735 | subject and arms |
| `Parser.Parser.ParseArms` | parser/parser.go:713-735 | the arm loop up to `}` or EOF |
| `Parser.Parser.ParseMatchArm` | parser/parser.go:737-755 | pattern, optional guard, body |
| `Parser.Parser.ParsePattern` | parser/parser.go:757-834 | wildcard, literal, name, destructuring or object pattern |
| `Parser.Parser.ParseDottedName` | parser/parser.go:757-834 | the loop over `.name` |
| `Parser.Parser.ParseBindings` | parser/parser.go:757-834 | the loop over the bindings of a pattern |
| `Parser.Parser.ParseFieldPatterns` | parser/parser.go:757-834 | the loop over the fields of an object pattern, given up at anything but a name |
| `Parser.Parser.ParseFieldPattern` | parser/parser.go:757-834 | a field with an optional pattern of its own |
| `Parser.Parser.ParseLambda` | parser/parser.go:836-870 | parameters, result type and body |
| `Parser.Parser.ParseLambdaBody` | parser/parser.go:836-870 | `=>` and an expression, or a block |
| `Parser.Parser.ParseHandle` | parser/parser.go:879-920 | the effect between parentheses |
| `Parser.Parser.ParseHandleUsing` | parser/parser.go:879-920 | `{ using: handler` |
| `Parser.Parser.ParseHandleTail` | parser/parser.go:879-920 | `} in { body }` |
| `Parser.Parser.ParseForIn` | parser/parser.go:922-943 | variable, iterable and body |
| `Parser.Parser.ParseWhile` | parser/parser.go:945-957 | condition and body |
| `Parser.Parser.ParseTypeExpr` | parser/parser.go:2124-2168 | list shorthand, dotted names and type arguments |
| `Parser.Parser.ParseTypeArgs` | parser/parser.go:2124-2168 | the loop over type arguments |
| `Parser.Parser.ParseAnnotated` | parser/parser.go:1248-1303 | an optional capability and type |
| `Parser.Parser.ParseFnParams` | parser/parser.go:1248-1303 | a parameter list, nothing when it is not closed |
| `Parser.Parser.ParseParams` | parser/parser.go:1248-1303 | the parameter loop |
| `Parser.Parser.ParseParam` | parser/parser.go:1248-1303 | `self`, or a name with type and default |
| `Parser.Parser.ParseLet` | parser/parser.go:273-311 | a binding or a destructuring |
| `Parser.Parser.ParseMut` | parser/parser.go:313-344 | a binding, a nil pointer when it fails |
| `Parser.Parser.ParseBinding` | parser/parser.go:273-311 | name, capability, type and value |
| `Parser.Parser.ParseLetDestructure` | parser/parser.go:2218-2255 | a list destructuring |
| `Parser.Parser.ParseDestructureNames` | parser/parser.go:2218-2255 | the loop over names, a later rest replacing an earlier one |
| `Parser.Parser.ParseReturn` | parser/parser.go:346-357 | the returned expression |
| `Parser.Parser.ParseFnDecl` | parser/parser.go:1218-1246 | name, parameters, result type, effects and body |
| `Parser.Parser.ParseEffectList` | parser/parser.go:1305-1322 | the declared effects |
| `Parser.Parser.ParseNames` | parser/parser.go:1305-1322 | the loop over names up to a closing token |
| `Parser.Parser.ParseDecl` | parser/parser.go:1987-2021 | dispatch of declarations; `impl A for B` takes two names |
| `Parser.Parser.ParseDeclBody` | parser/parser.go:1049-1111 | a declaration with its members, a nil pointer when it is given up |
| `Parser.Parser.ParseMembers` | parser/parser.go:1049-1111 | the member loop up to `}` or EOF, cut short or given up where a member says so |
| `Parser.Parser.ParseMember` | parser/parser.go:217-271 | the member parser of the declaration |
| `Parser.Parser.ParseObjectMember` | parser/parser.go:1049-1111 | a delegate or a field; a field without a colon ends the declaration as it is |
| `Parser.Parser.ParseField` | parser/parser.go:1113-1147 | name, type, default and annotation |
| `Parser.Parser.ParseAnnotation` | parser/parser.go:1149-1160 | an annotation with arguments |
| `Parser.Parser.ParseFieldList` | parser/parser.go:1113-1147 | the field loop of an input or output block |
| `Parser.Parser.ParseVariant` | parser/parser.go:1162-1192 | a variant with its payload |
| `Parser.Parser.ParseVariantFields` | parser/parser.go:1194-1216 | the payload loop |
| `Parser.Parser.ParseActorMember` | parser/parser.go:1324-1350 | a state field, a receive block, or a token to step over |
| `Parser.Parser.ParseReceiveBlock` | parser/parser.go:1372-1395 | message, parameters, result type and body |
| `Parser.Parser.ParseStage` | parser/parser.go:1397-1448 | a stage of one of seven kinds, or a token to step over |
| `Parser.Parser.ParseText` | parser/parser.go:1450-1518 | an expression of which only a string literal is kept |
| `Parser.Parser.ParseDotName` | parser/parser.go:1450-1518 | `: .name` |
| `Parser.Parser.ParseToolMember` | parser/parser.go:1450-1518 | the members of a tool |
| `Parser.Parser.ParseAgentMember` | parser/parser.go:1520-1624 | the members of an agent |
| `Parser.Parser.ParseToolNames` | parser/parser.go:1520-1624 | the loop over tool names |
| `Parser.Parser.ParseSettings` | parser/parser.go:1520-1624 | the loop over settings, of which numbers under four keys are kept |
| `Parser.Parser.ParseMcpMember` | parser/parser.go:1626-1774 | the members of an MCP server |
| `Parser.Parser.ParseResources` | parser/parser.go:1626-1774 | the loop over resources |
| `Parser.Parser.ParseResource` | parser/parser.go:1626-1774 | four tokens stepped over, the name, then the named arguments |
| `Parser.Parser.ParseResourceArgs` | parser/parser.go:1626-1774 | the loop over `uri` and `content`, last one kept |
| `Parser.Parser.ParseAuth` | parser/parser.go:1626-1774 | an authentication name with optional arguments |
| `Parser.Parser.ParseServiceMember` | parser/parser.go:1776-1929 | the members of a service |
| `Parser.Parser.ParseRoute` | parser/parser.go:1776-1929 | method, pattern and a handler by name or in place |
| `Parser.Parser.ParseInlineHandler` | parser/parser.go:1776-1929 | a handler written in place |
| `Parser.Parser.ParseMiddlewares` | parser/parser.go:1776-1929 | the loop over middleware |
| `Parser.Parser.ParseMiddleware` | parser/parser.go:1776-1929 | a name with an optional call |
| `Parser.Parser.ParseValues` | parser/parser.go:1776-1929 | the argument loop of such a call |
| `Parser.Parser.ParseTransport` | parser/parser.go:1776-1929 | the transport and its port and host |
| `Parser.Parser.ParseTransportArgs` | parser/parser.go:1776-1929 | the loop over transport arguments |
| `Parser.Parser.ParseProtocolMember` | parser/parser.go:1963-1985 | a method signature, or a token to step over |
| `Parser.Parser.ParseImplMember` | parser/parser.go:1987-2021 | a function, or a token to step over |
| `Parser.Parser.ParseOperation` | parser/parser.go:2023-2054 | an operation of an effect, or a token to step over |
| `Parser.Parser.ParseTypeAlias` | parser/parser.go:2056-2071 | name and type |
| `Parser.Parser.ParseImport` | parser/parser.go:2078-2120 | a path with an alias, or names after `from`, and the missing `from` reported |
| `Parser.Parser.ParseProgram` | parser/parser.go:142-154 | the program loop terminates, the parser stands at EOF, and statements and errors are those of the functional grammar |
| `PrattRoundTrip.PrintStarts` | parser/parser.go:373-391 | every printed tree starts with a token that has a prefix rule |
| `PrattRoundTrip.LeftOperandFits` | parser/parser.go:29-52 | an operand printed bare on the left is reachable at the operator's level |
| `PrattRoundTrip.ParsePrinted` | parser/parser.go:373-391 | reading a print leaves the parser in its loop with the printed tree as left operand |
| `PrattRoundTrip.ParseClosed` | parser/parser.go:373-391 | a print followed by a token that binds loosest is parsed whole |
| `PrattRoundTrip.ParsePrintedInfix` | parser/parser.go:959-969 | a left-associative operator is read back |
| `PrattRoundTrip.ParsePrintedAssignment` | parser/parser.go:971-980 | a right-open assignment is read back |
| `PrattRoundTrip.ParsePrintedTry` | parser/parser.go:1041-1047 | postfix `?` is read back |
| `PrattRoundTrip.ParsePrintedField` | parser/parser.go:982-987 | field access is read back |
| `PrattRoundTrip.ParsePrintedIndex` | parser/parser.go:1031-1039 | an index is read back |
| `PrattRoundTrip.ParsePrintedCall` | parser/parser.go:989-1029 | a call with named and positional arguments is read back |
| `PrattRoundTrip.ParsePrintedList` | parser/parser.go:593-597 | a list literal is read back |
| `PrattRoundTrip.PrintThenParse` | parser/parser.go:373-391 | printing any operator tree with parentheses only where precedence needs them and parsing it at LOWEST returns that tree, without errors, and stops right before the following semicolon or EOF |
| `Grouping.ChainParses` | parser/parser.go:11-60 | any chain of terms is parsed to one tree: split at the first assignment, or else at the last operator of the loosest tier, prefixes outside what stands behind the operand; the tiers are a list of operator sets |
| `Grouping.BetweenTwo` | parser/parser.go:11-60 | of two operators the second takes the operand between them exactly when it is in a later tier or the first one assigns |
| `PrattYield.LoopExit` | parser/parser.go:382-390 | the loop leaves the parser before a token it does not take |
| `PrattYield.ExpressionYields` | parser/parser.go:373-391 | an error-free expression of plain tokens is the print of its tree at every level |
| `PrattYield.InfixYields` | parser/parser.go:959-1047 | each infix rule extends the yield by what it consumed and keeps precedence |
| `PrattYield.ParseThenPrint` | parser/parser.go:373-391 | conversely, an error-free parse of paren-free input consumes exactly the print of its tree, in which no operand needed parentheses |
| `SourceRoundTrip.ProgramPrintThenParse` | parser/parser.go:142-154 | a printed program parses to its statements, at EOF and without errors |
| `SourceRoundTrip.TextRoundTrip` | parser/parser.go:142-164 | tree to tokens to text to tokens to tree is the identity on programs of expression statements |
| `EffectStack.TopDown` | interpreter/effects.go:50-53 | the search from the top finds a provider exactly for the names on the stack |
| `EffectStack.AgreesPush` | interpreter/effects.go:24-33 | writing the top provider into the cache keeps it in agreement with the stack |
| `EffectStack.EffectStack.constructor` | interpreter/effects.go:18-20 | an empty stack with an agreeing cache |
| `EffectStack.EffectStack.RebuildCache` | interpreter/effects.go:24-33 | the bottom-up loop makes the cache answer as a top-down search |
| `EffectStack.EffectStack.Push` | interpreter/effects.go:36-39 | one handler on top, cache in agreement |
| `EffectStack.EffectStack.Pop` | interpreter/effects.go:42-47 | the topmost handler goes, cache in agreement |
| `EffectStack.EffectStack.Resolve` | interpreter/effects.go:50-53 | the constant-time lookup is the search from the top |
| `Evaluation.Eval` | interpreter/interpreter.go:1534-1600 | on normal return scope, handler stack and capability stack are those held before, for every expression |
| `Evaluation.EvalInfix` | interpreter/interpreter.go:1662-1789 | the same through all binary operators |
| `Evaluation.EvalTry` | interpreter/interpreter.go:1644-1660 | the same through `?` |
| `Evaluation.EvalPrefix` | interpreter/interpreter.go:1626-1642 | the same through `!` and `-` |
| `Evaluation.EvalIndex` | interpreter/interpreter.go:2744-2784 | the same through indexing |
| `Evaluation.Wrap64` | interpreter/interpreter.go:1791-1800 | every result of integer arithmetic is in the 64-bit range |
| `Evaluation.EvalAssign` | interpreter/interpreter.go:1880-1896 | the same through `=`, `+=` and `-=` |
| `Evaluation.EvalIf` | interpreter/interpreter.go:1954-1963 | the same through conditionals |
| `Evaluation.EvalStmts` | interpreter/interpreter.go:1976-1989 | the same through statement lists cut short by signals |
| `Evaluation.EvalStmt` | interpreter/interpreter.go:1468-1528 | the same through statements |
| `Evaluation.EvalScoped` | interpreter/interpreter.go:1991-1997 | the same through scoped blocks |
| `Evaluation.EvalArms` | interpreter/interpreter.go:1999-2029 | the same through match arms and their guards |
| `Evaluation.EvalList` | interpreter/interpreter.go:2786-2801 | the same through list literals |
| `Evaluation.EvalObject` | interpreter/interpreter.go:2803-2813 | the same through object literals |
| `Evaluation.EvalWrap` | interpreter/interpreter.go:2978-3001 | the same through enum construction |
| `Evaluation.EvalField` | interpreter/interpreter.go:2272-2292 | the same through field access and effect lookup |
| `Evaluation.EvalCall` | interpreter/interpreter.go:2149-2221 | the same through calls |
| `Evaluation.CallFunction` | interpreter/interpreter.go:2223-2270 | the same through function bodies, which run in another scope |
| `Evaluation.BindParams` | interpreter/interpreter.go:2230-2255 | the same through named, positional and default arguments |
| `Evaluation.WithCapability` | interpreter/interpreter.go:1391-1411 | the same through a pushed capability |
| `Evaluation.ApplyCallback` | interpreter/interpreter.go:1424-1449 | the same through callbacks |
| `Evaluation.EvalTool` | interpreter/interpreter.go:3202-3245 | the same through tool runs |
| `Evaluation.EvalHandle` | interpreter/interpreter.go:2855-2871 | the same through nested handlers |
| `Evaluation.EvalForIn` | interpreter/interpreter.go:2873-2899 | the same through for loops |
| `Evaluation.EvalWhile` | interpreter/interpreter.go:2901-2923 | the same through while loops |
| `EvaluationRules.Literals` | interpreter/interpreter.go:1534-1600 | a literal gives its value and changes nothing |
| `EvaluationRules.NameValue` | interpreter/interpreter.go:1602-1624 | a name is an effect, or its nearest binding outwards, or nil |
| `EvaluationRules.IntegerOperation` | interpreter/interpreter.go:1662-1823 | left operand, right operand, then the result modulo 64 bits; division truncates, its remainder has the sign of the dividend, and by zero is an error; comparisons are those of the numbers |
| `EvaluationRules.OtherOperation` | interpreter/interpreter.go:1662-1789 | text is joined and compared, truth values are compared, other operands only for equality, else nil |
| `EvaluationRules.QuotientUnique` | interpreter/interpreter.go:1791-1823 | there is only one such quotient and remainder |
| `EvaluationRules.ReturnInOperand` | interpreter/interpreter.go:1662-1789 | a return in an operand is the result, and skips the right one |
| `EvaluationRules.ShortCircuit` | interpreter/interpreter.go:1662-1789 | when `&&` and `||` look at the right operand, and what they give |
| `EvaluationRules.Otherwise` | interpreter/interpreter.go:1662-1789 | `??` takes the right operand for nil, `Err` and `None` alone and unwraps `Ok` and `Some` |
| `EvaluationRules.Question` | interpreter/interpreter.go:1644-1660 | `?` unwraps `Ok` and returns `Err` |
| `EvaluationRules.Signs` | interpreter/interpreter.go:1626-1642 | `!` turns truth values over, `-` numbers, anything else becomes nil |
| `EvaluationRules.Indexing` | interpreter/interpreter.go:2744-2784 | element, character or member, an error out of bounds, else nil |
| `EvaluationRules.Conditional` | interpreter/interpreter.go:1954-1974 | only false and nil take the other branch |
| `EvaluationRules.ConditionalEquations` | interpreter/interpreter.go:1954-1974 | conditionals on literals are their branches, as equations between programs |
| `EvaluationRules.Blocks` | interpreter/interpreter.go:1991-1997 | a block runs in a new scope inside the current one and comes back |
| `EvaluationRules.Sequence` | interpreter/interpreter.go:1976-1989 | statements in order up to the first signal |
| `EvaluationRules.Statements` | interpreter/interpreter.go:1468-1528 | let, return, break, continue and expression statements |
| `EvaluationRules.Assignments` | interpreter/interpreter.go:1880-1952 | assignment changes the nearest binding and nothing else |
| `EvaluationRules.Matching` | interpreter/interpreter.go:1999-2029 | the subject, then the arms |
| `EvaluationRules.PatternFits` | interpreter/interpreter.go:1999-2147 | what each pattern fits and binds |
| `EvaluationRules.ArmPassed` | interpreter/interpreter.go:1999-2029 | an arm that does not fit is passed over, and without arms the result is nil |
| `EvaluationRules.ArmTaken` | interpreter/interpreter.go:1999-2029 | the first that fits gives its body in a scope of what it binds |
| `EvaluationRules.ArmGuarded` | interpreter/interpreter.go:1999-2029 | a guard that is not true passes the arm over |
| `EvaluationRules.Lists` | interpreter/interpreter.go:2786-2801 | elements in order |
| `EvaluationRules.Objects` | interpreter/interpreter.go:2803-2813 | in an object each name has the value of its last field |
| `EvaluationRules.Wrapping` | interpreter/interpreter.go:2978-3001 | the payload of a variant |
| `EvaluationRules.Members` | interpreter/interpreter.go:2272-2292 | a member of an object, or of what the topmost handler provides, or a panic |
| `EvaluationCalls.Calls` | interpreter/interpreter.go:2149-2221 | callee, all arguments, invocation |
| `EvaluationCalls.Invoked` | interpreter/interpreter.go:2149-2221 | functions, builtins, and nil for anything else |
| `EvaluationCalls.Parameters` | interpreter/interpreter.go:2230-2255 | a parameter takes the first value that is not nil of its named argument, its positional one and its default |
| `EvaluationCalls.Binding` | interpreter/interpreter.go:2230-2255 | parameters in order, `self` skipped |
| `EvaluationCalls.Functions` | interpreter/interpreter.go:2223-2270 | the body runs inside the scope of definition, arguments in that of the call; returns give their value, stray breaks panic |
| `EvaluationCalls.Capability` | interpreter/interpreter.go:1391-1411 | a capability is held while the function runs and only then |
| `EvaluationCalls.Tools` | interpreter/interpreter.go:3202-3245 | a tool is denied without its capability, else runs with its inputs |
| `EvaluationCalls.Handling` | interpreter/interpreter.go:2855-2871 | a handler is on top while the body runs and gone after it |
| `EvaluationCalls.Iteration` | interpreter/interpreter.go:2873-2899 | only lists are iterated |
| `EvaluationCalls.Turns` | interpreter/interpreter.go:2873-2899 | one turn an element, with break, continue and return |
| `EvaluationCalls.Looping` | interpreter/interpreter.go:2901-2923 | a loop goes on only while its condition is exactly true |
| `EvaluationCalls.FirstPanics` | interpreter/interpreter.go:1534-1600 | a panic in what is evaluated first is a panic of the whole |
| `EvaluationCalls.LaterPanics` | interpreter/interpreter.go:1534-1600 | so is one in a later part |
| `EvaluationLaws.AddThenSubtract` | interpreter/interpreter.go:1791-1823 | `(x + y) - y` is `x` |
| `EvaluationLaws.QuotientAndRemainder` | interpreter/interpreter.go:1791-1823 | `(x / y) * y + x % y` is `x` |
| `EvaluationLaws.Trichotomy` | interpreter/interpreter.go:1791-1823 | exactly one of `<`, `==` and `>` holds |
| `EvaluationLaws.LetThenName` | interpreter/interpreter.go:1468-1480 | a name gives what was let |
| `EvaluationLaws.InnerLet` | interpreter/interpreter.go:1991-1997 | a `let` in an inner block does not touch the outer name |
| `EvaluationLaws.LoopAddsUp` | interpreter/interpreter.go:2873-2899 | `for x in ns { s += x }` adds every number once, modulo 64 bits |
| `EvaluationLaws.CallWithoutArguments` | interpreter/interpreter.go:2223-2270 | a function sees the scope it was written in |
| `EvaluationLaws.InnerHandlerAnswers` | interpreter/interpreter.go:2272-2292 | of two handlers the inner one answers, after it the outer |
| `Interpreter.Interpreter.constructor` | interpreter/effects.go:64-70 | providers at the bottom of the stack, one global scope |
| `Interpreter.Interpreter.EvalExpression` | interpreter/interpreter.go:1534-1600 | the object computes the evaluation function on its own fields, including the effect stack object |
| `Interpreter.Interpreter.EvalInfixOp` | interpreter/interpreter.go:1662-1789 | left operand first, signals pass through |
| `Interpreter.Interpreter.EvalRightOperand` | interpreter/interpreter.go:1667-1789 | the right operand as the operator demands |
| `Interpreter.Interpreter.EvalOtherwise` | interpreter/interpreter.go:1667-1688 | `??` replaces nil, `Err` and `None` |
| `Interpreter.Interpreter.EvalShortCircuit` | interpreter/interpreter.go:1695-1720 | the right operand only when needed |
| `Interpreter.Interpreter.EvalOperands` | interpreter/interpreter.go:1722-1789 | both operands, then the operator |
| `Interpreter.Interpreter.EvalPostfix` | interpreter/interpreter.go:1644-1660 | `?` unwraps `Ok` and returns `Err` |
| `Interpreter.Interpreter.EvalPrefixOp` | interpreter/interpreter.go:1626-1642 | a truth value or a number negated, else nil |
| `Interpreter.Interpreter.EvalIndexExpr` | interpreter/interpreter.go:2744-2784 | an element, a character or a member, an `Err` out of bounds, else nil |
| `Interpreter.Interpreter.EvalAssignment` | interpreter/interpreter.go:1880-1896 | the nearest binding is replaced, added to or taken from |
| `Interpreter.Interpreter.EvalConditional` | interpreter/interpreter.go:1954-1963 | one branch by truthiness |
| `Interpreter.Interpreter.EvalBlock` | interpreter/interpreter.go:1976-1989 | the statement loop stops at the first signal |
| `Interpreter.Interpreter.EvalStatement` | interpreter/interpreter.go:1468-1528 | let, return, break, continue and expression statements |
| `Interpreter.Interpreter.EvalBlockScoped` | interpreter/interpreter.go:1991-1997 | a block in a scope of its own |
| `Interpreter.Interpreter.EvalMatchExpr` | interpreter/interpreter.go:1999-2029 | subject, then arms |
| `Interpreter.Interpreter.EvalMatchArms` | interpreter/interpreter.go:2002-2028 | the arm loop |
| `Interpreter.Interpreter.EvalIn` | interpreter/interpreter.go:2007-2026 | an arm's body with its bindings |
| `Interpreter.Interpreter.GuardHolds` | interpreter/interpreter.go:2012-2018 | a guard must be exactly true |
| `Interpreter.Interpreter.EvalExpressions` | interpreter/interpreter.go:2209-2212 | arguments and elements in order |
| `Interpreter.Interpreter.EvalListLiteral` | interpreter/interpreter.go:2786-2801 | list literals |
| `Interpreter.Interpreter.EvalObjectLiteral` | interpreter/interpreter.go:2803-2813 | object literals, the last field of a name winning |
| `Interpreter.Interpreter.EvalEnumConstruction` | interpreter/interpreter.go:2978-3001 | a variant with its payload |
| `Interpreter.Interpreter.EvalFieldAccess` | interpreter/interpreter.go:2272-2292 | a namespace member comes from the handler the stack resolves to, or panics |
| `Interpreter.Interpreter.EvalCallExpr` | interpreter/interpreter.go:2149-2221 | tool, callee, arguments, invocation in this order |
| `Interpreter.Interpreter.InvokeValue` | interpreter/interpreter.go:2213-2220 | functions and builtins are invoked, anything else is nil |
| `Interpreter.Interpreter.CallBuiltin` | interpreter/interpreter.go:2216-2220 | a builtin's result or its panic |
| `Interpreter.Interpreter.Apply` | interpreter/interpreter.go:2223-2270 | bind, run the body in the callee's scope, come back, unwrap the return signal |
| `Interpreter.Interpreter.BindParameters` | interpreter/interpreter.go:2230-2255 | the parameter loop |
| `Interpreter.Interpreter.BindParameter` | interpreter/interpreter.go:2236-2252 | named, then positional, then default while nil |
| `Interpreter.Interpreter.RunWithCapability` | interpreter/interpreter.go:1391-1411 | the capability is held during the callback only |
| `Interpreter.Interpreter.RunCallback` | interpreter/interpreter.go:1424-1449 | a callback without arguments |
| `Interpreter.Interpreter.EvalToolRun` | interpreter/interpreter.go:3202-3245 | a tool is denied without its capability, else run in a scope of its own |
| `Interpreter.Interpreter.BindInputs` | interpreter/interpreter.go:3214-3230 | inputs as parameters |
| `Interpreter.Interpreter.EvalHandleExpr` | interpreter/interpreter.go:2855-2871 | the handler is pushed for the body and popped after it |
| `Interpreter.Interpreter.EvalForInExpr` | interpreter/interpreter.go:2873-2878 | only lists are iterated |
| `Interpreter.Interpreter.EvalForLoop` | interpreter/interpreter.go:2880-2899 | the element loop with break and continue |
| `Interpreter.Interpreter.EvalWhileExpr` | interpreter/interpreter.go:2901-2923 | the while loop |
| `Checking.Table` | typechecker/checker.go:239-250 | the last declaration of a name counts |
| `Checking.Checker.constructor` | typechecker/checker.go:115-126 | an empty checker |
| `Checking.Checker.RecordEffect` | typechecker/checker.go:958-963 | an effect is used unless it is handled here |
| `Checking.Checker.InferExpr` | typechecker/checker.go:570-672 | used effects, effect errors and name errors grow by what the expression uses outside handlers; handled set and scopes are as before |
| `Checking.Checker.InferIdentifier` | typechecker/checker.go:657-672 | a name that is neither an effect nor in scope is an error unless it begins with a capital |
| `Checking.Checker.CheckAssignment` | typechecker/checker.go:769-787 | the value first; assigning to an unbound name or to a top-level `let` is an error |
| `Checking.Checker.CheckLambda` | typechecker/checker.go:913-930 | the body in a scope of the parameters |
| `Checking.Checker.CheckForIn` | typechecker/checker.go:634-641 | the body in a scope of the loop variable |
| `Checking.Checker.CheckMatch` | typechecker/checker.go:854-897 | subject, then arms |
| `Checking.Checker.CheckIf` | typechecker/checker.go:837-852 | condition and both branches |
| `Checking.Checker.CheckHandle` | typechecker/checker.go:812-835 | the effect is handled in the body only; an unknown effect is an error and the body is not looked at |
| `Checking.Checker.InferCall` | typechecker/checker.go:696-734 | arguments, then the declared effects of the callee or the namespace of a method |
| `Checking.Checker.RecordAll` | typechecker/checker.go:711-717 | all declared effects of a callee |
| `Checking.Checker.CheckBlock` | typechecker/checker.go:443-452 | the statement loop, in the current scope, which grows by what it declares |
| `Checking.Checker.CheckStatement` | typechecker/checker.go:454-480 | a second `let` of a name in one scope is an error and its value is not looked at |
| `Checking.Checker.CheckArms` | typechecker/checker.go:854-897 | the arm loop, with guards, each arm in a scope of its bindings |
| `Checking.Checker.CheckEffects` | typechecker/checker.go:967-988 | exactly one way to pass: used equals declared; one error for each effect on one side only |
| `Checking.Checker.CheckFnDecl` | typechecker/checker.go:337-384 | no new error exactly when the body, in a scope of its parameters, is clean and uses exactly the declared effects; the surrounding context is restored |
| `Checking.Checker.Collect` | typechecker/checker.go:239-250 | the first pass |
| `Checking.Checker.Check` | typechecker/checker.go:181-185 | no errors exactly when every function passes |
| `EffectOccurrences.UsedExactly` | typechecker/checker.go:570-835 | an effect is used exactly when a call of it occurs outside every handler for it |
| `EffectOccurrences.HandledAround` | typechecker/checker.go:958-963 | what is handled around an expression is taken from what it uses alone |
| `EffectOccurrences.HandlerMasks` | typechecker/checker.go:812-835 | a handler masks its own effect in the body and no other |
| `EffectOccurrences.ErrorsExactly` | typechecker/checker.go:570-897 | there are no errors exactly when every name is well used and every handler is for a known effect; what is handled around makes no difference |
| `EffectOccurrences.ErrorsSay` | typechecker/checker.go:454-835 | which error each of these is |
| `EffectOccurrences.PassesExactly` | typechecker/checker.go:337-384 | a function passes exactly when its names are well used and it declares the effects that occur in its body outside every handler |
| `EffectOccurrences.LookupIs` | typechecker/checker.go:51-70 | a name is bound when some scope holds it, and may be assigned when the innermost such binding may |
| `EffectOccurrences.WhatIsBound` | typechecker/checker.go:337-384 | what is in scope in a function, a lambda, a loop and after a `let` |
| `EffectOccurrences.PatternBinds` | typechecker/checker.go:854-897 | which names a pattern brings into scope |
| `EffectOccurrences.LastDeclaration` | typechecker/checker.go:239-250 | of several declarations of one name the last is the one that is called |
| `EffectSoundness.GetFunction` | interpreter/environment.go:22-28 | an unshadowed function name finds the function from every scope |
| `EffectSoundness.NameFlat` | interpreter/interpreter.go:1602-1624 | a first-order name has a first-order value |
| `EffectSoundness.UpdateGood` | interpreter/environment.go:38-47 | assignment cannot touch a function |
| `EffectTheorem.SoundEval` | interpreter/interpreter.go:1534-1600 | under handlers for what an expression uses, evaluating it never finds an effect without a handler, and leaves first-order values in a good state |
| `EffectTheorem.SoundCall` | interpreter/interpreter.go:2149-2221 | the same for direct calls and method calls on namespaces |
| `EffectTheorem.CalleeMethod` | interpreter/interpreter.go:2281-2292 | a recorded effect is found on the stack |
| `EffectTheorem.SoundFunction` | interpreter/interpreter.go:2223-2270 | calling any checked function under handlers for its declared effects is safe |
| `EffectTheorem.SoundHandle` | interpreter/interpreter.go:2855-2871 | a handler makes its effect safe in the body |
| `EffectTheorem.SoundArms` | interpreter/interpreter.go:1999-2029 | the same through match arms |
| `EffectTheorem.SoundWhile` | interpreter/interpreter.go:2901-2923 | the same through loops |
| `EffectTheorem.ProgramSound` | typechecker/checker.go:337-384 | in a program that passes, calling any function under providers for its declared effects never reaches a missing handler, at any depth, where the interpreter knows every effect the checker knows |
| `EffectLimits.NamespaceAccess` | interpreter/interpreter.go:2281-2292 | a namespace member panics exactly when nothing on the stack covers the effect |
| `EffectLimits.RuntimeOnlyEffect` | typechecker/checker.go:95-102 | a call of an effect that the interpreter knows and the checker does not panics, and passes the checker exactly when its name alone is accepted |
| `EffectLimits.UncalledMember` | typechecker/checker.go:736-767 | an uncalled namespace member passes the checker and panics, whatever other effects are known |
| `EffectLimits.DefaultValue` | typechecker/checker.go:356-364 | an effect in a default value passes the checker and panics |
| `EffectLimits.ComputedCallee` | typechecker/checker.go:696-709 | an effect in a computed callee passes the checker and panics |
| `EffectLimits.RenamedFunction` | typechecker/checker.go:711-724 | a function called under another name panics and passes the checker exactly when the name alone is accepted: upper-case or bound at the top level |
| `EffectLimits.EscapingLambda` | typechecker/checker.go:812-835 | a lambda written under a handler and called outside it passes the checker and panics, also when its name shadows a harmless function |
| `EffectLimits.ToolBody` | typechecker/checker.go:280-317 | an effect in the body of a tool panics, and the call passes the checker exactly when the tool's name is accepted |
| `Supervisor.FindChild` | interpreter/supervisor.go:93-102 | the first child that tracks a ref |
| `Supervisor.Prune` | interpreter/supervisor.go:108-115 | the pruning loop keeps exactly the times inside the window |
| `Supervisor.StartedSafe` | interpreter/supervisor.go:66-74 | Start leaves the system safe |
| `Supervisor.CrashSafe` | interpreter/supervisor.go:85-134 | taking up a crash keeps the system safe |
| `Supervisor.CloseSafe` | interpreter/supervisor.go:141-147 | a mailbox is closed only once |
| `Supervisor.RespawnSafe` | interpreter/supervisor.go:137-150 | respawning keeps refs distinct and loses no child |
| `Supervisor.RemoveSafe` | interpreter/supervisor.go:195-211 | unregistering keeps the system safe |
| `Supervisor.StepSafe` | interpreter/supervisor.go:85-211 | every step of actors, handlers and callers keeps: no mailbox closed twice, tracked refs distinct, every tracked ref that is done has a pending callback or is being dealt with |
| `SupervisorObject.SupervisorObject.constructor` | interpreter/supervisor.go:53-74 | one fresh actor per spec, in order |
| `SupervisorObject.SupervisorObject.FindRef` | interpreter/supervisor.go:93-102 | the search loop over the records |
| `SupervisorObject.SupervisorObject.HandleCrash` | interpreter/supervisor.go:85-134 | the records updated in place are the crash step |
| `SupervisorObject.SupervisorObject.CountCrashOf` | interpreter/supervisor.go:104-115 | one record's crash times appended and pruned, the others as they were |
| `SupervisorObject.SupervisorObject.Decide` | interpreter/supervisor.go:117-133 | stop over the budget, else restart the strategy's range |
| `SupervisorObject.SupervisorObject.Proceed` | interpreter/supervisor.go:137-150 | one action of the lock holder is one step |
| `SupervisorObject.SupervisorObject.Finish` | interpreter/supervisor.go:137-171 | respawn, move on or unregister |
| `SupervisorObject.SupervisorObject.RestartChild` | interpreter/supervisor.go:137-150 | only the one record changes, to the new actor |
| `SupervisorObject.SupervisorObject.CloseAndWait` | interpreter/supervisor.go:141-147 | close the mailbox, then wait |
| `SupervisorObject.SupervisorObject.Unregister` | interpreter/supervisor.go:199-209 | one record leaves, the rest keep their order |
| `SupervisorObject.SupervisorObject.Stop` | interpreter/supervisor.go:153-171 | stopping begins with the first child |
| `SupervisorObject.SupervisorObject.AddChild` | interpreter/supervisor.go:185-192 | a fresh child at the end |
| `SupervisorObject.SupervisorObject.RemoveChild` | interpreter/supervisor.go:195-211 | removal of the tracked ref, or nothing |
| `SupervisorRuns.SafetyFromStart` | interpreter/supervisor.go:66-211 | after Start, in every interleaving: no mailbox closed twice, refs distinct, no child lost while not stopped |
| `SupervisorRuns.StaleCallback` | interpreter/supervisor.go:89-102 | a callback for an untracked ref, or after stop, changes nothing |
| `SupervisorRuns.UntrackedForever` | interpreter/supervisor.go:85-211 | a replaced or removed ref is never tracked again |
| `SupervisorRuns.SpecsKept` | interpreter/supervisor.go:85-171 | crashes, restarts and stopping never change the list of specs |
| `SupervisorRuns.RestartEffect` | interpreter/supervisor.go:122-150 | when the lock is released exactly the children in the strategy's range have new refs, however actors interleave; RestForOne leaves all before the crashed one |
| `SupervisorRuns.HolderProgress` | interpreter/supervisor.go:137-211 | the lock holder never deadlocks and its own actions are bounded |
| `SupervisorRuns.CountCrashExact` | interpreter/supervisor.go:104-115 | pruning keeps the times equal to the full history filtered to the window |
| `SupervisorRuns.IntervalBudget` | interpreter/supervisor.go:117-120 | no interval as long as the window holds more counted crashes than the budget |
| `SupervisorRuns.RestartBudget` | interpreter/supervisor.go:104-120 | in every run from Start, pruned times are the windowed history, and while not stopped any window-long interval has at most MaxRestarts counted crashes of a child |
| `SupervisorEffects.CrashDecides` | interpreter/supervisor.go:85-133 | a crash is recorded for its child alone, and stops everything exactly when more than the budget lie in the window |
| `SupervisorEffects.RestartByStrategy` | interpreter/supervisor.go:122-150 | when the lock is released: one-for-one has restarted the crashed child alone, one-for-all every child, rest-for-one those from the crashed one on; the others were not told to stop |
| `SupervisorEffects.StopEffect` | interpreter/supervisor.go:153-171 | after stopping every actor is done and none was started |
| `SupervisorEffects.RemoveEffect` | interpreter/supervisor.go:195-211 | after a removal the actor is done and the other children are as they were, in order |
| `SupervisorEffects.RemoveUntrackedAndAdd` | interpreter/supervisor.go:185-211 | removing an untracked ref changes nothing; adding puts a running child at the end |
| `Imports.ModuleCache.constructor` | interpreter/import.go:98-103 | an empty cache |
| `Imports.Resolver.constructor` | interpreter/import.go:98-103 | a child shares the cache and takes over the stack |
| `Imports.Resolver.ProcessImports` | interpreter/import.go:43-52 | imports in order until the first error, stack restored |
| `Imports.Resolver.ResolveImport` | interpreter/import.go:55-83 | cache before cycle test; the stack is restored on success and on error |
| `Imports.Resolver.Load` | interpreter/import.go:80-126 | read, parse, the file's own imports, evaluation, caching |
| `Imports.ResolveSound` | interpreter/import.go:55-126 | on success the evaluated files are distinct, good and after their imports |
| `Imports.WalkDescends` | interpreter/import.go:55-126 | a walk along imports goes strictly back in evaluation order |
| `Imports.StackCycle` | interpreter/import.go:75-78 | a file met again on the stack closes a reachable cycle |
| `Imports.ResolveExplained` | interpreter/import.go:70-97 | an error names its true reason; only reachable files are evaluated |
| `Imports.ImportsTheorem` | interpreter/import.go:43-164 | success exactly when every reachable file reads, parses and lists and the reachable graph is acyclic; then exactly the reachable files are evaluated, each once and after its imports |
| `ImportOrder.InSourceOrder` | interpreter/import.go:43-52 | the files reachable from the first imports are evaluated before any others |
| `ImportOrder.FirstFailure` | interpreter/import.go:43-52 | the import that fails is the first that does not lead to good files without a cycle |
| `ToolArgs.FindVariant` | interpreter/interpreter.go:3637-3640 | the first variant of a name |
| `ToolSchemas.GenerateSchema` | tool/schema.go:80-111 | the generated schema of a type, by a recursion that ends because no declaration being followed turns up again |
| `ToolSchemas.GenerateRecord` | tool/schema.go:113-127 | the loop over fields builds properties and required names |
| `ToolSchemas.GenerateEnum` | tool/schema.go:129-167 | names for unit enums, one branch per variant otherwise |
| `ToolSchemas.GenerateInputs` | tool/schema.go:197-225 | the schema of a tool's inputs |
| `ToolSchemas.SchemaExists` | tool/schema.go:80-167 | generation has an answer exactly when no declaration reachable from the type reaches itself; as many steps as there are declarations are then enough |
| `ToolSchemas.CycleHasNone` | tool/schema.go:101-108 | a declaration that reaches itself has no schema at any depth |
| `ToolSchemas.SchemaUnique` | tool/schema.go:80-167 | whatever depth gives an answer, it is the same schema |
| `ToolAgreement.AcceptedIsValid` | interpreter/interpreter.go:3561-3615 | what the generated schema accepts passes validation |
| `ToolAgreement.AcceptedRecord` | interpreter/interpreter.go:3659-3677 | the same for objects |
| `ToolAgreement.AcceptedEnum` | interpreter/interpreter.go:3617-3657 | the same for enums in both forms |
| `ToolAgreement.ValidIsLowered` | interpreter/interpreter.go:3682-3740 | what passes validation, of a type whose name no declaration takes, is never lowered to nil |
| `ToolAgreement.ShadowExact` | interpreter/interpreter.go:3682-3720 | a declaration named like a built-in type is looked up first when lowering: nothing valid is lowered to nil exactly when there is none, or it is an enum called `String` |
| `ToolAgreement.ListKept` | interpreter/interpreter.go:3690-3702 | no list element is dropped |
| `ToolAgreement.FieldsAt` | interpreter/interpreter.go:3792-3808 | a field is present exactly when its member was, with that member's value |
| `ToolAgreement.ValidIsTyped` | interpreter/interpreter.go:3682-3808 | what passes validation evaluates to a value that has the declared type in the sense of `HasType`: nil for null, Int where Float is declared, the raw inner value for an option, and a field with a default may be missing |
| `ToolAgreement.TypedEnum` | interpreter/interpreter.go:3742-3790 | the same for enums |
| `ToolAgreement.TypedRecord` | interpreter/interpreter.go:3792-3808 | the same for objects |
| `ToolAgreement.CheckArguments` | interpreter/interpreter.go:3512-3530 | the invocation's checks pass exactly when the arguments are valid, and an error names a guilty input |
| `ToolAgreement.AgreedArguments` | interpreter/interpreter.go:3499-3545 | when no declaration the inputs lead to reaches itself there is a schema for the tool, and, no declaration taking the name of a built-in type, arguments it accepts pass the invocation's checks and arrive as values of the declared types, in the sense of `HasType` |
| `ToolValues.ValidMeans` | interpreter/interpreter.go:3682-3808 | what is valid arrives as what it says: the same truth value, text or number, elements in order, declared members with their values, the variant named |
| `ToolValues.FieldsMean` | interpreter/interpreter.go:3499-3545 | so does every argument that passes the checks; inputs not given are not there, and nothing else is |
| `ToolValues.MeansOne` | interpreter/interpreter.go:3682-3808 | a JSON value means one value at a type |
| `ToolStrict.AcceptsExactly` | tool/schema.go:80-167 | the schema of a type accepts exactly the values of the declared shape |
| `ToolStrict.FieldsExactly` | tool/schema.go:113-225 | and that of a record, or of the inputs of a tool, exactly the objects with the declared fields |
| `ToolAgreement.NestedOption` | interpreter/interpreter.go:3547-3552 | an option in an option lets anything through |
| `ToolAgreement.StripsOnce` | interpreter/interpreter.go:3547-3552 | exactly when an option is left after stripping one, nothing is checked |
| `ToolDifferences.SampleAccepted` | tool/schema.go:80-167 | every well-made schema accepts something |
| `ToolDifferences.SchemaWellMade` | tool/schema.go:80-167 | every generated schema is well-made, so it can be satisfied |
| `ToolDifferences.RecordExact` | interpreter/interpreter.go:3659-3677 | objects: all that the schema accepts is valid exactly when the schema fits every declared field |
| `ToolDifferences.UnitEnumExact` | tool/schema.go:129-145 | unit enums: all that the schema accepts is valid exactly when there is a variant |
| `ToolDifferences.EnumExact` | interpreter/interpreter.go:3617-3657 | enums with payloads: exactly when each branch of the schema fits whichever variant the discriminator it allows may name |
| `ToolDifferences.SharedNameExact` | tool/schema.go:101-108 | one name for a record and an enum: they agree exactly when the record asks for a discriminator and fits whichever variant that may name |
| `ToolDifferences.PlainBranchExact` | tool/schema.go:147-166 | a branch without a payload field `kind` fits exactly when the schema of every payload field does |
| `ToolDifferences.KindBranch` | tool/schema.go:147-166 | a branch with a payload field `kind` fits if that field allows only the variant's own name, and only if it allows only names of variants |
| `ToolDifferences.KindBranchExact` | tool/schema.go:147-166 | for any number of variants: a branch with a payload field `kind` fits exactly when the field's type is a unit enum whose names all name variants and the branch's fields cover, field by field, those of every variant named but its own |
| `ToolDifferences.UncheckedExact` | interpreter/interpreter.go:3561-3615 | the validator lets every value through exactly for an option left after stripping one and for an undeclared name |
| `ToolDifferences.KindFieldExact` | tool/schema.go:147-166 | with one variant, agreement if and only if the field `kind` allows nothing but the variant's name |
| `ToolDifferences.ListExact` | interpreter/interpreter.go:3561-3578 | lists: exactly when the elements agree |
| `ToolDifferences.OptionExact` | interpreter/interpreter.go:3547-3552 | options: exactly when the inner type agrees or is itself an option |
| `ToolDifferences.KindField` | tool/schema.go:147-166 | an input on which a payload field `kind` makes them differ |
| `ToolDifferences.SharedName` | tool/schema.go:101-108 | an input on which a shared name makes them differ |
| `Partition.ApplyTransform` | interpreter/interpreter.go:3084-3105 | the sequential loop drops nil and `None` and unwraps `Some` |
| `Partition.SingleTransform` | interpreter/interpreter.go:3163-3182 | with one transform both paths yield the same multiset |
| `Partition.StepItems` | interpreter/interpreter.go:3150-3183 | unfed, queued, in flight, emitted and dropped items always make up the source |
| `Partition.StepOutcome` | interpreter/interpreter.go:3158-3183 | what will be collected is fixed by the source at every step |
| `Partition.StepInvariant` | interpreter/interpreter.go:3144-3195 | every step of feeder, workers and collector keeps all of this |
| `Partition.StartInvariant` | interpreter/interpreter.go:3150-3156 | it holds at the start |
| `PartitionRuns.NoSendBlocks` | interpreter/interpreter.go:3150-3156 | no channel send ever waits |
| `PartitionRuns.NoDeadlock` | interpreter/interpreter.go:3158-3195 | until the results are complete some step can be taken |
| `PartitionRuns.RunBounded` | interpreter/interpreter.go:3158-3195 | every schedule ends |
| `PartitionRuns.Collected` | interpreter/interpreter.go:3190-3195 | the collected results are what the items yield, none missing |
| `PartitionRuns.SameKeys` | interpreter/interpreter.go:3195-3197 | two sorted versions of the same values render alike |
| `PartitionRuns.ScheduleIndependence` | interpreter/interpreter.go:3144-3200 | the result does not depend on the schedule or the number of workers |
| `PartitionRuns.PartitionIsSequential` | interpreter/interpreter.go:3084-3200 | with one transform the result is a sorted version of the sequential one |
| `PartitionRuns.PlainStagesAgree` | interpreter/interpreter.go:3163-3179 | with several transforms both paths agree when no inner stage drops or unwraps |
| `PartitionRuns.WrappedStageDiffers` | interpreter/interpreter.go:3163-3179 | an input on which they differ: an inner stage wraps |
| `PartitionRuns.TwoStagesExact` | interpreter/interpreter.go:3163-3179 | two stages agree whatever the second one is, exactly when every result of the first is passed on as it is |
| `PartitionRuns.StagesExact` | interpreter/interpreter.go:3163-3179 | any number of stages: after any of them, and whatever stage comes next, both paths agree, exactly when every result of every one of them is passed on as it is |
| `PartitionRuns.LastStageExact` | interpreter/interpreter.go:3163-3179 | for given stages both paths agree whatever the last stage is, exactly when the same values, as often, arrive at it |
| `PartitionLaws.ResultsAre` | interpreter/interpreter.go:3144-3200 | every value is collected as often as items end up as it, in the order of the rendering |
| `PartitionLaws.EmitIs` | interpreter/interpreter.go:3168-3182 | what a result puts into the output |
| `PartitionLaws.BeforeIs` | interpreter/interpreter.go:3195-3197 | the order of strings: a beginning first, else the first difference |
| `PartitionLaws.StageIs` | interpreter/interpreter.go:3084-3105 | a sequential stage delivers or drops item after item |
| `Tables.KeptPartition` | stdlib/db.go:178-189 | DELETE takes away exactly what SELECT would have found |
| `Tables.KeptCount` | stdlib/db.go:178-189 | the affected count is the number of rows gone |
| `Tables.DeleteThenQuery` | stdlib/db.go:162-190 | after DELETE the same WHERE finds nothing and other tables are untouched |
| `Tables.UpdateThenQuery` | stdlib/db.go:145-160 | after UPDATE the same WHERE finds the same rows with the one column set, the count says how many, other tables are untouched |
| `Tables.UpdatedSides` | stdlib/db.go:153-159 | rows the WHERE does not pick stay as they were |
| `Tables.InsertThenQuery` | stdlib/db.go:131-142 | an inserted row is found last, exactly when it matches |
| `Tables.CopyObservable` | stdlib/db.go:267-277 | exactly when a deep copy can be told from the original by a query |
| `TableLaws.Compares` | stdlib/db.go:56-100 | numbers compare as numbers, texts as texts, truth values as truth values; other kinds differ unless a text reads as the other |
| `TableLaws.ShownInteger` | stdlib/db.go:85-100 | an integer is shown in decimal, so different ones differ |
| `TableLaws.FilterJoin` | stdlib/db.go:85-190 | SELECT and DELETE keep the order of rows |
| `TableLaws.UpdatedAt` | stdlib/db.go:145-160 | row by row, UPDATE sets the one column where the WHERE matches |
| `TableLaws.InsertedRow` | stdlib/db.go:131-142 | an inserted row has the columns named, each with the last value given |
| `TableLaws.WithoutWhere` | stdlib/db.go:56-176 | SELECT without WHERE gives every row, DELETE without WHERE leaves none and counts them all |
| `TableLaws.RefusedExactly` | stdlib/db.go:131-190 | which statements are refused, and that a refused one changes nothing |
| `TableLaws.QueryRefusedExactly` | stdlib/db.go:56-121 | which queries are refused, and what a query for one row gives |
| `MemoryDb.CopyRow` | stdlib/db.go:252-256 | a fresh row with the same contents |
| `MemoryDb.CopyRows` | stdlib/db.go:76-83 | fresh copies of all rows |
| `MemoryDb.SelectRows` | stdlib/db.go:89-94 | fresh copies of exactly the matching rows |
| `MemoryDb.BuildRow` | stdlib/db.go:137-140 | the last value given for a column stays |
| `MemoryDb.UpdateRows` | stdlib/db.go:153-159 | rows changed in place are the pure update, with the right count |
| `MemoryDb.KeepRows` | stdlib/db.go:178-189 | rows kept are the pure filter, with the right count |
| `MemoryDb.SetTable` | stdlib/db.go:128-190 | storing a slice keeps all rows apart and every other table as it was |
| `MemoryDb.DeepCopy` | stdlib/db.go:267-277 | a copy that shares no object with the original |
| `MemoryDb.MemoryDriver.Query` | stdlib/db.go:56-100 | the pure query, in rows that share nothing with the tables |
| `MemoryDb.MemoryDriver.QueryRow` | stdlib/db.go:102-120 | no row, one fresh row, or an error for several |
| `MemoryDb.MemoryDriver.Exec` | stdlib/db.go:122-194 | the pure statement on the driver's own tables |
| `MemoryDb.MemoryDriver.Begin` | stdlib/db.go:196-205 | a transaction over a fresh deep copy |
| `MemoryDb.MemoryTx.Query` | stdlib/db.go:217-223 | reads the snapshot, or refuses when completed |
| `MemoryDb.MemoryTx.Exec` | stdlib/db.go:225-231 | changes the snapshot only, and nothing when completed |
| `MemoryDb.MemoryTx.Commit` | stdlib/db.go:233-242 | the driver holds the snapshot; a second commit changes nothing |
| `MemoryDb.MemoryTx.Rollback` | stdlib/db.go:244-250 | the transaction is completed, nothing else changes |
| `Isolation.Serve` | stdlib/db.go:56-250 | any client operation on the shared objects is a step of the abstract world, and the tables of driver and open transactions stay disjoint |
| `Isolation.SnapshotIsolation` | stdlib/db.go:196-231 | a transaction sees its begin-time tables and its own writes, whatever others do |
| `Isolation.BeginIsolation` | stdlib/db.go:196-231 | what a query inside a transaction returns depends on the begin-time tables and its own writes only |
| `Isolation.RollbackInvisible` | stdlib/db.go:244-250 | without a commit a transaction leaves everyone else as if it had never run |
| `Isolation.CommitPublishes` | stdlib/db.go:233-242 | commit makes the driver equal to what the transaction saw |
| `Isolation.FinishedInert` | stdlib/db.go:217-250 | a finished transaction can change nothing |
| `Isolation.AnswersAre` | stdlib/db.go:196-250 | whom every operation answers and whom it changes |
| `Fuzzy.LinesRoundTrip` | stdlib/fuzzy.go:178-192 | text survives lines and back exactly when it is not a lone newline |
| `Fuzzy.TrimLeftIs` | stdlib/fuzzy.go:194-197 | trimming at the left leaves the longest rest that does not begin with such a character, and takes away nothing else |
| `Fuzzy.TrimRightIs` | stdlib/fuzzy.go:143-145 | trimming at the right likewise |
| `Fuzzy.NormalizeUnicode` | stdlib/fuzzy.go:226-252 | the loop over code points |
| `Fuzzy.Nested` | stdlib/fuzzy.go:138-152 | what a level accepts every weaker level accepts |
| `Fuzzy.FindWith` | stdlib/fuzzy.go:161-176 | the leftmost matching window, or none |
| `Fuzzy.FindLines` | stdlib/fuzzy.go:134-159 | the strongest level at which any window matches and the leftmost window there; failure only if nothing matches at any level |
| `Fuzzy.BestUnique` | stdlib/fuzzy.go:134-159 | there is only one such window |
| `Fuzzy.WeakestDecides` | stdlib/fuzzy.go:153-158 | failing at the weakest level is failing at all |
| `Fuzzy.ApplyIndent` | stdlib/fuzzy.go:201-222 | the re-indenting loop |
| `Fuzzy.IndentInvisible` | stdlib/fuzzy.go:194-222 | re-indenting makes no difference to the weak comparisons |
| `FuzzyLevels.LevelsAre` | stdlib/fuzzy.go:134-152 | each level by what the lines are made of: equal, equal up to blanks at the end, up to white space around, and then normalised |
| `FuzzyLevels.RuneIs` | stdlib/fuzzy.go:226-252 | the table of punctuation |
| `FuzzyLevels.SpaceIs` | stdlib/fuzzy.go:143-152 | which characters are white space and blanks |
| `FuzzyLevels.IndentMoved` | stdlib/fuzzy.go:201-222 | every line keeps its text behind the new base and what its indent had beyond that of the first line |
| `FuzzyLevels.SplicedAt` | stdlib/fuzzy.go:113-126 | line by line, what a replacement puts where |
| `FuzzyLevels.ReplacementIs` | stdlib/fuzzy.go:93-132 | in a call, where the old lines are best matched the new ones go |
| `FuzzyReplace.WrittenAndReread` | stdlib/fuzzy.go:178-192 | lines read back after writing, but for a last empty line that nothing marks |
| `FuzzyReplace.ReplaceLoop` | stdlib/fuzzy.go:93-132 | a chain of best-match replacements, at most `count` of them, the worst level reported, stopped for the stated reason |
| `FuzzyReplace.WorstIsMaximum` | stdlib/fuzzy.go:109-111 | the reported level is the worst used |
| `FuzzyReplace.OutsideUnchanged` | stdlib/fuzzy.go:121-126 | lines outside the window are unchanged, with exactly one exception |
| `FuzzyReplace.LastLineLost` | stdlib/fuzzy.go:121-126 | the exception is real |
| `FuzzyReplace.ShrinkingEnds` | stdlib/fuzzy.go:93-132 | a replacement with fewer lines than the needle: no more steps than lines |
| `FuzzyReplace.ApartEnds` | stdlib/fuzzy.go:93-132 | a replacement that the needle does not match wherever it overlaps it, even in part: no more steps than matching windows |
| `FuzzyReplace.ThinningEnds` | stdlib/fuzzy.go:93-132 | a replacement that holds fewer of some line of the needle: no more steps than the text has of that line |
| `FuzzyReplace.FadingEnds` | stdlib/fuzzy.go:93-132 | a replacement of as many lines as the needle, which does not match it, however matches overlap: the text read as binary digits for the first line that differs goes down with every step |
| `FuzzyReplace.ReplaceAll` | stdlib/fuzzy.go:93-132 | with count 0 and any of these four conditions the loop ends within the bound they give, and then nothing matches at any level |
| `FuzzyReplace.NextText` | stdlib/fuzzy.go:93-132 | where something matches there is one next text and no other |
| `FuzzyReplace.WanesEnds` | stdlib/fuzzy.go:93-132 | with fewer lines than the needle or fewer of one of them, lines apart from it, or as many that it does not match, the loop reaches a text where nothing matches |
| `FuzzyReplace.Endless` | stdlib/fuzzy.go:93-132 | a replacement that holds a match which writing and reading cannot lose goes on from any text with a match: there are chains of every length |
| `FuzzyReplace.ReproducesNeverEnds` | stdlib/fuzzy.go:93-132 | for such a replacement the loop ends exactly when there was nothing to replace |
| `FuzzyReplace.NoLongerExact` | stdlib/fuzzy.go:93-132 | a replacement with no more lines than the needle, whose match in it, if any, cannot be lost: the loop ends exactly when there is none or there was nothing to replace |
| `FuzzyReplace.OneLineEnds` | stdlib/fuzzy.go:93-132 | a one-line needle whose matches in the replacement, if any, cannot be lost: the loop ends exactly when there are none or there was nothing to replace |
| `BlankNeedle.FrailOrLasting` | stdlib/fuzzy.go:177-191 | the only other one-line needles are blank ones that just the last line of the replacement matches |
| `BlankNeedle.Chosen` | stdlib/fuzzy.go:134-159 | of the blank lines an exact one is taken first, then the first close one, then the first |
| `BlankNeedle.VanishesEnds` | stdlib/fuzzy.go:93-132 | an only blank line that vanishes at the end is gone after one turn or two |
| `BlankNeedle.SettlesEnds` | stdlib/fuzzy.go:93-132 | blank lines at the end of a text without final newline that settle are emptied and lost until none is left |
| `BlankNeedle.GoingNeverEnds` | stdlib/fuzzy.go:93-132 | everywhere else a blank line always remains |
| `BlankNeedle.BlankEnds` | stdlib/fuzzy.go:93-132 | for these needles the loop ends exactly when there is nothing to replace or the blank lines run out |
| `BlankNeedle.OneLineExact` | stdlib/fuzzy.go:93-132 | every one-line needle: the loop ends exactly when no line of the replacement matches it, there is nothing to replace, or its matches are lost one by one |
| `EvenEdit.FragileOrLasting` | stdlib/fuzzy.go:177-192 | of the replacements with no more lines than a needle with text, the others are those the needle matches as a whole, with a blank last line and no final newline |
| `EvenEdit.TurnOf` | stdlib/fuzzy.go:113-126 | there a replacement changes nothing the weakest comparison sees, but may lose the last line |
| `EvenEdit.TwoMatches` | stdlib/fuzzy.go:161-176 | of two matches, overlapping or not, the first has a line with text behind it |
| `EvenEdit.EndTurn` | stdlib/fuzzy.go:113-126 | the only match at the end of the text is gone when an empty line was put in last, and else consists of the lines put in |
| `EvenEdit.GoingNeverEnds` | stdlib/fuzzy.go:93-132 | with text behind a match, lines behind the only match, or an only match at the end whose last line never becomes empty, the loop goes on for ever |
| `EvenEdit.VanishesEnds` | stdlib/fuzzy.go:93-132 | else the match at the end is gone after one turn or two |
| `EvenEdit.EvenExact` | stdlib/fuzzy.go:93-132 | for these replacements the loop ends exactly when there is nothing to replace or the only match is at the end and is lost |
| `EvenEdit.ShortExact` | stdlib/fuzzy.go:93-132 | every replacement with no more lines than a needle with text: the loop ends exactly when the needle does not match it, there is nothing to replace, or the only match is at the end and is lost |
| `TokenBucket.TokenBucket.constructor` | service/ratelimit_middleware.go:25-33 | a full bucket |
| `TokenBucket.TokenBucket.Allow` | service/ratelimit_middleware.go:37-49 | refill, then take one token if there is one |
| `TokenBucket.RunWithin` | service/ratelimit_middleware.go:37-49 | tokens stay between zero and the capacity |
| `TokenBucket.GrantsPaid` | service/ratelimit_middleware.go:37-49 | grants are paid for by tokens at hand and refill |
| `TokenBucket.AnyInterval` | service/ratelimit_middleware.go:37-49 | in any interval of a bucket's life at most the capacity plus the refill is admitted |
| `TokenBucket.SpacedNeverRefused` | service/ratelimit_middleware.go:37-49 | requests at least 1/rps apart are never refused |
| `TokenBucket.FreshGrants` | service/ratelimit_middleware.go:25-49 | a fresh bucket never refuses spaced requests |
| `TokenBucket.TokensGrant` | service/ratelimit_middleware.go:37-49 | tokens at hand and gained, up to the capacity, grant as many requests |
| `TokenBucket.FreshBurst` | service/ratelimit_middleware.go:25-49 | a fresh bucket grants a burst as large as its capacity |
| `TokenBucket.EmptyRefuses` | service/ratelimit_middleware.go:37-49 | a request that finds less than one token is refused |
| `TokenBucket.PerIp.constructor` | service/ratelimit_middleware.go:80-87 | no buckets yet |
| `TokenBucket.PerIp.Allow` | service/ratelimit_middleware.go:80-108 | only the client's own bucket is made or changed |
| `TokenBucket.PerIpIsOneBucket` | service/ratelimit_middleware.go:80-108 | the decisions on one client's requests are those of one bucket run on them alone |
| `TokenBucket.NoLimit` | service/ratelimit_middleware.go:80-108 | without a positive rate there is no limit |
| `IntegerLimiter.RateLimiter.constructor` | service/ratelimit.yr:29-37 | a limiter with full tokens |
| `IntegerLimiter.RateLimiter.Allow` | service/ratelimit.yr:7-21 | truncating refill, timestamp moved only when something was refilled |
| `IntegerLimiter.RateLimiter.Reset` | service/ratelimit.yr:23-26 | full tokens, new timestamp |
| `IntegerLimiter.GrantsPaid` | service/ratelimit.yr:7-21 | grants are paid for by tokens at hand and time the timestamp moved |
| `IntegerLimiter.SinceCreation` | service/ratelimit.yr:7-37 | without reset at most max_tokens + floor(rpm * T / 60000) grants since creation |
| `IntegerLimiter.WindowBound` | service/ratelimit.yr:7-21 | in any reset-free window from a call on, fewer than max_tokens + 1 + rpm * T / 60000 grants |
| `IntegerLimiter.NegativeRate` | service/ratelimit.yr:7-21 | a negative rate grants nothing |
| `IntegerLimiter.TokensGrant` | service/ratelimit.yr:7-21 | tokens at hand grant as many requests |
| `IntegerLimiter.WaitGrants` | service/ratelimit.yr:7-21 | after a wait those earned count too, up to the maximum |
| `IntegerLimiter.MinuteGrants` | service/ratelimit.yr:7-21 | after a minute the limiter is full again |
| `IntegerLimiter.NewGrants` | service/ratelimit.yr:29-37 | a new limiter grants as many requests as its rate says |
| `IntegerLimiter.EmptyRefuses` | service/ratelimit.yr:7-21 | without tokens, and before one is earned, it refuses |

## Left out

- Parser.Parser.Pull: the supply is the collected token list rather than a lexer drained step by step. The two are the same for text without a NUL byte; at a NUL byte the lexer returns EOF and would read on behind it, while the list ends at its first EOF.
- Lexing.Next: bytes from 0x80 on that start no token become ILLEGAL tokens whose literal is the single byte; their re-encoding is not modelled.
- Grammar.ParseExpression: whether the text of a number or duration is in range is a parameter; nodes keep the tokens and names the source keeps, not the numeric values.
- Grammar.ParseDecl: a declaration keeps its parts in source order; where the source has one slot for a key, the last part for that key is what the slot holds, and the defaults of the slots are left out.
- DeclarationRules.DeclarationForm: there are rules for text without errors; the members of tools, agents and MCP servers other than functions, and annotations, inline handlers, middleware and transports have none of their own.
- PrattRoundTrip.PrintThenParse: trees are those of the operator fragment with lower-case identifiers; object literals, blocks and other keyword forms are parsed but not printed.
- Checking.Checker.InferExpr: types are not modelled, so a namespace bound by `let` is not recognised in a later call, nor is one that is computed, as in `{ DB }.query()`; the type errors of the checker are left out, and so are capability annotations. Actors, whose blocks the checker looks into as well, are left out.
- Checking.Checker.InferCall: no let-bound or computed namespaces, as above.
- Checking.Checker.CheckFnDecl: errors about the result type are left out.
- Checking.Checker.Check: type errors are not counted.
- EffectTheorem.ProgramSound: one direction only; whether a program outside the fragment ever reaches a missing handler depends on its whole run, so there is no condition a caller could check. Each shape the fragment excludes has a failing program in `EffectLimits`, save for capability callbacks, which are lambdas.
- Evaluation.Eval: fuel bounds the depth of evaluation; every statement holds for all fuel, and an evaluation that does not end has no normal return to speak about. Floats, bytes, spread, string, qualified-name, object and several-binding match patterns, several payload values of one enum construction, destructuring, coercion by annotation, actors, agents, `self`, delegation and the double evaluation of the owner of `.ask` and `.chat` are left out; equality of values other than numbers, truth values and strings is a parameter.
- Evaluation.EvalTool: the check of declared outputs after the run, which is pure, is left out.
- Evaluation.EvalField: values are immutable; assignment to a field of an object is left out.
- Evaluation.EvalAssign: the target is a name; other targets are left out.
- Evaluation.EvalArms: the match patterns named under Evaluation.Eval are left out.
- Evaluation.EvalList: spread elements are left out.
- Evaluation.EvalWrap: an enum construction has a single payload value.
- Evaluation.EvalCall: `.ask` and `.chat`, pipelines and enum constructors as callees are left out.
- Interpreter.Interpreter.EvalExpression: it and the methods it calls leave out what the functions of `Evaluation` leave out.
- Supervisor.StepSafe: the lock and channels are the enabling conditions of steps; `Stop` before `Start` and a second `Start` are not steps, and a drained actor may always exit.
- SupervisorObject.SupervisorObject.Proceed: a handler that blocks is cut at the blocking point; waiting itself is a step of the system, not of the object.
- Imports.Resolver.Load: evaluating a module is one event, and the names it binds in the importer are left out; joining, cleaning and completing paths happens before the model.
- ToolSchemas.GenerateSchema: descriptions and output schemas are left out, and so is the refusal of a tool without a description.
- ToolSchemas.GenerateInputs: likewise, descriptions and that refusal.
- ToolAgreement.ValidIsTyped: the type a value has is `HasType`, which takes the raw inner value for an option and lets a field with a default be missing, because evaluation neither wraps nor fills in; numbers are reals, and whole numbers outside the 64-bit range are converted without overflow.
- ToolAgreement.TypedEnum: the same `HasType`.
- ToolAgreement.TypedRecord: the same `HasType`.
- ToolAgreement.AgreedArguments: the same `HasType`.
- Partition.ApplyTransform: the variant with an error policy is left out; the partitioned path ignores that policy.
- MemoryDb.MemoryDriver.Exec: statements are parsed already; the regular expressions, the placeholders, the list splitting and the column list of SELECT, which the source ignores, are left out, and `DB.transaction` is not a claim of atomicity.
- Fuzzy.NormalizeUnicode: strings are sequences of code points; invalid UTF-8 is not modelled.
- FuzzyReplace.ReplaceLoop: `limit` cuts off the loop, which need not end when the count is 0.
- FuzzyReplace.ReproducesNeverEnds: for needles of several lines a gap is left between what ends and what does not. It is a replacement of more lines, with at least as many of each line of the needle, an edge that matches an edge of the needle and no match that lasts: whether that ends is the termination of a one-rule rewriting system and depends on the text around the match.
- EvenEdit.ShortExact: needles of several lines that are all blank, with as many blank lines in their place and no final newline, are left out.
- TokenBucket.TokenBucket.Allow: arithmetic over the reals; rounding of floating point is left out, and so is reading the client address from request headers.
- IntegerLimiter.RateLimiter.Allow: 64-bit overflow is left out.
- Error message texts: only the kinds of errors are kept.
- Network, files, language-model clients, command line, formatter, router, JWT, OpenAPI, MCP and agents: plumbing over libraries outside the repository.
