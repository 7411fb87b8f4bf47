# A verified model of a small Lisp toolchain

The toolchain reads Lisp source in several stages:

- **Scanner and parser.** A character scanner turns source text into tokens. A recursive-descent parser turns the tokens into syntax trees (`LVal`: numbers, strings, booleans, nil, symbols, lists and vectors).
- **Macro reader.** It expands `defmacro` definitions and calls of the native `when` macro.
- **Static checker.** It enforces the shapes of `if`, `fn`/`defn`, `let`, `do`, `quote` and calls. It infers function types, narrowing shared placeholder types in place, and computes each node's set of captured symbols.
- **Interpreter.** It evaluates the typed tree over chained scopes and calls the natives (`+`, `-`, `not`, `or`, `and`, `list`, `cons`, `pop`, `nth`, `count`, `print`, `=`, `mod`).
- **Compiler back end.** Lowering turns the typed tree into tree IR. Canonicalisation flattens that IR into statement lists whose operands are constants or temporaries. Copy propagation deletes `temp := temp` moves. A code generator, the `Translator` class, emits tagged-word x86-64 code.

Each stage is modelled in its own module:

- `Scanner`, `Parser`, `Reader`, `Checker`, `Interpreter`, `Natives`, `Lower`, `Canon`, `Optimize`, `Asm`, `Translators`;
- `Environments` holds the chained scopes every stage shares. `TranslatorEnvs` holds the code generator's scope, which is rebuilt from how src/asm.ts uses it;
- `Syntax`, `Runtime`, `Types`, `IR`, `Captures`, `Strings`, `Wrappers` and `AsmStack` hold the shared data and the supporting proofs.

Code that loops or updates state keeps that form:

- the scanner's index loop;
- the parser's list and binding loops;
- `Environment` as a class;
- the accumulator loops of `+` and `-`;
- the interpreter's `do`, `let`, parameter and argument loops;
- the checker's narrowing, capture-merging and seeding loops;
- the `Translator` class with its `asm`, `data`, `id` and `env` fields.

Each such method is proved to compute a function, and the properties are proved about that function.

Where the source does something its authors evidently did not intend (see "## Findings"), the functions concerned in `Canon`, `Optimize` and `Asm` take a `Version`. `AsWritten` follows the source line for line; `Intended` is the corrected behaviour. A property that holds for both versions is proved for both, and the exhibits state what differs.

## Model

| member | source | states |
|---|---|---|
| Scanner.RunEnd | src/scanner.ts:70-72 | the run of one character class that starts at a position ends at the first character outside the class or at the end of the source, and every character before that end is in the class |
| Scanner.Step | src/scanner.ts:34-98 | one pass of the outer loop always consumes at least one character and never lowers the line count |
| Scanner.CharTokenStep | src/scanner.ts:38-43 | a parenthesis or operator character of the character table (`( ) + - * / = > <`) becomes one token of its mapped type whose lexeme is that character, and the scan resumes right after it |
| Scanner.WhitespaceStep | src/scanner.ts:60-66 | a space, tab or carriage return yields no token and no error; a newline yields none and counts one line |
| Scanner.NumberStep | src/scanner.ts:68-76 | a digit or dot starts a NUMBER token that spans the longest run of digits and dots, and a run of plain digits is read as its decimal value |
| Scanner.NumberLiteralRoundTrip | src/scanner.ts:74 | the decimal digits of a natural number scan back to that number |
| Scanner.WordStep | src/scanner.ts:78-92 | a character of the identifier class starts the longest run of that class; the run is the keyword token of the keyword table when it is a keyword and an IDENTIFIER otherwise |
| Scanner.UnexpectedStep | src/scanner.ts:95 | any other character produces no token, an "unexpected character" error carrying the line and the character's code, and the scan resumes at the next character |
| Scanner.StringStep | src/scanner.ts:46-59 | a quote starts a STRING token that runs to the next quote or the end of the source, without consuming the closing quote; the newlines passed are counted, and an error is reported exactly when the end of the source is reached |
| Scanner.StringLiteralShape | src/scanner.ts:57-58 | the literal of a string token is the text after the opening quote without its last character, and the quote itself for a token of one character |
| Scanner.StepSpan | src/scanner.ts:29-32 | the token a step adds starts where the step starts, ends no later than the step does, and its lexeme is the source over that span |
| Scanner.ScanFromSpans | src/scanner.ts:34-99 | every token of a scan is the source over its non-empty span; spans come in increasing, non-overlapping order and line numbers never decrease |
| Scanner.ScanSpans | src/scanner.ts:25-102 | the span property for a whole source |
| Scanner.StringExample | src/scanner.ts:46-59 | `"ab"` scans as the string with literal `a` followed by an unterminated string opened by the closing quote, and one error |
| Scanner.SkipRun | src/scanner.ts:70-72 | the inner loop of the number and identifier cases stops where the run of the class ends |
| Scanner.SkipString | src/scanner.ts:48-52 | the inner loop of the string case stops at the next quote or the end, having counted the newlines it passed |
| Scanner.ScanLexeme | src/scanner.ts:35-98 | the imperative body of the outer loop computes exactly one step of the scan: the same next position, line, token and error |
| Scanner.ScanLoopFrom | src/scanner.ts:34-99 | the accumulating loop gives the tokens and errors collected so far followed by those of the scan of the rest |
| Scanner.ScanTokens | src/scanner.ts:25-102 | `scanTokens` returns the tokens and reports the errors of the scan of the whole source |
| Parser.ParseExpr | src/parser.ts:165-209 | every successful parse consumes at least one token, which is what makes the mutually recursive parse functions terminate |
| Parser.ParseParen | src/parser.ts:182-204 | the `(` dispatch on the next token consumes at least one token when it succeeds |
| Parser.ListItems | src/parser.ts:36-44 | the children loop of `parse_list` succeeds only by stopping in front of an R_PAREN, which it leaves in `rest` |
| Parser.ParseList | src/parser.ts:32-48 | a parsed list consumes at least its `(` |
| Parser.BindingItems | src/parser.ts:54-67 | the bindings loop succeeds only by stopping in front of an R_SQUARE, which it leaves in `rest` |
| Parser.ParseBindings | src/parser.ts:50-71 | parsed bindings consume at least their `[` |
| Parser.ParseIf | src/parser.ts:96-122 | a parsed if consumes at least one token |
| Parser.ParseLet | src/parser.ts:125-151 | a parsed let consumes at least one token |
| Parser.ListItemsStep | src/parser.ts:36-43 | one turn of the list loop: the child parsed at the front is followed by the children of the rest |
| Parser.BindingItemsStep | src/parser.ts:54-66 | one turn of the bindings loop: the key token and the parsed value come first, followed by the bindings of the rest |
| Parser.ParseListLoop | src/parser.ts:32-48 | the source's loop over a reassigned `rest` and a growing `children` computes exactly `parse_list`, errors included |
| Parser.ParseBindingsLoop | src/parser.ts:50-71 | the source's bindings loop computes exactly `parse_bindings`, errors included |
| Parser.ExprSuffix | src/parser.ts:165-209 | the tokens left by a successful parse are a proper suffix of its input: tokens are only consumed from the front |
| Parser.ListItemsSuffix | src/parser.ts:36-44 | the list loop leaves a suffix of its input |
| Parser.ListSuffix | src/parser.ts:32-48 | `parse_list` leaves a proper suffix of its input |
| Parser.BindingItemsSuffix | src/parser.ts:54-67 | the bindings loop leaves a suffix of its input |
| Parser.BindingsSuffix | src/parser.ts:50-71 | `parse_bindings` leaves a proper suffix of its input |
| Parser.IfSuffix | src/parser.ts:96-122 | `parse_if` leaves a proper suffix of its input |
| Parser.LetSuffix | src/parser.ts:125-151 | `parse_let` leaves a proper suffix of its input |
| Parser.EmptyInputFails | src/parser.ts:166-167 | an empty token list fails with "Expected expr, reached end of input" |
| Parser.LiteralConsumesOne | src/parser.ts:4-24 | a STRING or NUMBER token keeps its literal, TRUE, FALSE and NIL become true, false and null, and exactly one token is consumed |
| Parser.ParseLiteralRejects | src/parser.ts:18-19 | `parse_literal` throws a parse error on every other token type |
| Parser.NameConsumesOne | src/parser.ts:26-30 | an identifier is a name expression of its lexeme and consumes exactly one token |
| Parser.DanglingParenFails | src/parser.ts:183-184 | a lone `(` is a dangling-parenthesis error |
| Parser.OtherHeadFails | src/parser.ts:206-207 | a token that is not a literal, an identifier or `(` cannot start an expression |
| Parser.LetNeedsSquare | src/parser.ts:130-133 | a let whose third token is not `[` is a parse error |
| Parser.ExprParen | src/parser.ts:182-204 | every `(` goes to the lookahead dispatch |
| Parser.DispatchIf | src/parser.ts:189-190 | `(` followed by `if` is parsed as an if expression |
| Parser.DispatchLet | src/parser.ts:192-193 | `(` followed by `let` is parsed as a let expression |
| Parser.DispatchList | src/parser.ts:201-202 | `(` followed by anything but `if`, `let`, `loop` or `fn` is parsed as a list |
| Parser.ParseIfParts | src/parser.ts:101-121 | an if whose three children parse and are followed by `)` is the if of those children, and the tokens after the `)` remain |
| Parser.ParseIfUnclosed | src/parser.ts:113-119 | an if whose third child is not followed by `)` fails |
| Parser.ParseIfElseFails | src/parser.ts:108-111 | an if whose false child does not parse fails |
| Parser.ParseLetParts | src/parser.ts:135-150 | a let whose bindings and body parse and are followed by `)` is the let of those bindings and that body |
| Parser.RoundTrip | src/parser.ts:165-209 | parsing the printed tokens of any well-formed expression gives the expression back and leaves exactly the tokens that followed |
| Parser.RoundTripList | src/parser.ts:32-48 | the round trip for lists |
| Parser.RoundTripIf | src/parser.ts:96-122 | the round trip for if expressions |
| Parser.RoundTripLet | src/parser.ts:125-151 | the round trip for let expressions |
| Parser.RoundTripAll | src/parser.ts:36-44 | the list loop collects printed children in order and stops at the `)` after them |
| Parser.RoundTripBindings | src/parser.ts:54-67 | the bindings loop collects printed bindings in order and stops at the `]` after them |
| Parser.IfTwoChildrenFails | src/parser.ts:108-111 | an if with only a condition and a true child is rejected |
| Parser.IfFourChildrenFails | src/parser.ts:116-119 | an if with a fourth child is rejected |
| Parser.UnclosedListFails | src/parser.ts:36-41 | a list whose input ends before its `)` is rejected |
| Parser.UnclosedItems | src/parser.ts:36-41 | the list loop fails when its input ends before a `)` |
| Runtime.AsValue | src/types.ts:46-53 | a syntax list or vector becomes a runtime list or vector of the same length |
| Runtime.TagOf | src/types.ts:3-7 | a value is tagged FUNCTION exactly when it is a function value |
| Runtime.TruthySpec | src/interpreter.ts:17-19 | only `false` and nil are falsey |
| Runtime.NativeIndex | src/native.ts:210-215 | every native has a position in the table, and the table holds that native there |
| Runtime.NativeOps | src/native.ts:210-215 | the table lists the thirteen natives in the order `native_funcs` concatenates them |
| Runtime.TableShape | src/native.ts:9-188 | every native with a fixed arity declares that many parameter types and no rest type, and every variadic one has a rest type |
| Runtime.NativeAtInjective | src/native.ts:210-215 | no two positions of the table hold the same native |
| Runtime.NativeNameInjective | src/native.ts:9-188 | no two natives share a name |
| Runtime.NativeNamesDistinct | src/native.ts:210-215 | the names of the natives at two different positions of the table differ |
| Runtime.NativeOpsComplete | src/native.ts:210-215 | every native is in the table |
| Environments.Bind | src/environment.ts:12-14 | `define` writes the key into the innermost frame and leaves every enclosing frame as it was |
| Environments.DefineThenLookup | src/environment.ts:12-18 | after `define(k, v)`, looking `k` up gives `v` |
| Environments.DefineOther | src/environment.ts:12-24 | `define` changes no other name's binding |
| Environments.Shadow | src/environment.ts:17-18 | a name bound in the innermost frame shadows every enclosing binding |
| Environments.Fallback | src/environment.ts:20-21 | a name missing from the innermost frame is looked up in the enclosing frames |
| Environments.LookupSpec | src/environment.ts:16-24 | a lookup fails exactly when no frame binds the name, and a successful one returns the binding of the innermost frame that has the name |
| Environments.NestLookup | src/environment.ts:8-10 | a fresh nested frame sees exactly what its enclosing frames see |
| Environments.Environment.constructor | src/environment.ts:8-10 | a new frame has an empty map and the given enclosing frame, so its chain is an empty map in front of the enclosing chain |
| Environments.Environment.Define | src/environment.ts:12-14 | `define` overwrites the key in the frame's own map, changes nothing else, and the key then retrieves the new value |
| Environments.Environment.Retrieve | src/environment.ts:16-24 | `retrieve` succeeds exactly when some frame of the chain binds the name, returns the innermost binding, and otherwise raises "Unable to resolve symbol" for that name |
| Environments.ShadowingScenario | src/environment.ts:4-24 | with `a` and `b` defined in an outer frame and `a` redefined in an inner one, the inner frame retrieves its own `a` and the outer `b`, the outer frame keeps its `a`, and `c`, bound nowhere, fails with "Unable to resolve symbol" |
| Natives.SumAppend | src/native.ts:16-22 | the sum of `+` splits over concatenated argument lists |
| Natives.SumFirst | src/native.ts:30-37 | the sum counts the first argument and then the sum of the others |
| Natives.Plus | src/native.ts:16-22 | the accumulator loop of `+` returns the sum of its arguments |
| Natives.Minus | src/native.ts:30-37 | `-` with no argument reads `.value` of undefined; otherwise it returns the first argument minus the sum of the others |
| Natives.FindFirst | src/native.ts:86 | `Array.find` returns the first argument with the wanted truthiness, or nothing when no argument has it |
| Natives.Not | src/native.ts:72-74 | `not` is true exactly when its argument is falsey |
| Natives.OrSpec | src/native.ts:82-92 | `or` returns nil for no arguments and otherwise one of its arguments: the first truthy one if any; the result is truthy exactly when some argument is |
| Natives.AndSpec | src/native.ts:100-110 | `and` returns true for no arguments and otherwise one of its arguments: the first falsey one if any; the result is truthy exactly when every argument is |
| Natives.Cons | src/native.ts:146-148 | `cons` returns a list one longer than its second argument: the first argument followed by that list's elements |
| Natives.Pop | src/native.ts:155-162 | `pop` fails with "Can't pop empty list!" exactly on the empty list and otherwise drops the head |
| Natives.Nth | src/native.ts:169-177 | `nth` succeeds exactly when the index is within the list, returns the element there, and otherwise fails with "nth index out of bounds!" |
| Natives.Count | src/native.ts:184-186 | `count` is the length of the list |
| Natives.PopCons | src/native.ts:146-162 | `pop` undoes `cons` |
| Natives.ConsCountNth | src/native.ts:146-186 | `cons` adds one to `count`, and `nth 0` of the result is the new head |
| Natives.When | src/native.ts:199-206 | `when` builds the three-element list `(if test (do body...))` whose two symbols carry the call's token; with no argument it fails |
| Natives.Apply | src/native.ts:9-188 | after the interpreter's checks, `+` on numbers gives their sum, `-` gives the first minus the sum of the others, and `list` gives its arguments as a list |
| Strings.DigitChar | src/lower.ts:105 | a digit value becomes the character of that digit |
| Strings.NatToStringDigits | src/lower.ts:105 | a printed natural is a non-empty string of digits |
| Strings.DecimalRoundTrip | src/scanner.ts:74 | reading back the printed digits of a natural gives the natural |
| Strings.NatToStringInjective | src/lower.ts:9-12 | distinct numbers print as distinct texts |
| Strings.PrefixedDistinct | src/lower.ts:105-108 | names built from one prefix and distinct counter values differ |
| Strings.DigitTail | src/lower.ts:74-80 | the trailing run of digits of a generated name, from which its counter value is read back, is all digits and no longer than the name |
| Strings.DigitTailAfter | src/lower.ts:74-80 | after a non-digit, the trailing digits are exactly the ones appended |
| IR.GenIdOf | src/lower.ts:74-80 | the counter value a `${prefix}_${id}` name was built from can be read back from the name |
| IR.TempIdOf | src/lower.ts:105-108 | the counter value of a `t${id}` temporary can be read back from it |
| IR.GenDistinct | src/lower.ts:9-12 | names built from distinct counter values differ whatever their prefixes, so every `getID` call yields fresh names |
| IR.GenPrefixDistinct | src/lower.ts:74-80 | the six names an `if` builds from one counter value differ because their prefixes do |
| IR.FreshSum | src/lower.ts:9-12 | names drawn from consecutive counter intervals are together drawn from their union and still occur once |
| Lower.LiteralRoundTrip | src/lower.ts:14-25 | the lowering of literals loses nothing: numbers, booleans as 1 and 0, strings and nil can each be read back from their tagged constants |
| Lower.LowerSymbol | src/lower.ts:27-39 | a symbol lowers to what its innermost binding holds (a `let` temporary or a function's own label) and, when no frame binds it, to a temporary named after the symbol |
| Lower.IfTree | src/lower.ts:82-97 | the lowered `if` is a sequence of eight statements that starts with a conditional jump on the untagged condition to `true_<id>`, with no false target, followed by the `false_<id>` label |
| Lower.ParamNames | src/lower.ts:138 | a function's parameters are passed on as their lexemes, in order |
| Lower.Exps | src/lower.ts:147-149 | every body of a `do` but the last becomes an expression statement, in order |
| Lower.LowerExpr | src/lower.ts:152-187 | the counter never goes back, `if`, `let` and `fn` always draw from it, and a lowered tree never has a function as its value in place (functions are always tagged) |
| Lower.LowerAll | src/lower.ts:61 | the children are lowered left to right into a list of the same length |
| Lower.LowerBindings | src/lower.ts:107-112 | every binding draws one counter value and yields one move, and the bindings are defined in the innermost frame only |
| Lower.IfNamesDistinct | src/lower.ts:72-80 | the three labels and three temporaries of an `if` are pairwise distinct and all carry its counter value |
| Lower.IfNames | src/lower.ts:74-80 | the names of an `if` are `true_`, `false_`, `after_`, `true_result_`, `false_result_` and `if_result_` followed by its counter value |
| Lower.IfOwnFresh | src/lower.ts:72-80 | each name equals at most one of the six names an `if` makes, and they come from the value it draws |
| Lower.IfTreeCount | src/lower.ts:82-97 | an `if` defines a name as often as its own six names and its three parts together do |
| Lower.IfTreeFresh | src/lower.ts:71-98 | when the parts of an `if` define fresh names from consecutive counter intervals, so does the whole `if` |
| Lower.LetTreeFresh | src/lower.ts:100-117 | when the bindings and the body of a `let` define fresh names, so does the whole `let` with its `t<id>` result |
| Lower.FnTreeFresh | src/lower.ts:125-141 | when a function's body defines fresh names, so does the function with its own label |
| Lower.ExpsCount | src/lower.ts:147-149 | the statements of a `do` define exactly what their expressions define |
| Lower.DoTreeFresh | src/lower.ts:143-150 | when the bodies of a `do` define fresh names, so does the `do` |
| Lower.CallFresh | src/lower.ts:119-123 | when the operator and the arguments of a call define fresh names, so does the call |
| Lower.LowerFresh | src/lower.ts:152-187 | every name a lowered tree defines (label, move or phi destination, function label) is defined once and was built from a counter value the lowering drew |
| Lower.IfFresh | src/lower.ts:71-98 | freshness of a lowered `if` |
| Lower.LetFresh | src/lower.ts:100-117 | freshness of a lowered `let` |
| Lower.CallExprFresh | src/lower.ts:119-123 | freshness of a lowered call |
| Lower.FnFresh | src/lower.ts:125-141 | freshness of a lowered function |
| Lower.DoFresh | src/lower.ts:143-150 | freshness of a lowered `do` |
| Lower.LowerAllFresh | src/lower.ts:61 | freshness of lowered children |
| Lower.LowerBindingsFresh | src/lower.ts:107-112 | the moves of the bindings of a `let` define fresh names |
| Canon.Stage | src/lower.ts:243-269 | a tag or untag of a non-trivial value draws a result temporary (and a temporary for the value unless it became one) and leaves a temporary as the value; flat input stays flat |
| Canon.CallEnd | src/lower.ts:287-303 | the end of the call case draws a result temporary and reads the call's value from it; when the callee is a constant or a temporary the source keeps only the arguments' statements, the corrected version runs the callee's after them; the statements stay flat |
| Canon.CanonExpr | src/lower.ts:239-314 | canonicalisation fails exactly when the tree reads a label as a value, with the TypeError of the function case; otherwise the counter never goes back, the statements are flat, the operands are constants or temporaries, and a function comes out only where the tree has one; this holds as written and in the corrected call case alike |
| Canon.CanonArgs | src/lower.ts:275-285 | every argument of a call, constant or temporary included, is moved into a fresh temporary, one per argument in order; the loop fails exactly when an argument reads a label |
| Canon.MoveTail | src/lower.ts:326-333 | a move goes straight to its destination when its source became a constant or a temporary and through a fresh temporary otherwise, keeping the statements flat |
| Canon.CanonStmt | src/lower.ts:316-339 | flattening a statement fails exactly when it reads a label and otherwise yields flat statements, in either version of the call case |
| Canon.CanonStmts | src/lower.ts:320-321 | the `flatMap` over a sequence of statements fails exactly when one of them reads a label and otherwise yields flat statements |
| Canon.LowerProgram | src/lower.ts:189-200 | `lower` yields one canonical expression per top-level expression, each a value after a flat list of statements, and fails only with the label crash; the call case is the source's unless the corrected version is asked for |
| Canon.NewTempSplit | src/lower.ts:248-332 | the temporaries drawn over consecutive counter intervals add up |
| Canon.NewTempFresh | src/lower.ts:248-332 | the temporaries drawn over a counter interval are distinct and carry counter values from it |
| Canon.StageCount | src/lower.ts:243-269 | staging a tag or untag defines what the inner part defines plus exactly the temporaries it draws |
| Canon.CallEndCount | src/lower.ts:287-303 | the end of the call case defines what the arguments and the callee define plus exactly the temporaries it draws, less the callee's statements where the source drops them |
| Canon.MoveTailCount | src/lower.ts:326-333 | the end of the move case defines its destination, what the source defines, and exactly the temporaries it draws |
| Canon.CanonCount | src/lower.ts:239-314 | canonicalisation defines no name more often than the tree does, besides the temporaries it draws, each once; with the corrected call case it defines every name exactly as often as the tree, plus those temporaries |
| Canon.CanonArgsCount | src/lower.ts:275-285 | the staged arguments define at most what the arguments define plus the temporaries drawn for them, and exactly that with the corrected call case |
| Canon.CanonStmtCount | src/lower.ts:316-339 | a flattened statement defines at most what the statement defines plus the temporaries drawn for it, and exactly that with the corrected call case |
| Canon.CanonStmtsCount | src/lower.ts:320-321 | flattened statements define at most what the statements define plus the temporaries drawn for them, and exactly that with the corrected call case |
| Canon.IfTreeKeeps | src/lower.ts:82-97 | an `if` never computes a function only to drop it when its parts do not |
| Canon.LetTreeKeeps | src/lower.ts:114-116 | a `let` never computes a function only to drop it when its moves and body do not |
| Canon.DoTreeKeeps | src/lower.ts:147-149 | a `do` whose discarded bodies are not functions never drops a function |
| Canon.LowerKeepsFuncs | src/lower.ts:152-187 | the lowering never computes a function only to drop it: every function it builds is tagged and `do` discards only values that are not functions |
| Canon.IfKeepsFuncs | src/lower.ts:71-98 | the lowered `if` keeps its functions |
| Canon.LetKeepsFuncs | src/lower.ts:100-117 | the lowered `let` keeps its functions |
| Canon.DoKeepsFuncs | src/lower.ts:143-150 | the lowered `do` keeps its functions |
| Canon.LowerAllKeepsFuncs | src/lower.ts:61 | lowered children keep their functions |
| Canon.LowerBindingsKeepsFuncs | src/lower.ts:107-112 | the moves of lowered bindings keep their functions |
| Canon.PieceFresh | src/lower.ts:192-197 | one top-level expression, lowered and canonicalised as written or corrected, defines each name at most once and only as a name drawn while it was compiled |
| Canon.ProgramFreshAt | src/lower.ts:189-200 | the compiled program, as written or corrected, defines a given name at most once, drawn while the program was compiled |
| Canon.ProgramFresh | src/lower.ts:189-200 | every label, temporary and function label of a compiled program, as written or corrected, is defined at most once and was drawn from the counter during the compile |
| Canon.CollectionLiteralFails | src/lower.ts:57-69 | a non-empty list or vector literal cannot be compiled, in either version: its callee is a label, on which canonicalisation crashes |
| Canon.NewTempHit | src/lower.ts:248-332 | a temporary whose counter value lies in an interval is drawn exactly once over it |
| Canon.ArgsDefineNoLater | src/lower.ts:275-285 | staged arguments define no temporary later than the counter after them that their trees do not define |
| Canon.CallEndCallee | src/lower.ts:287-291 | when the callee is untagged into a temporary, the call reads that temporary, and the statements before the call define it as often as the arguments do, plus the callee's statements in the corrected version |
| Canon.CallCallee | src/lower.ts:287-291 | the call of an untagged callee that is not a constant or temporary reads a temporary that the statements define never as written and exactly once, before the call, when corrected |
| Canon.CalleeDefinitions | src/lower.ts:119-123 | for a call whose operator is a `fn` literal or another call, the compiled call reads a temporary defined never as written and once, before the call, when corrected |
| Canon.CalleeNeverSet | src/lower.ts:287-291 | as written, such a call reads a temporary that no statement sets |
| Canon.CalleeSetOnce | src/lower.ts:287-291 | corrected, that temporary is set exactly once, before the call |
| Canon.FnLiteralCallReadsUnset | src/lower.ts:287-291 | as written, `((fn [x] x) 1)` compiles without error to a call of a temporary that nothing sets |
| Optimize.Replace | src/optimize.ts:3-8 | `replace` never rewrites a constant and rewrites a temporary exactly when the dictionary has its name, to the recorded temporary |
| Optimize.ReplaceAll | src/optimize.ts:19 | the arguments of a call are each replaced, in order |
| Optimize.ReplacePreds | src/optimize.ts:56-59 | a phi keeps each predecessor's label and replaces its source |
| Optimize.ReplaceWhole | src/optimize.ts:7 | handing a whole canonical expression to `replace` keeps it canonical |
| Optimize.ReplaceSettles | src/optimize.ts:3-8 | under a dictionary whose values are not keys, a replaced read is final: replacing again changes nothing and it reads no key |
| Optimize.GenNoMatch | src/optimize.ts:41 | a generated name whose prefix never has `t` before a digit does not match the unanchored `/t\d+/` |
| Optimize.DeletedNames | src/optimize.ts:41 | the `t<id>` temporaries of `let` and of the canonicaliser always match the pattern, while the result temporaries of `if` never do |
| Optimize.OiExpr | src/optimize.ts:10-37 | the dictionary only grows, by names that match the pattern; the expression keeps its kind, label, parameters and captures, and canonical input stays canonical |
| Optimize.OiStmt | src/optimize.ts:39-66 | a statement is dropped exactly when it moves a temporary into a matching temporary, and then the dictionary records the destination as the replaced source; a kept statement keeps its kind, destination and labels and stays flat |
| Optimize.OiStmts | src/optimize.ts:50-51 | the statements of a sequence are rewritten in order with the dictionary the earlier ones left, the dropped ones filtered out, and flat input stays flat |
| Optimize.OptimizeProgram | src/optimize.ts:68-72 | every top-level form is rewritten, one output per input, with one dictionary running on from form to form |
| Optimize.OptimizeIntermediates | src/optimize.ts:68-72 | `optimize_intermediates` returns as many forms as it is given |
| Optimize.SequenceSkeleton | src/optimize.ts:50-51 | a sequence keeps exactly its statements that are not deleted, in their order, each with its kind, destination and labels |
| Optimize.SettledExprIdentity | src/optimize.ts:10-37 | with an empty dictionary an expression with nothing to delete comes back as it is |
| Optimize.SettledStmtIdentity | src/optimize.ts:39-66 | with an empty dictionary a statement with nothing to delete comes back as it is |
| Optimize.SettledStmtsIdentity | src/optimize.ts:50-51 | with an empty dictionary a sequence with nothing to delete comes back as it is |
| Optimize.OutputSettledExpr | src/optimize.ts:10-37 | on canonical input the pass leaves nothing to delete |
| Optimize.OutputSettledStmt | src/optimize.ts:39-66 | a kept canonical statement leaves nothing to delete |
| Optimize.OutputSettledStmts | src/optimize.ts:50-51 | the kept statements of a canonical sequence leave nothing to delete |
| Optimize.ProgramSettled | src/optimize.ts:68-72 | every form of a canonical program leaves nothing to delete after the pass |
| Optimize.ProgramIdentity | src/optimize.ts:68-72 | forms with nothing to delete pass through an empty dictionary unchanged |
| Optimize.OptimizeIdempotent | src/optimize.ts:68-72 | on canonical forms, running the pass a second time changes nothing |
| Optimize.LoweredProgramOptimizes | src/lower.ts:189-200 | the forms `lower` returns, with the source's call case and pass or the corrected ones, stay canonical through the pass, one per input, and the pass is idempotent on them |
| Optimize.ProgramCanonical | src/optimize.ts:68-72 | the pass keeps every canonical form canonical |
| Optimize.IntendedReadsFinal | src/optimize.ts:39-66 | with the condition of a jump and the value of a sequence rewritten like every other expression, a kept canonical statement reads no deleted temporary |
| Optimize.SimpleReadsFinal | src/optimize.ts:10-26 | the operands of a rewritten canonical expression read no deleted temporary |
| Optimize.BindingCanon | src/lower.ts:326-333 | the binding of `(let [x true] (if x 1 2))` canonicalises to a move of the tagged constant into `t4`, then a move of `t4` into `t2` |
| Optimize.JumpCanon | src/lower.ts:336-338 | the jump of that `if` reads `x` through an untag of `t2` |
| Optimize.LetIfMoves | src/optimize.ts:40-47 | the constant's move is kept and the move into `t2` is deleted, with `t4` recorded in its place |
| Optimize.OiStmtsCons | src/optimize.ts:50-51 | one step of the sequence case |
| Optimize.LetIfTail | src/optimize.ts:50-65 | the move into `t2` is dropped, and the jump is rewritten only by the intended pass |
| Optimize.LetIfPass | src/optimize.ts:50-65 | the pass over the binding's moves and the jump keeps the constant's move and the jump |
| Optimize.CondReadsDeletedTemp | src/optimize.ts:64-65 | as written, the pass deletes the move into `t2` but leaves the jump reading `t2`, which nothing sets any more |
| Optimize.CondReadsReplacement | src/optimize.ts:64-65 | the intended pass rewrites the jump to read `t4`, and nothing left reads a deleted temporary |
| Checker.MergeAll | src/checker.ts:245 | the capture array a call builds by `reduce` holds, without repeats, exactly the names captured by any of its arguments |
| Checker.Gather | src/checker.ts:196-203 | the loop of `do` gathers, without repeats, exactly the names captured by any body |
| Checker.UnionOfStable | src/checker.ts:196-203 | appending capture arrays to the heap leaves the union of earlier nodes' captures unchanged |
| Checker.NewLit | src/checker.ts:37-48 | a literal is typed by its own base type and captures nothing |
| Checker.CheckSymbol | src/checker.ts:21-25 | a symbol checks exactly when some enclosing scope binds it, else the error is "unable to resolve symbol" |
| Checker.Collection | src/checker.ts:27-35 | a list or vector node has type LIST or VECTOR and captures the union of its children's names |
| Checker.CheckPrimary | src/checker.ts:37-48 | quoted lists and vectors become list and vector nodes with one child per item |
| Checker.CheckPrimaries | src/checker.ts:27-35 | one typed node per quoted item, heap and scope only grow |
| Checker.CheckVal | src/checker.ts:267-311 | an empty list, or a list whose head is neither a symbol nor a list, is rejected as a bad head; a success only grows the heap |
| Checker.CheckVals | src/checker.ts:329 | one typed node per form, each seeing the scope the forms before it left |
| Checker.ConsChecked | src/checker.ts:329 | the first form's node followed by the rest's nodes, heap growth preserved |
| Checker.CheckIf | src/checker.ts:50-71 | fewer than two or more than three arguments are an error; the `if` has the true branch's type, the condition's capture array, and a nil false branch when there are two arguments |
| Checker.IfNode | src/checker.ts:63-70 | the condition's capture array gains the branches' captures without losing its own |
| Checker.ParamLoop | src/checker.ts:101-118 | every positional parameter is bound in the new frame to a type object of the heap, and the capture arrays are untouched |
| Checker.ParamLoopSpec | src/checker.ts:101-118 | the parameter list is accepted exactly when `&` is absent or second to last, otherwise the error is a bad variadic; the split into positional and rest is the intended one |
| Checker.Retrieved | src/checker.ts:123 | the slots looked up for the positional parameters are the ones the frame binds |
| Checker.NameEntry | src/checker.ts:120-128 | a `defn` name is bound in the new frame to a function type over its parameters |
| Checker.FnScope | src/checker.ts:118-129 | the function's scope is a new frame over the enclosing chain binding every parameter, and the `defn` name when there is one |
| Checker.CheckFn | src/checker.ts:73-157 | wrong argument counts and a nameless `defn` are errors; a success has a symbol-only parameter vector, a function type whose result is the body's type, parameters dropped from the captures, and a `defn` defines its name |
| Checker.ClearFlag | src/checker.ts:132-133 | a placeholder body type stops being narrowable and nothing else changes |
| Checker.FnType | src/checker.ts:135-140 | the function type lists the parameter slots, returns the given slot and has a rest parameter exactly when asked |
| Checker.BodyTypes | src/checker.ts:135-140 | the function type has one parameter per positional parameter and returns the body's type |
| Checker.FnHeap | src/checker.ts:142-149 | the body's captures minus the parameters' names, with earlier capture arrays unchanged |
| Checker.FinishFn | src/checker.ts:132-156 | the finished `fn` node meets everything `CheckFn` promises of a success |
| Checker.FnEnv | src/checker.ts:152-154 | a `defn` makes its name resolve to the function's type in the enclosing scope; a plain `fn` leaves the scope as it was |
| Checker.CheckLet | src/checker.ts:159-187 | a wrong argument count or an odd bindings vector is an error; a success has the body's type, keys matching the vector's symbols, captures equal to the body's minus the bound names, and the scope restored |
| Checker.CheckBindings | src/checker.ts:172-182 | each binding's key is the symbol at its even position in the vector |
| Checker.BindStep | src/checker.ts:179-180 | after binding, the key resolves to the value's type |
| Checker.Keyed | src/checker.ts:172-182 | the first pair's binding followed by the rest's keeps keys matched to the vector |
| Checker.CheckDo | src/checker.ts:189-207 | no bodies gives nil; otherwise a `do` node with one body per argument, the last body's type, and the union of the bodies' captures |
| Checker.DoNode | src/checker.ts:194-206 | the `do` node's type is the last body's and its captures the union of theirs |
| Checker.CheckS | src/checker.ts:209-265 | a checked call has one child per argument and only grows the heap |
| Checker.NarrowStep | src/checker.ts:239-240 | narrowing rewrites at most one type object and leaves the capture arrays alone |
| Checker.NarrowArgs | src/checker.ts:231-242 | the argument loop fails only with a type or compile error and otherwise only rewrites type objects |
| Checker.NarrowArgsSpec | src/checker.ts:231-242 | the loop succeeds exactly when every declared parameter has an argument that satisfies it, and then the heap is the one with every argument narrowed in turn |
| Checker.NarrowArgsLoop | src/checker.ts:231-242 | the loop as written computes what `NarrowArgs` specifies |
| Checker.CallOperator | src/checker.ts:244 | the operator node of a call adds at most one empty capture array and leaves the types alone |
| Checker.CallFunction | src/checker.ts:221-248 | without a rest parameter a count mismatch is an error; a success has at least the declared arguments, the function's result type and the union of the arguments' captures |
| Checker.FinishCall | src/checker.ts:244-247 | the call node has the result type and captures the union of its arguments' names |
| Checker.CallPlaceholder | src/checker.ts:249-264 | a call through a placeholder gets a fresh narrowable placeholder named after the call, and a still-narrowable operator becomes the function type from the arguments' types to it |
| Checker.PlaceholderNode | src/checker.ts:251-263 | the node built once the arguments are checked meets `CallPlaceholder`'s promise |
| Checker.NewBases | src/checker.ts:317-321 | one fresh base-type object per entry, the heap before kept as it was |
| Checker.SigTypedStable | src/checker.ts:316-326 | appending type objects keeps a native's recorded signature |
| Checker.SeedSig | src/checker.ts:317-322 | a native's type objects record exactly its declared signature |
| Checker.SeedNatives | src/checker.ts:316-326 | seeding only appends type objects and only adds names |
| Checker.SeedNativesFind | src/checker.ts:316-326 | every native is bound under its name to its declared signature |
| Checker.SeedUntouched | src/checker.ts:316-326 | a name no later native has keeps its slot |
| Checker.Globals | src/checker.ts:314-326 | the global scope satisfies the checker's heap invariant |
| Checker.GlobalsHoldNatives | src/checker.ts:316-326 | the checker sees every native under its name with the table's signature |
| Checker.CheckProgram | src/checker.ts:313-340 | a failure leaves no typed forms, a success gives one per form |
| Checker.SeedLoop | src/checker.ts:314-326 | the seeding loop as written computes `SeedNatives` |
| Checker.StaticCheck | src/checker.ts:313-340 | the method computes what `CheckProgram` specifies |
| Reader.Restore | src/reader.ts:9-28 | lists stay lists and vectors stay vectors, with the same number of items and the call's token as bracket |
| Reader.RestoreAsValue | src/reader.ts:9-28 | syntax passed to a macro and restored comes back unchanged apart from its brackets' token |
| Reader.AsValueRestore | src/reader.ts:9-28 | a runtime value without functions survives the trip through syntax |
| Reader.RelabelIdempotent | src/reader.ts:22-24 | restoring with one token twice is the same as once |
| Reader.AmpIndex | src/reader.ts:55 | the position of the first parameter spelled `&`, or none when no parameter is |
| Reader.DefMacroSpec | src/reader.ts:43-66 | `defmacro` is accepted exactly when it has three arguments, a symbol name, a vector of symbols, and `&` absent or second to last; the macro then has that name and body, and a rest parameter exactly when `&` is present |
| Reader.Expand | src/reader.ts:30-118 | expansion only adds names to the environment, and only a `defmacro` form can fail |
| Reader.ExpandAll | src/reader.ts:107 | a macro call's arguments expand to as many forms, left to right |
| Reader.NotAMacroCall | src/reader.ts:31-38 | a symbol, a quotation or a call of something that is not a macro expands to itself |
| Reader.RelabelAll | src/reader.ts:22-24 | each item restored with the same token |
| Reader.AsValues | src/reader.ts:107-108 | each argument as the runtime value the macro receives |
| Reader.WhenCall | src/native.ts:199-206 | the native `when` macro applied to syntax succeeds and restores to the three-element list `(if test (do body...))`, with no else branch |
| Reader.WhenExpansion | src/reader.ts:103-113 | `(when test body...)` without nested macro calls expands to the three-element list `(if test (do body...))` and leaves the environment alone |
| Reader.UnchangedAll | src/reader.ts:107 | arguments that each expand to themselves expand together to themselves |
| Reader.FailedArgumentSwallowed | src/reader.ts:103-113 | an error while expanding a macro call's arguments is swallowed by the `catch`: the call is left as written, but the environment keeps what earlier arguments defined |
| Reader.SeedPlain | src/reader.ts:123-132 | every native function is seeded as a plain, non-macro entry |
| Reader.ExpandProgram | src/reader.ts:120-146 | success gives one form per top-level form; a failure comes from some `defmacro` form |
| Reader.DefinedMacroIsCalled | src/reader.ts:99-100 | a valid `defmacro` expands to nil and defines its name as a user macro for the forms after it |
| Interpreter.ChainOfPrefix | src/environment.ts:4-10 | a frame's scope chain depends only on the frames created before it, so creating frames later never changes it |
| Interpreter.ResolveIsLookup | src/environment.ts:16-24 | resolving a name in the frame arena is the chain lookup of the environment |
| Interpreter.DefineIsBind | src/environment.ts:12-14 | defining into a frame is binding in the innermost map of the chain that frame sees |
| Interpreter.OpenIsNest | src/interpreter.ts:52 | a new frame sees its enclosing frame's chain behind an empty map |
| Interpreter.ArgsFromSpec | src/interpreter.ts:113-124 | the type check passes exactly when every argument has an expected type, positional or rest, and matches it |
| Interpreter.ChecksEstablishFits | src/interpreter.ts:105-124 | a native that passes the arity and type checks receives the arguments it relies on |
| Interpreter.CheckArgsLoop | src/interpreter.ts:113-124 | the loop as written computes `CheckArgs` |
| Interpreter.BindSeqKeys | src/interpreter.ts:54-57 | after the parameter loop a name is bound exactly when it was before or is one of the bound parameters |
| Interpreter.BindSeqLast | src/interpreter.ts:54-57 | a repeated parameter holds the argument of its last occurrence |
| Interpreter.BindSeqKeep | src/interpreter.ts:54-57 | a name no parameter has keeps its value |
| Interpreter.BindParams | src/interpreter.ts:54-57 | the loop as written computes `BindSeq` |
| Interpreter.CallFrameBinds | src/interpreter.ts:51-62 | inside its body a named closure sees itself under its name, an unshadowed parameter holds its argument, and the frame's parent is the closure's defining frame |
| Interpreter.MakeClosure | src/interpreter.ts:45-71 | the closure captures the current frame; `defn` makes its name resolve to it there, a plain `fn` changes no frame |
| Interpreter.Eval | src/interpreter.ts:138-170 | evaluation in a frame writes no existing frame but that one |
| Interpreter.EvalAll | src/interpreter.ts:111 | one value per expression, writing no existing frame but the current one |
| Interpreter.EvalIf | src/interpreter.ts:35-43 | evaluating an `if` writes no existing frame but the current one |
| Interpreter.EvalBindings | src/interpreter.ts:77-80 | every key of a `let` is defined in the `let`'s own frame, and no other existing frame is written |
| Interpreter.EvalLet | src/interpreter.ts:73-83 | a `let` writes no frame that existed before it |
| Interpreter.EvalDo | src/interpreter.ts:85-95 | no bodies give nil without effects; otherwise only the current frame is written |
| Interpreter.EvalCall | src/interpreter.ts:97-128 | a call writes no existing frame but the current one |
| Interpreter.Invoke | src/interpreter.ts:51-63 | invoking a callable writes no frame that existed before the call |
| Interpreter.IfIgnoresOtherBranch | src/interpreter.ts:39-42 | the branch the condition does not select never affects the result |
| Interpreter.CallNonFunction | src/interpreter.ts:102-103 | a call whose operator is not a function fails, whatever its arguments |
| Interpreter.ArityCheckedFirst | src/interpreter.ts:106-109 | a fixed arity the argument count misses fails before any argument is evaluated |
| Interpreter.DoSingle | src/interpreter.ts:85-95 | a `do` with one body is that body |
| Interpreter.EvalDoLoop | src/interpreter.ts:91-94 | the loop as written computes `EvalDo` |
| Interpreter.EvalBindingsLoop | src/interpreter.ts:77-80 | the loop as written computes `EvalBindings` |
| Interpreter.NativeBindingsFind | src/interpreter.ts:175-176 | every native is bound under its own name to itself |
| Interpreter.GlobalsHoldNatives | src/interpreter.ts:173-176 | the global frame resolves every native's name to that native |
| Interpreter.Run | src/interpreter.ts:172-190 | an empty program gives the empty string; a successful non-empty run gives the rendered value of the last form and reports nothing; every failure of the forms is caught and gives the empty string, a runtime error being reported and any other error (a TypeError of the host) silently dropped; only the model's own fuel exhaustion is not an outcome |
| Interpreter.MinusAloneSilent | src/interpreter.ts:184-189 | `(-)` reads the value of a missing argument in the native `-` (src/native.ts:31), and the run ends with the empty string and nothing reported |
| Interpreter.Finish | src/interpreter.ts:182-189 | a runtime error is reported with the empty string, any other error is swallowed with the empty string, fuel exhaustion alone stays a failure, a value is rendered |
| Interpreter.RunAt | src/interpreter.ts:179-183 | a failing form, or the last form's value, decides the whole run |
| Interpreter.Interpret | src/interpreter.ts:172-190 | the loop over all forms but the last, then the last, computes `Run`: the rendered last value, or the empty string after any caught error |
| Captures.AddNewLexemes | src/checker.ts:65-68 | adding a child's symbols yields exactly the lexemes of both arrays |
| Captures.AddNewShape | src/checker.ts:65-68 | the array keeps its own symbols first and appends only symbols whose lexeme it lacked |
| Captures.AddNewDistinct | src/checker.ts:200-203 | each lexeme is added at most once |
| Captures.AddNewSpec | src/checker.ts:65-68 | the merge of `if` and `do` is a union of lexemes that keeps the existing symbols first and introduces no repeats |
| Captures.AddNewLoop | src/checker.ts:200-203 | the push loop as written computes `AddNew` |
| Captures.Fresh | src/checker.ts:186 | the filter keeps only symbols whose lexeme is not among the bound names |
| Captures.FreshSpec | src/checker.ts:186 | the `let` filter removes exactly the bound lexemes and introduces no repeats |
| Captures.MergeSpec | src/checker.ts:245 | one step of the call's `reduce` is a union of lexemes that keeps the accumulator first and introduces no repeats |
| Captures.FindLexeme | src/checker.ts:145 | the first position holding the lexeme, or none exactly when no symbol has it |
| Captures.RemoveFirstSpec | src/checker.ts:145-148 | on an array without repeats, splicing out the first symbol of a lexeme removes that lexeme and nothing else |
| Captures.RemoveAllSpec | src/checker.ts:144-149 | a function's captures are its body's without any parameter's lexeme |
| Captures.RemoveAllLoop | src/checker.ts:144-149 | the splice loop as written computes `RemoveAll` |
| TranslatorEnvs.Find | src/asm.ts:103 | the first entry holding the key, or none exactly when no entry holds it |
| TranslatorEnvs.FindFrom | src/asm.ts:103 | the first entry from a position on holding the key, or none exactly when none does |
| TranslatorEnvs.FindByKeys | src/asm.ts:286-301 | frames with the same keys in the same order find every key at the same place |
| TranslatorEnvs.Retrieve | src/asm.ts:103 | a name resolves exactly when the frame binds it, else the error is "unable to resolve symbol" |
| TranslatorEnvs.Bind | src/asm.ts:252 | binding counts one more name of its kind and no other kind |
| TranslatorEnvs.BindFinds | src/asm.ts:252 | after binding, the key finds the new entry, numbered by the count of its kind before; a new key comes last and a rebound key keeps its place |
| TranslatorEnvs.BindOther | src/asm.ts:301-309 | binding a name leaves every other name's entry as it was |
| TranslatorEnvs.BindDistinct | src/asm.ts:301-309 | binding keeps a frame's keys distinct |
| TranslatorEnvs.BindAll | src/asm.ts:301-305 | binding a run of names of one kind counts that many more of that kind only |
| TranslatorEnvs.BindAllOther | src/asm.ts:301-305 | a name the run does not mention keeps its entry |
| TranslatorEnvs.BindAllAt | src/asm.ts:301-305 | the name at position `i` of the run, unless repeated later, is numbered `i` past the kind's earlier count |
| TranslatorEnvs.FrameParam | src/asm.ts:304-305 | in a function's frame, parameter `j` unless repeated later is parameter number `j` |
| TranslatorEnvs.FrameCaptured | src/asm.ts:301-302 | in a function's frame, enclosing name `i` unless shadowed is closure slot `i` |
| Asm.Int32 | src/asm.ts:73 | JavaScript's 32-bit conversion gives the signed 32-bit value congruent to its input |
| Asm.IntTagged | src/asm.ts:71-74 | an integer literal's word carries the integer tag, as written and as intended |
| Asm.IntWordRoundTrip | src/asm.ts:17-21 | the intended encoding keeps a 64-bit word and gives back the tag and the number for every payload that fits |
| Asm.AsWrittenAgrees | src/asm.ts:73 | for numbers below 2^28 in size the shift as written gives the intended word |
| Asm.LargeLiteralWraps | src/asm.ts:73 | the literal 2^28 is loaded as the word of -2^28, while the intended word carries 2^28 |
| Asm.OnlyTrueIsTrueWord | src/asm.ts:219 | the word `if` compares against (9) is loaded by `true` and by no other literal |
| Asm.LiteralsAreNotClosures | src/asm.ts:181-186 | no literal and not the empty list passes the closure tag check before a call |
| Asm.RegisterParam | src/asm.ts:28 | an index names a register exactly when it is below six |
| Asm.FormatMem | src/asm.ts:30-35 | a non-negative index is a slot below `rbp`, a negative one a word above the saved `rbp` and the return address, always word-aligned |
| Asm.FormatMemInjective | src/asm.ts:30-35 | distinct indexes address distinct words |
| Asm.LocalIsFrameSlot | src/asm.ts:39-40 | a local is read from the frame slot `format_mem` names for its index |
| Asm.ArgPopRegs | src/asm.ts:191-195 | a call pops `min(5, n)` arguments into registers |
| Asm.PopIntoSpec | src/asm.ts:194-195 | popping distinct registers puts the k-th value from the top in the k-th register and leaves the bottom of the stack |
| Asm.PopIntoKeeps | src/asm.ts:194-195 | a register the pops do not name keeps its value |
| Asm.ArgPopRegsDistinct | src/asm.ts:191-195 | the registers a call pops into are distinct |
| Asm.ParamsAgree | src/asm.ts:188-203 | reading parameter `j` where the convention puts it finds argument `j` |
| Asm.FewParamsAsWritten | src/asm.ts:42-47 | with at most five arguments the source's addressing of parameters is the convention's |
| Asm.SixParamsMisread | src/asm.ts:42-47 | with six parameters the source reads the sixth from no register and the first from the register holding the second argument |
| Asm.RestoreRegs | src/asm.ts:206-207 | the restore pops one register per saved one |
| Asm.SavedRegistersRestored | src/asm.ts:166-170 | registers pushed in order and popped in reverse each get their own value back |
| Asm.DigitsBeforeUnderscore | src/asm.ts:281 | a run of digits, an underscore and a name split back into the same digits and name |
| Asm.LabelHead | src/asm.ts:215-216 | a label's first two characters tell its kind |
| Asm.LabelOfInjective | src/asm.ts:66-69 | labels with different numbers or kinds differ, so every label `getId` yields is new |
| Asm.EmitEmit | src/asm.ts:63 | appending two pieces of code in turn is appending their concatenation |
| Asm.SavePushes | src/asm.ts:134-135 | one push per saved register |
| Asm.RestorePops | src/asm.ts:158-159 | one pop per saved register |
| Asm.ArgPops | src/asm.ts:194-195 | one pop per argument passed in a register |
| Asm.EmitLiteral | src/asm.ts:71-95 | a number or boolean loads its tagged word `LiteralWord` into `rax`, nil clears `rax` (word 0), and the scope is left as it was |
| Asm.EmitSymbol | src/asm.ts:97-105 | a symbol fails exactly when it is neither a built-in nor bound, with "unable to resolve symbol", and emits nothing then; it never draws a label |
| Asm.EmitVector | src/asm.ts:118-123 | compiling a vector leaves the scope as it was |
| Asm.EmitPrimary | src/asm.ts:107-116 | a quoted value compiled without error leaves the scope as it was |
| Asm.EmitList | src/asm.ts:125-163 | a quoted list compiled without error leaves the scope as it was |
| Asm.EmitChildren | src/asm.ts:138-141 | the element loop compiled without error leaves the scope as it was |
| Asm.FormOf | src/asm.ts:348-378 | special forms are recognised only under a symbol head, and only a head that is neither symbol nor list is refused |
| Asm.EmitExpr | src/asm.ts:337-380 | a form compiled without error leaves the scope as it was |
| Asm.EmitS | src/asm.ts:165-208 | a call compiled without error leaves the scope as it was |
| Asm.EmitArgs | src/asm.ts:173-176 | the argument loop compiled without error leaves the scope as it was |
| Asm.EmitIf | src/asm.ts:210-227 | an `if` compiled without error leaves the scope as it was |
| Asm.EmitLet | src/asm.ts:229-262 | a `let` without exactly two arguments fails with the argument-count error, one whose bindings are not a vector of even length with the bindings error, both before anything is emitted; after a successful `let` the enclosing scope is back |
| Asm.EmitLetRestores | src/asm.ts:255-261 | once the bindings are compiled, the `finally` gives back the enclosing scope whether the body compiles or fails |
| Asm.EmitBindings | src/asm.ts:243-253 | each binding pair adds exactly one local slot |
| Asm.PairShrinks | src/asm.ts:243-245 | each binding pair lies inside the vector and the rest is smaller |
| Asm.CaptureCopiesNext | src/asm.ts:289-294 | the copies of the first `i + 1` names are those of the first `i` followed by name `i`'s |
| Asm.FnScopeSelf | src/asm.ts:308-309 | in a named function's scope its name is the closure's label |
| Asm.FnScopeParam | src/asm.ts:304-305 | parameter `j`, unless shadowed, is parameter number `j` of the body |
| Asm.FnScopeCaptured | src/asm.ts:301-302 | enclosing name `i`, unless shadowed, is closure slot `i` of the body |
| Asm.CaptureSlotAgrees | src/asm.ts:51 | the captured value stored at offset `8(i+1)` of the closure is the one the body reads for closure slot `i` |
| Asm.CapturedParamAsWritten | src/asm.ts:289-294 | as written, `(fn [x] (fn [] x))` copies `x` from a frame slot where the call left no argument |
| Asm.CapturedParamIntended | src/asm.ts:289-294 | corrected, a captured parameter is copied from where the call left that argument |
| Asm.FnParts | src/asm.ts:264-278 | fewer than two arguments, or parameters that are not a vector of symbols, are errors; otherwise the name is present exactly when the first argument is a symbol, and the body is the argument after the parameters |
| Asm.EmitFn | src/asm.ts:264-325 | a function literal compiled without error leaves the scope as it was |
| Asm.EmitFnOk | src/asm.ts:280-281 | a well-formed function literal draws two label numbers, `after_` from the first and the function label from the second, and goes on with the body |
| Asm.ClosureSlots | src/asm.ts:286 | one zero word per captured name |
| Asm.EmitFnBody | src/asm.ts:283-325 | the enclosing scope is restored after the body |
| Asm.EmitFnTry | src/asm.ts:311-324 | the `finally` restores the enclosing scope whether or not the body fails |
| Asm.EmitDo | src/asm.ts:327-335 | a `do` compiled without error leaves the scope as it was |
| Asm.EmitSeq | src/asm.ts:333-334 | the body loop compiled without error leaves the scope as it was |
| Asm.EmitProgram | src/asm.ts:390-391 | a program compiled without error leaves the global scope as it was |
| AsmStack.DeltaAppend | src/asm.ts:63 | the stack movement of concatenated code is the sum of the parts' |
| AsmStack.DeltaUniform | src/asm.ts:134-135 | code whose instructions each move the stack by `d` moves it by `d` per instruction |
| AsmStack.EmitDelta | src/asm.ts:63 | appending code adds its stack movement |
| AsmStack.GetMemNeutral | src/asm.ts:37-57 | reading a variable touches no stack |
| AsmStack.CallTailDelta | src/asm.ts:181-207 | after the callee is in `rax`, a call releases every pushed argument and every saved register |
| AsmStack.ListNodeDelta | src/asm.ts:143-155 | building one list cell pops its value (and the next cell) and pushes its own address unless it is the head |
| AsmStack.ListNodesDelta | src/asm.ts:143-155 | building all the cells pops every pushed element and leaves the head in `rax` |
| AsmStack.LiteralBalanced | src/asm.ts:71-95 | a literal leaves the stack as it found it |
| AsmStack.SymbolBalanced | src/asm.ts:97-105 | a symbol leaves the stack as it found it |
| AsmStack.VectorBalanced | src/asm.ts:118-123 | a vector leaves the stack as it found it |
| AsmStack.PrimaryBalanced | src/asm.ts:107-116 | a quoted value leaves the stack as it found it |
| AsmStack.ListBalanced | src/asm.ts:125-163 | a quoted list pushes saved registers and elements and pops them all again |
| AsmStack.ListTailDelta | src/asm.ts:143-162 | building `n` cells and restoring the saved registers releases all of them |
| AsmStack.ChildrenPushed | src/asm.ts:138-141 | each element leaves exactly one word pushed |
| AsmStack.ExprBalanced | src/asm.ts:337-380 | a form without nested `let`s in one function leaves the stack as it found it |
| AsmStack.SBalanced | src/asm.ts:165-208 | a call releases the saved registers and one word per argument it pushed |
| AsmStack.ArgsPushed | src/asm.ts:173-176 | each argument leaves exactly one word pushed |
| AsmStack.JumpsNeutral | src/asm.ts:219-226 | the test, jumps and labels of an `if` move no stack |
| AsmStack.IfBalanced | src/asm.ts:210-227 | each branch of an `if` leaves the stack where the condition left it |
| AsmStack.FreeDelta | src/asm.ts:257 | `add rsp, 8k` releases `k` words |
| AsmStack.LetDelta | src/asm.ts:229-262 | a `let` pushes one word per binding and then frees every local slot of its frame, so it ends lower by the enclosing frame's local count |
| AsmStack.BindingsPushed | src/asm.ts:243-253 | each binding leaves its value pushed |
| AsmStack.FnScopeNoLocals | src/asm.ts:284 | a function body starts a frame with no local slots |
| AsmStack.CopiesNeutral | src/asm.ts:289-294 | copying the captured values into the closure moves no stack |
| AsmStack.FnCodeDeltas | src/asm.ts:295-320 | the body's entry pushes `rbp` and its exit pops it |
| AsmStack.FnStartDelta | src/asm.ts:286-309 | entering a function body leaves `rbp` pushed and a frame without locals |
| AsmStack.FnBalanced | src/asm.ts:264-325 | a function literal's code is balanced where it stands |
| AsmStack.FnBodyBalanced | src/asm.ts:283-325 | the body is entered with `rbp` pushed and pops it before `ret` |
| AsmStack.FnTryBalanced | src/asm.ts:311-324 | the `try` pops the `rbp` the entry pushed |
| AsmStack.DoBalanced | src/asm.ts:327-335 | a `do` leaves the stack as it found it |
| AsmStack.SeqBalanced | src/asm.ts:333-334 | each body of a `do` leaves the stack as it found it |
| AsmStack.ProgramBalanced | src/asm.ts:387-391 | a program whose `let`s are not nested within one function leaves `rsp` where `_start` set `rbp` |
| Translators.Translator.constructor | src/asm.ts:59-64 | a new translator has an empty scope, label counter 0 and no code or data |
| Translators.Translator.GetId | src/asm.ts:66-69 | the counter goes up by one and the new value is returned; nothing else changes |
| Translators.Translator.CompileLiteral | src/asm.ts:71-95 | the translator ends in the state `Asm.EmitLiteral` gives |
| Translators.Translator.CompileSymbol | src/asm.ts:97-105 | state and error are those of `Asm.EmitSymbol` |
| Translators.Translator.CompileVector | src/asm.ts:118-123 | the state is that of `Asm.EmitVector` |
| Translators.Translator.CompilePrimary | src/asm.ts:107-116 | state and error are those of `Asm.EmitPrimary` |
| Translators.Translator.SaveRegisters | src/asm.ts:134-135 | the save loop appends one push per register, in order |
| Translators.Translator.RestoreRegisters | src/asm.ts:158-159 | the restore loop appends the pops in reverse order |
| Translators.Translator.PushChildren | src/asm.ts:138-141 | state and error are those of `Asm.EmitChildren` |
| Translators.Translator.BuildCells | src/asm.ts:143-155 | the cell loop appends the cells from the last element to the first |
| Translators.Translator.CompileList | src/asm.ts:125-163 | state and error are those of `Asm.EmitList` |
| Translators.Translator.PushArgs | src/asm.ts:173-176 | state and error are those of `Asm.EmitArgs` |
| Translators.Translator.EmitCall | src/asm.ts:181-207 | appends the tag check, the argument pops, the call, the stack release and the restore |
| Translators.Translator.CompileS | src/asm.ts:165-208 | state and error are those of `Asm.EmitS` |
| Translators.Translator.CompileIf | src/asm.ts:210-227 | state and error are those of `Asm.EmitIf` |
| Translators.Translator.PushBindings | src/asm.ts:243-253 | state and error are those of `Asm.EmitBindings` |
| Translators.Translator.CompileLet | src/asm.ts:229-262 | state and error are those of `Asm.EmitLet` |
| Translators.Translator.CaptureCode | src/asm.ts:288-294 | the copies of every enclosing name into its closure slot, as `Asm.CaptureCopies` lists them |
| Translators.Translator.FnFrame | src/asm.ts:284-309 | the function's frame binds the enclosing names as closure slots, then the parameters, then its own name, as `Asm.FnScope` says |
| Translators.Translator.EnterFn | src/asm.ts:286-312 | the state is that of `Asm.FnStart` |
| Translators.Translator.CompileFnBody | src/asm.ts:283-325 | state and error are those of `Asm.EmitFnBody` |
| Translators.Translator.CompileFnTry | src/asm.ts:311-324 | state and error are those of `Asm.EmitFnTry` |
| Translators.Translator.CompileFn | src/asm.ts:264-325 | state and error are those of `Asm.EmitFn` |
| Translators.Translator.CompileDo | src/asm.ts:327-335 | state and error are those of `Asm.EmitDo` |
| Translators.Translator.CompileExpr | src/asm.ts:337-380 | state and error are those of `Asm.EmitExpr` |
| Translators.Compile | src/asm.ts:387-391 | a new translator that has compiled every form in turn, as `Asm.EmitProgram` gives |

## Left out

- **Console I/O.** Console output (`print`, `console.log` debugging in src/lower.ts and src/optimize.ts, the reporting of runtime errors) is not modelled. `print` returns nil, and `Interpreter.Run` returns the reported error instead of printing it. Rendering the final value (`logRuntimeVal`, not part of this model) comes in as the `render` parameter.
- **Host-dependent natives.** `=` relies on the host's deep equality, and `mod` on JavaScript's floating-point remainder. `+` and `-` on arguments that are not all numbers rely on the host's coercions. These calls come in as the `foreign` parameter of `Natives.Apply` and are not computed.
- **Numbers.** All numbers are integers. Floating point, NaN and fractional literals are not modelled, and `Number(lexeme)` is modelled only for digit-only lexemes.
- **Type compatibility.** `satisfies` and `narrow` come from src/expr.ts, which is not part of this model. They are the `Oracle` parameter of the checker, so no property of the checker depends on what they compute.
- **Macro bodies.** A user macro's call re-runs the checker and the interpreter on the macro body (src/reader.ts:81-96). It comes in as the `invoke` parameter of `Reader.Expand`.
- **Interpreter depth.** `Interpreter.Eval` follows nested evaluation only as deep as its `fuel` allows and reports `OutOfFuel` beyond that; `Interpreter.Run` then fails instead of giving an outcome. Programs that do not terminate, and results that need more fuel than is given, are not covered.
- **`loop` and `recur`.** The interpreter returns nil for both (src/interpreter.ts:130-136), and they are not modelled. The parser's `parse_loop` and `parse_fn` stubs return `undefined`, and the model reports the TypeError a caller then meets.
- **Dead and unused code.** The commented-out `isCanonicalExpr`/`isCanonicalStmt` of src/lower.ts are not modelled. Neither is src/ast.ts, which is unused.
- **Inherited names.** JavaScript's `in` on a plain object also finds inherited names such as `toString`. The scanner's keyword lookup reproduces this as a token of no type. The model does not reproduce it in three other places, where scopes and tables are maps holding only the names actually defined: `retrieve` (src/environment.ts:17) resolves `toString` in any frame instead of raising "Unable to resolve symbol"; `compile_symbol` (src/asm.ts:98) takes `toString` for a native and emits a closure load for it; `replace` (src/optimize.ts:7) replaces a temporary named after such a free symbol by the inherited function. The code generator's `symbolMap` is an entry list in insertion order.
- **String lengths.** Lengths of strings count characters, not UTF-16 code units.
- **Assembly text.** src/asm.ts:383-418 (the `extern` prologue, `indent`, and joining the instructions into text) is not modelled. Instructions and data are datatypes, and the run-time routines (`__allocate`, `__removeTag`, `__toClosure`, `__toList`, `__toString`, `__error`, the built-ins' closures) are opaque operands with no machine semantics.
- **`TranslatorEnv`.** `TranslatorEnv` and `VarType` of src/environment.ts are not part of this model. `TranslatorEnvs` rebuilds them from every use in src/asm.ts, and a `let` frame copies the enclosing frame's counts.
- **Non-empty vectors.** `compile_vector` emits nothing for a non-empty vector (src/asm.ts:118-123). The model reproduces this, so `rax` then keeps its previous value.
- AsmStack.ExprBalanced: proved only for forms without a `let` nested inside another `let` of the same function. There the inner `let`'s `add rsp` also frees the enclosing `let`'s slots, because its frame copies their count. `AsmStack.LetDelta` states the exact movement in that case.
- Translators.Translator.CaptureCode: builds the copies in a local sequence and appends them in one step, as the `flatMap` of src/asm.ts:289-294 does.
- Translators.Translator.CompileFn: delegates the argument checks of src/asm.ts:265-278 to the function `Asm.FnParts`, whose contract states them.
- Checker.CheckS: states only the shape of a successful call. The details are in the contracts of `Checker.CallFunction` and `Checker.CallPlaceholder`, which it dispatches to.
- Interpreter.Eval: states only which frames evaluation writes. Value-level facts are the lemmas about `if`, `do`, calls and natives.
- Asm.EmitExpr: states only that a successful compilation restores the scope. Its stack behaviour is `AsmStack.ExprBalanced`, and the translator's methods are proved equal to it.

## Findings

| source | as written | input that shows it | evidently intended | confidence | as-written member | corrected member |
|---|---|---|---|---|---|---|
| src/lower.ts:287-291 | when the canonical callee is already a constant or temporary, the statements that compute it are dropped; every callee that is not a symbol canonicalises to a temporary | `((fn [x] x) 1)`: the moves that build, tag and untag the closure are lost, and the call reads a temporary that nothing sets | the callee's statements run after the arguments' and set the temporary once | not executed | Canon.FnLiteralCallReadsUnset | Canon.CalleeSetOnce |
| src/optimize.ts:64-65 | the condition of a conditional jump goes to `replace`, which rewrites only a bare temporary, never an untag | `(let [x true] (if x 1 2))`: the move into `t2` is deleted but the jump still reads `t2` | the condition is rewritten like any other expression | not executed | Optimize.CondReadsDeletedTemp | Optimize.CondReadsReplacement |
| src/asm.ts:73 | an integer literal is shifted with JavaScript's 32-bit `<<` | the literal 268435456 (2^28) loads the word of -2^28 | the 64-bit word `8n + 2` | not executed | Asm.LargeLiteralWraps | Asm.IntWordRoundTrip |
| src/asm.ts:43-47 | parameter `i <= 5` is read from `REGISTER_PARAMS[i + 1]`, which does not exist for `i = 5` | a function of six parameters reads its first from `rsi`, where the call left the second argument | each parameter is read from where `compile_s` (lines 191-203) leaves that argument | not executed | Asm.SixParamsMisread | Asm.ParamsAgree |
| src/asm.ts:289-294 | every captured name is copied into the closure from `format_mem('rbp', index)`, whatever its kind | `(fn [x] (fn [] x))`: the inner closure copies `x` from `[rbp-8]`, where no argument is | each captured name is copied from where its kind lives | not executed | Asm.CapturedParamAsWritten | Asm.CapturedParamIntended |
