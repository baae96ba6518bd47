# jslogo interpreter, modelled in Dafny

This project models the `Interpreter` class of jslogo, a browser Logo interpreter. The class
has four parts:

- `tokenize` scans program text into `{value, line}` tokens.
- `validate` checks bracket depth.
- `getBracketedContent` extracts a `[ ... ]` block.
- `execute` runs tokens with a cursor over a token sequence. It dispatches on the uppercased command. It stores variables (`VAR`) and procedures (`DEF ... END`), recurses into `REPEAT` blocks and procedure bodies, and calls the turtle (`FD`/`BK`/`RT`/`LT`/`PU`/`PD`/`CS`/`SETCOLOR`). It re-throws errors tagged with a line number. `evaluate` resolves an operand.

The modules follow the program's structure:

| file | module | what it holds |
|---|---|---|
| `wrappers.dfy` | `Wrappers` | `Option`, `Result` |
| `lexer.dfy` | `Lexer` | the six lexical classes, the token pattern matched at a position, the left-to-right search of a line, `split('\n')`, `tokenize` as a function |
| `numbers.dfy` | `Numbers` | `parseFloat` / `parseInt` on the strings the scanner produces, NaN as a value |
| `errors.dfy` | `Errors` | the thrown errors, with the line a "Line N:" prefix names, and the re-tagging of the catch block |
| `nesting.dfy` | `Nesting` | bracket and DEF/END depth, `validate` and `getBracketedContent` as functions |
| `semantics.dfy` | `Semantics` | `evaluate`, and `execute` as functions over a state of variables, procedures and turtle calls |
| `execfacts.dfy` | `ExecFacts` | what each command does, as lemmas over those functions |
| `examples.dfy` | `Examples` | small programs run through the model |
| `runtime.dfy` | `Runtime` | the classes `Turtle` and `Interpreter`, whose methods update fields in place and are proved to compute the functions above |

The turtle is an object that records the calls made on it (`Forward`, `Right`, `Left`, `SetPen`,
`SetColor`, `Reset`). `BK` is a `Forward` of the negated value, as in the source.

A thrown error is `Error(line, kind)`:

- `line` is the N of a "Line N: " prefix, or `None`.
- The catch block of `execute` re-throws with the current token's line any message that does not contain "Line". Every message `execute` builds starts with "Line", and the two host errors it can meet do not contain it. Those are the TypeError of `SETCOLOR` without an operand and the RangeError of runaway recursion. So "contains Line" is `line.Some?` here.

`execute` nests without bound in the source: `DEF F F END F` never returns. The model gives `Exec` a `fuel` argument, which is the number of nested `execute` calls still allowed. When it is used up, the call fails with `CallStackExhausted` and no line, standing in for the host's stack overflow. `Examples.SelfCallExhausts` shows that a self-calling procedure fails this way for every bound.

## Model

| member | source | states |
|---|---|---|
| Lexer.ClassesDisjoint | interpreter.js:20 | a string is in at most one of the six token classes, and its first character tells which |
| Lexer.DigitRun | interpreter.js:20 | the greedy `\d+`: every character up to the result is a digit, and the one at the result is not |
| Lexer.WordRun | interpreter.js:20 | the greedy `\w*`: every character up to the result is a word character, and the one at the result is not |
| Lexer.NumberMatch | interpreter.js:20 | at a digit the pattern matches a numeral `\d+(\.\d+)?`, and no longer prefix is a numeral |
| Lexer.IdentifierMatch | interpreter.js:20 | at an identifier start the match is an identifier, and no longer prefix is one |
| Lexer.MatchIsLongestLexeme | interpreter.js:20 | a match is the longest lexeme of the class its first character names; where nothing matches, no lexeme of any class starts |
| Lexer.NextMatch | interpreter.js:22 | `regex.exec` from `lastIndex`: the match found is a match, and no earlier position from `lastIndex` on starts one; no result means no position to the end starts one |
| Lexer.SpansAreLeftmostMatches | interpreter.js:21-27 | the exec loop finds every match of the line, leftmost first, in order and without overlap; every skipped position starts no match |
| Lexer.SpanTokens | interpreter.js:23-26 | each token is exactly the matched text, tagged with the line number |
| Lexer.SkippedLineHasNoTokens | interpreter.js:22 | a line where no position starts a match produces no token |
| Lexer.SplitLines | interpreter.js:17 | `split('\n')` gives at least one line, and no line contains a newline |
| Lexer.JoinSplitLines | interpreter.js:17 | joining the split lines with newlines gives the text back |
| Lexer.LineTokensLine | interpreter.js:25 | every token of a line carries that line's number |
| Lexer.LinesTokensSuffix | interpreter.js:19 | the tokens from line k on are line k's tokens followed by those of the later lines |
| Lexer.LinesTokensRange | interpreter.js:19-28 | tokens of consecutive lines carry line numbers within the lines' range |
| Lexer.LinesTokensOrdered | interpreter.js:19-28 | line numbers never decrease along the tokens of consecutive lines |
| Lexer.LinesTokensLines | interpreter.js:19-28 | tokens of consecutive lines carry line numbers in the lines' range, never decreasing |
| Lexer.LineTokensLexemes | interpreter.js:22-27 | every token of a line is a non-empty lexeme of one class |
| Lexer.TokensWellFormed | interpreter.js:15-30 | every token of `tokenize(code)` has a 1-based line within the code's line count, lines never decrease along the tokens, and each value is a lexeme of exactly one class |
| Numbers.DigitsValue | interpreter.js:77 | a digit string's value is below 10 to the power of its length |
| Numbers.ParseIntAfterParseFloat | interpreter.js:77 | `parseInt` of a stored variable (a `parseFloat` result) gives the same count as `parseInt` of the text |
| Numbers.ParseFloatNonNegative | interpreter.js:89 | `parseFloat` of any token text is NaN or a non-negative number, since no token text starts with a sign |
| Numbers.ParseFloatOfLexeme | interpreter.js:89-90 | a token parses to a number exactly when it is a numeral, and such numbers are not negative; all other tokens are NaN |
| Nesting.Delta | interpreter.js:35-36 | a token changes the depth by at most one either way |
| Nesting.DepthAppend | interpreter.js:34-38 | depth adds up over concatenated token runs |
| Nesting.DepthCons | interpreter.js:34-38 | the depth of a run is its first token's change plus the depth of the rest |
| Nesting.MatchEndPositive | interpreter.js:156-162 | up to where the depth scan stops, the depth stays positive |
| Nesting.MatchEndCloses | interpreter.js:156-162 | when the scan stops before the end, the token there brings the depth to exactly 0 |
| Nesting.MatchEndFirstBalance | interpreter.js:156-162 | the depth scan stops at the first closer that brings the depth to 0, and the depth stays positive before it |
| Nesting.Enclosed | interpreter.js:64-69 | the tokens after an opener up to its closer never close below their own level, and balance when the closer exists |
| Nesting.BracketBodyIsBlock | interpreter.js:148-164 | `[]` when no `[` is at `start`; otherwise exactly the tokens strictly between that `[` and its matching `]`, or to the end if it is unmatched; the body's brackets never go below zero, and balance when the `]` exists |
| Nesting.CheckFromCases | interpreter.js:34-39 | from any prefix that never went negative, the rest of the check fails or succeeds exactly as the whole sequence dictates |
| Nesting.DropIsCloser | interpreter.js:36-37 | the token where the depth first goes negative is a `]` |
| Nesting.BracketCheckCases | interpreter.js:32-40 | `validate` succeeds iff no prefix has negative depth and the final depth is 0; it fails at the first `]` that drops the depth below zero, citing that token's line; otherwise a positive final depth fails with no line; there is no other error |
| Semantics.EvaluateFails | interpreter.js:137-141 | `evaluate` fails exactly on a `:name` whose variable does not exist, citing that token's line |
| Semantics.EvaluateReadsBack | interpreter.js:137-144 | a stored value is what a `:name` reference, or the bare name, evaluates to |
| Semantics.EvaluateLiteral | interpreter.js:135-145 | a missing token is 0; a word that is neither a reference nor a variable is its own text |
| Semantics.Exec | interpreter.js:42-132 | running tokens never removes a variable, a procedure or a turtle call already made |
| Semantics.Loop | interpreter.js:82-84 | running a REPEAT body n times never removes a variable, a procedure or a turtle call |
| Semantics.Dispatch | interpreter.js:49-120 | each command moves the cursor strictly forward |
| Semantics.Step | interpreter.js:48-127 | one pass of the loop moves the cursor forward, and whatever it throws carries a line |
| Semantics.ExecFrom | interpreter.js:44-131 | every error thrown out of the cursor loop carries a line |
| ExecFacts.StepRetags | interpreter.js:121-127 | an error that already has a line propagates unchanged; one without is given the command's line; success passes through |
| ExecFacts.ExecErrorsCiteLines | interpreter.js:121-127 | a call of `execute` with fuel left throws only errors that cite a line |
| ExecFacts.VarAssigns | interpreter.js:49-56 | `VAR n v` sets `variables[n]` to `parseFloat(evaluate(v))` under the exact text n, changes no other variable, no procedure and no drawing, and continues after v |
| ExecFacts.VarMissingOperands | interpreter.js:50-53 | VAR without a name or a value fails citing the VAR line, changing nothing |
| ExecFacts.VarThenReference | interpreter.js:49-56 | after `VAR n v`, `:n` evaluates to the stored value |
| ExecFacts.DefStoresBody | interpreter.js:57-73 | DEF stores, under the uppercased name, exactly the tokens between the name and the END that matches it counting nested DEF/END, and continues after that END; an unmatched DEF fails citing its line and changes nothing |
| ExecFacts.DefOverwrites | interpreter.js:71 | the stored body does not depend on the previous table, so redefinition replaces it; every other name keeps its key and its body |
| ExecFacts.DefMissingName | interpreter.js:58-59 | a DEF with no name fails citing its line |
| ExecFacts.LoopAfterOne | interpreter.js:82-84 | when the body only appends calls L, n runs are L followed by n - 1 more runs |
| ExecFacts.Repeated | interpreter.js:82-84 | n copies of a call sequence have n times its length |
| ExecFacts.RepeatedSplit | interpreter.js:82-84 | m + n copies of the calls a REPEAT body appends are m copies followed by n copies, the log-side partner of LoopSplit |
| ExecFacts.LoopSplit | interpreter.js:82-84 | running m + n times is m runs followed, unless they failed, by n runs |
| ExecFacts.LoopRepeatsCalls | interpreter.js:82-84 | a body that only appends calls L, run n times, appends L exactly n times |
| ExecFacts.LoopEmptyBody | interpreter.js:82-84 | running an empty body changes nothing |
| ExecFacts.RepeatRunsBlock | interpreter.js:74-85 | REPEAT runs the block between `[` and its matching `]` max(count, 0) times and continues after the `]`; with an unmatched `[` the block is every token after it and the cursor ends past the tokens; an error from an iteration stops the loop and is re-thrown tagged with the REPEAT line when it has none; without a `[` after the count the block is empty and the cursor skips two tokens, or the loop runs out of nesting at the REPEAT line when there is none left |
| ExecFacts.RepeatNeedsCount | interpreter.js:77-78 | a count that is not an integer fails citing the count token's line, changing nothing |
| ExecFacts.ForwardCases | interpreter.js:86-92 | FD draws the parsed distance; it fails citing the FD line when the operand is missing, and citing the operand's line when it is NaN |
| ExecFacts.TurnsDefaultToZero | interpreter.js:93-107 | BK, RT and LT as the last token use 0 as their operand |
| ExecFacts.SetColorCases | interpreter.js:111-114 | SETCOLOR passes the operand's text unevaluated; without an operand the TypeError is re-thrown with the SETCOLOR line |
| ExecFacts.BuiltinsShadowProcedures | interpreter.js:115 | the sixteen built-ins that neither define nor loop behave the same whatever the procedure table holds, so a procedure of that name is never called |
| ExecFacts.DefIgnoresProcedures | interpreter.js:57-73 | where a DEF resumes, or the error it throws, does not depend on the procedure table; with DefStoresBody and RepeatRunsBlock, which assume nothing about the table, a procedure named DEF or REPEAT is never called |
| ExecFacts.CallRunsBody | interpreter.js:115-117 | a procedure head runs its stored body as a nested `execute` and continues; errors from the body keep their own line; exhausted nesting cites the call's line |
| ExecFacts.LooseCloserIsNoOp | interpreter.js:118 | a loose END, `[` or `]` that names no procedure is skipped |
| ExecFacts.UnknownCommandFails | interpreter.js:118-120 | any other head fails with "I don't know the command", citing its line and its text as written |
| Examples.SmallNumerals | interpreter.js:89 | `parseFloat` of "5", "10" and "90", and `parseInt` of "4" |
| Examples.VarThenForward | interpreter.js:49-92 | `VAR X 5 FD :X` stores 5 under X and draws one line of length 5 |
| Examples.SquareSide | interpreter.js:86-102 | `FD 10 RT 90` appends one side and a quarter turn |
| Examples.SquareBracket | interpreter.js:156-162 | the `]` of the square program matches its `[` |
| Examples.SquareLoop | interpreter.js:82-84 | the square's block run four times appends the side and the turn four times |
| Examples.SquareStep | interpreter.js:74-85 | the square's REPEAT runs its block and resumes after its `]` |
| Examples.Square | interpreter.js:74-102 | `REPEAT 4 [ FD 10 RT 90 ]` appends the side and the turn four times |
| Examples.SelfCallExhausts | interpreter.js:115-117 | a procedure whose body calls itself fails for every nesting bound, citing the call's line inside the body |
| Runtime.Turtle.constructor | interpreter.js:3 | a fresh turtle has received no call |
| Runtime.Turtle.Forward | interpreter.js:91 | records one `forward` call, after all earlier ones |
| Runtime.Turtle.Right | interpreter.js:101 | records one `right` call |
| Runtime.Turtle.Left | interpreter.js:106 | records one `left` call |
| Runtime.Turtle.SetPen | interpreter.js:108-109 | records one `setPen` call |
| Runtime.Turtle.SetColor | interpreter.js:113 | records one `setColor` call |
| Runtime.Turtle.Reset | interpreter.js:110 | records one `reset` call |
| Runtime.Interpreter.constructor | interpreter.js:2-7 | both tables start empty, and the turtle is the one given |
| Runtime.Interpreter.Run | interpreter.js:9-13 | a program that fails `validate` throws that error before anything runs, leaving all state unchanged; otherwise the run is `Exec` of its tokens |
| Runtime.Interpreter.Tokenize | interpreter.js:15-30 | the tokens pushed are exactly `TokensOf(code)`, whose properties are the Lexer lemmas |
| Runtime.Interpreter.TokenizeLine | interpreter.js:19-28 | the exec loop of one line pushes exactly that line's tokens |
| Runtime.Interpreter.Validate | interpreter.js:32-40 | the depth-counting loop throws exactly what `BracketCheck` gives, characterised by `Nesting.BracketCheckCases` |
| Runtime.Interpreter.GetBracketedContent | interpreter.js:148-164 | the pushing loop returns exactly `BracketBody`, characterised by `Nesting.BracketBodyIsBlock` |
| Runtime.Interpreter.Execute | interpreter.js:42-132 | the cursor loop leaves the tables and the turtle as `Exec` says and throws what it says |
| Runtime.Interpreter.Dispatch | interpreter.js:49-120 | each command updates the tables and the turtle in place as `Semantics.Dispatch` says |
| Runtime.Interpreter.DefinitionBody | interpreter.js:61-69 | the DEF scan collects the tokens up to the matching END and stops there, or at the end of the tokens |

## Left out

- The per-token `await new Promise(setTimeout …, 5)` and all `async`/`await` (interpreter.js:9-13, 130) are animation pacing. `execute` is modelled as synchronous.
- `execute`'s `scopeVars` parameter is passed to `evaluate` and to nested calls and never read, so it is not modelled.
- The `commands` array (interpreter.js:6) is never read, so it is not modelled.
- `window.Interpreter = Interpreter` (interpreter.js:167) is a browser global export.
- turtle.js is not part of this model. Its trigonometry, canvas drawing and sprite are out of scope. The turtle is only the sequence of calls the interpreter makes on it.
- app.js and editor.js are not part of this model. They are DOM wiring, persistence and syntax highlighting.
- Semantics.Exec: the host's stack limit is modelled by `fuel`. With fuel 0 every nested `execute` fails. That includes the runs of a REPEAT whose body is empty, which the source completes.
- Numbers.ParseFloatText: numbers are exact reals, not IEEE doubles, so rounding is not modelled. The identifiers `Infinity` and `NaN` parse as NaN here, but JavaScript's `parseFloat("Infinity")` is Infinity, so `FD Infinity` fails in the model where it draws in the source.
- Numbers.ParseInt: a stored number is truncated toward zero. JavaScript first prints it, so the exponent forms of very large or very small values (`1e21`, `5e-7`) give different counts there.
- Plain-object prototype keys are not modelled. In the source, `variables` is a plain object, so a word such as `constructor` or `toString` is "defined" there and `evaluate` returns a function for it. The model's tables hold only keys that were stored.
- Error messages are modelled as kinds with their operands, not as text. Only the presence of a "Line N:" prefix matters to the program, and it is kept.
