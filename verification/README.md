# mini-lox interpreter core in Dafny

This project models the interpreter core of a small Lox-like language whose
implementation uses Portuguese names. A program is text. `executar` cuts it into
lines and treats each line that is not blank as one statement:

1. the tokenizer `analisar` turns the line into `Simbolo` tokens ending in `Fim`;
2. the recursive-descent parser `Analisador` reads one statement from the start
   of those tokens and ignores whatever follows;
3. the tree-walking evaluator `avaliar_com_contexto` evaluates the statement in
   one environment of numeric variables that every line of the run shares.

The result of a run is the value of the last line that parsed, or 0 when no line did.

The Dafny modules follow the source files:

| module | models |
|---|---|
| `Wrappers` | `Option` and `Result` |
| `Lexico` | `src/analisador_lexico.rs`: the `Simbolo` vocabulary and `analisar` (`Lex`) |
| `Sintatico` | `src/analisador_sintatico.rs`: every production as a pure function of a token sequence and a cursor position |
| `Arvore` | `src/arvore_sintatica_abstrata.rs`: the `Expr` tree, `avaliar_com_contexto` (`Eval`) and `avaliar` |
| `Executor` | `src/lib.rs`: `str::lines`, the blank-line test and `executar` |
| `LexicoProps` | properties of the tokenizer |
| `SintaticoProps` | a token printer for syntax trees, and the theorem that the parser reads every printed statement back |
| `SintaticoFacts` | the rejections and quirks of individual productions, and concrete parses |
| `ArvoreProps` | properties of the evaluator |
| `ExecutorProps` | properties of line splitting and of the run |

The model makes these choices:

* **Parser failures keep their position.** A parse fails with the position
  where the cursor stopped, not with a bare `None`. The argument loop of
  `analisar_chamada` drops a failed first argument and carries on from wherever
  that attempt left the cursor, so `f(-)` parses as `f()`. The position is
  needed to model that.
* **Tokenizer panics are errors.** The tokenizer's `panic!` on an unhandled
  character becomes `Err(CaractereInvalido(c))`. Its `unwrap` on a numeral that
  does not convert becomes `Err(NumeroMalformado(text))`. In the driver either
  one aborts the whole run (`LexAbort`).
* **Evaluation has fuel.** The evaluator counts down one unit of fuel per
  evaluation step and per loop round. `OutOfFuel` means the line did not
  finish within its fuel; in particular a `while` that never ends is always
  `OutOfFuel`. The driver reports it as `Diverged`. More fuel changes no other
  outcome (`ExecutorProps.ExecutarMore`).
* **Exact arithmetic.** Numbers are exact `real`s, and a numeral's value is its
  exact decimal value. `+`, `-`, `*` and the comparisons are exact. The host's
  floating-point `/` and `%` are the functions of a `HostArith` parameter.
  `ExactOnNonZero` ties them to exact division and to the remainder truncated
  toward zero whenever the divisor is not zero. A zero divisor gives some real
  number, never an infinity or NaN (see "## Left out").
* **Line splitting.** `str::lines` splits at `'\n'`. A line that ended in a
  newline also loses one trailing `'\r'`, and no empty line follows a final
  newline. "Blank" means that every character has the Unicode `White_Space`
  property, as `char::is_whitespace` checks.

## Model

| member | source | states |
|---|---|---|
| `Lexico.Lex` | src/analisador_lexico.rs:35-219 | a line that tokenizes yields at least one and at most one-more-than-its-length tokens, the last one `Fim` and no other `Fim` |
| `Lexico.Keyword` | src/analisador_lexico.rs:83-91 | a word becomes a keyword token exactly when it is one of `and`, `or`, `var`, `if`, `else`, `while`, each to its own token; any other word becomes an identifier carrying the word |
| `Lexico.RunLength` | src/analisador_lexico.rs:75-82 | a scanned run is maximal: every character in it belongs to the class and the one after it does not |
| `Lexico.ScanString` | src/analisador_lexico.rs:41-72 | what remains after a string literal is a suffix of the input, and a non-empty remainder starts right after a closing quote |
| `Lexico.NumeralValue` | src/analisador_lexico.rs:126 | a scanned numeral converts exactly when it has at most one dot (its value: `LexicoProps.NumeralDigits`, `LexicoProps.NumeralFraction`) |
| `Lexico.NumeralLength` | src/analisador_lexico.rs:97-125 | the numeral at the start of the text takes at least one character, and only digits and dots; a `0` not followed by `.` is one character; `0.` takes the digits after it and ends before the next non-digit; a numeral starting with 1-9 ends before the first character that is neither digit nor dot |
| `Lexico.ScanToken` | src/analisador_lexico.rs:39-213 | one token is read, never `Fim`, and the scan resumes at a strictly shorter suffix of the input |
| `Lexico.Prepend` | src/analisador_lexico.rs:39-218 | a token read before the rest of the line is added at the front of the rest's tokens, and an error in the rest is the line's error |
| `LexicoProps.LexBlank` | src/analisador_lexico.rs:208-218 | text made only of spaces, newlines and tabs tokenizes to `[Fim]` |
| `LexicoProps.LexSkipsLeading` | src/analisador_lexico.rs:208-210 | a leading space, newline or tab changes nothing about the tokens |
| `LexicoProps.LexWithEquals` | src/analisador_lexico.rs:168-207 | `=`, `>`, `<` or `!` followed by `=` is one two-character token (`==`, `>=`, `<=`, `!=`) |
| `LexicoProps.LexAlone` | src/analisador_lexico.rs:168-207 | `=`, `>`, `<` or `!` not followed by `=` is the one-character token (`=`, `>`, `<`, `!`) |
| `LexicoProps.LexWord` | src/analisador_lexico.rs:73-92 | a maximal word becomes its keyword token or, when it is not reserved, an identifier of the whole word |
| `LexicoProps.LexWhileExample` | src/analisador_lexico.rs:89 | `while` tokenizes to the keyword `While`, then `Fim` |
| `LexicoProps.LexPrintExample` | src/analisador_lexico.rs:83-91 | `print` is not reserved: it tokenizes to an identifier |
| `LexicoProps.ScanUnterminated` | src/analisador_lexico.rs:44-70 | a string body without a closing quote consumes the rest of the line |
| `LexicoProps.LexUnterminatedString` | src/analisador_lexico.rs:41-72 | an unterminated string literal is accepted: it is the last token before `Fim` |
| `LexicoProps.ScanOtherEscape` | src/analisador_lexico.rs:50-62 | a backslash before any character other than `"`, `\`, `n`, `r`, `t` stands for that character itself, and scanning goes on after it |
| `LexicoProps.ScanTrailingBackslash` | src/analisador_lexico.rs:50-63 | a backslash at the very end of an unterminated literal adds nothing to the value |
| `LexicoProps.LexTrailingBackslash` | src/analisador_lexico.rs:41-72 | a line ending in an unterminated literal whose last character is a backslash tokenizes to that literal without the backslash, then `Fim` |
| `LexicoProps.ScanEscaped` | src/analisador_lexico.rs:50-63 | escaping a value (backslash before `"` and `\`, and before a newline, carriage return or tab written as `n`, `r`, `t`) and scanning it back gives the value, and the scan stops right after the closing quote |
| `LexicoProps.EscapeHasNoBreaks` | src/analisador_lexico.rs:50-63 | an escaped string literal body holds no newline or carriage return, so it fits on one line |
| `LexicoProps.LexLeadingZero` | src/analisador_lexico.rs:101-115 | a `0` not followed by `.` is the numeral 0 on its own, and the digits after it start a new numeral |
| `LexicoProps.LexLeadingZeroExample` | src/analisador_lexico.rs:101-126 | `012` tokenizes to the numerals 0 and 12 |
| `LexicoProps.ScanZeroPoint` | src/analisador_lexico.rs:101-115 | `0.` followed by digits scans as one numeral whose value is those digits over 10 to their count, and stops at the first non-digit |
| `LexicoProps.LexZeroPoint` | src/analisador_lexico.rs:101-115 | a numeral starting with `0.` is the fraction its digits spell, and the text after them, a further dot included, starts new tokens |
| `LexicoProps.LexZeroPointExample` | src/analisador_lexico.rs:93-126 | `0.5.3` tokenizes to the numeral 0.5, a `Ponto` and the numeral 3 |
| `LexicoProps.LexZeroPointAlone` | src/analisador_lexico.rs:101-126 | `0.` alone tokenizes to the numeral 0, then `Fim` |
| `LexicoProps.ScanDecimal` | src/analisador_lexico.rs:116-126 | digits starting with 1-9, a dot and digits, followed by neither digit nor dot, scan as one numeral of value whole part plus fraction |
| `LexicoProps.LexDecimalExample` | tests/integration_test.rs:18 | `2.72` tokenizes to the one numeral 2.72, then `Fim` |
| `LexicoProps.NumeralDigits` | src/analisador_lexico.rs:126 | a numeral of digits alone converts to the natural number they spell |
| `LexicoProps.NumeralFraction` | src/analisador_lexico.rs:126 | a numeral with one dot converts to the number its digits before the dot spell plus the digits after it divided by 10 to their count |
| `LexicoProps.CountDotsAppend` | src/analisador_lexico.rs:116-126 | the dots in two pieces of a numeral add up |
| `LexicoProps.LexManyDots` | src/analisador_lexico.rs:116-126 | a numeral starting with 1-9 that takes two or more dots fails to convert, and the whole line is rejected with that numeral's text |
| `LexicoProps.LexManyDotsExample` | src/analisador_lexico.rs:116-126 | `1.2.3` is rejected |
| `LexicoProps.LexInvalidChar` | src/analisador_lexico.rs:211-213 | a character no rule handles, at the start of a token, rejects the line with that character |
| `LexicoProps.LexInvalidExample` | src/analisador_lexico.rs:128-213 | `1 % 2` is rejected at `%`, because `%` has no token |
| `LexicoProps.LexPercentAfterSpace` | src/analisador_lexico.rs:208-213 | leading spaces do not save a line that holds `%` |
| `LexicoProps.NatToStringValue` | src/analisador_lexico.rs:116-126 | the decimal digits written for a natural number denote that number |
| `LexicoProps.NatToStringNumeral` | src/analisador_lexico.rs:116-126 | the decimal numeral of a natural number converts back to that number |
| `LexicoProps.ScanNatural` | src/analisador_lexico.rs:97-127 | the decimal numeral of a natural number, followed by a non-digit, non-dot character, scans as one numeral token of that value |
| `LexicoProps.ScanRendered` | src/analisador_lexico.rs:39-213 | the text rendered for a token, followed by a space, scans back as that token and leaves the rest of the line, space included, unread |
| `LexicoProps.LexRendered` | src/analisador_lexico.rs:35-219 | a rendered token followed by a space tokenizes as that token in front of the rest's tokens |
| `LexicoProps.LexRenderAll` | src/analisador_lexico.rs:35-219 | rendering and tokenizing are inverse: the rendered text of any renderable token sequence tokenizes to exactly that sequence followed by `Fim` |
| `LexicoProps.RenderAllShape` | src/analisador_lexico.rs:208-210 | rendered tokens start with a visible character, end in a space, and hold no line break |
| `Sintatico.Ver` | src/analisador_sintatico.rs:20-22 | there is a token under the cursor exactly when the cursor is before the end, and it is the token at that position |
| `Sintatico.Avancar` | src/analisador_sintatico.rs:14-18 | the cursor moves one step, but never past the end |
| `Sintatico.Consumir` | src/analisador_sintatico.rs:24-32 | the expected token is reported exactly when it is under the cursor; then the cursor moves past it, otherwise it stays |
| `Sintatico.ParseExpressao` | src/analisador_sintatico.rs:34-47 | a statement that parses consumed at least one token; parsing never moves the cursor back or past the end |
| `Sintatico.BlockItems` | src/analisador_sintatico.rs:116-137 | the block loop never moves the cursor back or past the end |
| `Sintatico.ParseLine` | src/analisador_sintatico.rs:34-47 | a line parses exactly when `analisar_expressao` succeeds from the first token |
| `SintaticoProps.OpToken` | src/analisador_sintatico.rs:191-309 | every binary node has an operator token at the node's own precedence level, from which the parser rebuilds the node |
| `SintaticoProps.ExprText` | src/analisador_sintatico.rs:311-349 | a printed expression is never empty and opens with a token `analisar_unario` accepts |
| `SintaticoProps.StmtText` | src/analisador_sintatico.rs:34-47 | a printed statement is never empty and opens with a token `analisar_expressao` accepts |
| `SintaticoProps.ExprRoundTrip` | src/analisador_sintatico.rs:175-371 | the level-`k` parser reads an expression printed for level `k` and then goes on exactly as if the expression had just been parsed at its own level |
| `SintaticoProps.BinaryRoundTrip` | src/analisador_sintatico.rs:191-309 | a binary level reads its printed left operand, operator and right operand back as the node, with left associativity |
| `SintaticoProps.UnaryRoundTrip` | src/analisador_sintatico.rs:311-322 | `!` and `-` read back as the prefix nodes they were printed for |
| `SintaticoProps.CallRoundTrip` | src/analisador_sintatico.rs:373-419 | a printed call, callee and arguments in order, reads back as that call |
| `SintaticoProps.ArgsRoundTrip` | src/analisador_sintatico.rs:383-404 | a printed argument list reads back as the same arguments in the same order |
| `SintaticoProps.AttrRoundTrip` | src/analisador_sintatico.rs:351-371 | a printed attribute access reads back as that access |
| `SintaticoProps.AssignRoundTrip` | src/analisador_sintatico.rs:175-189 | a printed assignment, nested assignments included, reads back right-associated |
| `SintaticoProps.BlockRoundTrip` | src/analisador_sintatico.rs:107-138 | a printed block with `;` after each statement reads back as the block of those statements |
| `SintaticoProps.VarRoundTrip` | src/analisador_sintatico.rs:149-173 | a printed `var` declaration reads back as that declaration |
| `SintaticoProps.WhileRoundTrip` | src/analisador_sintatico.rs:49-72 | a printed `while` reads back as that loop |
| `SintaticoProps.IfRoundTrip` | src/analisador_sintatico.rs:74-105 | a printed `if`, with or without `else`, reads back as that conditional |
| `SintaticoProps.DeclRoundTrip` | src/analisador_sintatico.rs:140-147 | `analisar_declaracao` reads a declaration printed for it back as itself |
| `SintaticoProps.StmtRoundTrip` | src/analisador_sintatico.rs:34-47 | `analisar_expressao` reads any printed statement back as the tree it was printed from, leaving the cursor right after it |
| `SintaticoProps.StmtThenRest` | src/analisador_sintatico.rs:34-47 | a printed statement followed by tokens that continue no expression parses as that statement, and the tokens after it stay unread |
| `SintaticoProps.LineRoundTrip` | src/analisador_sintatico.rs:34-47 | every tree the parser can build is the parse of its printed tokens followed by `Fim` |
| `SintaticoFacts.NonStarterFails` | src/analisador_sintatico.rs:311-347 | at the end or at a token no expression starts with, every level of the expression ladder fails without moving the cursor |
| `SintaticoFacts.DeclarationRejects` | src/analisador_sintatico.rs:140-147 | `analisar_declaracao` fails at a token that starts no expression, block or `var` |
| `SintaticoFacts.NestedIfRejected` | src/analisador_sintatico.rs:140-147 | `if` and `while` are not declarations, so a branch or loop body cannot be a bare `if` or `while` |
| `SintaticoFacts.UnclosedBlock` | src/analisador_sintatico.rs:116-132 | a block still open at `Fim` fails |
| `SintaticoFacts.SemicolonSkipped` | src/analisador_sintatico.rs:122-125 | `;` inside a block is skipped and adds no statement |
| `SintaticoFacts.AssignToNonName` | src/analisador_sintatico.rs:175-186 | `=` after anything but a bare identifier is a syntax error |
| `SintaticoFacts.VarWithoutInitializer` | src/analisador_sintatico.rs:164-172 | `var x` with no `=` declares `x` as 0 |
| `SintaticoFacts.VarWithoutName` | src/analisador_sintatico.rs:155-162 | `var` not followed by a name is a syntax error |
| `SintaticoFacts.FailedFirstArgument` | src/analisador_sintatico.rs:383-388 | a first argument that fails is dropped, and the list goes on from where the failed attempt stopped |
| `SintaticoFacts.ArgumentMisfollowed` | src/analisador_sintatico.rs:391-403 | after an argument, a token other than `,` or `)` is a syntax error |
| `SintaticoFacts.PrecedenceExample` | tests/integration_test.rs:12 | `10 / 2 - 1` parses as `(10 / 2) - 1` |
| `SintaticoFacts.LeftAssociative` | src/analisador_sintatico.rs:225-245 | `x - y - z` parses as `(x - y) - z` |
| `SintaticoFacts.RightAssociative` | src/analisador_sintatico.rs:175-189 | `a = b = v` parses as `a = (b = v)` |
| `SintaticoFacts.TrailingTokensIgnored` | tests/integration_test.rs:60-61 | in `{ var a = 1; } a` the line is the block alone, and the trailing `a` is never read |
| `SintaticoFacts.CallArgumentsInOrder` | src/analisador_sintatico.rs:373-419 | `f(x, y)` parses as a call of `f` with the arguments `x`, `y` in that order |
| `SintaticoFacts.EmptyCall` | src/analisador_sintatico.rs:383-409 | `f()` parses as a call with no arguments |
| `Arvore.Truth` | src/arvore_sintatica_abstrata.rs:96-99 | truthiness: the result is 0 exactly for 0, and 1 otherwise |
| `Arvore.Lookup` | src/arvore_sintatica_abstrata.rs:41-47 | `true` reads 1 and `false` reads 0, whatever the environment; any other name reads its binding, or 0 when unbound |
| `Arvore.Apply` | src/arvore_sintatica_abstrata.rs:115-137 | a comparison yields 0 or 1 |
| `Arvore.Bind` | src/arvore_sintatica_abstrata.rs:48-57 | an assignment that finishes yields the assigned value and binds the name to it, on top of what evaluating the value left |
| `Arvore.Eval` | src/arvore_sintatica_abstrata.rs:36-144 | evaluation changes no variable that the expression does not assign |
| `Arvore.EvalOr` | src/arvore_sintatica_abstrata.rs:108-114 | `or` yields 0 or 1 and assigns only what its operands assign |
| `Arvore.EvalSeq` | src/arvore_sintatica_abstrata.rs:58-64 | an empty sequence of statements keeps the value carried in and changes nothing; otherwise only the statements' assignments change variables |
| `Arvore.Loop` | src/arvore_sintatica_abstrata.rs:78-84 | a loop changes only variables that its condition or body assigns |
| `Arvore.Avaliar` | src/arvore_sintatica_abstrata.rs:147-150 | evaluating from an empty environment binds only names the expression assigns |
| `ArvoreProps.EvalTruth` | src/arvore_sintatica_abstrata.rs:96-137 | `!`, `or` and the comparisons always yield 0 or 1 |
| `ArvoreProps.EvalMore` | src/arvore_sintatica_abstrata.rs:36-144 | a result reached within some fuel is the result with any larger fuel, so fuel only decides whether evaluation finishes |
| `ArvoreProps.LoopMore` | src/arvore_sintatica_abstrata.rs:78-84 | a loop that finishes within some fuel finishes the same way with more |
| `ArvoreProps.LoopUnfold` | src/arvore_sintatica_abstrata.rs:78-84 | one round of `while`: test the condition; on zero stop with the last body value, otherwise run the body and go round again |
| `ArvoreProps.ReadConstants` | src/arvore_sintatica_abstrata.rs:41-47 | `true` and `false` read 1 and 0 whatever the environment binds, and reading leaves it unchanged |
| `ArvoreProps.DeclareIsAssign` | src/arvore_sintatica_abstrata.rs:48-57 | `var x = v` behaves exactly as `x = v`: the value of `v` is both the result and the new binding of `x` |
| `ArvoreProps.ReadAfterWrite` | tests/integration_test.rs:41-43 | reading a variable right after assigning it gives the assigned value |
| `ArvoreProps.SeqAppend` | src/arvore_sintatica_abstrata.rs:58-64 | running two statement lists one after the other is running their concatenation |
| `ArvoreProps.BlockValue` | src/arvore_sintatica_abstrata.rs:58-64 | an empty block yields 0 and changes nothing; otherwise a block yields its last statement's value, computed after the others ran |
| `ArvoreProps.BlockExample` | tests/integration_test.rs:57-58 | `{ var foo = 1; var bar = 2; bar }` is 2, and both variables remain bound after the block |
| `ArvoreProps.IfBranch` | src/arvore_sintatica_abstrata.rs:65-77 | `if` runs the then-branch on a non-zero condition, otherwise the else-branch, or yields 0 without one |
| `ArvoreProps.IfElseExample` | tests/integration_test.rs:72-76 | `if (1 < 2) 3 else 4` is 3 and `if (1 > 2) 3 else 4` is 4 |
| `ArvoreProps.IfSwap` | src/arvore_sintatica_abstrata.rs:65-99 | negating the condition and swapping the branches changes no finished result, given one more unit of fuel for the extra `!` |
| `ArvoreProps.AndShortCircuit` | src/arvore_sintatica_abstrata.rs:101-107 | when the left operand of `and` is 0, the right operand is never evaluated |
| `ArvoreProps.OrShortCircuit` | src/arvore_sintatica_abstrata.rs:108-114 | when the left operand of `or` is non-zero, the right operand is never evaluated |
| `ArvoreProps.DeMorgan` | src/arvore_sintatica_abstrata.rs:96-114 | `!a or !b` and `!(a and b)` agree on value, variables and termination |
| `ArvoreProps.DoubleNegation` | src/arvore_sintatica_abstrata.rs:96-99 | `!!x` is the truth value of `x` |
| `ArvoreProps.NotNotTrue` | tests/integration_test.rs:29 | `!!true` is 1 |
| `ArvoreProps.NegateTwice` | src/arvore_sintatica_abstrata.rs:100 | arithmetic negation is an involution: `-(-x)` gives back the value and effects of `x` |
| `ArvoreProps.NegativeLiteral` | tests/integration_test.rs:26 | `-5` is -5 |
| `ArvoreProps.PrintYieldsOperand` | src/arvore_sintatica_abstrata.rs:138-142 | a `Print` node yields the value of its operand, with its effects and nothing else |
| `ArvoreProps.AttrIgnoresObject` | src/arvore_sintatica_abstrata.rs:85-88 | an attribute access yields 0 and never evaluates its object |
| `ArvoreProps.CallIgnoresCallee` | src/arvore_sintatica_abstrata.rs:89-95 | a call yields 0 after evaluating its arguments in order; the callee is never evaluated |
| `ArvoreProps.LoopExit` | src/arvore_sintatica_abstrata.rs:78-84 | a loop that finishes ends on a condition test that gave 0 and left the final variables: either the test on entry, and the loop yields the value carried in, or the test right after a round of its body, and the loop yields that round's value |
| `ArvoreProps.WhileSkipped` | src/arvore_sintatica_abstrata.rs:78-84 | a loop whose condition is 0 on entry yields 0 without running its body |
| `ArvoreProps.CountLoopRuns` | src/arvore_sintatica_abstrata.rs:78-84 | the counting loop `while (i < n) { i = i + 1; }` started at `k` ends with `i` at `n`, and yields `n` when it ran at all |
| `ArvoreProps.CountToFive` | tests/integration_test.rs:81-82 | counting from 0 while `i < 5` ends with `i` at 5 |
| `ArvoreProps.DivideThenSubtract` | tests/integration_test.rs:12 | `10 / 2 - 1` is 4 |
| `ArvoreProps.RemainderTruncates` | src/arvore_sintatica_abstrata.rs:119 | `%` truncates toward zero: `-7 % 2` is -1 |
| `Executor.LineEnd` | src/lib.rs:13 | the first newline of the text, or its end when there is none |
| `Executor.DropCr` | src/lib.rs:13 | a terminated line loses one carriage return exactly when it ends in one, and nothing else |
| `Executor.Lines` | src/lib.rs:13 | the lines hold no newline, and there are no more of them than characters |
| `Executor.RunLine` | src/lib.rs:14-28 | a blank line, or one that does not parse, leaves the state alone; a tokenizer error aborts; an evaluated line changes only the variables its statement assigns |
| `Executor.RunLines` | src/lib.rs:13-29 | lines never unbind a variable, and a run of lines that are all skipped leaves the state alone |
| `Executor.Executar` | src/lib.rs:9-31 | a source with no line that parses yields 0 |
| `ExecutorProps.LinesCons` | src/lib.rs:13 | a line with no newline and no trailing carriage return, followed by a newline, is the first line of the text |
| `ExecutorProps.LinesOfUnlines` | src/lib.rs:13 | splitting text joined from lines gives back those lines |
| `ExecutorProps.UnlinesOfLines` | src/lib.rs:13 | text without carriage returns that is empty or ends in a newline is the join of its lines |
| `ExecutorProps.FinalNewlineOptional` | src/lib.rs:13 | a final newline adds no empty line |
| `ExecutorProps.CarriageReturnBeforeNewline` | src/lib.rs:13 | `a\r\nb` splits into `a` and `b` |
| `ExecutorProps.CarriageReturnAtEnd` | src/lib.rs:13 | an unterminated last line keeps its carriage return |
| `ExecutorProps.RunLinesAppend` | src/lib.rs:13-29 | running two groups of lines one after the other is running them together |
| `ExecutorProps.LastParsedLine` | src/lib.rs:22-30 | the result of a run is the value of the last line that parsed, evaluated in the variables the earlier lines left |
| `ExecutorProps.RunLineMore` | src/lib.rs:14-28 | a line that does not run out of fuel gives the same outcome with more fuel |
| `ExecutorProps.RunLinesMore` | src/lib.rs:13-29 | lines that do not run out of fuel give the same outcome with more fuel |
| `ExecutorProps.ExecutarMore` | src/lib.rs:9-31 | fuel only decides whether a run is `Diverged`: any other outcome, a result or a tokenizer abort, stays the same with more fuel |
| `ExecutorProps.LexErrorAborts` | src/lib.rs:16 | a line the tokenizer rejects aborts the run, whatever follows |
| `ExecutorProps.BindingsCarryOver` | src/lib.rs:11-22 | the second line runs in the variables the first one left |
| `ExecutorProps.LineOfShape` | src/lib.rs:13-14 | the line written for a statement is one non-blank line |
| `ExecutorProps.LineOfRuns` | src/lib.rs:14-28 | the line written for a statement runs exactly that statement |
| `ExecutorProps.ProgramLines` | src/lib.rs:13 | a program written one statement per line splits into those statements' lines |
| `ExecutorProps.ProgramRuns` | src/lib.rs:13-29 | running such a program evaluates its statements in order in one shared environment |
| `ExecutorProps.ProgramIsBlock` | src/lib.rs:9-31 | running a program written one statement per line gives the value of the block of those statements from empty variables |
| `ExecutorProps.DeclareThenRead` | tests/integration_test.rs:47-49 | the two lines `var a = 10` and `a` give 10 |

## Left out

- Tracing output: the `println!` calls in `executar` and the evaluator, and the tree printer `imprimir`, produce text only.
- `src/bin/main.rs`, the command-line entry point: it only reads input and prints. It is not part of this model.
- `Analisador::new` is not a separate member: every parse starts at position 0 of a line's tokens (`ParseLine`).
- Floating point: numbers are exact reals rather than `f64`. A numeral's value is its exact decimal value, with no rounding by `str::parse::<f64>`. A zero divisor yields whatever real `HostArith` chooses. IEEE infinities and NaN, and how they compare, are not modelled. So `0/0 == 0/0` is 0 in the source, because NaN equals nothing, but 1 in the model for every choice of `HostArith`. Likewise `0/0 != 0/0` is 1 in the source and 0 in the model, and `1/0 - 1/0` is NaN in the source and 0 in the model.
- `NumeroInteiro` and `NumeroFloat`: they are merged into one `Numero` node, because the parser only builds numbers from the one numeral token.
- `Modulo` and `Print`: no token produces them, so only hand-built trees reach their evaluation. They are evaluated, but the printer does not cover them.
- Non-termination is not modelled: a line that does not finish within the fuel, in particular a `while` that never ends, becomes `OutOfFuel`, and `executar` reports it as `Diverged`. A loop that would end after more rounds than the fuel allows is reported the same way; more fuel changes only such runs.
- Lexico.Lex: identifiers continue over ASCII letters, digits and `_` only. Rust's `is_alphanumeric` also accepts non-ASCII letters and digits. In the model such a character ends the word. So a line where one directly follows a word is rejected, where the source would continue the identifier. Elsewhere outside a string literal both reject it, and inside a literal both keep it.
- Executor.Lines: follows the current `str::lines`, where an unterminated last line keeps a trailing carriage return. Older Rust releases removed it.
- ExecutorProps.DeclareThenRead: uses the text the renderer writes, with a space after every token (`var a = 10 \na \n`), not the test's exact string `var a = 10\na`. The round trip covers any token text the renderer writes, not every spacing a user could type.
- ExecutorProps.ProgramIsBlock: covers statements whose tokens can all be rendered. Identifiers must be ASCII words that are not keywords, and numerals must be natural numbers, so fractional literals are left out.
