# A verified model of the calculator core

This project models the core of a small command-line calculator written in
Rust, the four files under `src/logic/`:

- **The tokenizer** (`tokenize.rs`) reads a line of text from left to right. It emits
  - an `Operator` for each of `+ - * / ( ) ^ =`;
  - a `Number` or a `Float` for each numeral, depending on whether it holds a decimal point;
  - a `Variable` for each run of letters.

  It skips whitespace and stops at the first character it does not know.
- **The shunting-yard converter** (`shunting_yard.rs`) turns the infix tokens
  into postfix form. It uses an operator stack, with precedence 2 for `+ -`,
  3 for `* /` and 4 for `^`. It rejects two operators in a row, two operands
  in a row and unpaired parentheses.
- **The postfix evaluator** (`calculator.rs`) runs a value stack.
  - `operate` gives `+ - * /` their meaning.
  - It yields NaN for a division by zero, and 0 for any other character.
  - An operator that finds fewer than two values fails with "Too many operators".
- **The enumerations** (`enums.rs`) cover operators and functions, with
  their display texts.

Values are modelled as exact reals, plus a separate NaN value. Each
operation is a pure function. The source's loops are also written as
methods, each proved equal to its function.

Proved properties include:

- the tokenizer composes over token boundaries, ignores whitespace, reports
  only errors that come from the input, and inverts a renderer;
- the converter fails exactly on the inputs that a simple depth-and-alternation
  check rejects, and reports the same error;
- on success the converter keeps every operand and binary operator, as a
  multiset, and keeps the operands in their original order;
- on an input without parentheses, the converter emits the postfix form of
  a parse tree whose root is an operator of least precedence;
- the evaluator fails exactly when a stack-height count says it should,
  computes the value of every expression from its postfix form, and
  ignores the stack below what it uses.

Files and modules:

| file | module | contents |
|---|---|---|
| `results.dfy` | `Results` | `Option` and `Result` |
| `counting.dfy` | `Counting` | how often a value occurs in a sequence |
| `tokens.dfy` | `Tokens` | the token read by the tokenizer and the converter |
| `tokenize.dfy` | `Tokenizer` | the scanner |
| `tokenize_props.dfy` | `TokenizerProps` | the scanner's properties |
| `shunting_yard.dfy` | `ShuntingYard` | the converter, with ties as written or corrected |
| `shunting_yard_props.dfy` | `ShuntingYardProps` | which inputs fail, and what is kept |
| `shunting_yard_chain.dfy` | `ShuntingYardChain` | the parse tree the converter follows without parentheses |
| `shunting_yard_examples.dfy` | `ShuntingYardExamples` | the converter's test inputs, for any operands |
| `calculator.dfy` | `Calculator` | `operate` and `eval_postfix` |
| `calculator_examples.dfy` | `CalculatorExamples` | the evaluator's test inputs |
| `enums.dfy` | `Enums` | operators, functions and their texts |
| `evaluation.dfy` | `Evaluation` | conversion followed by evaluation, and the grouping finding |

## Model

| member | source | states |
|---|---|---|
| Tokenizer.Tokenize | src/logic/tokenize.rs:12-97 | there are never more tokens than characters, and every token is well formed: a known operator symbol, a non-negative whole `Number`, a non-negative `Float` or a non-empty run of letters |
| Tokenizer.NextStep | src/logic/tokenize.rs:16-94 | one iteration of the scanning loop consumes at least one and at most all of the remaining characters, and any token it emits is well formed |
| Tokenizer.ScanOne | src/logic/tokenize.rs:17-94 | the loop body, with its inner loops over numerals and identifiers, takes the same step as the reference scanner |
| Tokenizer.ScanNumeral | src/logic/tokenize.rs:27-48 | the inner numeral loop stops at the end of the maximal run of digits and decimal points; its flag is set exactly when the run holds a decimal point, and a second one makes the numeral malformed |
| Tokenizer.ScanInto | src/logic/tokenize.rs:17-94 | one pass of the loop body either stops with the error the whole scan reports, or moves forward by at least one character and leaves a token list from which the rest of the input scans to the same final result |
| Tokenizer.TokenizeLoop | src/logic/tokenize.rs:12-97 | the loop with its mutable position and token list computes the reference scan, its error included |
| Tokenizer.DecimalValue | src/logic/tokenize.rs:50-58 | the value of a numeral is never negative |
| Tokenizer.DecimalValueParts | src/logic/tokenize.rs:50-58 | a numeral without a point denotes its digits as a whole number; with one point, its value lies between the whole part before the point and the next whole number |
| Tokenizer.NumeralToken | src/logic/tokenize.rs:50-58 | a numeral fails to parse exactly when it holds two or more points; otherwise it is a `Float` exactly when it holds one, a `Number` carries the value of its digits, and a `Float`'s whole part is the digits before its point |
| Tokenizer.MessageNamesCharacter | src/logic/tokenize.rs:94 | the error message ends with the unknown character, so different characters give different messages, and it is never one of the panic texts |
| TokenizerProps.OperatorCharacters | src/logic/tokenize.rs:100-102 | the operator characters are exactly the five binary operators and the two parentheses; none of them is a digit, a point, a letter, whitespace or `=` |
| Tokenizer.ScanIdentifier | src/logic/tokenize.rs:70-82 | the inner identifier loop stops at the end of the maximal run of letters |
| TokenizerProps.TokenizeAppend | src/logic/tokenize.rs:12-97 | where two texts meet at a token boundary, the tokens of their concatenation are those of the first followed by those of the second, and an error in the first is the one reported |
| TokenizerProps.WhitespaceIsIgnored | src/logic/tokenize.rs:63-67 | whitespace at a token boundary changes nothing: "1+1" and "1 + 1" scan alike |
| TokenizerProps.OperatorCharacterIsOneToken | src/logic/tokenize.rs:19-24 | each of `+ - * / ( ) ^ =` is one operator token wherever it stands, so a minus sign never joins a numeral |
| TokenizerProps.NumeralIsOneToken | src/logic/tokenize.rs:27-61 | a numeral is one token: a `Number` with its decimal value when it has no point, a `Float` when it has one, and an error when it has more |
| TokenizerProps.IdentifierIsOneToken | src/logic/tokenize.rs:70-87 | a maximal run of letters is one `Variable` carrying exactly that text |
| TokenizerProps.KnownCharactersScan | src/logic/tokenize.rs:12-97 | input made of characters the scanner knows and of decimal points scans exactly when every point follows a digit and no numeral holds two points |
| TokenizerProps.FractionalSumScans | src/logic/tokenize.rs:27-58 | `1.5 + 2`, with a fractional numeral, scans |
| TokenizerProps.BarePointFails | src/logic/tokenize.rs:89-94 | `1 + .5` fails, because a point that does not follow a digit is an unknown character |
| TokenizerProps.UnknownCharacterIsReported | src/logic/tokenize.rs:94 | after any prefix that scans without error, an unknown ASCII character at a token boundary is the one reported, whatever follows it |
| TokenizerProps.ErrorsComeFromTheInput | src/logic/tokenize.rs:12-97 | every error names a character, or a numeral with two or more points, that the input contains |
| TokenizerProps.RenderRoundTrip | src/logic/tokenize.rs:12-97 | scanning inverts writing tokens out separated by spaces: every renderable token sequence is read back exactly |
| TokenizerProps.OnePlusOne | src/logic/tokenize.rs:6-10 | "1+1" is a number, a plus and a number |
| TokenizerProps.SpacedOnePlusOne | src/logic/tokenize.rs:63 | "1 + 1" scans like "1+1" |
| TokenizerProps.MinusFiveIsTwoTokens | src/logic/tokenize.rs:20-24 | "-5" is a minus operator and then a number, not a negative literal |
| ShuntingYard.Precedence | src/logic/shunting_yard.rs:14-21 | exactly the five binary operators have a precedence, between 2 and 4 |
| ShuntingYard.MessageIdentifiesError | src/logic/shunting_yard.rs:59-98 | the four error texts are pairwise different, so a message names exactly one error |
| ShuntingYard.StepBounds | src/logic/shunting_yard.rs:46-93 | one iteration takes back nothing already emitted and adds at most one entry to output and stack together; an operand fails only as the second operand in a row, and a failing operator never reports that error |
| ShuntingYard.RunBounds | src/logic/shunting_yard.rs:45-94 | the loop over the input only extends the output, and output and stack together grow by at most one entry per token |
| ShuntingYard.ConvertWith | src/logic/shunting_yard.rs:37-104 | with ties treated either way, the output is never longer than the input, and an empty input converts to an empty output |
| ShuntingYard.Convert | src/logic/shunting_yard.rs:37-104 | as written, the output is never longer than the input, and an empty input converts to an empty output |
| ShuntingYard.ConvertLeft | src/logic/shunting_yard.rs:37-104 | with ties popped for the left-associative operators, the same bounds hold |
| ShuntingYard.PrecedenceOrder | src/logic/shunting_yard.rs:14-21 | `+` and `-` bind alike and least, `*` and `/` alike and more, `^` most; two operators bind alike exactly when they are in the same group |
| ShuntingYard.PopHigher | src/logic/shunting_yard.rs:69-81 | an incoming operator pops the longest run at the top of the stack made of entries it outbinds; the popped entries come out top first, the rest stays in place, and the first entry kept is one it does not pop |
| ShuntingYard.PopToParen | src/logic/shunting_yard.rs:49-57 | a `)` fails exactly when the stack holds no `(`; otherwise it pops everything above the topmost `(`, top first, and drops that `(` |
| ShuntingYard.Finish | src/logic/shunting_yard.rs:96-103 | the drain fails, with the unpaired left parenthesis error, exactly when a `(` is left on the stack; otherwise it keeps the output so far and follows it with each stacked operator once, the top one first and the bottom one last |
| ShuntingYard.PopHigherLoop | src/logic/shunting_yard.rs:69-81 | the popping loop computes what the reference popping does |
| ShuntingYard.PopToParenLoop | src/logic/shunting_yard.rs:48-61 | the loop for `)` finds a `(` exactly when the reference does, and leaves the same output and stack |
| ShuntingYard.StepLoop | src/logic/shunting_yard.rs:46-93 | one iteration over a token computes the reference step, errors included |
| ShuntingYard.RunLoop | src/logic/shunting_yard.rs:45-94 | the loop over the input computes the reference run |
| ShuntingYard.FinishLoop | src/logic/shunting_yard.rs:96-103 | the final loop computes the reference drain |
| ShuntingYard.ShuntingYardLoop | src/logic/shunting_yard.rs:37-104 | the whole converter computes the reference conversion, with ties treated either way |
| ShuntingYardProps.OutcomeMatchesCheck | src/logic/shunting_yard.rs:45-103 | from any state, the converter's error matches the reference check, which counts only open parentheses and whether an operator is due |
| ShuntingYardProps.ConvertRejectsExactlyMalformed | src/logic/shunting_yard.rs:37-104 | conversion fails exactly on the inputs the reference check rejects, with the same error: two operators or two operands in a row, a `)` without a `(`, or a `(` never closed |
| ShuntingYardProps.ConvertKeepsCount | src/logic/shunting_yard.rs:37-104 | on success, every token occurs in the output as often as it does among the input's operands and binary operators |
| ShuntingYardProps.ConvertKeepsMultiset | src/logic/shunting_yard.rs:37-104 | on success, the output is a permutation of the input without its parentheses and `=` signs |
| ShuntingYardProps.ConvertKeepsOrder | src/logic/shunting_yard.rs:86-92 | on success, the operands come out in the order they went in |
| ShuntingYardProps.ConvertKeepsTokens | src/logic/shunting_yard.rs:37-104 | on success, the output holds exactly the input's operands and binary operators, with no parenthesis, and the operands in their input order |
| ShuntingYardProps.TiesDoNotChangeErrors | src/logic/shunting_yard.rs:37-104 | how ties are treated does not change whether conversion fails or which error it reports, and on success both outputs hold the same tokens |
| ShuntingYardChain.Root | src/logic/shunting_yard.rs:75-79 | the root of a chain is an operator of least precedence: the first such operator when its ties stay on the stack (always as written, and for `^` with ties popped), the last otherwise |
| ShuntingYardChain.FlattenParse | src/logic/shunting_yard.rs:37-104 | the parse tree of a chain, written out in infix, is the chain itself |
| ShuntingYardChain.RunChain | src/logic/shunting_yard.rs:45-94 | reading a chain on top of a stack that it cannot pop emits the finished part of the parse tree's postfix form, and leaves the tree's pending operators on the stack |
| ShuntingYardChain.ConvertChain | src/logic/shunting_yard.rs:37-104 | an input without parentheses that alternates operands and binary operators converts to the postfix form of its parse tree |
| ShuntingYardChain.KeptTiesGroupRight | src/logic/shunting_yard.rs:75-79 | where ties are kept, operators of one precedence group to the right: as written `a - b - c` parses as `a - (b - c)`, and `^` groups this way with ties popped too |
| ShuntingYardChain.PoppedTiesGroupLeft | src/logic/shunting_yard.rs:75-79 | with ties popped, operators of one precedence other than `^` group to the left: `a - b - c` parses as `(a - b) - c` |
| ShuntingYardExamples.AddThenMultiply | src/logic/shunting_yard.rs:127-145 | `a + b * c` converts to `a b c * +` for any operands |
| ShuntingYardExamples.PowerThenMultiply | src/logic/shunting_yard.rs:147-166 | `a ^ b * c` converts to `a b ^ c *` for any operands |
| ShuntingYardExamples.UnpairedRightParenthesis | src/logic/shunting_yard.rs:168-180 | `a + b * c )` fails with the unpaired right parenthesis error |
| ShuntingYardExamples.UnpairedLeftParenthesis | src/logic/shunting_yard.rs:182-194 | `a + ( b * c` fails with the unpaired left parenthesis error |
| ShuntingYardExamples.TwoOperandsInARow | src/logic/shunting_yard.rs:196-208 | `a b * c` fails with the two-numbers-in-a-row error |
| ShuntingYardExamples.CorrectedPowerGroupsRight | src/logic/shunting_yard.rs:68-84 | `^` is right-associative, so with ties popped for the other operators `a ^ b ^ c` still converts to `a b c ^ ^` |
| ShuntingYardExamples.TrailingOperator | src/logic/shunting_yard.rs:63-85 | a trailing binary operator is accepted, and `a op` converts to `a op` |
| Calculator.Operate | src/logic/calculator.rs:26-34 | a character other than `+ - * /` gives 0, `^` included; a division by zero gives NaN; NaN propagates through arithmetic |
| Calculator.Run | src/logic/calculator.rs:11-20 | the stack never grows by more than one value per token, and a non-empty stack stays non-empty |
| Calculator.EvalPostfix | src/logic/calculator.rs:9-24 | a result needs a first token that is a number, and a lone number evaluates to itself |
| Calculator.RunFits | src/logic/calculator.rs:11-20 | the stack loop fails exactly when some operator finds fewer than two values, and otherwise leaves the stack height that counting numbers up and operators down predicts |
| Calculator.EvalFailsExactly | src/logic/calculator.rs:9-24 | `eval_postfix` fails, always with "Too many operators", exactly when an operator lacks operands or no value is left at the end |
| Calculator.RunFrame | src/logic/calculator.rs:11-20 | values below the part of the stack that the tokens use are left untouched |
| Calculator.RunAppend | src/logic/calculator.rs:11-20 | running two token sequences one after the other is running their concatenation |
| Calculator.EvalRpn | src/logic/calculator.rs:9-24 | the postfix form of any expression evaluates to that expression's value |
| Calculator.EvalKeepsLast | src/logic/calculator.rs:22-23 | extra values on the stack are dropped without an error: of two expressions in a row, the result is the second one's value |
| Calculator.EvalPostfixLoop | src/logic/calculator.rs:9-24 | the loop over a mutable stack computes the reference evaluation, its error included |
| CalculatorExamples.MultiplyThenAdd | src/logic/calculator.rs:73-79 | `x y * z +` evaluates to `x * y + z`, which is 10 for 3, 2 and 4 |
| CalculatorExamples.AddToItself | src/logic/calculator.rs:65-71 | `x x +` evaluates to `x + x`, which is 2 for 1 |
| CalculatorExamples.OperatorFirstFails | src/logic/calculator.rs:81-87 | an operator before any number fails, whatever follows |
| CalculatorExamples.OperateTests | src/logic/calculator.rs:94-134 | 1 + 1 is 2, 2 * 4 is 8, 4 / 8 is 0.5, 1 - 2 is -1, an unknown operator gives 0, and 1 / 0 is NaN |
| Enums.Format | src/logic/enums.rs:67-74 | every function name has three or four lower-case letters |
| Enums.FormatRoundTrip | src/logic/enums.rs:113-121 | reading a function's name back gives the function, and only that name reads as that function |
| Enums.FormatInjective | src/logic/enums.rs:67-74 | no two functions share a name |
| Enums.Display | src/logic/enums.rs:32-47 | every operator other than a function displays as one character, and a function displays as its name |
| Enums.DisplayRoundTrip | src/logic/enums.rs:32-47 | reading an operator's text back gives the operator, and only that text reads as that operator |
| Enums.DisplayInjective | src/logic/enums.rs:32-47 | no two operators display alike |
| Evaluation.Evaluate | src/logic/calculator.rs:4-7 | a converter error is reported as such, unchanged, exactly when conversion fails; an empty input converts but has no value, so it fails with "Too many operators" |
| Evaluation.ToRpnAllFails | src/logic/calculator.rs:48-51 | the evaluator's tokens cannot hold a variable: reading a token list for evaluation fails exactly when it holds one |
| Evaluation.VariablesAreRejected | src/logic/calculator.rs:4-7 | an input is refused for holding a variable exactly when it converts and holds one |
| Evaluation.MessagesDiffer | src/logic/calculator.rs:15-22 | the evaluator's message differs from each of the converter's |
| Evaluation.EvaluateChain | src/logic/calculator.rs:4-7 | converting and then evaluating a numeric chain gives the value of its parse tree |
| Evaluation.AsWrittenEvaluatesRightToLeft | src/logic/shunting_yard.rs:75-79 | as written, a chain of one precedence is evaluated from right to left |
| Evaluation.CorrectedEvaluatesLeftToRight | src/logic/shunting_yard.rs:75-79 | with ties popped, a chain of one precedence other than that of `^` is evaluated from left to right |
| Evaluation.AsWrittenPostfix | src/logic/shunting_yard.rs:75-79 | as written, `1 - 2 - 3` converts to `1 2 3 - -` |
| Evaluation.AsWrittenValue | src/logic/shunting_yard.rs:75-79 | as written, `1 - 2 - 3` evaluates to 2 |
| Evaluation.CorrectedPostfix | src/logic/shunting_yard.rs:75-79 | with ties popped, `1 - 2 - 3` converts to `1 2 - 3 -` |
| Evaluation.CorrectedValue | src/logic/shunting_yard.rs:75-79 | with ties popped, `1 - 2 - 3` evaluates to -4 |

## Left out

- `Function::evaluate` (`src/logic/enums.rs:58-65`) computes sine, cosine, tangent and square root on `f64`. Floating-point transcendental functions are not modelled.
- Tokenizer.Tokenize: numerals take their exact decimal value as a real. The rounding of `parse::<f64>` is not modelled.
- Calculator.Operate: arithmetic is exact on reals. `f64` rounding, overflow to infinity, signed zeros and infinities are not modelled; NaN is its own value.
- `calculate_infix` (`src/logic/calculator.rs:4-7`) passes a string to `shunting_yard`, which takes tokens, so it does not compile as written. `Evaluation.Evaluate` composes conversion and evaluation instead.
- Evaluation.Evaluate: an input with a variable fails with `HasVariable`, because the evaluator's token has no variables. A `Float` is evaluated like a `Number`.
- The token type: `tokenize.rs` and `shunting_yard.rs` import `Float` and `Variable` from the calculator's `Token`, which declares only `Number` and `Operator`. The model gives the tokenizer and the converter one token type with all four shapes.
- The evaluator keeps its own two-shape token.
- `Enums.Token` (`src/logic/enums.rs:13-17`) is declared, but nothing in the pipeline uses it.
- Tokenizer panics are modelled as errors:
  - the source slices its input one byte at a time, which panics on a multi-byte character, and the model reports `NonAscii`;
  - `parse().unwrap()` panics on a numeral with two decimal points, and the model reports `MalformedNumber`.
- Rust's `is_digit`, `is_alphabetic` and `is_whitespace` are modelled on ASCII only, since a non-ASCII character stops the scan.
- ShuntingYardChain.ConvertChain: the parse-tree theorem covers inputs without parentheses or `=`. Parenthesised inputs are covered only by the error, content and order properties.
- The converter's test with literal numbers is stated for arbitrary operands.
- The user interface and entry point (`src/ui.rs`, `src/main.rs`, `src/logic.rs`) and the generated documentation index are not part of this model.
- Where the source's own comments describe other behaviour, the model follows the code:
  - the comment at `src/logic/tokenize.rs:69` says a run of letters may be a function name, but the scanner always emits a `Variable`;
  - the algorithm that `src/logic/shunting_yard.rs:3-4` points to pops a stacked operator of equal precedence when the incoming one is left-associative (`+ - * /`), but the code keeps it on the stack (see Findings). For the right-associative `^` both keep it, and so does the corrected converter.
- Tokenizer.Message: the unknown-character text is exact, but the two panic texts are paraphrases of what Rust prints; the model only promises that they differ from the error message.

## Findings

| source | as written | input that shows it | evidently intended | confidence | as-written member | corrected member |
|---|---|---|---|---|---|---|
| src/logic/shunting_yard.rs:75-79 | an incoming operator stops popping at a stacked operator of equal precedence (`p2 <= p1`), so `+ -` and `* /` group to the right | `1 - 2 - 3` converts to `1 2 3 - -` and evaluates to 2 | pop on equal precedence when the incoming operator is left-associative, as `+ - * /` are: `1 2 - 3 -`, which is -4; `^` keeps its ties | medium, not executed | Evaluation.AsWrittenValue | Evaluation.CorrectedEvaluatesLeftToRight |
