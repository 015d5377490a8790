# Calculator core: tokenizer, shunting-yard converter, postfix evaluator

This project models the core of the console calculator in `test/Program.cs` and
proves properties of that model. The calculator reads an arithmetic
expression with `+ - * /`, parentheses and decimal numbers. It runs it
through three stages:

1. `Tokenize` turns the text into `Number`, `Operation` and `Parenthesis`
   tokens. It gathers digits and dots into a pending number and flushes the
   number at any other character and at the end.
2. `ConvertToPostfix` reorders the tokens into reverse Polish notation with an
   operator stack (Dijkstra's shunting-yard algorithm). It uses the operators'
   `Priority`: 2 for `*` `/`, 1 for `+` `-`, and 0 for everything else.
3. `EvaluatePostfix` computes the value on a value stack. It calls
   `ApplyOperation` for each operator.

The files:

- `tokens.dfy`: the token hierarchy as one datatype, `Priority`, and the failures.
- `numerals.dfy`: the part of `double.Parse` the tokenizer relies on. This is
  the grammar of a run of digits and dots and its decimal value.
- `tokenizer.dfy`: `Tokenize` as a method, proved equal to a recursive
  reference `Lex`. It also proves what `Lex` yields: one number per run of
  digits and dots, and a failure exactly when such a run is no numeral.
- `converter.dfy`: `ConvertToPostfix` as a method over an output sequence and
  an operator stack, proved equal to a step-by-step reference `ToPostfix`.
  It also proves what the algorithm keeps: stack order, numbers, operators,
  and what happens to parentheses.
- `evaluator.dfy`: `ApplyOperation`, and `EvaluatePostfix` as a method proved
  equal to the reference `Evaluate`.
- `pipeline.dfy`: the three stages end to end. For every well-formed
  expression tree:
  - the converter produces its postfix order;
  - evaluating that order gives the tree's value;
  - the tokenizer reads the tree's written form as its infix tokens.
  So the whole calculator computes the value of any such expression.
- `scenarios.dfy`: concrete inputs, both well-formed and malformed, worked
  through all three stages.

Modelling choices:

- **Numbers are reals.** The source's `double` is modelled as exact
  arithmetic.
- **Exceptions become failures.** Each exception the source can throw is an
  `Err` value of a `Result`:
  - a `FormatException` from `double.Parse` is `InvalidNumber`;
  - popping an empty `Stack` is `EmptyStack`;
  - `DivideByZeroException` is `DivideByZero`;
  - the `ArgumentException` for any other operator is `UnsupportedOperation`.
- **Stacks are sequences.** `List<T>` and `Stack<T>` are sequences, with a
  stack's top as its last element.

In these places the model follows the code, although stricter behaviour would
also be a reasonable design:

- A character that is not a digit, `.`, an operator or a parenthesis is
  skipped. It only ends the pending number, and there is no
  unexpected-character failure.
- A `)` with no matching `(` pops the whole operator stack and is otherwise
  ignored.
- A `(` that is never closed is drained into the output as the operation
  `'('`. Evaluating it then fails with `EmptyStack` or
  `UnsupportedOperation('(')`. There is no separate mismatched-parenthesis
  failure.
- After evaluation the top of the value stack is the result, and values left
  below it are ignored.
- An operator with too few operands fails with `EmptyStack`, which is the
  model's name for the source's failed pop.
- The evaluator skips `Parenthesis` tokens.

## Model

| member | source | states |
|---|---|---|
| Tokens.Priority | test/Program.cs:23-28 | priority is 2 exactly for `*` and `/`, 0 exactly for symbols that are not one of the four operators (so a `(` marker is below every operator), and never above 2 |
| Tokens.NumbersAppend | test/Program.cs:119-121 | the numbers of a concatenation are the numbers of each part, in order |
| Numerals.ParseNumber | test/Program.cs:88 | a run of digits and dots parses exactly when it has at most one `.` and at least one digit; a parsed value is never negative; a run of digits alone has its decimal value |
| Numerals.ParseScaled | test/Program.cs:88 | a numeral's value, shifted left by one decimal place per digit after its point, is the integer its digits spell with the point taken out |
| Numerals.ParseNatDigits | test/Program.cs:105 | the decimal digits of any natural number parse back to that number |
| Tokenizer.RunLength | test/Program.cs:80-83 | the pending number gathers a prefix of digits and dots and stops at the first other character |
| Tokenizer.Tokenize | test/Program.cs:71-109 | the one-pass tokenizer with a pending-number accumulator returns exactly the tokens of the reference reading `Lex` of its input, or its InvalidNumber failure |
| Tokenizer.ScanIsLex | test/Program.cs:76-106 | scanning the rest of the input with a pending run is lexing that run followed by the rest, after the tokens already emitted |
| Tokenizer.LexAppend | test/Program.cs:76-100 | the tokens of a + b are the tokens of a then those of b whenever the cut does not split a run of digits and dots; the first failure wins |
| Tokenizer.LexSplit | test/Program.cs:76-100 | the input may be cut at any position just after a character outside a number and lexed in two parts |
| Tokenizer.LexNumeralThen | test/Program.cs:86-90 | a whole run ended by another character becomes one Number with the parsed value, or InvalidNumber when it does not parse |
| Tokenizer.LexAtBreak | test/Program.cs:84-99 | at a character outside a number the pending run is flushed (or fails) and the character's own token follows |
| Tokenizer.LexAtEnd | test/Program.cs:103-106 | at the end of the input the pending run is flushed, or fails, and nothing else is added |
| Tokenizer.LexShape | test/Program.cs:92-99 | every token is a number, one of the four operators or one of the two parentheses, and there are never more tokens than characters |
| Tokenizer.SeparatorIgnored | test/Program.cs:84-100 | a character that makes no token (a space, a letter) changes nothing when it does not split a number |
| Tokenizer.RunsInsideRun | test/Program.cs:80-83 | no maximal run of digits and dots starts inside another run |
| Tokenizer.LexRuns | test/Program.cs:76-106 | from any position not inside a run, the number of Number tokens read equals the number of runs that start there or later |
| Tokenizer.LexFails | test/Program.cs:86-106 | tokenizing fails exactly when some maximal run of digits and dots is not a numeral, and the failure is then always InvalidNumber |
| Tokenizer.NumberPerRun | test/Program.cs:76-106 | on success every maximal run of digits and dots becomes exactly one Number token |
| Converter.PopAtLeast | test/Program.cs:125-128 | an incoming operator of priority p pops exactly the top entries of priority at least p, top first, and stops at an entry of lower priority or at the empty stack |
| Converter.PoppedAtLeast | test/Program.cs:125-128 | every entry popped for an incoming operator of priority p has priority at least p |
| Converter.PopToOpen | test/Program.cs:139-142 | a `)` pops the entries above the topmost `(`, top first, none of which is a `(`, and stops at that `(` or at the empty stack |
| Converter.Drain | test/Program.cs:151-154 | the final loop appends the whole stack to the output, top first |
| Converter.RunAppend | test/Program.cs:117-149 | reading a + b is reading a, then b from the state a leaves |
| Converter.PopWhileAtLeast | test/Program.cs:125-128 | the loop computes PopAtLeast |
| Converter.PopUntilOpen | test/Program.cs:139-142 | the loop computes PopToOpen |
| Converter.ConvertToPostfix | test/Program.cs:112-157 | the method returns exactly ToPostfix of its tokens |
| Converter.StepOrdered | test/Program.cs:117-149 | every token keeps the operator stack ordered: each operator has a higher priority than the entry below it |
| Converter.RunOrdered | test/Program.cs:117-149 | reading any tokens keeps the operator stack ordered |
| Converter.OrderedIncreasing | test/Program.cs:125-129 | on an ordered stack, priorities strictly increase upward between markers |
| Converter.ConverterStackOrdered | test/Program.cs:117-149 | the converter's stack is ordered at every point of its run |
| Converter.ToPostfixNumbers | test/Program.cs:119-122 | the output holds the input's Number tokens unchanged and in the same order |
| Converter.ToPostfixOperators | test/Program.cs:123-154 | each of the four operators occurs in the output exactly as often as in the input |
| Converter.ToPostfixNoParenthesis | test/Program.cs:131-148 | no Parenthesis token reaches the output |
| Converter.ToPostfixLeftovers | test/Program.cs:133-154 | every `(` left unclosed reaches the output as the operation `'('`; the output length is the input length minus the parentheses plus those markers |
| Converter.ToPostfixBalanced | test/Program.cs:133-154 | when every `(` is closed, the output holds no `'('` marker and has as many tokens as the input has outside parentheses |
| Evaluator.ApplyOperation | test/Program.cs:182-196 | fails exactly for a symbol other than the four operators (UnsupportedOperation) and for `/` by zero (DivideByZero); `+` and `-` compute the sum and difference; `*` gives a value that, divided by a non-zero b, is a, and 0 when b is 0; `/` by a non-zero b gives a value that, times b, is a |
| Evaluator.ApplyInverse | test/Program.cs:186-192 | `-` undoes `+` and `+` undoes `-`; with a non-zero right operand `/` undoes `*` and `*` undoes `/` |
| Evaluator.EvaluatePostfix | test/Program.cs:160-179 | the stack loop returns exactly Evaluate of its tokens, including every failure |
| Evaluator.EvalAppend | test/Program.cs:164-176 | evaluating a + b is evaluating a, then b on the stack a leaves, unless a fails |
| Evaluator.EvalHeight | test/Program.cs:166-175 | after a successful run the stack has grown by one per number and shrunk by one per operator |
| Evaluator.EvalUnderflow | test/Program.cs:172-173 | an operator reached with fewer than two values on the stack makes the run fail with EmptyStack |
| Evaluator.EvalHeightStep | test/Program.cs:166-175 | one successful step changes the height by that token's growth |
| Evaluator.EvalIgnoresParentheses | test/Program.cs:164-176 | Parenthesis tokens change nothing: removing them gives the same run |
| Evaluator.EvalFrame | test/Program.cs:164-176 | values below those a successful run uses are left unchanged |
| Evaluator.ExtraValuesIgnored | test/Program.cs:178 | the result is the top value only: a complete sequence after another successful one gives its own value |
| Evaluator.OperandOrder | test/Program.cs:172-174 | `x y op` applies op with x as left and y as right operand |
| Evaluator.LeftAssociativeExamples | test/Program.cs:170-175 | `8 4 / 2 /` is 1 and `6 3 - 2 -` is 1 |
| Evaluator.EmptyStackExamples | test/Program.cs:172-178 | an empty postfix sequence and `5 *` fail with EmptyStack |
| Evaluator.ApplyFailureExamples | test/Program.cs:189-194 | `5 0 /` fails with DivideByZero and a drained `(` marker fails with UnsupportedOperation |
| Pipeline.ResidueBound | test/Program.cs:125-129 | the operators a well-formed expression leaves on the stack bind at least as tightly as its outermost operator |
| Pipeline.SettledThenResidue | test/Program.cs:151-154 | draining what an expression leaves on the stack completes its postfix order |
| Pipeline.PopRun | test/Program.cs:125-128 | an operator pops a run of entries that bind at least as tightly and stops at one that binds less |
| Pipeline.CloseRun | test/Program.cs:139-142 | a `)` pops a run without markers and stops at the `(` below it |
| Pipeline.CloseStep | test/Program.cs:139-146 | a `)` above a marker outputs the run above it and removes the marker |
| Pipeline.ParenStep | test/Program.cs:133-146 | reading a parenthesised expression outputs the inner expression's postfix order and leaves the stack as it was |
| Pipeline.OperationStep | test/Program.cs:125-129 | an operator outputs the run that binds at least as tightly and is pushed |
| Pipeline.BinStep | test/Program.cs:117-149 | reading `l op r` outputs what l settles, pops l's leftovers, and reads r above op |
| Pipeline.RunInfix | test/Program.cs:117-149 | on a well-formed expression, from any stack whose top binds less, the converter outputs what the expression settles and leaves its right spine on the stack |
| Pipeline.PostfixOfInfix | test/Program.cs:112-157 | the converter turns the infix tokens of every well-formed expression into its postfix order |
| Pipeline.EvalPostfix | test/Program.cs:164-176 | evaluating an expression's postfix order pushes the expression's value, or fails as the expression does |
| Pipeline.EvaluatePostfixOrder | test/Program.cs:160-179 | the value of an expression's postfix order is the expression's value |
| Pipeline.LexOne | test/Program.cs:92-99 | a single character other than a digit or `.` lexes to its own token, if any |
| Pipeline.LexParen | test/Program.cs:96-99 | lexing `(` body `)` brackets the tokens of body |
| Pipeline.LexOperation | test/Program.cs:92-95 | lexing left op right puts the operator between the tokens of both sides |
| Pipeline.LexNatural | test/Program.cs:103-106 | the decimal digits of a natural number lex to one Number of that value |
| Pipeline.LexRender | test/Program.cs:71-109 | the tokenizer reads the written form of a well-formed expression as its infix tokens |
| Pipeline.CalculateRender | test/Program.cs:54-67 | tokenizing, converting and evaluating the written form of any well-formed expression gives its value |
| Scenarios.CalculateTokens | test/Program.cs:54-67 | an input lexing to a well-formed expression's infix tokens converts to its postfix order and computes its value |
| Scenarios.Precedence | test/Program.cs:125-129 | `2+3*4` converts to `2 3 4 * +` and computes 14 |
| Scenarios.LeftAssociative | test/Program.cs:125-129 | `6-3-2` converts to `6 3 - 2 -` and computes 1 |
| Scenarios.LeftAssociativeDivision | test/Program.cs:125-129 | `8/4/2` computes 1 |
| Scenarios.Parenthesised | test/Program.cs:133-146 | `(2+3)*4` converts to `2 3 + 4 *` and computes 20 |
| Scenarios.DivisionByZero | test/Program.cs:189-191 | `5/0` fails with DivideByZero |
| Scenarios.TwoPoints | test/Program.cs:103-106 | `1.2.3` is one run with two points and fails with InvalidNumber |
| Scenarios.LonePoint | test/Program.cs:103-106 | `.` alone has no digit and fails with InvalidNumber |
| Scenarios.ParseDecimal | test/Program.cs:88 | a digit, a point and a digit parse as whole plus fraction over ten |
| Scenarios.Decimals | test/Program.cs:80-90 | `1.5+2.5` computes 4 |
| Scenarios.SpacesSkipped | test/Program.cs:84-100 | `2 + 3` and `2+3` tokenize the same |
| Scenarios.Spaces | test/Program.cs:84-100 | `2 + 3` tokenizes as `2+3` and computes 5 |
| Scenarios.MissingOperand | test/Program.cs:172-173 | `*5` converts to `5 *` and fails with EmptyStack |
| Scenarios.UnclosedParenthesis | test/Program.cs:133-154 | `(1+2` converts to `1 2 + (` and fails with EmptyStack |
| Scenarios.UnclosedParenthesisApplied | test/Program.cs:133-154 | `2*(1+2` converts to `2 1 2 + ( *` and fails with UnsupportedOperation for `(` |
| Scenarios.UnmatchedClose | test/Program.cs:139-146 | `1+2)` converts to `1 2 +` and computes 3: the stray `)` is ignored |

## Left out

- `Main` reads the console and prints the postfix form and the value. That I/O is not modelled. `Pipeline.Calculate` composes the three stages as `Main` chains them.
- Numbers are reals, not IEEE doubles. The model has no rounding, no overflow to infinity and no NaN, and `0.1+0.2` is exactly `0.3`.
- Numerals.ParseNumber: only the inputs the tokenizer can hand to `double.Parse` are modelled, which are runs of digits and dots. Culture settings, signs, exponents and white space never reach it from the tokenizer.
- Numerals.IsDigit: only the ASCII digits `0`-`9` count. `char.IsDigit` also accepts other Unicode decimal digits, which the model treats as skipped characters.
- Exceptions become `Err` values that end the calculation. The messages the source attaches to them are not modelled.
- The token class hierarchy is one datatype. Its objects are never changed after construction, so no object identity is modelled.
- `List<T>` and `Stack<T>` are sequences rebuilt by each method. The in-place mutation of the .NET collections is not modelled, and none of them is shared.
- Pipeline.CalculateRender covers expressions whose literals are natural numbers, written without spaces. Decimals and spaces are covered by the concrete scenarios and by Tokenizer.SeparatorIgnored.
