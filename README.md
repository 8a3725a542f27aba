# calculator.rs in Dafny

This project models the core of a small interactive infix calculator with
variables: the tokenizer `tokenize`, the assignment dispatch `parse_expr`, the
shunting-yard evaluator `eval_expr`, and its helpers `precedence` and
`apply_operator`. Values are exact reals and the variable map is a
`map<string, real>`.

How the modules follow the program:

- `Common` holds `Option` and `Result`, and the four errors with their exact
  message texts.
- `Numbers` holds `ParseNum`, the numeric test `token.parse::<f64>()`. It
  follows the decimal grammar of Rust's `f64` parser: an optional sign, digits
  with an optional point, and an optional exponent.
- `Tokenizer` has the imperative `Tokenize` method, which keeps the character
  loop and its buffer. The method is proved to compute `TokensOf`, a fold over
  the line. The module also proves the shape of the output, that the output is
  unique, and that whitespace does not matter.
- `Evaluator` holds two kinds of members:
  - the source's procedures as methods: `ApplyOperator` on the value stack and
    `EvalExpr` with its `while` loop over two stacks;
  - the functions those methods are proved to compute: `Step`, `Reduce`,
    `CloseParen`, `Drain`, `Run` and `Evaluate`.
- `EvaluatorFacts` proves properties of the pop loops: what the operator stack
  looks like after each one, the ordering invariant, and the error paths.
- `Grammar` gives a tree form of expressions (`Expr`) and a reference
  evaluator (`Eval`). It proves the correctness theorem: `eval_expr` on the
  tokens of any well-formed expression returns `Eval`, the value or the first
  error. So precedence, left associativity and parentheses behave as intended.
- `Rendering` connects text to trees: tokenizing an expression's text, with
  any spacing, gives back exactly its tokens.
- `Session` has the class `Calculator`. The class owns the variable map that
  `main` creates once. Its methods are `ParseExpr` (`parse_expr`) and `Enter`
  (tokenize, then `parse_expr`: the per-line work of the prompt loop).
- `Examples` and `Lines` hold worked lines and the evaluator's quirks.

The model follows the code where its behaviour is surprising:

- The result is the top of the value stack (line 79). Values below it are
  ignored, so `(1)(2)` evaluates to 2 (`Examples.TopOfStack`).
- There is no unary minus. The line `1+-2` is cut into `1`, `+`, `-`, `2`;
  the `-` makes the operator loop apply `+` to the single value 1, and the
  line fails with `Invalid expression` (`Lines.PlusMinusLine`).
- The `Unknown operator` error is reached from typed text through a `(` that
  is never closed: the final loop (lines 75-77) pops it and applies it like an
  operator, so `2*(3` fails with `Unknown operator` (`Lines.OpenParenLine`).
  The operator test of line 60 also admits runs such as `+-`, which would fail
  the same way, but the tokenizer never produces them.

## Model

| member | source | states |
|---|---|---|
| Tokenizer.Tokenize | calculator.rs:4-27 | The character loop with its buffer returns `TokensOf(input)`. Every token is a non-empty word or a single symbol. No two words are adjacent. The tokens joined together give the input without its whitespace. |
| Tokenizer.LexInvariant | calculator.rs:8-20 | After any prefix of the line: the emitted tokens are well formed and end with a symbol; the buffer is empty or a word; tokens plus buffer spell the stripped prefix. |
| Tokenizer.SymbolStep | calculator.rs:11-16 | A symbol character flushes a non-empty buffer as one token, then stands alone as a one-character token. The invariant is kept. |
| Tokenizer.WordStep | calculator.rs:17-19 | A character that is neither whitespace nor a symbol extends the buffer, which stays a word. |
| Tokenizer.TokensOfShape | calculator.rs:8-24 | The final flush emits the buffer only when it is non-empty. So no token is empty, words are maximal, and the concatenation is the input with whitespace removed, in order. |
| Tokenizer.TokenizationUnique | calculator.rs:4-27 | Two well-formed token lists without adjacent words that spell the same text are equal. |
| Tokenizer.TokensOfCharacterized | calculator.rs:4-27 | A list is the tokenization of `s` if and only if it is well formed, has no adjacent words, and spells `s` without whitespace. |
| Tokenizer.TokensOfConcat | calculator.rs:4-27 | Tokenizing the concatenation of a well-formed list without adjacent words gives that list back. |
| Tokenizer.WhitespaceIrrelevant | calculator.rs:9-10 | Lines that differ only in whitespace tokenize alike, and a line tokenizes like its stripped form. |
| Tokenizer.StripAppend | calculator.rs:9-10 | Removing whitespace works piecewise over a concatenation. |
| Tokenizer.StripWithoutWhitespace | calculator.rs:9-10 | A text without whitespace is unchanged by stripping. |
| Lines.BlankJoinsWords | calculator.rs:9-19 | Whitespace between two words does not separate them: `a gap b` is the single token `a + b` (`2 3` is `23`). |
| Numbers.DigitStringParses | calculator.rs:47 | A non-empty digit string parses as a number, to the value it spells. |
| Numbers.ParsedHasDigit | calculator.rs:47 | Whatever the modelled `ParseNum` accepts contains a decimal digit. This holds of the finite decimal grammar only: Rust also accepts `inf` and `nan` (see `## Left out`). |
| Numbers.NotANumber | calculator.rs:47 | A single non-digit character never parses as a number. |
| Numbers.SymbolsAreNotNumbers | calculator.rs:47 | None of the symbol tokens `+ - * / ( ) =` parses as a number. |
| EvaluatorFacts.OperatorTable | calculator.rs:82-88 | `+` and `-` have precedence 1, `*` and `/` have 2, and every other string has 0. Each of the four passes the operator test. |
| EvaluatorFacts.OperatorTextChars | calculator.rs:60 | The substring test admits only strings made of `+ - * /`, so `=`, `@`, parentheses, names and numbers fail it. |
| EvaluatorFacts.ArithmeticIsOperatorText | calculator.rs:60 | Each of the four operators passes the substring test. |
| Evaluator.ApplyOperator | calculator.rs:90-109 | With fewer than two values: `Invalid expression`, stack unchanged. Otherwise the values below the top two are untouched. `/` by zero gives `Division by zero` and a non-operator gives `Unknown operator`, both with both operands popped. On success the stack shrinks by one and the new top is `a op b` with `b` the old top. The result agrees with `ApplyOp` in both directions. |
| Evaluator.EvalExpr | calculator.rs:39-80 | The loop over two stacks returns `Evaluate(tokens, vars)`. The variable map is only read. |
| EvaluatorFacts.ReduceShape | calculator.rs:61-67 | The operator loop only pops. It leaves a prefix of the operator stack, consumes one value per popped operator, and stops at a lower-precedence operator or at the bottom. |
| EvaluatorFacts.ReduceStopsAtParen | calculator.rs:61-67 | An incoming operator of precedence at least 1 never pops past a `(`: the stack up to and including it stays in place. |
| EvaluatorFacts.CloseParenShape | calculator.rs:53-59 | The `)` loop only pops: it leaves a prefix of the operator stack. |
| EvaluatorFacts.UnmatchedCloseDrains | calculator.rs:53-77 | With no `(` on the operator stack, the `)` loop does exactly what the final loop does. The missing `(` is no error in itself; the outcome, error included, is the final loop's. |
| EvaluatorFacts.DrainEmpties | calculator.rs:75-77 | When the final loop succeeds, it leaves the operator stack empty. |
| EvaluatorFacts.TrailingCloseIgnored | calculator.rs:53-79 | A `)` at the end of a line with no `(` open changes nothing: the line evaluates as it would without it. |
| EvaluatorFacts.StepKeepsOrder | calculator.rs:44-73 | Each token keeps the operator stack ordered: every entry other than `(` binds more tightly than the one below it. |
| EvaluatorFacts.RunKeepsOrder | calculator.rs:44-73 | The operator stack stays ordered through any run of tokens. |
| EvaluatorFacts.RunAppend | calculator.rs:44-73 | Reading `a + b` is reading `a` and then `b` from the stacks `a` left. An error in `a` ends the run. |
| EvaluatorFacts.InvalidTokenAborts | calculator.rs:69-70 | A token that is not a number, a known variable, a parenthesis or operator text (such as `=` or `@`) makes the line fail with `Invalid token` once it is reached. |
| Grammar.StepOperator | calculator.rs:60-68 | An operator token runs the operator loop at its precedence, then pushes itself. |
| Grammar.StepOpen | calculator.rs:51-52 | A `(` is pushed on the operator stack. |
| Grammar.StepClose | calculator.rs:53-59 | A `)` runs the `)` loop. |
| Grammar.ReducePending | calculator.rs:61-67 | Popping pending operators that bind at least as tightly as the incoming one applies them, top first. |
| Grammar.CloseParenPending | calculator.rs:53-59 | The `)` loop applies the operators pending above the `(` and then drops the `(`. |
| Grammar.DrainPending | calculator.rs:75-77 | The final loop applies all pending operators, top first. |
| Grammar.RunSpelled | calculator.rs:39-80 | Reading the tokens of a well-formed expression, over an operator stack whose top binds more loosely, either fails with the error the tree evaluation meets first, or leaves the stack plus pending operators that push the expression's value once applied. |
| Grammar.RunBinary | calculator.rs:60-68 | A binary expression: the left operand, then the operator (popping the left operand's pending operators), then the right operand. Together they push `Arith(op, l, r)` or the first error. |
| Grammar.RunGroup | calculator.rs:51-59 | A parenthesised expression leaves the operator stack as it found it and pushes the value of its contents. |
| Grammar.EvaluateSpelled | calculator.rs:39-80 | `eval_expr` on the tokens of any well-formed expression returns the reference value `Eval`, value or error. Precedence, left associativity and parentheses are therefore as intended. |
| Rendering.RenderedEvaluates | calculator.rs:4-80 | Any text that strips to an expression written out tokenizes to exactly that expression's tokens and evaluates to its reference value. |
| Session.Calculator.constructor | calculator.rs:112 | The session starts with an empty variable map. |
| Session.Calculator.ParseExpr | calculator.rs:29-37 | `name = expr` (more than two tokens, the second `=`) returns the value of `tokens[2..]` and stores it under `tokens[0]`. A failing assignment returns the error and stores nothing. Every other line is evaluated whole and the map is unchanged. |
| Session.Calculator.Enter | calculator.rs:128-129 | One line of the prompt loop: `parse_expr` on `tokenize(line)`. |
| Session.AssignedChangesOnlyName | calculator.rs:30-36 | The map changes only on a successful assignment, and then only at its name, to the returned value. No other key is added or changed. |
| Session.AssignThenRead | calculator.rs:30-50 | After `name = expr` gives `v`, the line `name` gives `v`, provided the name is not itself a number. |
| Examples.SingleToken | calculator.rs:47-50 | A lone number is read as that number even when a variable of that name exists. A lone non-numeric name reads its variable. |
| Examples.NumberShadowsVariableLine | calculator.rs:47-50 | `3` is 3 even when a variable `3` holds 7. |
| Examples.ProductFirst | calculator.rs:60-68 | `a + b * c` is read as `a + (b * c)`. |
| Examples.LeftToRight | calculator.rs:60-68 | `a - b - c` is read as `(a - b) - c`. |
| Examples.GroupFirst | calculator.rs:51-68 | `(a + b) * c` is read with the sum first. |
| Examples.ProductFirstLine | calculator.rs:39-80 | `2+3*4` is 14, for any variables none of which is named `+ - * / ( )`. |
| Examples.GroupFirstLine | calculator.rs:39-80 | `(2+3)*4` is 20, for any variables none of which is named `+ - * / ( )`. |
| Examples.LeftToRightLine | calculator.rs:39-80 | `10-2-3` is 5, for any variables none of which is named `+ - * / ( )`. |
| Examples.MissingOperand | calculator.rs:75-79 | An empty line, and a number followed by an operator, fail with `Invalid expression`. |
| Examples.OperatorRun | calculator.rs:60-68 | A run of operator characters such as `+-` passes the substring test and is pushed with precedence 0. Applying it fails with `Unknown operator`. |
| Examples.OperatorRunLine | calculator.rs:60-68 | The token list `1`, `+-`, `2` fails with `Unknown operator`. The tokenizer never produces this list; it shows what the substring test does with an operator run. |
| Examples.DoubledOperator | calculator.rs:60-68 | A number followed by two operators, the second binding no more tightly than the first, fails with `Invalid expression`: the second operator's loop applies the first to a single value. |
| Examples.UnclosedParen | calculator.rs:75-77 | In `a op ( b`, the `(` is never closed. The final loop pops it first and applies it as an operator, which fails with `Unknown operator`. |
| Examples.UnmatchedCloseAtEnd | calculator.rs:53-59 | A `)` without its `(` after any well-formed expression is not an error: the line still evaluates to the expression's value. |
| Examples.TopOfStack | calculator.rs:79 | The result is the top of the value stack: `(a)(b)` evaluates to `b` once `a` evaluates. |
| Lines.PlusMinusLine | calculator.rs:4-80 | The line `1+-2` tokenizes to `1`, `+`, `-`, `2` and fails with `Invalid expression`. |
| Lines.OpenParenLine | calculator.rs:4-80 | The line `2*(3` tokenizes to `2`, `*`, `(`, `3` and fails with `Unknown operator`. |
| Lines.AssignFive | calculator.rs:30-34 | `x = 5` returns 5 and stores it under `x`. |
| Lines.ReadSix | calculator.rs:36 | With `x` holding 5, `x+1` returns 6. |
| Lines.AssignThenUse | calculator.rs:29-37 | A session of two lines on one calculator: `x = 5` returns 5, then `x+1` returns 6. |

## Left out

- `main` (calculator.rs:111-134) is left out. It covers the prompt, reading stdin, the read-error message, trimming, the `exit` command, and printing results and errors. `Session.Calculator.Enter` models only the per-line call it makes. The message text of each error is `Error.Message`.
- The model does not capture IEEE-754 `f64` arithmetic (rounding, overflow to infinity, NaN, signed zero). Values are exact reals.
- `Numbers.ParseNum` does not accept the non-finite spellings `inf`, `infinity` and `nan`, which Rust's parser accepts. Such tokens are looked up as variable names instead. Its value is the exact decimal, not the nearest `f64`.
- The `HashMap`'s hashing and iteration order are not modelled. A Dafny `map` covers the `get` and `insert` the code uses.
- `Grammar.EvaluateSpelled` and the results built on it assume that no variable is named after an operator or a parenthesis (`NoOperatorNames`). An assignment line such as `(=3` can create such a name, which then shadows the symbol. The evaluator functions and `EvalExpr` themselves have no such restriction.
