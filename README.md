# Calculator expression evaluator

A Dafny model of `CalculatorLogic`, the evaluator behind the scientific calculator app. The app
sends the text on its display and the angle mode (radians or degrees) to one entry point,
`evaluateExpression`. That entry point runs four stages:

1. `preprocess` rewrites the display glyphs (×, ÷, π) and the `inv(` prefix of the inverse
   trigonometric keys, and deletes the `DEL` and `AC` markers.
2. `tokenize` scans the text with one regular expression. The matches are numbers, words and
   single-character symbols; every other character is skipped.
3. `shuntingYard` converts the tokens to postfix order with an operator stack and a precedence
   table.
4. `evaluateRpn` runs the postfix sequence against a value stack.

`formatResult` turns the value into the text shown. Any failure on the way is shown as `Error`.

Modules, one per file, in pipeline order:

- `Failures` holds the error kinds and the `Result`/`Option` wrappers. Each thrown exception of
  the source is a value of `Error`.
- `Tokens` holds the token datatype, the character classes, `isOperator`, `precedence` and the
  set of function names.
- `Preprocessing` holds `ReplaceAll`, which is Kotlin's `String.replace`, and `Preprocess`.
- `Lexer` holds `Lex`, the regex scan as a function, and `Tokenize`, the scanning loop as a
  method proved equal to it.
- `ShuntingYard` holds the conversion as step functions, `ToPostfix`, and the loop method
  `Convert` proved equal to it.
- `Evaluation` holds the value stack machine `EvaluateRpn`, the method `Evaluate` proved equal
  to it, and the factorial loop.
- `Formatting` holds `FormatResult`.
- `Calculator` holds `Calculate`, the whole entry point as a function, the method
  `EvaluateExpression` proved equal to it, and end-to-end properties.

Doubles are modelled by `Value`. A finite double is `Finite(x)`, where `x` is an exact real.
NaN and the two infinities are the single value `NonFinite`.

The math library is `MathLib`, a parameter: `pow`, the trigonometric functions and their
inverses, `log10`, `ln`, `sqrt`, `toRadians` and `toDegrees`. Real division by zero gives
`NonFinite`. The eight-decimal format `String.format("%.8f", x)` is the parameter `fixed8`.

The app puts each result back on the display, so it can be evaluated again (MainActivity.kt,
lines 98-99). The code does not always read a result back to the same text:

- A negative result such as `-3` is read back as a binary minus with a missing left operand,
  so it gives `Error` (`Calculator.NegativeIsError`). The regex has no sign in its number
  alternative.
- A natural number up to Long.MAX_VALUE is read back to itself
  (`Calculator.NaturalIsFixedPoint`).
- Fractional results are not covered. Their text comes from the `fixed8` parameter.

## Model

| member | source | states |
|---|---|---|
| Tokens.Precedence | basicsCodelab/app/src/main/java/com/example/basicscodelab/CalculatorLogic.kt:48-59 | An operator token has a positive precedence and any other token has precedence 0, so `isOperator` holds exactly when the precedence is positive. No precedence exceeds 5. |
| Preprocessing.ReplaceRemovesChar | basicsCodelab/app/src/main/java/com/example/basicscodelab/CalculatorLogic.kt:29-31 | Replacing one character by a text that does not contain it leaves no copy of that character. |
| Preprocessing.ReplaceKeepsAbsent | basicsCodelab/app/src/main/java/com/example/basicscodelab/CalculatorLogic.kt:28-36 | A replacement never brings in a character that neither the input nor the replacement text contains. |
| Preprocessing.ReplaceIdentity | basicsCodelab/app/src/main/java/com/example/basicscodelab/CalculatorLogic.kt:28-36 | A replacement whose pattern has a character absent from the input changes nothing. |
| Preprocessing.PreprocessRemovesGlyphs | basicsCodelab/app/src/main/java/com/example/basicscodelab/CalculatorLogic.kt:27-37 | After preprocessing, no ×, ÷ or π is left. |
| Preprocessing.MarkersKeepAbsent | basicsCodelab/app/src/main/java/com/example/basicscodelab/CalculatorLogic.kt:32-36 | The marker rewrites bring in only characters of "asincotan(". |
| Preprocessing.GlyphsIdentity | basicsCodelab/app/src/main/java/com/example/basicscodelab/CalculatorLogic.kt:29-31 | Text without the three glyphs passes the glyph rewrites unchanged. |
| Preprocessing.PreprocessIdentity | basicsCodelab/app/src/main/java/com/example/basicscodelab/CalculatorLogic.kt:27-37 | Text without the glyphs and without the letters 'i', 'D' and 'A' is left as it is. |
| Preprocessing.ReplaceSkipFirst | basicsCodelab/app/src/main/java/com/example/basicscodelab/CalculatorLogic.kt:28-36 | A replacement leaves the text unchanged when the pattern does not start at position 0 and one of its characters is absent from the rest. |
| Preprocessing.InverseSin | basicsCodelab/app/src/main/java/com/example/basicscodelab/CalculatorLogic.kt:32 | "inv(sin(" followed by plain arithmetic text becomes "asin(" followed by the same text. |
| Preprocessing.InverseCos | basicsCodelab/app/src/main/java/com/example/basicscodelab/CalculatorLogic.kt:33 | "inv(cos(" followed by plain arithmetic text becomes "acos(" followed by the same text. |
| Preprocessing.InverseTan | basicsCodelab/app/src/main/java/com/example/basicscodelab/CalculatorLogic.kt:34 | "inv(tan(" followed by plain arithmetic text becomes "atan(" followed by the same text. |
| Preprocessing.InverseRewrite | basicsCodelab/app/src/main/java/com/example/basicscodelab/CalculatorLogic.kt:27-37 | The whole of preprocessing turns "inv(" + f + "(" + a into "a" + f + "(" + a, for each trigonometric f and plain text a. The "inv(" prefix is absorbed together with its parenthesis. |
| Preprocessing.DeleteOnce | basicsCodelab/app/src/main/java/com/example/basicscodelab/CalculatorLogic.kt:35 | Replacement is a single left-to-right pass: deleting "DEL" from "DDELEL" leaves "DEL". |
| Preprocessing.MarkersWithoutInverse | basicsCodelab/app/src/main/java/com/example/basicscodelab/CalculatorLogic.kt:32-36 | Without an 'i' in the text, only the DEL and AC deletions have any effect. |
| Preprocessing.DeletionJoinsPattern | basicsCodelab/app/src/main/java/com/example/basicscodelab/CalculatorLogic.kt:27-37 | Preprocessing "DDELEL" gives "DEL". The marker text can survive preprocessing. |
| Lexer.NumberMatch | basicsCodelab/app/src/main/java/com/example/basicscodelab/CalculatorLogic.kt:41 | The length of the number match at the start of a text. It is 0 exactly when the text starts with neither a digit nor a point followed by a digit. A non-zero match is a whole `\d*\.?\d+` literal, and it is never followed by a digit. That it is also the longest literal prefix is `NumberMatchLongest`. |
| Lexer.NumberMatchLongest | basicsCodelab/app/src/main/java/com/example/basicscodelab/CalculatorLogic.kt:41 | No prefix longer than the match is a `\d*\.?\d+` literal, so the match is the longest one, as the greedy regex takes it. |
| Lexer.DecimalMatch | basicsCodelab/app/src/main/java/com/example/basicscodelab/CalculatorLogic.kt:41 | For digits a and non-empty digits b, the match at the start of "a.b" followed by a non-digit is all of "a.b". |
| Lexer.LexDecimalThen | basicsCodelab/app/src/main/java/com/example/basicscodelab/CalculatorLogic.kt:39-46 | "a.b" followed by text that does not start with a digit tokenizes to the one number "a.b", then the tokens of the rest. So a typed decimal is a single token. |
| Lexer.MatchAt | basicsCodelab/app/src/main/java/com/example/basicscodelab/CalculatorLogic.kt:41 | A regex match at the start of a text has a positive length within the text. |
| Lexer.ScanRun | basicsCodelab/app/src/main/java/com/example/basicscodelab/CalculatorLogic.kt:41 | The loop that scans a run of matching characters stops after exactly the longest such run. |
| Lexer.ScanNumber | basicsCodelab/app/src/main/java/com/example/basicscodelab/CalculatorLogic.kt:41 | The number-scanning loop ends where the number alternative's match ends. |
| Lexer.LexAt | basicsCodelab/app/src/main/java/com/example/basicscodelab/CalculatorLogic.kt:42-44 | The token list of a text is the token of its first step followed by the token list of the rest. |
| Lexer.ScanToken | basicsCodelab/app/src/main/java/com/example/basicscodelab/CalculatorLogic.kt:41-43 | One scan step always advances. It yields the next match, or nothing for a skipped character. |
| Lexer.Tokenize | basicsCodelab/app/src/main/java/com/example/basicscodelab/CalculatorLogic.kt:39-46 | The scanning loop returns exactly `Lex` of the text, the regex matches in order. |
| Lexer.LexWellFormed | basicsCodelab/app/src/main/java/com/example/basicscodelab/CalculatorLogic.kt:41 | Every token is a number literal, a non-empty run of letters, or one of the symbol characters. |
| Lexer.LexKeepsText | basicsCodelab/app/src/main/java/com/example/basicscodelab/CalculatorLogic.kt:39-46 | Joining the tokens gives the input minus exactly the characters the regex skips. |
| Lexer.LexCountsParens | basicsCodelab/app/src/main/java/com/example/basicscodelab/CalculatorLogic.kt:39-46 | The number of "(" tokens, and of ")" tokens, equals the number of those characters in the text. |
| Lexer.LexSymbolThen | basicsCodelab/app/src/main/java/com/example/basicscodelab/CalculatorLogic.kt:41 | A symbol character at the front is a token of its own. |
| Lexer.LexDigitsThen | basicsCodelab/app/src/main/java/com/example/basicscodelab/CalculatorLogic.kt:41 | A run of digits not followed by a digit or a point is one number token. |
| Lexer.LexLettersThen | basicsCodelab/app/src/main/java/com/example/basicscodelab/CalculatorLogic.kt:41 | A run of letters not followed by a letter is one word token. |
| Lexer.DigitsAreOneNumber | basicsCodelab/app/src/main/java/com/example/basicscodelab/CalculatorLogic.kt:41 | A non-empty string of digits is a single number token. |
| Lexer.LexNumberOperator | basicsCodelab/app/src/main/java/com/example/basicscodelab/CalculatorLogic.kt:41 | Digits followed by an operator character give a number token and an operator token. |
| Lexer.LexThreeNumbers | basicsCodelab/app/src/main/java/com/example/basicscodelab/CalculatorLogic.kt:39-46 | "a o1 b o2 c", with digit strings a, b, c and operator characters o1, o2, tokenizes to those five tokens. |
| ShuntingYard.BalancedCounts | basicsCodelab/app/src/main/java/com/example/basicscodelab/CalculatorLogic.kt:69-93 | In a balanced token list, the closing parentheses number the openings plus the starting depth. |
| ShuntingYard.PopOperatorsFacts | basicsCodelab/app/src/main/java/com/example/basicscodelab/CalculatorLogic.kt:81-84 | Popping operators keeps the stack well formed, loses and invents no token, keeps the order of numbers and leaves the count of open parentheses alone. |
| ShuntingYard.PopToOpenFacts | basicsCodelab/app/src/main/java/com/example/basicscodelab/CalculatorLogic.kt:71-75 | Unwinding to "(" fails with an unbalanced-parentheses error exactly when no "(" is on the stack. Otherwise it removes one "(" and loses no token. |
| ShuntingYard.CloseParenFacts | basicsCodelab/app/src/main/java/com/example/basicscodelab/CalculatorLogic.kt:70-79 | A ")" fails exactly when no "(" is open. Otherwise it closes one group, keeps the stack well formed, and loses and invents no pending token. Where the tokens go is stated by `CloseParenEmits`. |
| ShuntingYard.Reverse | basicsCodelab/app/src/main/java/com/example/basicscodelab/CalculatorLogic.kt:71-72 | The stack entries in popping order: same length, with entry k being the k-th from the top. |
| ShuntingYard.PopToOpenAbove | basicsCodelab/app/src/main/java/com/example/basicscodelab/CalculatorLogic.kt:71-75 | For any stack with a "(" and no further "(" above it, the entries above go to the output top first, the "(" is discarded, and the stack below stays as it was. |
| ShuntingYard.CloseParenEmits | basicsCodelab/app/src/main/java/com/example/basicscodelab/CalculatorLogic.kt:70-79 | For any such stack, a ")" outputs the entries above the nearest "(", top first. If a function name is under that "(", it comes right after them and leaves the stack. Otherwise the stack below is unchanged. |
| ShuntingYard.NumberStepFacts | basicsCodelab/app/src/main/java/com/example/basicscodelab/CalculatorLogic.kt:67 | A number, or one of the words "NaN" and "Infinity" that `toDoubleOrNull` reads as numbers, goes straight to the output. |
| ShuntingYard.PushStepFacts | basicsCodelab/app/src/main/java/com/example/basicscodelab/CalculatorLogic.kt:68-69 | A function name or "(" is pushed on the operator stack. |
| ShuntingYard.CloseStepFacts | basicsCodelab/app/src/main/java/com/example/basicscodelab/CalculatorLogic.kt:70-79 | The step for ")" is `CloseParen`. It fails exactly when no "(" is open, and otherwise keeps the invariants. |
| ShuntingYard.OperatorStepFacts | basicsCodelab/app/src/main/java/com/example/basicscodelab/CalculatorLogic.kt:80-86 | An operator step never fails and keeps the invariants. |
| ShuntingYard.StepFacts | basicsCodelab/app/src/main/java/com/example/basicscodelab/CalculatorLogic.kt:65-88 | A step fails exactly on a ")" with no "(" open, and the error is unbalanced parentheses. A successful step keeps every invariant. A number or a numeric word is output; any other word that names no function is dropped. |
| ShuntingYard.FlushFacts | basicsCodelab/app/src/main/java/com/example/basicscodelab/CalculatorLogic.kt:90-93 | Emptying the stack at the end fails exactly when a "(" is still open. Otherwise the output holds every token of the state, with the numbers in order. |
| ShuntingYard.RunErrors | basicsCodelab/app/src/main/java/com/example/basicscodelab/CalculatorLogic.kt:61-95 | Running the rest of the tokens fails exactly when they are not balanced from the current depth. |
| ShuntingYard.RunBag | basicsCodelab/app/src/main/java/com/example/basicscodelab/CalculatorLogic.kt:61-95 | A successful run outputs the state's tokens plus every emittable input token, each once. |
| ShuntingYard.RunNumbers | basicsCodelab/app/src/main/java/com/example/basicscodelab/CalculatorLogic.kt:67 | A successful run keeps the numbers in input order. |
| ShuntingYard.RunOutOk | basicsCodelab/app/src/main/java/com/example/basicscodelab/CalculatorLogic.kt:61-95 | A successful run outputs no parentheses and no unknown words. |
| ShuntingYard.ToPostfixFacts | basicsCodelab/app/src/main/java/com/example/basicscodelab/CalculatorLogic.kt:61-95 | Conversion fails exactly when the parentheses do not balance. The output is a permutation of the numbers, operators and known function names of the input, with no parentheses, and the numbers keep their order. |
| ShuntingYard.Convert | basicsCodelab/app/src/main/java/com/example/basicscodelab/CalculatorLogic.kt:61-95 | The loop over the tokens returns `ToPostfix` of them, and with it every property of `ToPostfixFacts`. |
| ShuntingYard.SecondOperatorWeaker | basicsCodelab/app/src/main/java/com/example/basicscodelab/CalculatorLogic.kt:81-85 | When a second operator binds no tighter than the waiting one, the waiting one is output first. |
| ShuntingYard.SecondOperatorStronger | basicsCodelab/app/src/main/java/com/example/basicscodelab/CalculatorLogic.kt:81-93 | When a second operator binds tighter, it is output before the waiting one. |
| ShuntingYard.TwoOperators | basicsCodelab/app/src/main/java/com/example/basicscodelab/CalculatorLogic.kt:61-95 | "a o1 b o2 c" converts to "a b o1 c o2" when o1's precedence is at least o2's, and to "a b c o2 o1" otherwise. Equal precedence groups to the left, `^` included. |
| ShuntingYard.FunctionAfterGroup | basicsCodelab/app/src/main/java/com/example/basicscodelab/CalculatorLogic.kt:68-78 | "f ( a )" converts to "a f". The function is output when its parenthesis closes. |
| Evaluation.LiteralOfDigits | basicsCodelab/app/src/main/java/com/example/basicscodelab/CalculatorLogic.kt:102 | A digit literal reads as its decimal value. |
| Evaluation.LiteralWithPoint | basicsCodelab/app/src/main/java/com/example/basicscodelab/CalculatorLogic.kt:102 | "a.b" reads as a + b / 10^len(b). |
| Evaluation.Fact | basicsCodelab/app/src/main/java/com/example/basicscodelab/CalculatorLogic.kt:108-109 | The reference factorial is at least 1. |
| Evaluation.FactValues | basicsCodelab/app/src/main/java/com/example/basicscodelab/CalculatorLogic.kt:108-109 | 0! and 1! are 1, and 5! is 120. |
| Evaluation.FactStep | basicsCodelab/app/src/main/java/com/example/basicscodelab/CalculatorLogic.kt:109 | For i >= 2, i! is i times (i-1)!. |
| Evaluation.Factorial | basicsCodelab/app/src/main/java/com/example/basicscodelab/CalculatorLogic.kt:108-109 | The product loop over 2..n returns n!. |
| Evaluation.FactorialOf | basicsCodelab/app/src/main/java/com/example/basicscodelab/CalculatorLogic.kt:104-110 | A rejected factorial operand gives the factorial-operand error. |
| Evaluation.FactorialOfFinite | basicsCodelab/app/src/main/java/com/example/basicscodelab/CalculatorLogic.kt:107-110 | The factorial of a finite value succeeds exactly for non-negative integers, with the value n!. |
| Evaluation.FactorialOfNat | basicsCodelab/app/src/main/java/com/example/basicscodelab/CalculatorLogic.kt:107-110 | The factorial of a natural number n is n!. |
| Evaluation.BinaryOperands | basicsCodelab/app/src/main/java/com/example/basicscodelab/CalculatorLogic.kt:115-127 | A binary operator replaces the top two values with its result, left operand below right. |
| Evaluation.BinaryArithmetic | basicsCodelab/app/src/main/java/com/example/basicscodelab/CalculatorLogic.kt:119-126 | On finite operands, + - * are exact. Division is finite exactly when the divisor is non-zero, and then it is exact. `^` is the library's pow. |
| Evaluation.PercentOfTop | basicsCodelab/app/src/main/java/com/example/basicscodelab/CalculatorLogic.kt:111-113 | "%" divides the top value by 100. |
| Evaluation.FactorialOfTop | basicsCodelab/app/src/main/java/com/example/basicscodelab/CalculatorLogic.kt:104-110 | "!" fails exactly when the top value is not a valid operand. Otherwise it replaces the top value with its factorial. |
| Evaluation.FunctionOfTop | basicsCodelab/app/src/main/java/com/example/basicscodelab/CalculatorLogic.kt:130-145 | A function replaces the top value. In degree mode, sin converts its argument to radians first and asin converts its result to degrees; sqrt ignores the mode. |
| Evaluation.NumberThen | basicsCodelab/app/src/main/java/com/example/basicscodelab/CalculatorLogic.kt:102 | A number token pushes its value. |
| Evaluation.PairThen | basicsCodelab/app/src/main/java/com/example/basicscodelab/CalculatorLogic.kt:102-127 | "a b op" leaves `a op b` on the stack. |
| Evaluation.OperandThen | basicsCodelab/app/src/main/java/com/example/basicscodelab/CalculatorLogic.kt:102-127 | "c op", on a stack whose top is v, leaves `v op c`. |
| Evaluation.LeftGrouped | basicsCodelab/app/src/main/java/com/example/basicscodelab/CalculatorLogic.kt:97-151 | "a b o1 c o2" evaluates to (a o1 b) o2 c. |
| Evaluation.RightGrouped | basicsCodelab/app/src/main/java/com/example/basicscodelab/CalculatorLogic.kt:97-151 | "a b c o2 o1" evaluates to a o1 (b o2 c). |
| Evaluation.EvalTokenShape | basicsCodelab/app/src/main/java/com/example/basicscodelab/CalculatorLogic.kt:100-148 | A token fails with the missing-operand error exactly when the stack holds fewer values than the token takes. Only "!" can fail otherwise. On success the stack height changes by what the token gives minus what it takes. |
| Evaluation.EvalFromHeight | basicsCodelab/app/src/main/java/com/example/basicscodelab/CalculatorLogic.kt:100-148 | A successful run never underflows the stack and ends at the height the tokens' arities predict. |
| Evaluation.EvalFromErrors | basicsCodelab/app/src/main/java/com/example/basicscodelab/CalculatorLogic.kt:100-148 | A run fails only with a missing-operand or factorial error, and a missing operand means the arities underflow. Without "!", only a missing operand can occur. |
| Evaluation.EvalFromFits | basicsCodelab/app/src/main/java/com/example/basicscodelab/CalculatorLogic.kt:100-148 | Without "!", a sequence whose arities never underflow evaluates successfully. |
| Evaluation.EvaluateRpnShape | basicsCodelab/app/src/main/java/com/example/basicscodelab/CalculatorLogic.kt:97-151 | Without "!", evaluation fails exactly when the arities underflow (a missing operand) or the final height is not 1 (an invalid final stack). |
| Evaluation.EvaluateRpnSuccess | basicsCodelab/app/src/main/java/com/example/basicscodelab/CalculatorLogic.kt:97-151 | A success leaves exactly one value. Every failure is one of the three evaluation errors. |
| Evaluation.Evaluate | basicsCodelab/app/src/main/java/com/example/basicscodelab/CalculatorLogic.kt:97-151 | The stack loop returns `EvaluateRpn`. |
| Formatting.Trunc | basicsCodelab/app/src/main/java/com/example/basicscodelab/CalculatorLogic.kt:155 | Rounding toward zero: the result lies within 1 of x, on the side of x toward zero. |
| Formatting.ToLong | basicsCodelab/app/src/main/java/com/example/basicscodelab/CalculatorLogic.kt:156 | `toLong` rounds toward zero and saturates at the 64-bit bounds. |
| Formatting.NatToString | basicsCodelab/app/src/main/java/com/example/basicscodelab/CalculatorLogic.kt:156 | The decimal text of a natural number is non-empty digits with no leading zero. |
| Formatting.NatToStringRoundTrip | basicsCodelab/app/src/main/java/com/example/basicscodelab/CalculatorLogic.kt:156 | Reading the decimal text back gives the number. |
| Formatting.IntToStringRoundTrip | basicsCodelab/app/src/main/java/com/example/basicscodelab/CalculatorLogic.kt:156 | The text of an integer starts with "-" exactly when the integer is negative, and its sign and digits read back as the integer. |
| Formatting.TrimEnd | basicsCodelab/app/src/main/java/com/example/basicscodelab/CalculatorLogic.kt:158 | `trimEnd(c)` gives a prefix that does not end in c, and everything cut off is c. |
| Formatting.FormatNonFinite | basicsCodelab/app/src/main/java/com/example/basicscodelab/CalculatorLogic.kt:154 | NaN and the infinities show as "Error". |
| Formatting.FormatInteger | basicsCodelab/app/src/main/java/com/example/basicscodelab/CalculatorLogic.kt:155-156 | An integer within the Long range shows as its decimal text. |
| Formatting.FormatNearInteger | basicsCodelab/app/src/main/java/com/example/basicscodelab/CalculatorLogic.kt:155-156 | A value within 1e-10 of its truncation shows as the Long of it. |
| Formatting.FormatFraction | basicsCodelab/app/src/main/java/com/example/basicscodelab/CalculatorLogic.kt:157-158 | Any other value shows as a prefix of its eight-decimal text, cut only at trailing zeros and the point, and not ending in a point. |
| Formatting.FormatErrorExactly | basicsCodelab/app/src/main/java/com/example/basicscodelab/CalculatorLogic.kt:153-160 | If the eight-decimal text never holds an "E", the shown text is "Error" exactly for non-finite values. |
| Calculator.EvaluateExpression | basicsCodelab/app/src/main/java/com/example/basicscodelab/CalculatorLogic.kt:13-25 | Running the stages one after the other, and stopping at the first failure, gives `Calculate`. |
| Calculator.EmptyInput | basicsCodelab/app/src/main/java/com/example/basicscodelab/CalculatorLogic.kt:14 | Empty input gives the empty text, in both angle modes. |
| Calculator.ErrorExactly | basicsCodelab/app/src/main/java/com/example/basicscodelab/CalculatorLogic.kt:13-25 | Non-empty input shows "Error" exactly when some stage fails or the value is not finite. |
| Calculator.UnbalancedIsError | basicsCodelab/app/src/main/java/com/example/basicscodelab/CalculatorLogic.kt:70-93 | Unbalanced parentheses after preprocessing always give "Error". |
| Calculator.ParenMismatchIsError | basicsCodelab/app/src/main/java/com/example/basicscodelab/CalculatorLogic.kt:70-93 | Different numbers of "(" and ")" after preprocessing always give "Error". |
| Calculator.InverseWithBothParens | basicsCodelab/app/src/main/java/com/example/basicscodelab/CalculatorLogic.kt:32-34 | The inv key followed by sin, cos or tan, with both parentheses closed, gives "Error", because the rewrite absorbs one "(". |
| Calculator.TokensGroup | basicsCodelab/app/src/main/java/com/example/basicscodelab/CalculatorLogic.kt:61-151 | "a o1 b o2 c" converts and evaluates to the grouping the precedence table picks. |
| Calculator.ThreeNumbersUnchanged | basicsCodelab/app/src/main/java/com/example/basicscodelab/CalculatorLogic.kt:27-37 | Digits and operator characters pass preprocessing unchanged. |
| Calculator.ThreeNumbersText | basicsCodelab/app/src/main/java/com/example/basicscodelab/CalculatorLogic.kt:27-46 | "a o1 b o2 c" preprocesses and tokenizes to its five tokens. |
| Calculator.PrecedenceOfText | basicsCodelab/app/src/main/java/com/example/basicscodelab/CalculatorLogic.kt:13-151 | The value of "a o1 b o2 c" is (a o1 b) o2 c when o1's precedence is at least o2's, and a o1 (b o2 c) otherwise. So "2+3*4" is 2+(3*4). |
| Calculator.PowerGroupsLeft | basicsCodelab/app/src/main/java/com/example/basicscodelab/CalculatorLogic.kt:81-84 | "a^b^c" evaluates to (a^b)^c. |
| Calculator.DigitsUnchanged | basicsCodelab/app/src/main/java/com/example/basicscodelab/CalculatorLogic.kt:27-37 | A string of digits passes preprocessing unchanged. |
| Calculator.PostfixOfNumber | basicsCodelab/app/src/main/java/com/example/basicscodelab/CalculatorLogic.kt:67 | A lone number converts to itself. |
| Calculator.PostfixOfMinusNumber | basicsCodelab/app/src/main/java/com/example/basicscodelab/CalculatorLogic.kt:80-93 | "- n" converts to "n -". |
| Calculator.PostfixOfUnknownName | basicsCodelab/app/src/main/java/com/example/basicscodelab/CalculatorLogic.kt:65-88 | A word that is neither a function name nor a numeric word ("NaN", "Infinity") converts to nothing. |
| Calculator.EvaluateNumber | basicsCodelab/app/src/main/java/com/example/basicscodelab/CalculatorLogic.kt:102 | The decimal text of n evaluates to n. |
| Calculator.EvaluateLiteral | basicsCodelab/app/src/main/java/com/example/basicscodelab/CalculatorLogic.kt:102 | A lone number token evaluates to the value of its literal. |
| Calculator.LiteralOutcome | basicsCodelab/app/src/main/java/com/example/basicscodelab/CalculatorLogic.kt:13-25 | Text that tokenizes to one number has that literal's value. |
| Calculator.DecimalUnchanged | basicsCodelab/app/src/main/java/com/example/basicscodelab/CalculatorLogic.kt:27-37 | Digits, a point and digits pass preprocessing unchanged. |
| Calculator.DecimalText | basicsCodelab/app/src/main/java/com/example/basicscodelab/CalculatorLogic.kt:27-46 | A typed "a.b" preprocesses and tokenizes to the one number "a.b". |
| Calculator.DecimalValue | basicsCodelab/app/src/main/java/com/example/basicscodelab/CalculatorLogic.kt:13-151 | A typed decimal "a.b" evaluates to a + b / 10^len(b). |
| Calculator.NaturalIsFixedPoint | basicsCodelab/app/src/main/java/com/example/basicscodelab/CalculatorLogic.kt:13-25 | The shown text of any natural number up to Long.MAX_VALUE re-evaluates to itself. |
| Calculator.NegativeText | basicsCodelab/app/src/main/java/com/example/basicscodelab/CalculatorLogic.kt:39-46 | The shown text of a negative integer tokenizes as "-" followed by a number. |
| Calculator.MinusAfterNumber | basicsCodelab/app/src/main/java/com/example/basicscodelab/CalculatorLogic.kt:115-116 | "n -" lacks an operand. |
| Calculator.NegativeIsError | basicsCodelab/app/src/main/java/com/example/basicscodelab/CalculatorLogic.kt:13-25 | The shown text of a negative integer result gives "Error" when fed back. |
| Calculator.UnknownNameIsError | basicsCodelab/app/src/main/java/com/example/basicscodelab/CalculatorLogic.kt:149-150 | A lone plain word that is not a function name leaves no value, so it gives "Error". A plain word is a non-empty run of letters with no 'i', 'D' or 'A', other than "NaN". |
| Calculator.PlainWordNotNumeric | basicsCodelab/app/src/main/java/com/example/basicscodelab/CalculatorLogic.kt:102 | A plain word is not one of the words `toDoubleOrNull` reads as a number. |
| Calculator.ErrorTextIsError | basicsCodelab/app/src/main/java/com/example/basicscodelab/CalculatorLogic.kt:13-25 | The text "Error" fed back gives "Error". |
| Calculator.NumberThenWordUnchanged | basicsCodelab/app/src/main/java/com/example/basicscodelab/CalculatorLogic.kt:27-37 | Digits followed by a plain word pass preprocessing unchanged. |
| Calculator.NumberThenWordText | basicsCodelab/app/src/main/java/com/example/basicscodelab/CalculatorLogic.kt:39-46 | Digits followed by a plain word tokenize to a number and a word. |
| Calculator.PostfixDropsName | basicsCodelab/app/src/main/java/com/example/basicscodelab/CalculatorLogic.kt:65-88 | A number followed by a word that is neither a function name nor a numeric word converts to the number alone. |
| Calculator.UnknownNameAfterNumberIsIgnored | basicsCodelab/app/src/main/java/com/example/basicscodelab/CalculatorLogic.kt:13-25 | For a natural n up to Long.MAX_VALUE, the text of n followed by a plain word shows n. A plain word is a non-empty run of letters with no 'i', 'D' or 'A', so preprocessing leaves it alone, other than "NaN", and it is not a function name. Words with those letters can be rewritten: "5sDELin" becomes "5sin". |
| Calculator.NaNText | basicsCodelab/app/src/main/java/com/example/basicscodelab/CalculatorLogic.kt:27-46 | "NaN" passes preprocessing unchanged and tokenizes to one word. |
| Calculator.NaNWordIsNumber | basicsCodelab/app/src/main/java/com/example/basicscodelab/CalculatorLogic.kt:13-151 | "NaN" is read as a number: it converts to itself and evaluates to a non-finite value, so it shows "Error". |
| Calculator.NumberThenNaNText | basicsCodelab/app/src/main/java/com/example/basicscodelab/CalculatorLogic.kt:27-46 | Digits followed by "NaN" tokenize to a number and the word. |
| Calculator.NumbersThenNaN | basicsCodelab/app/src/main/java/com/example/basicscodelab/CalculatorLogic.kt:61-151 | A number followed by "NaN" converts to both, and evaluating them leaves two values, which is the final-stack error. |
| Calculator.NaNAfterNumberIsError | basicsCodelab/app/src/main/java/com/example/basicscodelab/CalculatorLogic.kt:13-25 | The text of n followed by "NaN" gives "Error". The word is evaluated, not dropped as an unknown word is. |
| Calculator.PiKeyAfterNumberIsIgnored | basicsCodelab/app/src/main/java/com/example/basicscodelab/CalculatorLogic.kt:31 | The π key enters "PI", not the glyph the rewrite looks for. So n followed by the π key shows n. |
| Calculator.PiKeyAloneIsError | basicsCodelab/app/src/main/java/com/example/basicscodelab/CalculatorLogic.kt:31 | The π key alone gives "Error". |

## Definitions

The stages are functions of their inputs. Their properties are the lemmas listed above.

| definition | source | properties in |
|---|---|---|
| Preprocessing.ReplaceAll | basicsCodelab/app/src/main/java/com/example/basicscodelab/CalculatorLogic.kt:28-36 | `ReplaceRemovesChar`, `ReplaceKeepsAbsent`, `ReplaceIdentity` |
| Preprocessing.Preprocess | basicsCodelab/app/src/main/java/com/example/basicscodelab/CalculatorLogic.kt:27-37 | `PreprocessRemovesGlyphs`, `MarkersKeepAbsent`, `PreprocessIdentity` |
| Lexer.Lex | basicsCodelab/app/src/main/java/com/example/basicscodelab/CalculatorLogic.kt:39-46 | `Tokenize`, `LexDigitsThen`, `LexLettersThen`, `LexDecimalThen` |
| ShuntingYard.Step | basicsCodelab/app/src/main/java/com/example/basicscodelab/CalculatorLogic.kt:65-88 | `StepFacts` and the step lemmas beside it |
| ShuntingYard.ToPostfix | basicsCodelab/app/src/main/java/com/example/basicscodelab/CalculatorLogic.kt:61-95 | `ToPostfixFacts`, `Convert` |
| Evaluation.EvalToken | basicsCodelab/app/src/main/java/com/example/basicscodelab/CalculatorLogic.kt:99-147 | `EvalTokenShape`, `BinaryOperands` |
| Evaluation.EvaluateRpn | basicsCodelab/app/src/main/java/com/example/basicscodelab/CalculatorLogic.kt:97-151 | `Evaluate`, `EvalFromErrors`, `EvalFromFits` |
| Formatting.FormatResult | basicsCodelab/app/src/main/java/com/example/basicscodelab/CalculatorLogic.kt:153-160 | `FormatNonFinite`, `FormatInteger`, `FormatNearInteger`, `FormatFraction`, `FormatErrorExactly` |
| Calculator.Calculate | basicsCodelab/app/src/main/java/com/example/basicscodelab/CalculatorLogic.kt:13-25 | `EvaluateExpression`, `ErrorExactly` and the end-to-end lemmas |

## Left out

- Doubles are not modelled bit for bit. Finite values are exact reals, so rounding, overflow to infinity, underflow and signed zero are not captured.
- Number literals are not modelled as doubles: a literal's value is its exact decimal value, not the nearest double.
- Evaluation.BinaryArithmetic: NaN and the infinities are one value, `NonFinite`, and any arithmetic with it gives `NonFinite`. The model does not follow IEEE cases that turn a non-finite operand into a finite result, such as 1/Infinity, atan(Infinity) or pow(NaN, 0).
- The math functions of kotlin.math and java.lang.Math are the `MathLib` parameter, because they are floating-point library code outside this file.
- `String.format("%.8f", x)` is the parameter `fixed8`. The locale it uses, and with it the decimal separator, is not modelled.
- Evaluation.EvalToken: the words "NaN" and "Infinity", which `toDoubleOrNull` accepts, push `NonFinite`. NaN and positive infinity are not told apart; see the Evaluation.BinaryArithmetic line.
- Evaluation.FactorialOf: a factorial of +Infinity is an error in the model. The source loops up to Int.MAX_VALUE and gives Infinity, which a later operation can turn back into a finite value: `1/(1/0)!` shows "0" in the source and "Error" in the model. See the Evaluation.BinaryArithmetic line for that kind of case.
- Evaluation.Factorial: the product is exact. Overflow to Infinity above 170! and the saturation of `toInt()` for huge operands are not modelled.
- The `1e-10` threshold of `formatResult` is the exact rational 1/10^10, not the nearest double.
- `Math.PI.toString()` is the constant `PiDecimal`.
- The exception messages are not modelled. Each thrown exception is an `Error` value, and every one shows as "Error".
- The unreachable "unknown operator" and "unknown function" branches are not modelled, because every token that reaches them is one the preceding branches handle.
- The app screens, button layout and display state are not modelled, apart from the "PI" and "inv(" texts that the π and inv keys enter.
