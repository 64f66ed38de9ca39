# Infix to postfix conversion, modelled and proved in Dafny

This project models `stringToPostfix` from `src/lib/stringToPostfix.ts`, together
with the tables and classifiers it depends on. The converter turns an infix
arithmetic expression into postfix (reverse Polish) notation using Dijkstra's
shunting-yard algorithm:

- numeric literals are maximal runs of ASCII digits and decimal points;
- the five binary operators are `- + / * ^`, with precedence 2, 2, 3, 3, 4;
  only `^` is right-associative;
- parentheses group and are never emitted;
- every token of the output is followed by one space, and the final `trim`
  removes the trailing space.

The converter refuses the empty string, any character that is not blank, a
digit, a point, an operator or a parenthesis, and unbalanced parentheses.

Modules:

- `Symbols` (`symbols.dfy`): the `operators` and `specials` enums, the
  `precedence` and `associativity` tables, the classifiers `isOperator`,
  `isSpecial` and `isToken`, the `\d|\.` pattern and the ECMAScript `\s`
  white-space class.
- `ShuntingYard` (`shunting.dfy`): the algorithm as functions.
  - `Shunt` is the scan from one position of the white-space-free text.
  - `PopOperators`, `UnwindToParen` and `Drain` are its three stack loops.
  - `Tokens` and `Convert` are the whole conversion.
  - The lemmas give the contracts of the three stack loops, and the
    effect of one scan step on each kind of character.
- `Converter` (`converter.dfy`): `stringToPostfix` as the program runs it.
  - One `while` loop over the input, with a mutable stack and a postfix
    string that grows by appending.
  - Each of its inner loops is a method.
  - It is proved to compute `Convert`.
- `OutputText` (`output_text.dfy`): the accumulated text, each token followed
  by a space, becomes the tokens separated by single spaces once trimmed.
- `Failures` (`failures.dfy`): which inputs fail and with which error.
  - The reference, `Verdict`, is a scan that only counts open parentheses.
  - The algorithm fails exactly when `Verdict` does, with the same error.
- `Preservation` (`preservation.dfy`): what a successful conversion emits.
  - Every literal verbatim and in input order, against the reference
    `Runs`.
  - Every operator exactly once, against the reference `SymbolCount`.
  - No parenthesis.
- `Postfix` (`postfix.dfy`): correctness for every expression.
  - An expression is a literal, a binary operation or a parenthesized
    expression.
  - `Infix` writes it out, and `Rpn` gives its postfix form: both
    operands, then the operator.
  - `Unambiguous` is the textbook rule for where parentheses may be left
    out. It is stated with the precedence and associativity tables alone.
  - Every unambiguous expression converts to its postfix form.
- `Worked` (`worked.dfy`): the result of the conversion on particular
  inputs, derived one scan step at a time. The inputs cover associativity,
  precedence, grouping, white space, repeated operators and each error.

All source paths below are in `src/lib/stringToPostfix.ts`.

## Model

| member | source | states |
|---|---|---|
| Symbols.Symbol | src/lib/stringToPostfix.ts:1-7 | Defines the `operators` enum: `-`, `+`, `/`, `*` and `^` stand for subtraction, addition, division, multiplication and power. |
| Symbols.Precedence | src/lib/stringToPostfix.ts:21-27 | Defines the `precedence` table: `^` ranks 4, `*` and `/` rank 3, `+` and `-` rank 2. |
| Symbols.Associativity | src/lib/stringToPostfix.ts:29-35 | Defines the `associativity` table: `^` is right-associative, the other four operators are left-associative. |
| Symbols.IsOperator | src/lib/stringToPostfix.ts:37-39 | Defines `isOperator`: the character is one of the five operator symbols. |
| Symbols.IsSpecial | src/lib/stringToPostfix.ts:41-43 | Defines `isSpecial`: the character is `(` or `)`. |
| Symbols.IsToken | src/lib/stringToPostfix.ts:45-47 | Defines `isToken`: an operator or a parenthesis. |
| Symbols.IsDigitOrPoint | src/lib/stringToPostfix.ts:62 | Defines the `digitOrPoint` pattern: one ASCII digit or one decimal point. |
| Symbols.IsValid | src/lib/stringToPostfix.ts:65-101 | Defines the characters the scan accepts: a digit, a point, an operator or a parenthesis. Any other character reaches the invalid-character branch. |
| Symbols.IsWhitespace | src/lib/stringToPostfix.ts:54 | Defines the ECMAScript `\s` class, which the `replace` removes and `trim` strips: the tab to carriage-return controls, the space, the no-break spaces, the Unicode space separators, the line and paragraph separators and the byte-order mark. |
| Symbols.OperatorOf | src/lib/stringToPostfix.ts:37-39 | A character is recognised as an operator exactly when it is the symbol of one of the five operators, and then as that operator. |
| Symbols.SymbolRoundTrip | src/lib/stringToPostfix.ts:1-12 | Each operator symbol is read back as its own operator. It is a valid character that is neither a digit, a point, a parenthesis nor white space. |
| ShuntingYard.Strip | src/lib/stringToPostfix.ts:54 | Removing white space never lengthens the input. |
| ShuntingYard.StripKeepsNonBlank | src/lib/stringToPostfix.ts:54 | Removing white space keeps exactly the characters of the input that are not white space. |
| ShuntingYard.StripConcat | src/lib/stringToPostfix.ts:54 | Removing white space from two joined texts gives the two stripped texts joined, so the kept characters stay in their order. |
| ShuntingYard.TrimStart | src/lib/stringToPostfix.ts:115 | The result is a suffix of the text that does not begin with white space, and every character removed before it is white space. |
| ShuntingYard.TrimEnd | src/lib/stringToPostfix.ts:115 | The result is a prefix of the text that does not end with white space, and every character removed after it is white space. |
| ShuntingYard.Trim | src/lib/stringToPostfix.ts:115 | `trim` leaves a text that neither begins nor ends with white space, and turns text made only of white space into the empty string. |
| ShuntingYard.TrimIsSlice | src/lib/stringToPostfix.ts:115 | `trim` keeps one contiguous slice of the text, and everything it cuts off before and after that slice is white space. |
| ShuntingYard.Spaced | src/lib/stringToPostfix.ts:70 | Defines the text the loop accumulates: each emitted token followed by one space. |
| ShuntingYard.Join | src/lib/stringToPostfix.ts:115 | Defines the returned text: the emitted tokens separated by single spaces. |
| ShuntingYard.PopOperators | src/lib/stringToPostfix.ts:72-83 | Defines the popping loop before a push: while the top of the stack is an operator that the incoming one pops, it moves to the output. |
| ShuntingYard.UnwindToParen | src/lib/stringToPostfix.ts:88-98 | Defines the handling of `)`: operators move to the output until `(` is on top, which is discarded. It yields nothing when the stack runs out first. |
| ShuntingYard.Drain | src/lib/stringToPostfix.ts:106-113 | Defines the final loop: operators move to the output top first until the stack is empty. A `(` met on the way is the mismatched-parentheses error. |
| ShuntingYard.Shunt | src/lib/stringToPostfix.ts:60-113 | Defines the scan from a position with a given stack and output. A digit or point emits its maximal run, an operator pops and is pushed, `(` is pushed, `)` unwinds, any other character is the invalid-character error, and the end drains. |
| ShuntingYard.Tokens | src/lib/stringToPostfix.ts:49-113 | Defines the emitted tokens: `""` is the empty-input error, any other input is scanned after its white space is removed. |
| ShuntingYard.Convert | src/lib/stringToPostfix.ts:49-116 | Defines the conversion: the emitted tokens separated by single spaces, or the first error. |
| ShuntingYard.RunEnd | src/lib/stringToPostfix.ts:65-69 | A literal starting at i extends over digits and points only, and stops at the end of the text or at the first character that is neither. |
| ShuntingYard.ShouldPop | src/lib/stringToPostfix.ts:74-78 | An incoming operator pops the top operator exactly when the top binds tighter, or equally tight with a left-associative incoming operator. |
| ShuntingYard.TopFirst | src/lib/stringToPostfix.ts:79 | Popping a run of operators emits one operator token per stack item, the top item first and the bottom item last. |
| ShuntingYard.PopsMaximalRun | src/lib/stringToPostfix.ts:72-83 | Before a push, the part of the stack taken off is a top run of operators that the incoming one pops. The run is maximal: it stops at the bottom, at an opening parenthesis or at an operator that is not popped. |
| ShuntingYard.PopEmitsTopFirst | src/lib/stringToPostfix.ts:72-83 | Before a push, the part of the stack left behind is a prefix. The part taken off is all operators and is appended to the output top first. |
| ShuntingYard.UnwindFindsParen | src/lib/stringToPostfix.ts:88-98 | A closing parenthesis finds a match exactly when an opening one is on the stack. The topmost one is removed, and the operators above it are emitted top first. |
| ShuntingYard.DrainEmptiesStack | src/lib/stringToPostfix.ts:106-113 | The final drain succeeds exactly when no opening parenthesis is left, and then emits every stacked operator top first. Otherwise it fails with mismatched parentheses. |
| Converter.ScanLiteral | src/lib/stringToPostfix.ts:65-69 | The inner literal loop returns exactly the maximal run of digits and points starting at i, and the position of its last character. |
| Converter.PopForOperator | src/lib/stringToPostfix.ts:72-83 | The popping loop leaves the stack and output that `PopOperators` specifies. It keeps the text equal to the emitted tokens, each followed by a space. |
| Converter.PopToParen | src/lib/stringToPostfix.ts:88-98 | The unwinding loop fails exactly when `UnwindToParen` does, and otherwise leaves the stack and output it specifies. |
| Converter.DrainStack | src/lib/stringToPostfix.ts:106-113 | The final loop fails with mismatched parentheses exactly when `Drain` fails, and otherwise yields the text of the drained output. |
| Converter.StringToPostfix | src/lib/stringToPostfix.ts:49-116 | The imperative converter returns exactly `Convert(infix)`, error cases included. |
| OutputText.SpacedIsJoinThenSpace | src/lib/stringToPostfix.ts:70 | Appending each token followed by a space builds the space-separated tokens with one trailing space. |
| OutputText.JoinedText | src/lib/stringToPostfix.ts:115 | The joined output consists of spaces, digits, points and operator symbols, and a non-empty output neither begins nor ends with a space. |
| OutputText.TrimSpacedIsJoin | src/lib/stringToPostfix.ts:115 | The final `trim` of the accumulated text is the tokens separated by single spaces. |
| Failures.PopKeepsOpenCount | src/lib/stringToPostfix.ts:72-84 | Popping before a push, and the push itself, leave the number of open parentheses on the stack unchanged. |
| Failures.UnwoundOpenCount | src/lib/stringToPostfix.ts:88-98 | A matched closing parenthesis removes exactly one opening parenthesis from the stack. |
| Failures.ShuntFailsAsVerdict | src/lib/stringToPostfix.ts:60-113 | From any state, the scan fails exactly when the depth-counting reference does, with the same error. |
| Failures.ConvertFailsAsVerdict | src/lib/stringToPostfix.ts:49-116 | The conversion refuses `""` with the empty-input error. Any other input fails exactly when the reference fails on the input without white space, with the same error. |
| Failures.VerdictOnValidText | src/lib/stringToPostfix.ts:85-113 | On text made only of valid characters, the reference succeeds exactly when the parentheses are balanced. Otherwise it reports mismatched parentheses. |
| Failures.FirstInvalidReported | src/lib/stringToPostfix.ts:100-101 | The first invalid character is reported by name, provided no unmatched closing parenthesis comes before it. |
| Failures.ReportedIsFirstInvalid | src/lib/stringToPostfix.ts:100-101 | A reported character is invalid, occurs in the text, and every character before it is valid. |
| Failures.EmptyOnlyWhenEmpty | src/lib/stringToPostfix.ts:50-52 | The empty-input error is raised exactly for `""`. Input made only of white space converts to the empty string. |
| Failures.InvalidCharacterFails | src/lib/stringToPostfix.ts:100-101 | Input containing a non-blank invalid character always fails. It names that character when it is the first such character and no unmatched closing parenthesis precedes it. |
| Failures.ReportedCharacterIsInInput | src/lib/stringToPostfix.ts:100-101 | A character named by the invalid-character error occurs in the input and is neither white space nor valid. |
| Failures.ValidInputConvertsIffBalanced | src/lib/stringToPostfix.ts:85-113 | Non-empty input of valid characters converts exactly when its parentheses are balanced. Otherwise it fails with mismatched parentheses. |
| Preservation.Runs | src/lib/stringToPostfix.ts:65-69 | The reference split of a text into runs yields non-empty runs of digits and points only. A run starts at a leading digit or point. |
| Preservation.StripKeepsSymbols | src/lib/stringToPostfix.ts:54 | Removing white space removes no operator symbol. |
| Preservation.ShuntKeepsLiterals | src/lib/stringToPostfix.ts:60-104 | From any state, the literals finally emitted are those already emitted, followed by the maximal runs of the rest of the text. |
| Preservation.ShuntKeepsOperators | src/lib/stringToPostfix.ts:60-113 | From any state, each operator is finally emitted as often as it was already emitted, is pending on the stack, and occurs in the rest of the text, in total. |
| Preservation.PopKeepsOperators | src/lib/stringToPostfix.ts:72-83 | Popping before a push moves operators from the stack to the output without losing or duplicating any. |
| Preservation.UnwindKeepsOperators | src/lib/stringToPostfix.ts:88-98 | Unwinding to an opening parenthesis moves operators from the stack to the output without losing or duplicating any. |
| Preservation.ShuntEmitsWellFormed | src/lib/stringToPostfix.ts:60-113 | The scan emits only operators and non-empty literals made of digits and points. |
| Preservation.LiteralsPreserved | src/lib/stringToPostfix.ts:49-116 | On success the output literals are the maximal runs of digits and points of the input without white space, verbatim and in order. So `1.2.3` is one literal and `1 2` becomes `12`. |
| Preservation.OperatorsPreserved | src/lib/stringToPostfix.ts:49-116 | On success each operator occurs in the output exactly as often as its symbol occurs in the input. |
| Preservation.OutputIsSpacedTokens | src/lib/stringToPostfix.ts:112-115 | On success the result is the emitted tokens separated by single spaces. It contains only digits, points, operator symbols and spaces, and never a parenthesis. |
| Postfix.SamePrecedenceSameAssociativity | src/lib/stringToPostfix.ts:21-35 | In the two tables, operators of equal precedence have the same associativity. |
| Postfix.BindsAtLeast | src/lib/stringToPostfix.ts:21-27 | In an unambiguous operation, every operator outside parentheses binds at least as tightly as the operation's own operator. |
| Postfix.LeftOperandPopped | src/lib/stringToPostfix.ts:74-79 | The operator after an unambiguous left operand pops every operator of that operand outside parentheses. |
| Postfix.RightOperandStays | src/lib/stringToPostfix.ts:74-84 | No operator outside parentheses in an unambiguous right operand pops the operator before it. |
| Postfix.ResidualCompletes | src/lib/stringToPostfix.ts:72-113 | After an expression is read, the stack holds only operators of the expression outside parentheses. Popping them top first completes its postfix form. |
| Postfix.PopThrough | src/lib/stringToPostfix.ts:72-83 | An incoming operator that pops a whole run of stacked operators emits the run top first, then goes on below it. |
| Postfix.UnwindThrough | src/lib/stringToPostfix.ts:88-98 | A closing parenthesis emits the operators above the topmost `(` top first, and removes that `(`. |
| Postfix.InfixValid | src/lib/stringToPostfix.ts:65-101 | The infix text of an expression is non-empty and holds only accepted characters, none of them white space. |
| Postfix.ShuntReads | src/lib/stringToPostfix.ts:60-104 | From a stack the expression cannot pop, the scan of an expression's text emits its postfix form, except the operators it leaves on the stack. The scan then goes on after the text. |
| Postfix.ReadsWhole | src/lib/stringToPostfix.ts:60-113 | The scan of the whole text of an unambiguous expression emits exactly its postfix form. |
| Postfix.ConvertsToPostfix | src/lib/stringToPostfix.ts:49-116 | Every expression written with the parentheses precedence and associativity demand converts to its postfix tokens, separated by single spaces. |
| Postfix.Parenthesize | src/lib/stringToPostfix.ts:85-99 | Putting every operation between parentheses keeps the postfix form and makes the expression unambiguous. |
| Postfix.FullyParenthesizedConverts | src/lib/stringToPostfix.ts:49-116 | Fully parenthesized infix converts to its postfix form, whatever the operators' precedence and associativity. |
| Worked.LeftAssociative | src/lib/stringToPostfix.ts:72-83 | `8-4-2` converts to `8 4 - 2 -`: the second `-` pops the first. |
| Worked.RightAssociative | src/lib/stringToPostfix.ts:72-83 | `2^3^2` converts to `2 3 2 ^ ^`: the second `^` does not pop the first. |
| Worked.MultiplicationBindsTighter | src/lib/stringToPostfix.ts:49-116 | `3 + 4 * 2` converts to `3 4 2 * +`: the spaces are removed and `*` does not pop `+`. |
| Worked.ParenthesesGroup | src/lib/stringToPostfix.ts:85-99 | `(2+3)*4` converts to `2 3 + 4 *`: the parentheses group the addition and are not emitted. |
| Worked.EmptyParentheses | src/lib/stringToPostfix.ts:85-99 | `()` is accepted and converts to the empty string. |
| Worked.RepeatedOperator | src/lib/stringToPostfix.ts:71-84 | `3++4` is not refused and converts to `3 + 4 +`. |
| Worked.UnopenedParenthesis | src/lib/stringToPostfix.ts:88-96 | `3+4)` fails with mismatched parentheses when `)` finds no `(`. |
| Worked.UnclosedParenthesis | src/lib/stringToPostfix.ts:106-110 | `(3+4` fails with mismatched parentheses in the final drain. |
| Worked.InvalidCharacterNamed | src/lib/stringToPostfix.ts:100-101 | `3+x` fails with the invalid-character error naming `x`. |
| Worked.SpaceJoinsDigits | src/lib/stringToPostfix.ts:54-70 | `1 2` converts to `12`: white space is removed before literals are read. |
| Worked.PointsStayInLiteral | src/lib/stringToPostfix.ts:65-70 | `1.2.3` converts to `1.2.3`: one literal, copied verbatim. |
| Worked.LiteralConvertsVerbatim | src/lib/stringToPostfix.ts:65-70 | Any input that is one non-empty run of digits and points converts to itself, copied verbatim. |
| Worked.StripSingleSpaced | src/lib/stringToPostfix.ts:54 | Characters that are not white space, separated by single spaces, lose only the spaces. |

## Left out

- `src/lib/operatorStore.ts`, the store of configurable precedences, is not part of this model: the converter reads only the fixed tables at lines 21-35.
- Error texts: the three thrown errors are modelled as the constructors of `Error`, returned in `Err`, without their message strings. The name carried by the invalid-character error is kept.
- Exceptions: a `throw` is modelled as an early return of `Err`.
- Text encoding: JavaScript strings are sequences of UTF-16 code units, while the model uses Dafny characters. A character outside the Basic Multilingual Plane, which the program would see as two code units, is one character here.
- Number values: literals are kept as lexemes. Nothing evaluates them, and nothing checks that a lexeme such as `1.2.3` is a well-formed number, because the program does not either.
- TypeScript type guards and casts (`token is operators`, `as operators`) are represented by the `Op` datatype; the tables are total functions over `Op`, so a missing table entry cannot occur.
- Stack representation: the operator stack is a local array that the program pushes to and pops from. The model keeps it in a local `seq` variable that the methods reassign. The array is never shared, so no aliasing is lost.
- Whitespace-only input: only the empty string is refused before the scan (lines 50-52). Input made of white space alone reaches the scan empty and converts to the empty string; the model follows the code.
