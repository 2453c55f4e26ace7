# dalculator in Dafny

dalculator is a desktop calculator. At its core is a small expression
interpreter, `calc`. It splits an expression into tokens, folding a unary
minus into the token that follows it. It checks the token stream against
a grammar that tracks which token types may come next, collecting every
error rather than stopping at the first. It then evaluates the expression
by running passes over the token vector, each pass replacing an operator
and its operands with a single value:

- brackets, then function calls;
- powers, then products, then sums;
- comparisons, then bitwise operators, then assignments.

The variables and functions are shared by every calculator object.
User-defined functions are expressions in `ARG0`, `ARG1`, …. A call stack
guards against recursion, and the previous values of the `ARGn` variables
are restored after each call. Around the interpreter sit:

- a number codec: binary, octal, decimal, hexadecimal and `h:m:s` input and output;
- a settings file format;
- version-string parsing and ordering for the update check;
- the built-in functions of the Qt front end (`if`, `round`, `faculty`, `random`);
- the expression history with its browsing cursor;
- the editors for variables and functions, which sanitise names and propose unused ones.

This project models each of these in Dafny and proves what their code
promises. Each module follows one source file or one part of it:

| module | models |
|---|---|
| `Wrappers`, `Errors`, `Tokens`, `Text` | Option/Result, `calcError` and its kinds, `Token`, and character and number-text helpers |
| `Decimal`, `Radix`, `Numbers` | `calc_private.cpp` and `str2real`, `timestr2real` and `real2str` of `calc.cpp` |
| `Lexer` | the character loop of `forceParse` |
| `Validator` | `searchForErrors` |
| `Passes` | `tokenToValue`, the whitespace removal in `calculate` and the passes over a flat token list |
| `MathFunctions` | the three kinds of `mathFunction` and their argument handling |
| `Engine` | the shared variable and function tables (a `Session` class), the bracket and function passes, and `userDefinedMathFunction::execute` |
| `Calculator` | the `calc` object: expression, parse state, tokens and errors, and `calculate` |
| `Builtins` | `qtcalc.cpp`: the built-ins and the restoring table operations of `QTCalc` |
| `Settings` | `settinghandler.cpp` and its version 1 file layout, as bytes |
| `Versions` | `updates::version` and `newVersionAvailable` |
| `History` | `calcHistoryDialog`'s history and cursor |
| `Naming`, `Widgets` | `checkName` and `findName`, and the four editor widgets |

Conventions:

- A thrown `calcError` is the `Err` case of a `Result`.
- Numbers are `real`.
- Anything the code hands to the C library or to a stream is a parameter:
  - `pow`, `fmod` and the root function are the fields of a `Libm` value;
  - `std::ostringstream` formatting of a real is a `Stream` function;
  - `qrand()` is a `draw` argument bounded by `randMax`.
- Where the code is wrong (see Findings), the rest of the model uses the
  corrected definition. The code as written is kept beside it, with a
  lemma that shows the difference.

## Model

| member | source | states |
|---|---|---|
| Builtins.Round | qtcalc.cpp:611-612 | the result is a whole number lying in (x - 1/2, x + 1/2] |
| Builtins.RoundIsNearest | qtcalc.cpp:611-612 | any integer in (x - 1/2, x + 1/2] is the rounded value: round picks the nearest integer and sends halves up |
| Builtins.Faculty | qtcalc.cpp:614-619 | fails exactly on a negative argument, with the "Invalid argument!" error carrying that argument; otherwise the result is at least 1 |
| Builtins.FacultyStep | qtcalc.cpp:618 | above 1, faculty(n) is n times faculty(n - 1) |
| Builtins.FacultyOfNatural | qtcalc.cpp:614-619 | on every natural number k, faculty(k) succeeds and equals k! |
| Builtins.IfFunction | qtcalc.cpp:655-671 | fewer than two arguments is a "Too less arguments" error carrying the count and 2; otherwise a non-zero first argument selects the second, a zero one selects the third or 0 when there is none |
| Builtins.IfArityErrorNamed | qtcalc.cpp:658-663 | if called with one argument through the function table, the arity error names the function it was called by |
| Builtins.Random | qtcalc.cpp:621-653 | no argument gives a value in [0, 1]; one argument gives a whole number in [0, max] and fails when max <= 0; two give a value in [min, max] and fail when min >= max; more than two is "Too many arguments" |
| Builtins.QTCalc.constructor | qtcalc.cpp:28-96 | the built-in functions are added to the calculator's functions and pi, e and phi to its variables; the built-in variables are remembered as the variables afterwards |
| Builtins.QTCalc.SetVar | qtcalc.cpp:252-258 | the variable is set to the value; functions and call stack unchanged; built-ins stay present |
| Builtins.QTCalc.DeleteVar | qtcalc.cpp:272-282 | the variable is removed, or restored to its built-in value when it is built in; nothing else changes |
| Builtins.QTCalc.RenameVar | qtcalc.cpp:260-270 | the variable is renamed as calc::renameVar does, and a built-in old name gets its built-in value back |
| Builtins.QTCalc.SetFunc | qtcalc.cpp:285-299 | the name now holds a user-defined function with the given expression, whether it replaced a built-in or updated a user-defined one |
| Builtins.QTCalc.DeleteFunc | qtcalc.cpp:317-327 | the function is removed, or the built-in function comes back when the name is built in |
| Builtins.QTCalc.RenameFunc | qtcalc.cpp:301-315 | a built-in non-user-defined function under the new name is deleted first, then the rename happens and a built-in old name is restored; when the old name did not exist, the built-in under the new name is lost |
| Calculator.Calc.constructor | calc/calc.cpp:33-34 | a new calculator holds the expression, unparsed, with no tokens and no errors |
| Calculator.Calc.SetExpression | calc/calc.cpp:52-58 | the expression is replaced and the parse state cleared |
| Calculator.Calc.ForceParse | calc/calc.cpp:153-300 | the tokens and errors become those of splitting and checking the current expression, and the calculator is parsed |
| Calculator.Calc.Parse | calc/calc.cpp:144-148 | afterwards the calculator is parsed; an already parsed calculator keeps its tokens and errors |
| Calculator.Calc.IsValidExpression | calc/calc.cpp:305-306 | true exactly when the expression is parsed and checking found no error |
| Calculator.Calc.Calculate | calc/calc.cpp:314-393 | a parse error makes the first error the result and changes no variable; otherwise, for an expression without function calls or brackets, the result and the new variables are those of the operator passes over the tokens without whitespace; the functions never change and the tokens are kept |
| Calculator.Calc.CalculateExpression | calc/calc.cpp:308-312 | the same as Calculate, for the new expression |
| MathFunctions.NameAttached | calc/mathfunction.cpp:51-56 | an invalidArguments error gets the function's name appended to its strings; any other error passes unchanged |
| MathFunctions.RunPreDefined | calc/mathfunction.cpp:44-60 | the result is the function's own result; its argument errors carry the function's name |
| MathFunctions.RunCpp | calc/mathfunction.cpp:70-91 | succeeds exactly when there is one argument and the C++ function succeeds on it; any other count is "Too less arguments" or "Too many arguments" naming the function twice and carrying the count |
| MathFunctions.ArgNamesDistinct | calc/mathfunction.cpp:132 | the names ARG0, ARG1, ... are pairwise distinct |
| MathFunctions.ArgCountIsLeast | calc/mathfunction.cpp:130-133 | the argument count is the least n for which "ARGn" does not occur in the expression, capped at the counter's maximum 65535 |
| MathFunctions.CountArguments | calc/mathfunction.cpp:130-133 | the counting loop computes ArgCount |
| Decimal.DecStr2Real | calc/calc_private.cpp:78-131 | the backwards loop yields exactly DecParse: the scan's first error, or the mantissa times 10^exponent, negated after a '-' |
| Decimal.LenientScan | calc/calc_private.cpp:104-105 | without throwError the scan never fails: stray characters and extra dots are passed over |
| Decimal.ScanErrorSticks | calc/calc_private.cpp:104-105 | an error raised while reading any suffix of the text is the result for the whole text |
| Decimal.ScanMode | calc/calc_private.cpp:104-119 | a text read without error under throwError reads the same without it: throwError only adds errors |
| Decimal.SecondDotRaises | calc/calc_private.cpp:95-105 | a second '.' (counting from the back), with only digits and '-' around it, raises the unexpected-'.' error when throwError is set |
| Decimal.DigitsParse | calc/calc_private.cpp:90-91 | a run of decimal digits parses as the number it denotes |
| Decimal.FractionParse | calc/calc_private.cpp:90-103 | a.b with digit runs a and b parses as a + b / 10^\|b\| |
| Decimal.PlainValue | calc/calc_private.cpp:122-127 | without an exponent marker the exponent stays 0 and the value is the signed mantissa |
| Decimal.ExponentSplits | calc/calc_private.cpp:108-123 | a + "e" + x, neither holding an exponent marker, parses as value(a) × 10^value(x) |
| Radix.BinStr2Real | calc/calc_private.cpp:30-52 | the sum of digit × 2^position from the right, negated after a leading '-'; fails exactly when throwError is set and some character is neither a digit nor '-' |
| Radix.OctStr2Real | calc/calc_private.cpp:54-76 | the same with base 8 and digits 0-7 |
| Radix.HexStr2Real | calc/calc_private.cpp:133-159 | the same with base 16 and both letter cases; '-', 'x' and 'X' are passed over |
| Radix.RadixStr2Real | calc/calc_private.cpp:36-48 | the shared backwards loop computes RadixParse: the error for the rightmost refused character, or the signed digit sum |
| Radix.RightmostBad | calc/calc_private.cpp:42-43 | the character reported is the rightmost one that is neither a digit nor passed over, since the scan runs from the back |
| Radix.RoundHalfUp | calc/calc_private.cpp:211 | the rounding of the formatters: floor or ceiling, within [-1/2, 1/2) of the value, so halves go up |
| Radix.Real2BinStr | calc/calc_private.cpp:199-222 | corrected real2binStr: an overflow error exactly when the magnitude exceeds ULONG_MAX on either side; "0" for a value rounding to zero; else the sign and the binary digits of the rounded magnitude |
| Radix.BinaryDigits | calc/calc_private.cpp:212-218 | the digit loop yields the binary digits of the number, most significant first |
| Radix.Real2OctStr | calc/calc_private.cpp:224-241 | corrected real2octStr: an overflow error exactly when the magnitude exceeds ULONG_MAX; else "[-]0" and the octal digits |
| Radix.Real2HexStr | calc/calc_private.cpp:313-330 | corrected real2hexStr: an overflow error exactly when the magnitude exceeds ULONG_MAX; else "[-]0x" and the hexadecimal digits |
| Radix.DigitSumToBase | calc/calc_private.cpp:214-218 | reading back the digits the loop writes gives the number |
| Radix.BinaryParsesBack | calc/calc_private.cpp:199-222 | the corrected binary text parses back, with throwError set, as the value rounded half up |
| Radix.OctalParsesBack | calc/calc_private.cpp:224-241 | real2octStr's text parses back, with throwError set, as the value rounded half up |
| Radix.HexParsesBack | calc/calc_private.cpp:313-330 | real2hexStr's text parses back, with throwError set, as the value rounded half up |
| Radix.BinaryRoundTrip | calc/calc_private.cpp:199-222 | for every integer within ULONG_MAX, real2binStr as written and binStr2real round-trip |
| Radix.NegativeOverflowPassesGuard | calc/calc_private.cpp:202-203 | the as-written guard, which real2binStr, real2octStr and real2hexStr share, lets -2^65 through although its magnitude overflows unsigned long |
| Radix.SmallValueGivesEmptyBinary | calc/calc_private.cpp:205-221 | real2binStr as written renders 0.25, which rounds to 0, as the empty string |
| Numbers.Str2Real | calc/calc.cpp:914-922 | str2real picks hexadecimal when "0x" follows the optional sign, octal when a '0' not followed by '.' does, and decimal otherwise |
| Numbers.LenientParse | calc/calc.cpp:914-922 | without throwError str2real always yields a number |
| Numbers.PiecesHaveNoColon | calc/calc.cpp:933-940 | no piece cut out of a time string holds a colon |
| Numbers.SplitTime | calc/calc.cpp:931-940 | the colon loop parses every piece after the optional sign with decStr2real; the first error is the result |
| Numbers.ColonLoop | calc/calc.cpp:933-937 | the loop either ends with the first piece error or has parsed every piece before the last colon |
| Numbers.Weigh | calc/calc.cpp:951-952 | part i counts 60^(2-i) seconds |
| Numbers.TimeStr2Real | calc/calc.cpp:924-960 | timestr2real computes TimeParse: more than three pieces is an invalid-time error with throwError and otherwise truncated to three; the weighted sum is negated after a leading '-' |
| Numbers.HoursMinutesSeconds | calc/calc.cpp:924-960 | "h:m:s" parses as 3600h + 60m + s |
| Numbers.HoursMinutes | calc/calc.cpp:951-952 | "a:b" parses as 3600a + 60b: the weights run from the left, so two pieces are hours and minutes |
| Numbers.NegatedTime | calc/calc.cpp:955-956 | a leading '-' negates the time |
| Numbers.WeighAll | calc/calc.cpp:951-952 | the weights are 3600, 60 and 1 for the first, second and third part |
| Numbers.CutZerosSpec | calc/calc_private.cpp:261-283 | the cut keeps a prefix; everything cut after the point is '0'; what is kept does not end in '0' past the point; the point is never left alone with one digit removed |
| Numbers.ScanFraction | calc/calc_private.cpp:261-283 | the zero-scanning loop finds the exponent marker after the point, and the start of the trailing zeros before it |
| Numbers.TidyExponent | calc/calc_private.cpp:294-305 | the exponent loop drops '+' signs and leading zeros and keeps minus signs |
| Numbers.StripZeros | calc/calc_private.cpp:255-310 | the clean-up computes Trimmed: unchanged when precision is 0 or there is no '.'; else trailing zeros of the fraction dropped and the exponent tidied, with a bare "e" removed |
| Numbers.TrimmedPlain | calc/calc_private.cpp:308-310 | without an exponent the text is cut where its trailing zeros start, or kept whole |
| Numbers.TrimmedWithExponent | calc/calc_private.cpp:286-306 | with an exponent the mantissa loses its trailing zeros and the exponent is tidied |
| Numbers.Real2DecStr | calc/calc_private.cpp:243-311 | the stream's text for the notation and precision, cleaned up as Trimmed says |
| Numbers.TimeParts | calc/calc_private.cpp:173-193 | whole hours, whole minutes below 60 and seconds below 60 that add back up to the value |
| Numbers.TimeTailIsParts | calc/calc_private.cpp:174-193 | the three loop steps print hours, minutes and seconds as TimeParts splits the value |
| Numbers.TimeLoopStep | calc/calc_private.cpp:178-192 | one loop step keeps the text so far plus what is left to print unchanged |
| Numbers.Real2TimeStr | calc/calc_private.cpp:161-197 | one '-' for a negative value, then hh:mm:ss.sss of the magnitude, each field below ten padded with a '0' |
| Numbers.Real2Str | calc/calc.cpp:962-978 | time, binary, octal and hexadecimal go to their formatters; any other notation is real2decStr with a negative precision replaced by digits10 (15) |
| Lexer.Step | calc/calc.cpp:164-288 | one iteration of the lexing loop keeps the state well formed (a pending real or name has non-empty text) and always moves forward |
| Lexer.ReadToken | calc/calc.cpp:208-287 | with nothing pending, the character at the position is classified as an operator, '=', bracket, comma, unary minus (with its look-ahead past whitespace) or the start of a real or name, exactly as Begin says |
| Lexer.Tokenize | calc/calc.cpp:153-293 | the lexing loop produces Lex(e), the pending real or name being flushed at the end |
| Lexer.LexShapes | calc/calc.cpp:164-293 | every token the lexer makes is one character of whitespace, operator, ',' or ')', "=", "(" or "-(", a non-empty real, a name, or a one-character unknown token; it never makes a converted real or a function start |
| Lexer.StrayIsUnknown | calc/calc.cpp:286-287 | with nothing pending, a character no token starts with becomes an unknown token of its own |
| Lexer.MinusIsBinary | calc/calc.cpp:211-228 | a minus after an operand (not at the start, not after an operator, comma, '(' or '=') is the subtraction operator |
| Lexer.MinusAfterOperand | calc/calc.cpp:187-227 | a minus right after a name, or after a real not ending in an exponent letter, ends that token and is the subtraction operator |
| Lexer.MinusIsUnary | calc/calc.cpp:211-259 | a unary minus looks past whitespace: before a digit or name character it starts that real or name; before '(' it becomes a "-(" bracket that swallows the whitespace; otherwise it is an operator |
| Lexer.SpaceAfterNameAsWritten | calc/calc.cpp:166-187 | as written, the space in "a +1" becomes an unknown token, because the name branch falls through to the token-start checks |
| Lexer.SpaceAfterNameFixed | calc/calc.cpp:166-187 | with the name ended before the whitespace check, the space in "a +1" is a whitespace token |
| Validator.SearchForErrors | calc/calc.cpp:400-530 | the scan yields Validate's retyped tokens and errors |
| Validator.CheckToken | calc/calc.cpp:420-520 | one iteration skips whitespace, reports unknown and unexpected tokens and accepts the rest, as CheckStep says |
| Validator.AcceptToken | calc/calc.cpp:444-519 | the switch for an accepted token sets the next accepted token types and the bracket and call bookkeeping, as Accept says |
| Validator.UnexpectedKeepsState | calc/calc.cpp:436-441 | a token of a type not accepted here is reported with its text and position and changes nothing but the errors and the position |
| Validator.UnknownReported | calc/calc.cpp:429-434 | an unknown token is reported with its text and position, and the scan goes on as if it were not there |
| Validator.NameBeforeBracketIsCall | calc/calc.cpp:476-482 | an accepted '(' right after a name retypes that name, and only it, as a function start and records the depth of the call's bracket |
| Validator.CloseBracketEndsCall | calc/calc.cpp:491-501 | an accepted ')' lowers the depth by one and ends the innermost call exactly when it closes that call's bracket |
| Validator.StepRetypes | calc/calc.cpp:420-520 | one iteration only retypes names as function starts and only adds errors |
| Validator.CheckFromReportsUnknown | calc/calc.cpp:429-434 | an unknown token anywhere ahead of the scan adds an error |
| Validator.FinishReports | calc/calc.cpp:523-529 | after the loop, a trailing operator, '=' or comma is reported with its text, then brackets left open are reported with their count; nothing else is added |
| Validator.ValidateRetypesOnlyNames | calc/calc.cpp:400-530 | the scan keeps every token, changing at most the type of names into function starts |
| Validator.NoErrorsMeansKnownTokens | calc/calc.cpp:402-434 | an expression the scan finds no error in is non-empty and holds no unknown token |
| Passes.TokenValue | calc/calc.cpp:558-591 | a name is its variable's value, negated after a unary minus, and an unknown-variable error when there is no such variable; a real is parsed as a time when it holds ':' and by str2real otherwise; other token types are an unexpected-token error |
| Passes.UnaryNameNegates | calc/calc.cpp:567-575 | "-name" is defined exactly when "name" is, with the opposite value |
| Passes.NoWhitespace | calc/calc.cpp:330-336 | the result holds no whitespace and only tokens of the input |
| Passes.NoWhitespaceKeeps | calc/calc.cpp:330-336 | a list without whitespace comes through unchanged |
| Passes.DropWhitespace | calc/calc.cpp:330-336 | the erase loop computes NoWhitespace |
| Passes.Reduce | calc/calc.cpp:749-752 | the operator and its two operands become one value token; the tokens before and after are kept |
| Passes.RoundAway | calc/calc.cpp:870-871 | C's round gives an integer within 1/2 of its argument |
| Passes.BitsRoundTrip | calc/calc.cpp:870-871 | the 64-bit two's complement pattern of a long converts back to the same long |
| Passes.BitOpSame | calc/calc.cpp:868-871 | or-ing or and-ing a bit pattern with itself gives it back |
| Passes.FirstIsFirst | calc/calc.cpp:730-733 | no token before the one a pass finds is handled by that pass |
| Passes.NextOperator | calc/calc.cpp:766-769 | the result is the first operator at or after the position, or the end |
| Passes.ApplyBinary | calc/calc.cpp:727-884 | calcDoPowers, calcDoPlusmin, calcDoCompare and calcDoBitwise reduce the first operator of their kind with its operands, as BinaryStep says, or report that there is none |
| Passes.ProductAtOperator | calc/calc.cpp:769-803 | at an operator, calcDoMultiply's loop either finishes with ProductsAt's result or goes on exactly as the search from the next token would |
| Passes.ApplyProducts | calc/calc.cpp:763-809 | calcDoMultiply computes ProductsFrom: it reads the right operand of every operator it passes, and reduces the first '*', '/' or '%' |
| Passes.ApplyLevel | calc/calc.cpp:727-884 | one call of a pass computes Step for its level |
| Passes.RunLevel | calc/calc.cpp:341-345 | while(calcDoX()); computes Exhaust: the pass repeated until it finds nothing or fails |
| Passes.RunOperators | calc/calc.cpp:341-345 | the five operator loops run in the order powers, products, sums, comparisons, bitwise, and the first error stops them |
| Passes.ZeroDivisorReported | calc/calc.cpp:766-792 | a '/' or '%' with a zero right operand is the "Division by 0" or "Modulo by 0" error whenever the pass reaches it: no product comes before it and every operator before it, of any kind, has a right operand with a value |
| Passes.ZeroDivisorAfterSum | calc/calc.cpp:766-792 | "1+2/0" is the "Division by 0" error, since the pass walks over the '+' |
| Passes.NegativeBaseRefused | calc/calc.cpp:740-750 | with a negative left operand, '~' is refused, a fractional power is refused, and a whole power is computed by pow |
| Passes.ComparisonIsBoolean | calc/calc.cpp:844 | a comparison yields 1 when it holds and 0 when it does not |
| Passes.BitwiseIdempotent | calc/calc.cpp:868-871 | x \| x and x & x give x back for every whole x in the range of long |
| Passes.FirstAssignment | calc/calc.cpp:890-893 | the result is the first assignment operator at or after the position, or the end |
| Passes.FindAssignment | calc/calc.cpp:885-911 | calcDoAssignments' search and read of the value compute AssignStep: the variable before the first '=' and the value after it, the two tokens erased |
| Passes.Final | calc/calc.cpp:348-376 | no token left is the unknown error; otherwise the first token's value when it is a name or real, and the unknown error for any other type |
| Passes.NoBracketNoGroup | calc/calc.cpp:593-634 | without an opening bracket the bracket pass finds no group and is done |
| Passes.FindGroup | calc/calc.cpp:593-630 | the search loop of calcDoBrackets computes ScanGroup: the outermost group's opening bracket, if any, and where the scan stopped |
| Passes.NoStartNoCall | calc/calc.cpp:649-679 | without a function start the function pass finds no call and is done |
| Passes.FindCall | calc/calc.cpp:655-675 | the search loop of calcDoFunctions computes ScanCall: the first function start and the closing bracket of its call |
| Passes.SplitJoin | calc/calc.cpp:701-717 | splitting a call's arguments at top-level commas and joining them back with commas gives the original tokens |
| Engine.Renamed | calc/calc.cpp:73-82 | a rename succeeds exactly when the old name exists and the new one does not; the entry moves to the new name and every other entry is kept |
| Engine.RenameRoundTrip | calc/calc.cpp:73-82 | renaming back undoes a successful rename |
| Engine.ValueOrZero | calc/calc.cpp:87-92 | the const getVar yields the variable's value, or 0 for a missing one |
| Engine.DeleteFunctionAsWritten | calc/calc.cpp:101-106 | deleteFunction as written has an outcome only for an existing name: then it answers true and the name is gone |
| Engine.DeleteMissingFunctionAsWritten | calc/calc.cpp:101-106 | for a name that is not there, deleteFunction as written has no defined outcome |
| Engine.GroupTarget | calc/calc.cpp:593-634 | the group found lies between an opening and a later closing bracket; a group never closed is the unknown error |
| Engine.PlainHasNoGroup | calc/calc.cpp:633-634 | a token list without brackets or function starts has no group |
| Engine.CallTarget | calc/calc.cpp:649-689 | there is no call exactly when the search finds no function start; a function start whose name is not a function is the "Unknown function" error naming it; a call found runs from a known function's start to a closing bracket |
| Engine.PlainHasNoCall | calc/calc.cpp:678-679 | a token list without brackets or function starts has no call |
| Engine.Splice | calc/calc.cpp:642-643 | the tokens from the opening to the closing position, both included, become the one computed value; the tokens around them are kept |
| Engine.BoundBinds | calc/mathfunction.cpp:173-180 | after binding, ARGi holds the i-th argument |
| Engine.BoundOnlyBelow | calc/mathfunction.cpp:173-180 | no ARG name from the argument count on is bound |
| Engine.SavedHolds | calc/mathfunction.cpp:173-180 | an ARG variable below the count is saved exactly when it existed, with its old value |
| Engine.SavedOnlyBelow | calc/mathfunction.cpp:173-180 | no ARG name from the argument count on is saved |
| Engine.Session.constructor | calc/calc.cpp:33-34 | the shared variable and function tables start empty, with an empty call stack |
| Engine.Session.DeleteVar | calc/calc.cpp:64-65 | true exactly when the variable existed; it is gone afterwards and nothing else changes |
| Engine.Session.SetVar | calc/calc.cpp:67-68 | the variable holds the value, created if needed, and the value is returned; nothing else changes |
| Engine.Session.SetVarList | calc/calc.cpp:70-71 | the whole variable table is replaced; functions and call stack unchanged |
| Engine.Session.RenameVar | calc/calc.cpp:73-82 | succeeds exactly when the old name exists and the new one does not, then the variable is renamed; otherwise nothing changes |
| Engine.Session.GetVar | calc/calc.cpp:84-85 | yields the variable's value; a missing variable is created with 0 |
| Engine.Session.DeleteFunction | calc/calc.cpp:101-106 | corrected deleteFunction: true exactly when the function existed, false for a missing name; it is gone afterwards; on an existing name it agrees with the code as written |
| Engine.Session.SetFunction | calc/calc.cpp:108-113 | the name now refers to the function; nothing else changes |
| Engine.Session.GetFunction | calc/calc.cpp:114-119 | the function under the name, or none for a missing name |
| Engine.Session.RenameFunction | calc/calc.cpp:126-135 | succeeds exactly when the old name exists and the new one does not, then the function is renamed; otherwise nothing changes |
| Engine.Session.Evaluate | calc/calc.cpp:314-393 | a temporary calculator's calculate() never changes the functions, and leaves the call stack as it found it unless an error cleared it |
| Engine.Session.Resolve | calc/calc.cpp:339-340 | the bracket and function loops never change the functions, leave a list without brackets and calls as it is, and on success leave no function call |
| Engine.Session.DoBrackets | calc/calc.cpp:593-647 | calcDoBrackets reports the unknown error for an unclosed group, is done exactly when there is no group, and otherwise replaces the group, brackets included, by one value |
| Engine.Session.FindGroupTarget | calc/calc.cpp:593-634 | the search loop and the closed-group check compute GroupTarget |
| Engine.Session.DoFunctions | calc/calc.cpp:649-725 | calcDoFunctions reports an unknown function, is done exactly when there is no call, and otherwise replaces the call, from its start to its closing bracket, by one value |
| Engine.Session.FindTarget | calc/calc.cpp:655-689 | the search loop and the name lookup compute CallTarget |
| Engine.Session.EvaluateArguments | calc/calc.cpp:695-717 | on success there is one value per argument the top-level commas separate |
| Engine.Session.Execute | calc/mathfunction.cpp:119-209 | a C++ or predefined function runs as RunCpp or RunPreDefined; a user-defined one fails with the recursion error when already on the call stack, with the arity error carrying both counts when the count differs, with the invalid-expression error when its expression has errors, and succeeds only when none of these holds; an error clears the call stack, and every ARG variable that existed before keeps its value |
| Engine.Session.ExecuteUserDefined | calc/mathfunction.cpp:119-209 | the checks fail exactly as Admit says without touching the variables; success leaves the call stack as before; the ARG variables that existed are restored |
| Engine.Session.Enter | calc/mathfunction.cpp:122-170 | the recursion, arity and validity checks of execute in the code's order; on success the name is pushed, on error the call stack is cleared |
| Engine.Session.Leave | calc/mathfunction.cpp:188-204 | success pops the name pushed; an error clears the call stack |
| Engine.Session.BindArguments | calc/mathfunction.cpp:173-180 | the ARG variables that existed are remembered and ARG0 .. ARG(n-1) are bound to the arguments |
| Engine.Session.Restore | calc/mathfunction.cpp:188-189 | every remembered ARG variable gets its old value back |
| Engine.Session.Arithmetic | calc/calc.cpp:341-376 | the operator passes, the assignments and the last token compute Flat: the result and the variables it leaves |
| Engine.Session.RunAssignments | calc/calc.cpp:346 | while(calcDoAssignments()); computes Assign: the remaining tokens and the variables set along the way |
| Settings.IsValidName | calc/settinghandler.cpp:100-110 | true exactly when the name is non-empty and every character is a name character for its place (the first may not be a digit) |
| Settings.BytesRoundTrip | calc/settinghandler.cpp:176-180 | a text whose characters fit in a byte is written and read back unchanged |
| Settings.FieldLength | calc/settinghandler.cpp:132-135 | the length is the position of the first NUL byte, or the whole input when there is none |
| Settings.FieldOfWritten | calc/settinghandler.cpp:132-135 | getline up to NUL reads back a field written with its NUL and leaves what follows |
| Settings.SettingNameNoNul | calc/settinghandler.cpp:139 | a name the loader accepts holds no NUL byte |
| Settings.ListedAll | calc/settinghandler.cpp:179-180 | listing every key of the map in its order gives back all the entries |
| Settings.LoadRecordStep | calc/settinghandler.cpp:132-143 | a name and value written with their NULs are read back as one entry and reading goes on after them |
| Settings.LoadRecordsOfRecords | calc/settinghandler.cpp:132-144 | reading records written for distinct loadable names adds exactly those entries, without an error |
| Settings.LoadEncoded | calc/settinghandler.cpp:113-191 | saving entries with loadable names and NUL-free texts and loading the bytes again gives back the same entries, without an error |
| Settings.UnknownVersionRefused | calc/settinghandler.cpp:126-127 | a file whose first byte is not 1 is refused as an unknown version, with no entry read |
| Settings.BadNameRefused | calc/settinghandler.cpp:138-140 | a first entry whose name has no 'v' or 'f' prefix or no valid name after it makes the file corrupted, with no entry kept |
| Settings.CopiedVarsHolds | calc/settinghandler.cpp:62-71 | after copying the entries in order, every "v" entry has set its variable to str2real of its text, and the other variables are kept |
| Settings.CopiedFuncsHolds | calc/settinghandler.cpp:62-78 | after copying the entries in order, every "f" entry has set a user-defined function with its text, and the other functions are kept |
| Settings.CopiedHolds | calc/settinghandler.cpp:56-88 | copying all entries in the map's order sets what every "v" and "f" entry names and keeps everything else |
| Settings.SourceCopiedBack | calc/settinghandler.cpp:35-88 | entries taken from a calculator all have known prefixes; copied into a calculator, they add that calculator's variables, every user-defined function with its expression, and no other function |
| Settings.SettingsRoundTrip | calc/settinghandler.cpp:35-88 | settingsFromSource followed by copyToCalculator succeeds, brings back every variable name and every user-defined function, and adds no other function |
| Settings.WriteValue | calc/settinghandler.cpp:46 | a variable's text is real2str in the automatic notation with the default precision |
| Settings.ReadValue | calc/settinghandler.cpp:70 | a variable's text is read with str2real without errors |
| Settings.CopyEntry | calc/settinghandler.cpp:67-82 | one entry: a 'v' key sets the variable after the prefix, an 'f' key sets a user-defined function, anything else only reports failure |
| Settings.SettingHandler.constructor | calc/settinghandler.cpp:29-30 | a new handler holds no entries |
| Settings.SettingHandler.SettingsFromSource | calc/settinghandler.cpp:35-54 | the entries become "v"+name with real2str of every variable and "f"+name with the expression of every user-defined function |
| Settings.SettingHandler.CopyToCalculator | calc/settinghandler.cpp:56-88 | the calculator's variables and functions become those of applying the entries in order; the result is true exactly when every entry has a known prefix |
| Settings.SettingHandler.LoadFromBytes | calc/settinghandler.cpp:90-161 | the entries and the error are those Load computes from the bytes: the version check, then name and value pairs up to the first bad one |
| Settings.SettingHandler.SaveToBytes | calc/settinghandler.cpp:163-191 | the bytes written are the version byte 1 and every entry's name and text, each followed by NUL, in the map's order |
| Settings.FromSourceHolds | calc/settinghandler.cpp:35-54 | the entries made from a calculator are exactly one per variable and one per user-defined function, with real2str of the value or the expression |
| Versions.ToString | updatechecker.cpp:87-95 | the text holds exactly three dots and at least seven characters |
| Versions.GreaterMirrorsLess | updatechecker.cpp:138-183 | a > b holds exactly when b < a |
| Versions.Trichotomy | updatechecker.cpp:138-185 | exactly one of a < b, a == b and a > b holds |
| Versions.LessTransitive | updatechecker.cpp:138-160 | < is transitive |
| Versions.LessEqIsNotGreater | updatechecker.cpp:186-189 | <= is the negation of > and >= the negation of < |
| Versions.NewVersionIffOlder | updatechecker.cpp:223-235 | a new version is announced exactly when the running version is less than the offered one, never for the same version |
| Versions.FromToString | updatechecker.cpp:16-95 | fromString reads back what toString printed, for numbers that fit an unsigned short; the beta flag keeps its previous value |
| Versions.FromDigitRuns | updatechecker.cpp:16-78 | four digit runs joined by dots read as the four numbers |
| Versions.BadMajorFails | updatechecker.cpp:25-33 | a character other than a digit or '.' before the first dot makes fromString fail without changing anything |
| Versions.FieldsStep | updatechecker.cpp:38-64 | one field: a failed read fails, a number that does not fit sets the field to 0 and fails, and a good one is assigned before the next field is read |
| Versions.Version.constructor | updatechecker.cpp:11-12 | the version holds the given fields |
| Versions.Version.FromString | updatechecker.cpp:16-85 | the success flag and the new fields are those FromStringSpec computes from the text and the old fields |
| Versions.Version.ReadNumber | updatechecker.cpp:38-50 | reading one of the first three fields either fails as Fields says or assigns the field and leaves the rest of the text to read |
| Versions.Count | updatechecker.cpp:18 | the loop counts the occurrences of the character |
| Versions.ScanField | updatechecker.cpp:25-33 | the digit loop fails exactly when ReadField does, and otherwise stops where ReadField says, with the number read |
| History.Appended | trunk/calchistorydialog.cpp:195-206 | the expression is the last entry; below the maximum it is appended, at the maximum the oldest entry is dropped first |
| History.AppendedBounded | trunk/calchistorydialog.cpp:198-205 | a history within its maximum stays within it, growing by one until it is full |
| History.AddAllKeepsNewest | trunk/calchistorydialog.cpp:195-206 | after any sequence of additions the history holds the maxSize most recent expressions, in order |
| History.AppendedIsNewest | trunk/calchistorydialog.cpp:195-206 | one addition keeps the maxSize most recent expressions |
| History.NewerPos | trunk/calchistorydialog.cpp:136-144 | newer goes from -1 to the oldest entry, one step forward otherwise, and from the current expression back to the oldest entry |
| History.OlderPos | trunk/calchistorydialog.cpp:161-169 | older goes from -1 to the newest entry, one step back otherwise, and from the oldest entry to the current expression |
| History.NewerUndoesOlder | trunk/calchistorydialog.cpp:128-176 | once browsing, newer undoes older and older undoes newer |
| History.NewerCycles | trunk/calchistorydialog.cpp:136-144 | k steps of newer advance the cursor by k, wrapping from the current expression to the oldest entry |
| History.NewerReturns | trunk/calchistorydialog.cpp:136-144 | size + 1 steps of newer come back to where they started |
| History.LoadCount | trunk/calchistorydialog.cpp:80-90 | at most maxSize entries are loaded, and at least one when the section holds a positive history_size and maxSize is positive |
| History.HistoryDialog.constructor | trunk/calchistorydialog.cpp:9-22 | a new dialog has an empty history, no selection and no current expression |
| History.HistoryDialog.AddPrivate | trunk/calchistorydialog.cpp:195-206 | the history becomes Appended; the cursor is untouched |
| History.HistoryDialog.ResetPos | trunk/calchistorydialog.cpp:117-126 | the cursor is -1 and the current expression cleared; the history is untouched |
| History.HistoryDialog.Add | trunk/calchistorydialog.cpp:54-59 | the expression is appended as Appended says and the cursor reset to -1 |
| History.HistoryDialog.Get | trunk/calchistorydialog.cpp:61-72 | "" at -1, the saved current expression at the end, and otherwise the entry under the cursor |
| History.HistoryDialog.Clear | trunk/calchistorydialog.cpp:106-115 | the history is empty and the cursor -1 |
| History.HistoryDialog.Newer | trunk/calchistorydialog.cpp:128-151 | on an empty history it answers false and changes nothing; otherwise the cursor moves as NewerPos says and the typed text is saved when browsing starts |
| History.HistoryDialog.Older | trunk/calchistorydialog.cpp:153-176 | on an empty history it answers false and changes nothing; otherwise the cursor moves as OlderPos says and the typed text is saved when browsing starts |
| History.HistoryDialog.FromDiniSection | trunk/calchistorydialog.cpp:76-91 | the history is cleared, then holds the first LoadCount texts history0, history1, ... of the section, with the cursor at -1 |
| Naming.CheckNameSpec | trunk/varwidget.cpp:37-48 | the result is never empty |
| Naming.CheckNameGivesNameChars | trunk/varwidget.cpp:40-44 | every character kept is a letter, a digit or '_' |
| Naming.CheckName | tags/release-2.1.1.4/funcwidget.cpp:31-42 | the loop keeps '_', ASCII letters and digits not at the input's first position and returns "noName" when nothing is kept; with corrected set it computes CheckNameFixed instead |
| Naming.IdentifierUnchanged | trunk/varwidget.cpp:37-48 | a name that is already an identifier passes through unchanged |
| Naming.CheckNameLeadingDigit | tags/release-2.1.1.4/funcwidget.cpp:36 | "-1" becomes "1", which is not an identifier and which a second pass turns into "noName" |
| Naming.CheckNameFixed | tags/release-2.1.1.4/funcwidget.cpp:31-42 | the corrected sanitiser always yields an identifier |
| Naming.CheckNameFixedAgrees | tags/release-2.1.1.4/funcwidget.cpp:31-42 | it agrees with checkName as written whenever the input's first character is kept |
| Naming.CheckNameFixedIdempotent | tags/release-2.1.1.4/funcwidget.cpp:31-42 | applying the corrected sanitiser twice is the same as once |
| Naming.FixedIdentifierUnchanged | trunk/varwidget.cpp:37-48 | the corrected sanitiser leaves an identifier as it is |
| Naming.FirstGreater | trunk/funcswidget.cpp:109-116 | the insertion point is the first number greater than x, every number before it being at most x |
| Naming.InsertKeepsSorted | trunk/funcswidget.cpp:103-117 | numbersInUse stays ascending and afterwards holds x, besides what it held, with at most one more element |
| Naming.RecordKeepsStrict | trunk/funcswidget.cpp:103-117 | the corrected recording, which skips a number already in use, keeps the numbers strictly ascending |
| Naming.ScanFacts | trunk/funcswidget.cpp:87-120 | after the first loop count is 1 exactly when the base name occurs more often than tolerated, and the recorded numbers are ascending, non-zero and fit an unsigned short |
| Naming.ScanRecords | trunk/funcswidget.cpp:98-104 | every non-zero number after the base name is recorded |
| Naming.WalkConsecutive | trunk/funcswidget.cpp:121-127 | every number the walk passes is recorded |
| Naming.WalkStopsOnFree | trunk/funcswidget.cpp:121-127 | over distinct ascending numbers the walk stops at one that is not recorded |
| Naming.FindNameKeepsBase | trunk/funcswidget.cpp:128-131 | findName returns the base name itself exactly when it occurs no more often than tolerated (once with mayExistOnce, never without) |
| Naming.FindNameCounts | trunk/funcswidget.cpp:121-129 | when the base name is taken the result is the base name with the first number from 1 on where the walk stops, all numbers before it being recorded |
| Naming.FindNameFixedIsFree | trunk/funcswidget.cpp:83-132 | with the corrected recording the name returned is the base name exactly when that is tolerated, and otherwise is not in use |
| Naming.FindNameFixedUnused | trunk/funcswidget.cpp:83-132 | the corrected findName without tolerance proposes a name not in use, for lists shorter than 65535 |
| Naming.FindNameFixedIdentifier | trunk/funcswidget.cpp:128-131 | for an identifier base name the corrected findName proposes an identifier |
| Naming.FindNameDuplicateSuffix | trunk/funcswidget.cpp:98-127 | as written, for the names newVar, newVar2, newVar1 and newVar01 the suggestion is newVar2, which is already in use |
| Naming.FindName | tags/release-2.1.1.4/varswidget.cpp:76-124 | the two loops compute findName as written (FindNameSpec), or with dedupe set the corrected FindNameFixed |
| Naming.InsertSorted | tags/release-2.1.1.4/varswidget.cpp:96-110 | the insertion into numbersInUse computes InsertNumber |
| Widgets.Renaming | tags/release-2.1.1.4/funcwidget.cpp:45-54 | the new name, sanitised by the corrected checkName, is shown and remembered; renamed(old, new) is emitted exactly when it differs from the old name, a non-empty forced old name replacing the remembered one |
| Widgets.RenamingSettles | tags/release-2.1.1.4/funcwidget.cpp:45-54 | renaming again to the same text emits nothing |
| Widgets.RenamingKeepsIdentifier | trunk/varwidget.cpp:51-60 | an identifier is shown as typed and announced exactly when it differs from the old name |
| Widgets.FuncWidget.constructor | tags/release-2.1.1.4/funcwidget.cpp:7-23 | the name is shown and remembered as given, without sanitising |
| Widgets.FuncWidget.Rename | tags/release-2.1.1.4/funcwidget.cpp:45-54 | the name, the remembered name and the signal are those of Renaming; the body is kept |
| Widgets.VarWidget.constructor | trunk/varwidget.cpp:10-29 | the name, sanitised by the corrected checkName, is shown and remembered |
| Widgets.VarWidget.Rename | trunk/varwidget.cpp:51-60 | the name, the remembered name and the signal are those of Renaming; the value is kept |
| Widgets.FuncsWidget.Names | trunk/funcswidget.cpp:87-89 | the names of the entries, in order |
| Widgets.FuncsWidget.constructor | trunk/funcswidget.cpp:6-15 | a new list starts without entries (the initial functions are not modelled) |
| Widgets.FuncsWidget.AddFunction | trunk/funcswidget.cpp:53-63 | one new entry at the end, named by the corrected findName("newFunc") and with body "ARG0+ARG1", announced with that name and body; the other entries are kept; with fewer than 65535 entries the name is not in use |
| Widgets.FuncsWidget.ChangeName | trunk/funcswidget.cpp:73-80 | when the corrected findName(newName, true) differs from newName the entry is renamed to it with the old name forced and no funcRenamed is emitted; otherwise funcRenamed(old, new) is emitted and the entry is left alone |
| Widgets.VarsWidget.Names | tags/release-2.1.1.4/varswidget.cpp:80-82 | the names of the entries, in order |
| Widgets.VarsWidget.constructor | tags/release-2.1.1.4/varswidget.cpp:7-16 | a new list starts without entries (the initial variables are not modelled) |
| Widgets.VarsWidget.AddVariable | tags/release-2.1.1.4/varswidget.cpp:33-43 | one new entry at the end, with value 0 and named by the corrected findName("newVar"), announced with that name and 0; the other entries are kept; with fewer than 65535 entries the name is not in use |
| Widgets.VarsWidget.ChangeName | tags/release-2.1.1.4/varswidget.cpp:52-59 | when the corrected findName(newName, true) differs from newName the entry is renamed to it with the old name forced and no varRenamed is emitted; otherwise varRenamed(old, new) is emitted |

## Left out

- Floating point: every number is a `real`. Rounding, infinities and NaN are not modelled. `pow`, `fmod`, the n-th root and the `ostringstream` formatting of a real are parameters (`Libm`, `Stream`), so results that depend on them are stated relative to those parameters.
- Exceptions other than `calcError`: the `catch(...)` branches that turn an unexpected exception (from the STL or libm) into an unknown error are not modelled, because nothing in the model throws them.
- Memory management: `cleanUpNeeded`, `delete`, destructors and pointer ownership are not modelled. Functions are values in a map.
- The `unsigned short` counters of the parser loops are modelled as unbounded naturals. An expression of 65 536 or more tokens, where they wrap, is not modelled.
- File I/O: the settings file is modelled as the byte sequence `saveToFileV1` writes and `fileParserV1` reads. `ifstream`/`ofstream`, `fileError` and the file system are not modelled.
- `qrand()` is a parameter (`draw` with `randMax`). Seeding and the distribution are not modelled.
- The trigonometric, logarithmic and other Qt built-ins that only call into libm are not modelled, apart from those named in the Model table. Timers, signals and slots, dialogs and widget painting are not modelled either.
- Iteration order of `std::map`: where the code walks a map (`settingsFromSource`, `copyToCalculator`, `saveToFileV1`), the order of the keys is a sequence parameter required to list every key once.
- `varExists` and `functionExists` are the map membership tests `name in vars` and `name in funcs`.
- The update checker's network download (the `updateChecker` class) is not modelled. Only the version text it parses and the comparison are.
- The history dialog's `toDiniSection` export and the dini section format are not modelled. `fromDiniSection` takes the section as its size entry and a function from index to text.
- The widgets' Qt side is not modelled: line edits, layouts, signal wiring, and removing an entry. Emitted signals are returned as values.
- Decimal.ExponentSplits: takes the parse results of the mantissa and the exponent as hypotheses rather than stating the parse of every exponent text.
- Calculator.Calc.Calculate: the result is stated exactly only for expressions without brackets or function calls, as the flat passes over the token list. For the other expressions it states the parse, the frame (the function table unchanged) and the call stack restored on success.
- Engine.Session.Evaluate: states what stays unchanged (the function table, the call stack on success), not the value computed. The value of a bracket-free, call-free expression is Passes.Flat.
- Calculator.Calc.CalculateExpression: like Calculator.Calc.Calculate, whose result it returns after setting the expression, the value is stated exactly only for expressions without brackets or function calls.
- Engine.Session.Resolve: states that a successful result holds no function call, and what stays unchanged. It does not state which values replace the groups and calls, because those come from the nested Engine.Session.Evaluate.
- Engine.Session.DoBrackets: states that the first outermost group that is not a call's, with its brackets, becomes one value token and that the tokens around it are kept. It does not state which value, because that is the result of the nested Engine.Session.Evaluate of the group.
- Engine.Session.DoFunctions: states that the call, from its name to its closing bracket, becomes one value token and that the tokens around it are kept. It does not state which value, because it comes from the nested evaluation of the arguments and of the function.
- Engine.Session.EvaluateArguments: states one value per top-level argument, and what stays unchanged. It does not state the values, because each is the result of a nested Engine.Session.Evaluate.
- Builtins.Random: when `max+1` or `max-min+1` does not fit in an `unsigned int`, the code's `static_cast<unsigned int>` is undefined behaviour. The model reports the unknown error there, and its contract states nothing for those arguments.
- `timestr2real` weights the parts of `h:m:s` from the left, as the code does (hours × 3600, minutes × 60, seconds). The code was followed where it reads differently from the format's documentation.
- The variable and function editors use the corrected `checkName` and `findName` (see Findings). The code as written is modelled beside them.

## Findings

| source | as written | input that shows it | evidently intended | confidence | as-written member | corrected member |
|---|---|---|---|---|---|---|
| calc/calc_private.cpp:202-203 | the overflow guard tests `val > ULONG_MAX` only, so a large negative value reaches the cast to `unsigned long` | -2^65 | an overflow error whenever the magnitude exceeds ULONG_MAX | not executed | Radix.NegativeOverflowPassesGuard | Radix.Real2BinStr |
| calc/calc_private.cpp:227-228 | real2octStr's guard is the same one-sided `val > ULONG_MAX`, so a large negative value reaches the cast to `unsigned long` at line 232 | -2^65 | an overflow error whenever the magnitude exceeds ULONG_MAX | not executed | Radix.NegativeOverflowPassesGuard | Radix.Real2OctStr |
| calc/calc_private.cpp:316-317 | real2hexStr's guard is the same one-sided `val > ULONG_MAX`, so a large negative value reaches the cast to `unsigned long` at line 321 | -2^65 | an overflow error whenever the magnitude exceeds ULONG_MAX | not executed | Radix.NegativeOverflowPassesGuard | Radix.Real2HexStr |
| calc/calc_private.cpp:205-221 | only `val == 0` gives "0"; a value that rounds to 0 runs the digit loop zero times and gives the empty string | 0.25 | "0" for every value that rounds to zero, so the text parses back | not executed | Radix.SmallValueGivesEmptyBinary | Radix.BinaryParsesBack |
| calc/calc.cpp:101-106 | `currFunctions[name]` inserts a null pointer for a missing name, and `cleanUpNeeded()` is called on it | deleteFunction("f") with no function f | answer false and change nothing for a missing name | not executed | Engine.DeleteMissingFunctionAsWritten | Engine.Session.DeleteFunction |
| calc/calc.cpp:166-187 | after a name, the whitespace test sits in the else branch of the name test, so the whitespace falls through to the token-start checks and becomes an Unknown token | "a +1" | whitespace after a name ends the name and is a whitespace token | not executed | Lexer.SpaceAfterNameAsWritten | Lexer.LexShapes |
| trunk/varwidget.cpp:42 | a digit is dropped only at the first position of the input, not when nothing has been kept yet, so a digit can lead the result | "-1" gives "1" | the result is always an identifier | not executed | Naming.CheckNameLeadingDigit | Naming.CheckNameFixed |
| trunk/funcswidget.cpp:98-127 | suffix numbers are collected with duplicates ("newVar1" and "newVar01" both give 1), so the walk for the first gap stops early | ["newVar", "newVar2", "newVar1", "newVar01"] gives "newVar2", which is in use | the proposed name is not in use | not executed | Naming.FindNameDuplicateSuffix | Naming.FindNameFixedIsFree |
