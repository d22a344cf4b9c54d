# Lexer of the OCR ERL interpreter, in Dafny

This project models the lexer of the ERL interpreter. The lexer turns a line of
arithmetic such as `5.75 * (3 + 4)` into tokens: the operators `+ - * /`, the
brackets `( )`, and `Integer` and `Float` numbers. The repository holds the
lexer twice, and both versions are modelled.

- **src.js** holds the strict lexer. Spaces are skipped. The first
  unrecognised character aborts the scan with an `UnexpectedCharacterError`,
  and so does a second full stop inside one number. The error carries the
  whole text, the index of the offending character and that character. It
  renders as the text, a line break, and a caret under that index.
- **testing.js** holds the earlier lexer. It never fails. An unrecognised
  character is reported on the console and skipped. A number with a second
  full stop ends just after that full stop and yields nothing, and the token
  list then holds an empty entry.

The model has five modules, one file each:

- `Tokens` (tokens.dfy) holds the token classes as one datatype and the
  character classes.
- `Numerals` (numerals.dfy) covers runs of digits and full stops: the
  full-stop count, the maximal run, and decimal value and spelling.
- `Errors` (errors.dfy) holds `Error.display` and
  `UnexpectedCharacterError.message` as methods. `Display` carries the source's
  loop that writes the spaces before the caret.
- `StrictLexer` (strict_lexer.dfy) holds the `Lexer` class of src.js.
- `EarlyLexer` (early_lexer.dfy) holds the `Lexer` class of testing.js.

Each `Lexer` is a Dafny class. It has the fields `input`, `position` and
`character`, and methods `Continue`, `MakeNumber` and `MakeTokens` with the
loops of the source. Each method is proved against a specification function of
the input: `ScanNumber` for `make_number`, and `LexFrom` for `make_tokens` from
a given index. The properties are lemmas about those functions. They cover:

- where errors arise;
- the one-to-one operator mapping;
- the classification of integers and floats;
- a round trip: well-formed tokens, spelt out with any spacing that keeps
  adjacent numbers apart, lex back to exactly those tokens;
- that the earlier lexer agrees with the strict one wherever the strict one
  succeeds;
- the two example runs at the end of testing.js.

src.js and testing.js know only spaces, digits, full stops and `+ - * / ( )`.
A tab, a line break, a letter or a quote is an unexpected character to the
strict lexer, and the earlier lexer skips it.

## Model

| member | source | states |
|---|---|---|
| Tokens.OperatorToken | src.js:119-130 | each of `+ - * / ( )` becomes a symbol token that is spelt by that very character |
| Tokens.SymbolRoundTrip | src.js:119-130 | the reverse direction: each of the six symbol tokens comes from exactly one operator character, so the mapping is one-to-one |
| Numerals.RunEnd | src.js:142-151 | the scan loop stops at the end of the maximal run of digits and full stops: every character before the stop is a digit or a full stop, and the one at the stop is neither (or the input has ended) |
| Numerals.RunEndUnique | src.js:142-151 | any index that closes such a run from `i` is the one `RunEnd` finds |
| Numerals.DotsZero | src.js:144-145 | the `fullStops` counter is zero exactly when the run holds no full stop |
| Numerals.DotIndex | src.js:144-148 | the `n`-th full stop of a run is a full stop with exactly `n` full stops before it |
| Numerals.DotIndexUnique | src.js:144-148 | a full stop with exactly `n` full stops before it is the `n`-th one |
| Numerals.Dots | src.js:144-145 | the `fullStops` counter after reading a string: never more than its length |
| Numerals.DecimalBounds | src.js:153 | `Number(...)` of a digit string, modelled exactly by `DecimalValue`: below `10^n` for `n` digits, and at least `10^(n-1)` when the first digit is not zero |
| Numerals.NumberTokenKind | src.js:152-155 | the choice made after the loop (also testing.js:118-122): `Integer` exactly when the run holds no full stop, `Float` exactly when it holds one, and a `Float` keeps the run as its lexeme |
| Numerals.DecimalRoundTrip | src.js:152-153 | reading the decimal spelling of `n` back as digits gives `n` |
| Errors.Spaces | src.js:70-73 | `n` spaces: length `n`, and a space at every index |
| Errors.Display | src.js:69-75 | `display()` is the text, a line break, exactly `position` spaces and `^`; its length is `|text| + position + 2`, it starts with the text and ends with the caret |
| Errors.Message | src.js:84-86 | `message()` is `Unexpected character: '`, the character, `'`, a line break and then `display()` |
| StrictLexer.Lexer.constructor | src.js:92-97 | a new lexer stands on index 0 with `character` the first character, or null for empty input |
| StrictLexer.Lexer.Continue | src.js:99-106 | `continue()` moves `position` on by exactly one; `character` becomes the character there, and null exactly when `position` reaches the input length; the cursor stays within `0..|input|` |
| StrictLexer.Lexer.MakeNumber | src.js:139-156 | `make_number()` returns what `ScanNumber` gives for its start index and stops where `ScanNumber` stops; on an error the cursor rests on the second full stop |
| StrictLexer.Lexer.MakeTokens | src.js:108-137 | `make_tokens()` returns exactly `LexFrom(input, start)`: the token list with the cursor at the end of the input, or the first error, with the cursor resting on the offending character |
| StrictLexer.LexFrom | src.js:108-137 | a token list has at most one token per remaining character; an error carries the whole text, an index at or after the start and inside the text, and the character found at that index |
| StrictLexer.ScanNumber | src.js:139-156 | `make_number` succeeds exactly when the maximal run of digits and full stops holds at most one full stop; it then stops at the end of that run with an `Integer` exactly when the run has no full stop; otherwise the error names a full stop strictly inside the run with exactly one full stop before it, with character `.` |
| StrictLexer.Lex | src.js:169 | `new Lexer(s).make_tokens()`: at most one token per character, and an error names an index of `s` and the character found there |
| StrictLexer.ScanNumberFacts | src.js:142-151 | a successful scan stops at the end of the maximal run and consumes at least its first character; an error names a full stop strictly inside the run |
| StrictLexer.ScanInteger | src.js:142-153 | a maximal run of digits scans as `Integer` holding the decimal value of those digits |
| StrictLexer.ScanFloat | src.js:142-155 | digits, one full stop and digits, up to the end of the run, scan as `Float` with exactly that lexeme |
| StrictLexer.SecondDotError | src.js:144-148 | a full stop inside a run, with exactly one full stop before it, is where the error is reported, with character `.` |
| StrictLexer.ScanSecondDot | src.js:144-148 | after digits, a full stop and digits, the next full stop is reported at its own index, whatever follows it |
| StrictLexer.SecondDotExample | src.js:113-116 | `1.2.3` gives no token list, only the error at index 3 with character `.`: `make_tokens` passes the error of `make_number` on unchanged |
| StrictLexer.ErrorCharacter | src.js:131-132 | an error names either a full stop or a character the lexer does not recognise, and every character before it is recognised |
| StrictLexer.UnrecognisedFails | src.js:131-132 | any unrecognised character ahead means no token list: the scan fails at that character or earlier |
| StrictLexer.StrayFullStopFails | src.js:131-132 | a full stop that does not continue a run of digits and full stops, such as a leading one, also means no token list: the scan fails there or earlier |
| StrictLexer.OnlyOperators | src.js:110-130 | text of operators, brackets and spaces lexes to one token per non-space character, in source order |
| StrictLexer.LexWellFormed | src.js:142-155 | every token the lexer returns is well formed: a `Float` lexeme starts with a digit and holds exactly one full stop |
| StrictLexer.SkipSpaces | src.js:111 | a stretch of spaces contributes nothing: lexing before it gives what lexing after it gives |
| StrictLexer.TokenAt | src.js:112-130 | a well-formed token spelt at `i`, then text that lexes to the remaining tokens, lexes to that token followed by those tokens |
| StrictLexer.RenderSplit | src.js:108-137 | where the first rendered token sits: after its spaces, with the rendering of the rest following it |
| StrictLexer.RenderedToken | src.js:108-137 | in a rendering of separated tokens, the first token is spelt after its spaces; a number's spelling is not followed by a digit or a full stop; and the rest of the text renders the remaining tokens, still separated |
| StrictLexer.SpeltLexes | src.js:108-137 | text that spells tokens one after another lexes to exactly those tokens |
| StrictLexer.RenderSpelt | src.js:108-137 | a rendering of well-formed, separated tokens spells those tokens |
| StrictLexer.LexRender | src.js:108-156 | round trip: well-formed tokens, spelt with any spacing that keeps adjacent numbers apart, lex back to exactly those tokens |
| StrictLexer.CanonicalSpelling | src.js:108-156 | whatever text lexes successfully can be spelt again with one space before each token, and that spelling lexes to the same tokens |
| EarlyLexer.Lexer.constructor | testing.js:65-70 | a new lexer stands on index 0 |
| EarlyLexer.Lexer.Continue | testing.js:72-79 | `continue()` moves `position` on by exactly one, and `character` becomes null exactly at the end of the input |
| EarlyLexer.Lexer.MakeNumber | testing.js:108-126 | `make_number()` returns what `ScanNumber` gives for its start index and stops where `ScanNumber` stops |
| EarlyLexer.Lexer.MakeTokens | testing.js:81-106 | `make_tokens()` always returns a list, and that list is exactly `LexFrom(input, start)`, with the cursor at the end of the input |
| EarlyLexer.LexFrom | testing.js:81-106 | the list has at most one entry per remaining character |
| EarlyLexer.ScanNumberFacts | testing.js:108-126 | this `make_number` yields a token exactly when the maximal run holds at most one full stop, and then stops at its end with an `Integer` exactly when the run has no full stop; otherwise it yields nothing and stops just after the full stop that has exactly one full stop before it |
| EarlyLexer.Lex | testing.js:130-133 | `new Lexer(s).make_tokens()`: at most one entry per character, and never empty when `s` holds a digit |
| EarlyLexer.DigitGivesEntry | testing.js:83-87 | a digit anywhere ahead of the cursor leaves at least one entry in the list |
| EarlyLexer.Step | testing.js:84-103 | a character other than a digit adds at most one entry: one exactly when it is an operator or bracket, and that entry is the token spelt by the character |
| EarlyLexer.ScanAgreesWithStrict | testing.js:111-125 | where the strict scan succeeds, this scan yields the same token and stops at the same index; where the strict scan reports a second full stop, this one consumes that full stop and yields nothing |
| EarlyLexer.ScanProgress | testing.js:111-117 | a scan that starts on a digit consumes at least one character and never runs past the input |
| EarlyLexer.ScanEnds | testing.js:111-125 | where the loop guard stops the scan, `ScanNumber` stops as well: with the token for the run, or with nothing right after a second full stop |
| EarlyLexer.OtherStep | testing.js:84-103 | a character other than a digit adds its operator token, or nothing for a space or an unrecognised character, and the scan goes on with the next character |
| EarlyLexer.AgreesWithStrict | testing.js:81-106 | wherever the strict lexer returns a token list, this lexer returns the same tokens, in order, with no empty entry |
| EarlyLexer.ScanIgnoresUnrecognised | testing.js:100-103 | putting a space in place of an unrecognised character changes no number scan |
| EarlyLexer.UnrecognisedActsAsSpace | testing.js:100-103 | an unrecognised character adds nothing and the scan continues past it: the list is the one the text gives with a space in its place |
| EarlyLexer.TwoDots | testing.js:111-125 | a run of digits, a full stop, digits and a second full stop adds one empty entry, and the scan resumes right after the second full stop |
| EarlyLexer.TwoDotsExample | testing.js:111-125 | `1.2.3` lexes to an empty entry and then `Integer 3` |
| EarlyLexer.SumExample | testing.js:130-131 | `2+3-4` lexes to `Integer 2, Add, Integer 3, Minus, Integer 4` |
| EarlyLexer.MixedExample | testing.js:132-133 | `5.75 * 6.234 + 4 / 79 * (3.14 + 2.17)` lexes to thirteen tokens: `Float 5.75, Multiply, Float 6.234, Add, Integer 4, Divide, Integer 79, Multiply, LeftBracket, Float 3.14, Add, Float 2.17, RightBracket` |

## Left out

- `Shell` (src.js:159-176) is a console driver with an empty `get_input`. Its misspelt `construcor {` (src.js:160) is a syntax error in a class body, so src.js as written does not parse and its lexer never runs; the model describes the lexer as the code states it.
- The top-level `new Run(...)` call (src.js:178) refers to a class that does not exist.
- The `console.log` calls are output, and output is not modelled. In testing.js:101 and testing.js:124 they mean only that no token is produced. testing.js:131 and testing.js:133 print the two example results, which the example lemmas state instead.
- `Number(...)` in `make_number` converts to a JavaScript double. An `Integer` is modelled by the exact natural number its digits spell, so the loss of precision above 2^53 is not modelled. A `Float` keeps its lexeme rather than a rounded binary value.
- A JavaScript string is indexed by UTF-16 code units, while a Dafny `string` is a sequence of Unicode scalar values. For a character outside the Basic Multilingual Plane, such as an emoji, src.js reports the lone high surrogate at that index as its `character`, while the model reports the whole character. In testing.js such a character takes two skipped passes of the loop rather than one. Inputs made only of characters from the Basic Multilingual Plane behave the same.
- `Number(...)` of a digit run whose value exceeds the largest double (about 1.8 × 10^308, so every run of 310 or more digits that does not start with 0, by `DecimalBounds`) is `Infinity` in JavaScript. The model's `Integer` holds the exact, finite value instead.
- JavaScript tells `null` from `undefined`. Reading past the end of the input gives `undefined`, and every test the lexers make treats it like `null`, so both are modelled as `None`.
- The entry that `make_number` in testing.js leaves after a second full stop is `undefined`. It is modelled as `None` in a list of `Option<Token>`.
- Each `new Add()` is a fresh object. Tokens are modelled as values, so object identity is not captured.
- old/randomtest.js averages `Math.random` samples in floating point. It is not part of this model.
- testing copy.js is not part of this model.
- The class hierarchy `Token`, `Error` and `UnexpectedCharacterError` is flattened into datatypes. `number instanceof Error` in `make_tokens` becomes a test on the `Result` datatype.
