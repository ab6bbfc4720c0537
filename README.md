# Liza lexer, modelled in Dafny

This project models the lexer of the Liza scripting language. The lexer is a byte-level
tokenizer. It keeps a cursor over a `[]byte` buffer that ends in a 0 sentinel, along with a
current byte and a one-byte lookahead. Each pass through its switch classifies the current
byte, appends tokens to `Tokens` and errors to `Errors`, advances the cursor, and repeats
until the last token is `EOF`.

The project has six modules:

- `Utils` (`utils.dfy`): the byte predicates `IsLetter` and `IsDigit` of package `utils`.
- `Token` (`token.dfy`): the token kinds of package `token` and the string constant behind
  each (`Name`). Also the `Token` record, the one-byte `SymbolMap` and the `KeyWords` list.
- `LexSpec` (`lexspec.dfy`): a pure reference for the lexer over a value snapshot `Scan`
  (cursor, line, tokens, errors).
  - `Dispatch` is one pass through the switch of `NextToken`.
  - `IdStep`, `NumberStep` and `StringStep` are the three sub-scanners.
  - `Lex` is the driver: dispatch, then the stop test, then step and repeat.
  - A run ends in one of three `Outcome`s:
    - `Finished`: the last token is EOF.
    - `IndexOutOfRange`: the stop test indexes an empty token list, which panics in Go.
    - `NoClosingQuote`: a string is never closed, so the scanner would spin for ever.
- `Lexer` (`lexer.dfy`): the `Lexer` class with the source's fields and methods. Each method
  is proved to compute its reference function. `NextToken` is proved to compute
  `Lex` over the snapshot of the object's state.
- `LexProps` (`props.dfy`): what the lexer promises, proved about the reference. This covers:
  - the shape of one dispatch step and of a whole run;
  - when a run finishes: exactly when every string is closed and the first byte appends a
    token, and then with EOF exactly once and last;
  - the first-byte panic;
  - maximal munch for words and operators;
  - the string and word round-trips;
  - the newline and tab handling;
  - line counting;
  - a worked example.
- `IntendedNumber` (`intended.dfy`): the number scanner with the guard its lookahead test
  implies. Under that guard, integers and decimal fractions round-trip (see Findings).

The model follows the code. Where the language's documented behaviour describes more than
the code does, the model follows the code and leaves the extra behaviour out:

- escape sequences in strings;
- line counting inside strings;
- a diagnostic for an unterminated string;
- `Int` and `Float` tokens for numbers.

## Model

| member | source | states |
|---|---|---|
| Utils.LetterCount | utils/utils.go:3-5 | IsLetter holds for exactly 53 byte values: `a`-`z`, `A`-`Z` and `_` |
| Utils.DigitCount | utils/utils.go:7-9 | IsDigit holds for exactly 10 byte values, `0`-`9` |
| Utils.LetterDigitDisjoint | utils/utils.go:3-9 | no byte is both a letter and a digit |
| Utils.SeparatorsAreNotWordBytes | utils/utils.go:3-9 | 0, space, tab, newline, `"` and `.` are neither letters nor digits |
| Token.NameRoundTrip | token/token.go:11-42 | every kind's constant string maps back to that kind, so the strings are pairwise distinct |
| Token.NameInjective | token/token.go:11-42 | two kinds have equal constant strings iff they are the same kind, so comparing strings in the stop test is comparing kinds |
| Token.SymbolMapSize | token/token.go:44-62 | SymbolMap has exactly 17 keys, and `;` maps to NewInstruction, the kind a newline gets |
| Token.SymbolMapKeys | token/token.go:44-62 | every key is a non-zero byte value that is not a letter, digit, space, tab, newline or `"`, so no earlier case of the switch claims it |
| Token.QuoteKindsNotInSymbolMap | token/token.go:24-25 | SingleQuote and DoubleQuote are not values of SymbolMap |
| Token.KeyWordsDistinct | token/token.go:63 | KeyWords holds 10 pairwise distinct spellings |
| Token.KeyWordsAreLetters | token/token.go:63 | every keyword is non-empty and made of lower-case letters, each satisfying IsLetter, so the word scanner can produce it |
| LexSpec.LetterRunMaximal | lexer/lexer.go:113-120 | the letter run at an index holds only letters and is followed by a non-letter |
| LexSpec.LetterRunStops | lexer/lexer.go:113-120 | in a buffer ending in the 0 sentinel every letter run ends inside the buffer, so the word loop stops |
| LexSpec.FindQuoteFirst | lexer/lexer.go:162-165 | FindQuote returns a double quote, or the end of the buffer, and no double quote lies before it |
| LexSpec.NumberScan | lexer/lexer.go:131-141 | the number loop stops inside the buffer, never past its start on the sentinel |
| LexSpec.ParseInt64NeedsDigit | lexer/lexer.go:150 | a parse succeeds only on text that holds a decimal digit |
| LexSpec.NumberTextShape | lexer/lexer.go:131-141 | the number loop's text is a letter or a dot followed only by dots, so it holds no digit |
| LexSpec.NumberTextNotInt | lexer/lexer.go:149-154 | the integer parse of that text always fails, so the Int token is never appended |
| LexSpec.NumberStepFails | lexer/lexer.go:128-157 | the number step as written always returns an error for its text, and appends an Invalid `NaN` token exactly when that text holds a dot and nothing otherwise |
| LexSpec.IdStep | lexer/lexer.go:111-126 | the word step keeps line and errors and leaves the cursor inside the letter run |
| LexSpec.StringStep | lexer/lexer.go:159-167 | a string step that ends leaves the cursor on a closing double quote after the opening one, with line and errors unchanged |
| LexSpec.NumberStep | lexer/lexer.go:128-157 | the number step keeps line and errors, and moves the cursor forward but not onto the sentinel |
| LexSpec.Dispatch | lexer/lexer.go:45-94 | the cursor moves forward and stays in the buffer, it stays before the sentinel unless it started there, and the 0 byte always yields a final EOF token |
| LexSpec.Lex | lexer/lexer.go:95-98 | the cursor never moves back, and a finished run ends with an EOF token |
| Lexer.Lexer.New | lexer/lexer.go:31-42 | the cursor is at 0 on line 1 with the first two bytes as current and lookahead, no tokens and no errors; requires two bytes |
| Lexer.Lexer.NextChar | lexer/lexer.go:23-29 | Pos grows by exactly 1, CurChar becomes the old CharAfter, and CharAfter is refreshed only while in bounds; the cursor invariant is kept |
| Lexer.Lexer.NewToken | lexer/lexer.go:101-109 | Tokens becomes the old Tokens plus one token with the given kind and payload, the current Line and the File |
| Lexer.Lexer.HandleIdOrKeyword | lexer/lexer.go:111-126 | the new state is IdStep of the old: one token whose payload is the maximal letter run, with the cursor on its last byte |
| Lexer.Lexer.HandleNumber | lexer/lexer.go:128-157 | the new state and the returned error are NumberStep of the old state |
| Lexer.Lexer.HandleString | lexer/lexer.go:159-167 | the new state is StringStep of the old: one String token holding the bytes strictly between the quotes, with the cursor on the closing quote |
| Lexer.Lexer.Switch | lexer/lexer.go:45-94 | one pass through the switch computes Dispatch on the snapshot of the state |
| Lexer.Lexer.NextToken | lexer/lexer.go:44-99 | from any state whose strings ahead are all closed, the final state and outcome are exactly Lex of the initial snapshot, and the outcome is not NoClosingQuote |
| LexProps.DigitScansNothing | lexer/lexer.go:131 | entered on a digit, the number loop collects nothing and does not move |
| LexProps.SentinelDispatch | lexer/lexer.go:46-47 | the 0 byte appends the EOF token with payload 0 and changes nothing else |
| LexProps.DigitDispatch | lexer/lexer.go:52-57 | a digit appends no token, leaves the cursor in place and records the error for the empty text |
| LexProps.DispatchShape | lexer/lexer.go:45-94 | per step: the line grows iff the byte is a newline; at most one token; none iff blank or digit; it is stamped with the line and file; it is EOF iff the byte is 0 and Invalid iff no case claims the byte; errors are appended for a digit or an unclaimed byte only |
| LexProps.DispatchPayload | lexer/lexer.go:86-93 | an unclaimed byte becomes an Invalid token carrying that byte, and a SymbolMap key that does not start a two-byte operator becomes its SymbolMap kind carrying that byte |
| LexProps.StepShape | lexer/lexer.go:95-98 | a step from a state without EOF keeps the old outputs, and the stop test agrees with the run's shape |
| LexProps.StepKeepsNoEOF | lexer/lexer.go:45-98 | a step off a non-zero byte never ends on EOF, and a step that does not stop the run keeps EOF out of the token list |
| LexProps.ExtendsTrans | lexer/lexer.go:95-98 | keeping earlier tokens and errors composes over steps |
| LexProps.LexOutput | lexer/lexer.go:95-98 | a run keeps the earlier outputs and appends only emittable kinds of the file; no token but the last is EOF; it finishes iff the last token is EOF, emitted on a 0 byte; IndexOutOfRange only with no tokens |
| LexProps.PanicsOnFirstByte | lexer/lexer.go:95 | from the initial state the stop test indexes an empty slice iff the first byte is a space, tab or digit |
| LexProps.DispatchNone | lexer/lexer.go:74-76 | a step fails exactly when the byte is a double quote with no later double quote, where the string loop would not stop |
| LexProps.TabSkipHarmless | lexer/lexer.go:80-85 | after a non-EOF token, a run from a tab equals the run from the next byte |
| LexProps.NewlineStep | lexer/lexer.go:77-83 | a newline appends NewInstruction with payload `\n` on the old line and counts a line, and the run goes on from the next byte whether or not a tab follows |
| LexProps.OperatorMunch | lexer/lexer.go:58-73 | `<`, `>`, `!`, `=` followed by `=` give one two-byte token and consume both bytes; followed by anything else they give their SymbolMap kind |
| LexProps.StringRoundTrip | lexer/lexer.go:159-167 | a payload without `"` written between two quotes comes back verbatim as one String token, with the cursor on the closing quote |
| LexProps.LetterRunIs | lexer/lexer.go:113-120 | n letters followed by a non-letter are a letter run of length exactly n |
| LexProps.WordRun | lexer/lexer.go:113-120 | a word of letters followed by a non-letter is the letter run at its start |
| LexProps.WordRoundTrip | lexer/lexer.go:111-126 | a word of letters followed by a non-letter comes back whole as one token, with the cursor on its last letter |
| LexProps.LetterDispatch | lexer/lexer.go:49-50 | a letter under the cursor is dispatched to the word scanner, whose run ends inside the buffer |
| LexProps.IdStepWord | lexer/lexer.go:111-126 | the word step over a run equal to a given word emits that word |
| LexProps.Newlines | lexer/lexer.go:77-79 | a range holds no more newlines than bytes |
| LexProps.NewlinesSplit | lexer/lexer.go:77-79 | newline counts add up over adjacent ranges |
| LexProps.ShortStep | lexer/lexer.go:45-94 | outside words and strings a step moves at most one byte, and only over a `=` or a tab, and the line grows iff the byte is a newline |
| LexProps.LetterLines | lexer/lexer.go:113-120 | a run of letters holds no top-level newline |
| LexProps.LetterStepLines | lexer/lexer.go:111-126 | a word step keeps the line and passes over no top-level newline |
| LexProps.QuoteDispatch | lexer/lexer.go:74-76 | a double quote moves the cursor to the next double quote, before the sentinel, and keeps the line |
| LexProps.QuoteLines | lexer/lexer.go:159-167 | a string step passes over no top-level newline, whatever the string holds |
| LexProps.ShortStepLines | lexer/lexer.go:77-85 | any other step passes over exactly the newline of its own byte, if any, and counts it |
| LexProps.StepLines | lexer/lexer.go:45-94 | every step off a non-zero byte grows the line by exactly the top-level newlines it passes over |
| LexProps.LexLines | lexer/lexer.go:77-79 | a run that finishes has grown the line counter by exactly the top-level newlines from its start: those outside strings, up to the first 0 |
| LexProps.LineCount | lexer/lexer.go:31-42 | every terminated program that finishes ends on line 1 plus its number of top-level newlines |
| LexProps.LetterClosed | lexer/lexer.go:113-120 | a run of letters holds no double quote and no 0, so whether the strings ahead are closed is the same before and after it |
| LexProps.LetterStepClosed | lexer/lexer.go:111-126 | a word step keeps whether the strings ahead are closed |
| LexProps.QuoteStepClosed | lexer/lexer.go:159-167 | a string step jumps from the opening quote past its closing one, keeping whether the strings ahead are closed |
| LexProps.ShortStepClosed | lexer/lexer.go:45-94 | any other step off a non-zero byte keeps whether the strings ahead are closed |
| LexProps.ShortClosed | lexer/lexer.go:77-85 | passing over a byte that is neither a double quote nor 0, and then perhaps over a `=` or a tab, keeps whether the strings ahead are closed |
| LexProps.StepClosed | lexer/lexer.go:45-94 | every step off a non-zero byte leaves the cursor before the sentinel and keeps, in both directions, whether the strings ahead are closed |
| LexProps.ClosedRunsEnd | lexer/lexer.go:159-167 | a run whose strings ahead are all closed never reaches a string loop that does not stop |
| LexProps.OpenRunsStuck | lexer/lexer.go:162-165 | once a token other than EOF is out, a run with an unclosed string ahead reaches it and spins there |
| LexProps.RunFinishes | lexer/lexer.go:95-98 | once a token other than EOF is out, a run finishes iff every string ahead is closed |
| LexProps.TokenStep | lexer/lexer.go:45-98 | a step off a byte that appends a token leaves a non-empty list without EOF, goes on from the next byte and keeps closedness |
| LexProps.FirstStepFinishes | lexer/lexer.go:44-99 | when the first byte appends a token, the run from the start finishes iff every string is closed |
| LexProps.ClosedFinishes | lexer/lexer.go:44-99 | a terminated program finishes iff its strings are all closed and its first byte is neither a blank nor a digit, and it then ends with exactly one EOF token, the last |
| LexProps.StringFreeLines | lexer/lexer.go:77-79 | with no double quote and no 0 before the sentinel, the top-level newlines are all the newlines |
| LexProps.StringLinesRun | lexer/lexer.go:159-167 | the program made of a string holding a newline and then a newline finishes |
| LexProps.StringLinesExample | lexer/lexer.go:159-167 | that program has two newlines, one of them top-level, and it finishes on line 2: the newline inside the string is not counted |
| LexProps.DigitsExample | lexer/lexer.go:131 | the program `a 42` lexes to Identifier `a` and EOF, with two NotANumber errors for the empty text on line 1 |
| LexProps.DigitsExampleWord | lexer/lexer.go:111-126 | the first steps of that run emit Identifier `a` and skip the blank |
| LexProps.DigitsExampleNumber | lexer/lexer.go:128-157 | the remaining steps record one error per digit and end on EOF |
| LexProps.KeywordIsWholeWord | lexer/lexer.go:121 | the keyword test is on the whole word: `if` is a Keyword and `iff` an Identifier |
| IntendedNumber.IntendedNumberScan | lexer/lexer.go:131-141 | the corrected number loop stops inside the buffer, not before its start |
| IntendedNumber.FirstDotFindsDot | lexer/lexer.go:130-135 | the first dot lies inside the text exactly when the text holds a dot, so testing the first dot is the `hasDot` flag |
| IntendedNumber.ParseDecimalFloat | lexer/lexer.go:142-143 | a float parse that succeeds is of a text with a dot, and its scale is the number of bytes after the first dot |
| IntendedNumber.IntendedNumberStep | lexer/lexer.go:128-157 | the corrected number step keeps line and errors and moves the cursor forward inside the buffer |
| IntendedNumber.ParseDigits | lexer/lexer.go:150 | an unsigned digit run holds no dot, and parses to its decimal value when that fits in 64 bits and fails otherwise |
| IntendedNumber.DigitAt | lexer/lexer.go:136 | every byte of a digit text is a digit |
| IntendedNumber.DigitRunScan | lexer/lexer.go:131-141 | the corrected loop collects a whole run of digits and dots and stops on its last byte |
| IntendedNumber.ScanOfDigits | lexer/lexer.go:131-141 | the corrected loop collects a digit run followed by a non-digit, non-dot whole |
| IntendedNumber.IntendedStepOfDigits | lexer/lexer.go:149-154 | a collected digit text yields the Int token of its decimal value or, beyond the 64-bit range, an error and no token |
| IntendedNumber.IntendedNumberRoundTrip | lexer/lexer.go:128-157 | a digit run followed by a non-digit, non-dot becomes one Int token of its decimal value with the cursor on its last digit; an overflow is an error and no token |
| IntendedNumber.FortyTwoIntended | lexer/lexer.go:131 | under the corrected loop `42` lexes to the Int 42 |
| IntendedNumber.NoDotFirstDot | lexer/lexer.go:130-135 | a text without a dot has its first dot at its end, so `hasDot` stays false |
| IntendedNumber.FloatRoundTrip | lexer/lexer.go:128-148 | digits, a dot and digits, followed by a non-digit, non-dot, become one Float token whose mantissa is all the digits and whose scale is the number of digits after the dot, with the cursor on the last byte and no error |
| IntendedNumber.FloatOfScan | lexer/lexer.go:142-144 | once the loop has collected digits, a dot and digits, the step appends that Float token and returns no error |
| IntendedNumber.ScanOfParts | lexer/lexer.go:131-141 | the corrected loop collects digits, a dot and digits whole and stops on the last byte |
| IntendedNumber.DigitsOfParts | lexer/lexer.go:136 | two digit texts joined are a digit text |
| IntendedNumber.PartsAreNumberBytes | lexer/lexer.go:131-136 | digits, a dot and digits are bytes the corrected loop accepts |
| IntendedNumber.FloatOfParts | lexer/lexer.go:142-143 | the text a.b has its first dot after a and parses with mantissa the digits of a and b and scale the length of b |
| IntendedNumber.SplitAtDot | lexer/lexer.go:130-135 | a dot-free a followed by a dot and b splits at its first dot back into a and b |
| IntendedNumber.FirstDotAfter | lexer/lexer.go:130-135 | the first dot of a dot-free prefix followed by more text lies in the rest |
| IntendedNumber.TwoDotsFail | lexer/lexer.go:142-147 | a text with a second dot fails the float parse, so it becomes Invalid `NaN` and an error |
| IntendedNumber.AllDigitsNoDot | lexer/lexer.go:136 | a digit text holds no dot |
| IntendedNumber.DecimalConcat | lexer/lexer.go:143 | the mantissa of a.b is the value of a times 10 to the length of b plus the value of b, so mantissa over 10^scale is the number a.b spells |
| IntendedNumber.OneAndAHalfIntended | lexer/lexer.go:143-144 | under the corrected loop `1.5` lexes to the Float with mantissa 15 and scale 1 |

## Left out

- LexSpec.NumberStep: in the scanner as written, the successful branch of `strconv.ParseFloat`
  (lexer/lexer.go:143-144) is not modelled. The text that reaches it is a letter or dot
  followed only by dots (LexSpec.NumberTextShape). That `strconv.ParseFloat` rejects every
  such text is assumed, not proved: `NumberStep` builds the failure in, and
  LexSpec.NumberStepFails rests on it.
- IntendedNumber.ParseDecimalFloat: models `strconv.ParseFloat` only on the texts the corrected
  loop collects (digits and dots). It gives the exact value as a mantissa over a power of ten,
  not the rounded float64. It does not model the range error beyond about 1.8e308, or the
  exponent, hexadecimal, underscore, `Inf` and `NaN` forms, which that loop never collects.
- Error messages built with `fmt.Errorf` are not modelled. Each error is a `LexError` value
  carrying the offending byte or text and the line.
- The `any`-typed token payload is the `Literal` datatype: a byte, a byte string, an integer,
  an exact decimal fraction, or the 0 that EOF carries.
- `main.go` is not part of this model. Its calling convention is kept in two places:
  - the `Terminated` precondition: a buffer of two or more bytes ending in the 0 sentinel;
  - `New` followed by `NextToken`.
- The Go panic from `Tokens[len(Tokens)-1]` on an empty slice is the outcome
  `IndexOutOfRange`, not a crash.
- Lexer.Lexer.HandleString: requires a later double quote, because without one the loop at
  lexer/lexer.go:162-165 never stops. A run that would reach that case is the outcome
  `NoClosingQuote` of `Lex`. `NextToken` requires every string ahead of the cursor to be
  closed (`Closed`), which rules that outcome out (ClosedRunsEnd).
- Lexer.Lexer.HandleIdOrKeyword: requires that the letter run ends inside the buffer.
  Otherwise the stale lookahead keeps the loop running. With the sentinel this always holds
  (LetterRunStops).
- Lexer.Lexer.HandleNumber: the Int-token branch after a successful `strconv.ParseInt`
  (lexer/lexer.go:154) is dead (NumberTextNotInt). The method keeps the branch and proves it
  unreachable, so the `NewToken(Int, …)` call is not written out in it.
- Lexer.Lexer.NextToken: the stop test compares kinds rather than their constant strings.
  NameInjective shows the two tests agree.
- Lexer.Lexer.NextToken: modelled as a loop rather than a tail call. It ends in the same
  state.
- The class and `Lex` use the number scanner as written. The corrected scanner in
  `IntendedNumber` is a separate step and is not wired into the driver.
- The `SymbolMap` lookup at lexer/lexer.go:87 indexes a `map[rune]TokenType` with the `byte`
  `CurChar`. Go does not convert a `byte` to a `rune` map key implicitly, so the line does not
  type-check as written. The model gives it the evidently meant `SymbolMap[rune(CurChar)]`:
  it looks up the byte's value as an integer key.
- Text conversion of byte strings for the keyword test (`Chars`) reads each byte as one
  character. There is no UTF-8 decoding.

## Findings

| source | as written | input that shows it | evidently intended | confidence | as-written member | corrected member |
|---|---|---|---|---|---|---|
| lexer/lexer.go:131 | the number loop runs while the current byte `IsLetter` or is `.`, but it is entered only on a digit | `a 42`: each digit records the error for the empty text, and no Int token is appended | the loop runs while the current byte `IsDigit` or is `.`, as the lookahead test on line 136 does, so `42` becomes the Int 42 | high; not executed | LexProps.DigitsExample | IntendedNumber.IntendedNumberRoundTrip |
