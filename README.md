# humansize in Dafny

A model of the Go package `humansize` (parser.go): a parser for data-size
expressions such as `100MB`, `1.5GiB` or `10EB`, and a formatter that turns
a byte count back into a `<number><unit>` string.

- `Grammar` restates the two regular expressions of the package as
  predicates on strings: `measurePattern` (a unit token, possibly empty,
  `MeasurePattern`) and `sizePattern` (a number `[0-9]+|[0-9]*\.[0-9]+`
  followed by an optional unit token, `SizePattern`). It proves that every
  size expression splits into number and unit in one way only.
- `Measuring` is `compileMeasuring`: the multiplier 1024^0 .. 1024^6 picked
  by the case-folded first character of a token. It also holds the unit
  ladder `defaultMeasure` and proves that both agree on what each letter
  means.
- `Literal` gives the value of a number literal and says when
  `strconv.ParseFloat(_, 64)` fails: when the correctly rounded float64
  would be +Inf.
- `Parser` has `ReadableSize` (an immutable record: the input verbatim, the
  multiplier, the compiled size), `Compile`, `MustCompile`,
  `ValidateMeasure` and `GetCompiledInMeasure`.
- `Formatting` is `BytesToSize`: a method whose loop walks up
  `defaultMeasure`, dividing by 1024, proved against the function
  `LadderIndex`, which picks the first unit where the size is below 1024.
- `Cases` pins the concrete expectations of parser_test.go.

Only `bytes` and `Bytes` are accepted as the byte word, so `BYTES` is
rejected; a bare `i` or `I` is accepted, with multiplier 1.

`compileMeasuring` looks at the first byte of the token. The model looks at
its first character instead. The two agree on every input. A token that
passed the grammar starts with an ASCII letter. For any other token, Go
turns a non-ASCII lead byte into a Latin-1 rune, and no Latin-1 rune
lower-cases to k, m, g, t, p or e.

## Model

| member | source | states |
|---|---|---|
| Grammar.MeasurePattern | parser.go:13 | `measurePattern`, one disjunct per alternative; a token it accepts has at most five characters and, unless empty, starts with `b`/`B`, `i`/`I` or a prefix letter. |
| Grammar.MeasurePatternIsUnitForm | parser.go:13 | The alternation accepts exactly: the empty token, `b`, `B`, `bytes`, `Bytes`, a bare `i`/`I`, or a prefix letter (`kmgtpe`, either case) followed by nothing, an `i`, a `b`, or `i` then `b` (each in either case). |
| Grammar.TokenStartsWithLetter | parser.go:13 | No non-empty unit token starts with a digit or a dot. |
| Grammar.NumberChars | parser.go:14 | Every character of a number literal `[0-9]+` or `[0-9]*\.[0-9]+` is a digit or a dot. |
| Grammar.NumberPattern | parser.go:14 | The number group `[0-9]+` or `[0-9]*\.[0-9]+`; a literal it accepts is non-empty and ends with a digit, so `5.` is not a number. |
| Grammar.NumberEnd | parser.go:14 | The end of the longest prefix made of digits and dots: every character before it is a digit or a dot, and the character at it is neither. |
| Grammar.SizePattern | parser.go:14 | `sizePattern`: some split of the input is a number followed by a unit token; then the character just before the unit token is a digit. |
| Grammar.SplitIsUnique | parser.go:14 | If the input is a number followed by a unit token, the number ends exactly at NumberEnd, so the split is unique. |
| Grammar.SizePatternAtNumberEnd | parser.go:14 | `sizePattern` matches exactly when the split at NumberEnd gives a number and a unit token. |
| Measuring.ToLower | parser.go:77 | The lower-cased character is never an ASCII capital; a character that is not an ASCII capital is unchanged; a capital maps to the letter that upper-cases back to it. |
| Measuring.CompileMeasuring | parser.go:70-93 | The multiplier is at least 1 and one of 1024^0 .. 1024^6; the empty token gives 1. |
| Measuring.FirstCharDetermines | parser.go:77 | Two non-empty tokens with the same lower-cased first character get the same multiplier. |
| Measuring.MultiplierFollowsLadder | parser.go:70-93 | The multiplier of every token is 1024 raised to the index of the `defaultMeasure` entry with the same upper-cased first letter ("KiB" and "KB" both give 1024^1), or 1024^0 when no entry has it. |
| Measuring.DefaultMeasureUnits | parser.go:17 | `defaultMeasure` has seven units starting at `B`; every unit is a token of the unit grammar, and the unit at index i compiles back to 1024^i, so each unit BytesToSize prints parses to its own step. |
| Measuring.MultiplierOneTokens | parser.go:70-93 | Among grammar tokens, the multiplier is 1 exactly for "", `b`, `B`, `bytes`, `Bytes`, `i`, `I`; every token starting with a prefix letter has a multiplier of at least 1024. |
| Literal.DigitsValue | parser.go:101 | The value of a string of digits is below 10 to its length. |
| Literal.DotIndex | parser.go:101 | The index of the first dot: no dot before it, a dot at it when it is inside the string. |
| Literal.NumberParts | parser.go:14 | A number literal is digits before its first dot and, when a dot is present, digits after it; there is no dot exactly when the literal matches `[0-9]+`. |
| Literal.LiteralValue | parser.go:101 | The exact value of a number literal is never negative. |
| Literal.FractionLiteralValue | parser.go:101 | A literal written as digits w, a dot and digits f is a number whose value is w plus f over 10 to the length of f. |
| Literal.DottedLiteral | parser.go:14 | Digits, a dot and at least one digit form a fraction literal whose first dot is after the whole digits. |
| Literal.LiteralParts | parser.go:101 | The value of a literal whose first dot is at d is its digits before d plus those after d over the matching power of 10. |
| Literal.FirstDotAt | parser.go:101 | A dot with no dot before it is the first dot. |
| Literal.NoDotInInteger | parser.go:14 | A literal of the form `[0-9]+` has no dot. |
| Literal.DotAfterDigits | parser.go:14 | A dot after nothing but digits is the first dot. |
| Literal.FractionBelowOne | parser.go:101 | The digits after the dot stand for a value in [0, 1). |
| Literal.LiteralBelowPower | parser.go:101 | A literal is below 10 to the number of its digits before the dot. |
| Literal.Overflows | parser.go:101-103 | ParseFloat's range error: the literal's value is at least 2^1024 - 2^970, where round-to-nearest-even gives +Inf; such a literal has more than 12 digits before its dot. |
| Literal.ShortLiteralFits | parser.go:101 | A literal with at most 12 digits before its dot is below the float64 overflow threshold. |
| Literal.SmallIntegerFits | parser.go:101 | ParseFloat never reports a range error for an integer literal below 2^53. |
| Parser.Compiled | parser.go:19-24 | A `ReadableSize` as Compile builds it: the input matches `sizePattern`, `measure` is one of the seven powers and an exact compiled size is never negative. `GetInput` and `GetMeasure` (parser.go:27-35) are the fields `input` and `measure`. |
| Parser.CompiledFrom | parser.go:101-103 | An exact compiled value is never negative and equals the literal's value times the multiplier. |
| Parser.Compile | parser.go:97-114 | On success the input matches `sizePattern`, `input` is the argument verbatim, `measure` is one of the seven powers and an exact compiled value is never negative. On failure the error is "unsupported data size format". |
| Parser.CompileFollowsSplit | parser.go:97-114 | For any split of the input into a number and a unit token, Compile fails exactly when the number overflows float64. Otherwise it returns the input, `compileMeasuring` of that token, and the product. |
| Parser.CompileSucceedsExactlyOnGrammar | parser.go:97-114 | Compile succeeds if and only if the input is a number followed by a unit token and the number does not overflow float64. |
| Parser.ExactIntegerProduct | parser.go:101-108 | For an integer literal n below 2^53 followed by any unit token, Compile returns the input verbatim, the token's multiplier, and exactly n times that multiplier. |
| Parser.ShortNumberCompiles | parser.go:97-114 | A number of at most 12 characters followed by a unit token always compiles, with the token's multiplier. |
| Parser.NumberRequired | parser.go:97-114 | The empty input and every bare unit token (`b`, `Bytes`, `MB`, ...) fail to compile. |
| Parser.MustCompile | parser.go:119-127 | Callable exactly when Compile succeeds (otherwise it panics); then it returns Compile's result, a record as Compile builds it, with the input verbatim and a valid multiplier. |
| Parser.ValidateMeasure | parser.go:130-136 | True exactly for the non-empty tokens of the unit grammar. |
| Parser.GetCompiledInMeasure | parser.go:57-66 | Succeeds exactly for the tokens of the unit grammar, the empty one included; otherwise the error is "unsupported measure format". An exact result times the token's multiplier gives back the compiled size. |
| Parser.Quotient | parser.go:60 | Dividing by one of the seven multipliers keeps a quantity exact exactly when it was exact, and multiplying the quotient by the divisor gives back the quantity. |
| Parser.InOwnMeasureRoundTrip | parser.go:57-66 | An integer size below 2^53, read back in its own unit, gives back the literal (`10KiB` read in `KiB` is 10). |
| Formatting.LadderFrom | parser.go:150-155 | Climbing from index k stops at an index i with k <= i <= 6, where the size is below 1024 of unit i unless i is the last unit, and is at least 1024 of every unit passed. |
| Formatting.LadderIndex | parser.go:150-155 | The chosen unit index is at most 6. Below the last unit, the size is below 1024 of the chosen unit. The size is at least 1024 of every smaller unit. |
| Formatting.LadderIndexUnique | parser.go:150-155 | Any index with LadderIndex's two properties is LadderIndex. |
| Formatting.ScaledStep | parser.go:154 | Climbing one unit divides the magnitude by 1024. |
| Formatting.MagnitudeIsHumanScale | parser.go:150-155 | Above "B", the rendered magnitude is at least 1, and below 1024 unless the unit is "EB". |
| Formatting.BytesToSize | parser.go:140-158 | Zero gives "0B". Any other size gives the magnitude size / 1024^i, rendered at the requested precision with unit `defaultMeasure[i]`, where i is LadderIndex(size). The "unable convert" error is never returned. |
| Cases.ValidateMeasureCases | parser_test.go:147-159 | "MB", "mb", "GiB", "pib", "b" and "i" validate; "MBN", "Bites", "BYTES" and "" do not. |
| Cases.EmptyMeasureAsymmetry | parser.go:131 | The empty token is refused by ValidateMeasure but accepted by GetCompiledInMeasure, with multiplier 1, so the result is the compiled size itself. |
| Cases.NumberCases | parser.go:14 | ".5", "10" and "1000.500" are numbers; "5.", "." and "" are not. |
| Cases.PlainNumberCase | parser_test.go:49-55 | "1024" compiles with multiplier 1 to exactly 1024. |
| Cases.ByteWordCases | parser_test.go:63-69 | "10" with `b`, `B`, `bytes` or `Bytes` compiles with multiplier 1 to exactly 10. |
| Cases.KiloCases | parser_test.go:70-76 | "10" with every listed spelling of kilobytes compiles with multiplier 2^10 to exactly 10240. |
| Cases.MegaCases | parser_test.go:77-83 | "10" with every listed spelling of megabytes compiles with multiplier 2^20 to exactly 10 * 2^20. |
| Cases.GigaCases | parser_test.go:84-90 | "10" with every listed spelling of gigabytes compiles with multiplier 2^30 to exactly 10 * 2^30. |
| Cases.TeraCases | parser_test.go:91-97 | "10" with every listed spelling of terabytes compiles with multiplier 2^40 to exactly 10 * 2^40. |
| Cases.PetaCases | parser_test.go:98-104 | "10" with every listed spelling of petabytes compiles with multiplier 2^50 to exactly 10 * 2^50. |
| Cases.ExaCases | parser_test.go:105-111 | "10" with every listed spelling of exabytes compiles with multiplier 2^60 to exactly 10 * 2^60. |
| Cases.FractionValue | parser_test.go:112-118 | The literal "1000.500" is a number with value 1000.5. |
| Cases.FractionCase | parser_test.go:112-118 | "1000.500MB" compiles verbatim with multiplier 2^20 to a rounded float64 product (its value is not modelled). |
| Cases.DoubledPrefixRejected | parser_test.go:23-29 | "10MMB" does not compile, so MustCompile cannot be called on it (it panics). |
| Cases.LadderCases | parser_test.go:182-186 | 512 stays in "B"; 2 * 2^20 is 2 "MB"; 1.5 * 2^30 is 1.5 "GB"; 2^40 is 1 "TB"; 0.5 * 2^50 is 512 "TB". |
| Cases.ExabyteCase | parser_test.go:187 | 2.596 * 2^60 is 2.596 "EB". |

## Left out

- Regular-expression matching itself: both patterns are predicates, and the groups that `FindStringSubmatch` returns are the split at `NumberEnd`.
- Parser.CompiledFrom: the float64 rounding of a literal is not modelled. The compiled size is exact (`Exact`) only for integer literals below 2^53. For those, float64 and `big.Float` multiplication by a power of two are exact. Any other literal gives `FloatRounded`, which carries no value. The model therefore does not state the value of fractional literals such as "1000.500MB".
- Literal.Overflows: ParseFloat's range error is stated as "the value is at least 2^1024 - 2^970", the point at which round-to-nearest-even gives +Inf. An underflow to zero is not an error, and the model agrees.
- `Get`, `GetRaw` and `GetCompiledUInt64`: these convert a `big.Float` to `big.Int`, to `big.Float` or, with saturation, to `uint64`. They are lossy numeric conversions and are not modelled. `GetInput` and `GetMeasure` are the datatype's fields `input` and `measure`.
- Parser.GetCompiledInMeasure: the `float64` result is an `Exact` quotient only when the compiled size is exact. The division of a rounded size is not modelled. For a record that Compile did not build, `Exact` means the real quotient, which need not be a float64. The fields are unexported, so the only such record a caller can obtain is the zero value `ReadableSize{}` (input "", measure 0, compiled nil); `GetCompiledInMeasure`, `Get` and `GetRaw` panic on its nil `*big.Float` (parser.go:60). The model has no nil and does not represent that value, so it does not capture that panic.
- Formatting.BytesToSize: `math.Pow`, `math.Round` and `strconv.FormatFloat` are not modelled. The result is the pair (magnitude, precision, unit) to be rounded and printed, or the verbatim "0B". Because of this, the "1024.0MB instead of 1.0GB" rounding boundary is not captured.
- Formatting.BytesToSize: the size is a real number, so NaN and the infinities of float64 are not modelled. For every finite size the model is exact, because dividing a float64 of at least 1024 by 1024 is exact.
- MustCompile's panic is a precondition instead of a run-time abort.
- The parser_test.go harness itself. Only its expected values appear, as lemmas in `Cases`.
