# k9s log syntax highlighter, modelled in Dafny

This project models the log-line highlighter of k9s
(`internal/color/log_syntax.go`). The highlighter holds three fixed keyword
tiers: error, warning and info. It colours a line of log text by the first
tier that has a keyword occurring in the line: red for error, yellow for
warning, blue for info. A line with no keyword but with an ASCII digit is
green. Any other line comes back unchanged. Matching is case-sensitive
containment of a contiguous substring. There are two entry points with the
same behaviour: `Highlight` works on a Go string and `HighlightBytes` on a
byte slice.

Layout:

- `bytes.dfy` (module `Bytes`): the `byte` type. Go strings and byte slices
  are both `seq<byte>`, because Go's `string(b)` and `[]byte(s)` copy bytes
  unchanged. `FromAscii` gives the bytes of an ASCII literal.
- `search.dfy` (module `Search`): the `Contains` specification of substring
  search. `IndexOf` is a scan that finds the first occurrence; it stands in
  for `strings.Contains`/`bytes.Contains`. `ContainsAny` stands in for
  `strings.ContainsAny`. Also holds lemmas about containment.
- `log_syntax.dfy` (module `LogSyntax`): the keyword tables and
  `NewLogSyntaxHighlighter`. The functional specification is an ordered
  rule list (`Rules`, `FirstMatch`, `Classify`). `Highlight` and
  `HighlightBytes` are written as loops over the keyword lists, in the same
  order as the Go code. Each is proved equal to the specification.
- `log_syntax_properties.dfy` (module `LogSyntaxProperties`): lemmas that
  relate several lines or several highlighters, plus representative lines.

The external renderer `Colorize(text, color)` is a parameter
`colorize: (seq<byte>, Color) -> seq<byte>`, and nothing is assumed about
it. So "the result is `colorize(content, Red)`" says exactly that the whole,
unmodified line was handed to the renderer with that colour.

## Model

| member | source | states |
|---|---|---|
| LogSyntax.NewLogSyntaxHighlighter | internal/color/log_syntax.go:18-25 | the default highlighter has ten error keywords, four warning keywords and two info keywords, and none of them is empty |
| LogSyntax.FirstMatch | internal/color/log_syntax.go:31-58 | the checks are an ordered rule list where the first rule that fires decides the colour: the result is unstyled exactly when no rule fires, and otherwise has the colour of a firing rule with no firing rule before it |
| LogSyntax.Classify | internal/color/log_syntax.go:28-59 | any error keyword gives red, whatever else the line holds; otherwise a warning keyword gives yellow; otherwise an info keyword gives blue; otherwise a digit gives green; otherwise the line is unstyled |
| LogSyntax.Highlight | internal/color/log_syntax.go:28-59 | the string entry point returns the whole line coloured red, yellow, blue or green by the tier rule (error > warning > info > digit), or the line itself when nothing matches; this equals the rendering of `Classify` |
| LogSyntax.HighlightBytes | internal/color/log_syntax.go:62-94 | the byte-slice entry point obeys the same tier rule on the raw bytes, and its result equals the rendering of `Classify` |
| LogSyntax.EntryPointsAgree | internal/color/log_syntax.go:62-94 | for every line, `HighlightBytes` returns exactly the bytes that `Highlight` returns for the same content |
| LogSyntax.DigitsAreDigits | internal/color/log_syntax.go:53 | looking for any character of "0123456789" is the same as looking for an ASCII decimal digit |
| Search.IndexOf | internal/color/log_syntax.go:33 | the keyword search returns -1 exactly when the keyword is not a contiguous substring; otherwise it returns the offset of the keyword's first occurrence |
| Search.ContainsAny | internal/color/log_syntax.go:53 | the digit scan reports true exactly when some byte of the line is one of the given characters |
| Search.AsciiContains | internal/color/log_syntax.go:67 | searching the bytes of an ASCII keyword (`[]byte(keyword)`) in the bytes of an ASCII line finds exactly what searching the text finds |
| LogSyntaxProperties.TierOrderIrrelevant | internal/color/log_syntax.go:32-50 | two highlighters whose tiers hold the same keywords, in any order and with any repetition, classify every line the same way |
| LogSyntaxProperties.EmptyLineUnstyled | internal/color/log_syntax.go:57-58 | when no keyword is empty, the empty line is returned unstyled |
| LogSyntaxProperties.DefaultWarnTierReduces | internal/color/log_syntax.go:22 | in the default warning tier, "WARNING" and "warning" add nothing: the tier fires exactly when "WARN" or "warn" occurs |
| LogSyntaxProperties.ExtendingNeverLowersTier | internal/color/log_syntax.go:28-59 | adding text before or after a line never moves it to a lower-priority colour |
| LogSyntaxProperties.DefaultTiersOnAscii | internal/color/log_syntax.go:21-23 | for an ASCII line, each default tier fires on the line's bytes exactly when one of its keyword literals occurs in the line's text, and the digit test fires exactly when the text has a character in '0'..'9' |
| LogSyntaxProperties.ErrorLineIsRed | internal/color/log_syntax.go:31-36 | "connection error at line 42" is red, even though it also holds digits |
| LogSyntaxProperties.WarningLineIsYellow | internal/color/log_syntax.go:38-43 | "WARNING: disk almost full" is yellow |
| LogSyntaxProperties.InfoLineIsBlue | internal/color/log_syntax.go:45-50 | "INFO starting service" is blue |
| LogSyntaxProperties.NumberedLineIsGreen | internal/color/log_syntax.go:52-55 | "retry attempt 3" has no keyword but has a digit, so it is green |
| LogSyntaxProperties.HealthyLineIsPlain | internal/color/log_syntax.go:57-58 | "service is healthy" is returned unchanged |
| LogSyntaxProperties.EmptyLineIsPlain | internal/color/log_syntax.go:57-58 | the default highlighter returns the empty line unchanged |

## Left out

- `Colorize` and the colours `Red`, `Yellow`, `Blue` and `Green` are defined outside this file. They appear as the `Color` tags and as a `colorize` parameter. No escape-sequence format is assumed.
- Go's `strings.Contains`, `bytes.Contains` and `strings.ContainsAny` belong to the standard library and are not part of this model. The model keeps only their results. `IndexOf` returns the offset that `strings.Index` would return, and containment is that offset being `>= 0`. `ContainsAny` is byte-set membership. The library's search algorithms are not modelled.
- `strings.ContainsAny` works on UTF-8 runes. The model scans bytes instead. For the ASCII digit set the two agree, because in UTF-8 an ASCII byte is never part of a multi-byte rune, and invalid bytes decode to U+FFFD, which is not a digit.
- The `*LogSyntaxHighlighter` method receiver, heap allocation and the aliasing of `HighlightBytes`' result with its input on no match are not modelled. The result is compared by value. The entry points take the highlighter as a value, so their contracts hold for any keyword tables, not only for the default ones.
- The comments about speed ("fast string matching", "avoid string conversion") describe performance only, so the model ignores them.
- LogSyntax.NewLogSyntaxHighlighter: its contract states only the tier sizes and that no keyword is empty. The exact literals are the `ErrorWords`, `WarnWords` and `InfoWords` constants that it encodes, and `LogSyntaxProperties.DefaultTiersOnAscii` states what they mean for a line.
