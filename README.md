# extract-abbreviation, modelled in Dafny

A model of the abbreviation extractor from emmetio/extract-abbreviation. Given one
line of text and a caret, the extractor walks left from the caret over the
characters an Emmet abbreviation may hold. It keeps a stack of close braces still
waiting for their open partner, stops at the left edge of the abbreviation, strips
leading operators and returns the abbreviation with its location, or nothing.

The project has six modules:

- `Wrappers` (`wrappers.dfy`): the `Option` datatype.
- `Reader` (`reader.dfy`): the backward `StreamReader` class with its mutable cursor
  `pos` and `sol`, `peek`, `prev`, `eat`, `eatWhile`.
- `Quotes` (`quotes.dfy`): `isQuote` and `eatQuoted`. The method is proved against
  `OpeningQuote`, a function stating where a quoted literal opens.
- `Abbreviation` (`abbreviation.dfy`): the default export of `index.js`.
  - It covers caret clamping, the look-ahead `offsetPastAutoClosed`, the scan loop
    and the result, with the character classes `isAbbreviation`, `isOpenBrace`,
    `isCloseBrace` and `has`.
  - The loop is the method `Scan`, proved against the function `Run`.
  - `Extract` composes them and is proved against `ExtractSpec`.
- `Intended` (`intended.dfy`): the scan as its tests evidently intend it (see
  Findings). Its results are proved balanced, and running it again on what it
  found finds the same text.
- `Examples` (`examples.dfy`): the asserted cases of `test/extract.js` and
  `test/quotes.js`, on the code as written and on the corrected scan.

Lines are sequences of UTF-16 code units. `charCodeAt` outside the string gives the
sentinel `NaN` (-1), which equals no code unit. The same sentinel stands for the
`undefined` that `prev` returns at the start of the line.

`index.js` imports neither `isHTMLTag` nor `isQuote`; the model assumes both are in
scope. lib/is-html.js is not part of this model: `isHTMLTag` is a parameter
`isTag(line, pos)`, and the examples that meet a `>` state what they assume of it.
`isQuote` in `index.js` is taken from `lib/quotes.js`.

The scan loop does not always terminate. Suppose `]` or `}` is pending and the
current character is not a brace. Then `continue` skips `state.pos--` and the loop
repeats the same pass forever. The model makes this an outcome: `Run` returns
`Stuck`, and the extractor returns `NeverReturns`. `StuckLoopSpins` and
`StoppedLoopExits` relate this to the loop counted pass by pass (`Iterate`).

In several places the tests expect a result where the code, as written, hangs or
returns nothing. The model follows the code and records each case under Findings.

## Model

| member | source | states |
|---|---|---|
| Reader.CharCodeAt | lib/stream-reader.js:17 | `charCodeAt` gives the sentinel exactly outside the string, and the code unit inside it |
| Reader.Accepts | lib/stream-reader.js:27-29 | a literal matches only its own code and never the sentinel (`===`); a function matcher is simply called on the peeked code |
| Reader.StreamReader.constructor | lib/stream-reader.js:7-10 | a new reader holds the string, with its cursor at the end of it |
| Reader.StreamReader.Sol | lib/stream-reader.js:12-14 | start of line holds exactly when the cursor is 0 |
| Reader.StreamReader.Peek | lib/stream-reader.js:16-18 | the code unit at `pos - 1 + offset`, or NaN outside the string; being a function it cannot move the cursor |
| Reader.StreamReader.Prev | lib/stream-reader.js:20-24 | at start of line it returns the undefined sentinel and stays at 0; otherwise the cursor drops by exactly one and the result is the code unit at the new cursor |
| Reader.StreamReader.Eat | lib/stream-reader.js:26-36 | the cursor drops by one exactly when the matcher accepts the peeked code, and stays otherwise; with no start-of-line guard a literal can never match at 0; a consumed unit lies in the string and is accepted |
| Reader.StreamReader.EatWhile | lib/stream-reader.js:38-42 | for a matcher that rejects NaN or some unit left of the cursor: true exactly when the cursor ended below its start; it never goes below 0; every unit passed is accepted; the unit now left of the cursor is rejected |
| Quotes.IsQuote | lib/quotes.js:16-18 | `'` and `"` are quotes; a quote is ASCII, never the backslash and never the sentinel |
| Quotes.FindOpening | lib/quotes.js:30-34 | the nearest unescaped copy of the quote left of a cursor; every copy in between is escaped; None means every copy is escaped |
| Quotes.OpeningQuote | lib/quotes.js:25-39 | fails when the cursor is at start of line or the unit left of it is not a quote; on success the opening quote equals the closing one, lies at or before `start - 2`, has no backslash before it, and every copy in between is escaped; failure otherwise means no unescaped copy exists |
| Quotes.EatQuoted | lib/quotes.js:25-39 | returns true exactly when `OpeningQuote` finds an opening quote, and then leaves the cursor on it; on failure the cursor is back at its start |
| Abbreviation.IsOpenBrace | index.js:115-117 | `[`, `(` and `{` are open braces; an open brace is no close brace, no abbreviation character, no operator and no quote |
| Abbreviation.IsCloseBrace | index.js:119-121 | `]`, `)` and `}` are close braces; a close brace is no abbreviation character, no operator, no quote and never the sentinel |
| Abbreviation.IsAbbreviation | index.js:108-113 | every ASCII letter and digit and every special character is accepted; whatever is accepted is printable ASCII, no quote and not `>` |
| Abbreviation.Has | index.js:104-106 | a value is never found in an empty stack and always found on top of it |
| Abbreviation.LooksAhead | index.js:40 | look-ahead is on for `null`/`undefined` and for a boolean exactly when it is true, off for anything else |
| Abbreviation.IsOperator | index.js:71 | `>` is an operator, and every operator is an abbreviation character or `>` |
| Abbreviation.BracePair | index.js:15-18 | `bracePairs` sends `[`, `(`, `{` to `]`, `)`, `}` |
| Abbreviation.ClampCaret | index.js:38 | a missing caret becomes the line length; any other caret is clamped to `[0, len]` |
| Abbreviation.SkipCloseBraces | index.js:92-95 | the end of the maximal run of close braces: every unit passed is a close brace and the unit after it is not |
| Abbreviation.AutoClosedEnd | index.js:86-98 | `p <= q <= len`; at most one quote at `p` is skipped, then a maximal run of `]`, `)`, `}`, so the unit at `q` (if any) is not a close brace |
| Abbreviation.OffsetPastAutoClosed | index.js:86-98 | the loop computes `AutoClosedEnd` |
| Abbreviation.CaretEnd | index.js:38-42 | the scan starts within the line, at or right of the clamped caret, with only quotes and close braces in between; without look-ahead it starts at the clamped caret |
| Abbreviation.Step | index.js:49-65 | one pass of the loop body: a close brace is pushed and passed; an open brace pops and is passed exactly when the popped value is its partner; the pass stays in place exactly for a non-brace while `]` or `}` is pending; otherwise the stack is kept and the unit is passed exactly when it is passable |
| Abbreviation.Run | index.js:48-66 | the scan loop as a function of its state; when it stops, it stops at or left of where it began |
| Abbreviation.RunStopsLeft | index.js:48-66 | every unit a stopping scan stepped over is a brace, a `>` for which `isHTMLTag` is false, or an abbreviation character (ASCII letter, digit or one of `#.*:$-_!@%^+`) |
| Abbreviation.RunStopsAtEdge | index.js:51-63 | a scan stops only at the left edge: at the start of the line, at an open brace, or at a unit that is no close brace and that it may not step over |
| Abbreviation.RunKeepsCloseBraces | index.js:51-57 | the stack only ever holds close-brace codes |
| Abbreviation.UnexpectedBraceStops | index.js:53-56 | an open brace whose partner is not the popped value stops the scan without moving, the top already popped |
| Abbreviation.OpaqueZoneSticks | index.js:58-60 | any non-brace met while `]` or `}` is pending leaves the loop repeating forever |
| Abbreviation.RunOverAbbreviation | index.js:61-65 | outside `[...]` and `{...}` a stretch of abbreviation characters is passed without touching the stack |
| Abbreviation.Iterate | index.js:48-66 | the loop counted pass by pass: each pass moves the cursor at most one place left, and the loop is still running only away from the start of the line |
| Abbreviation.StoppedLoopExits | index.js:48-66 | a stopping scan is the loop leaving within `pos` passes, at the same position and with the same stack |
| Abbreviation.StuckLoopSpins | index.js:58-60 | a stuck scan is the loop still running after any number of passes |
| Abbreviation.StripOperators | index.js:71 | the result is a suffix of its input that does not start with `*`, `+`, `>` or `^`, and every unit removed is one of them |
| Abbreviation.StripKeepsSuffix | index.js:71-74 | what is left after stripping is the tail of the scanned text that ends at the scan start |
| Abbreviation.Outcome | index.js:68-76 | nothing is returned unless the scan stopped with an empty stack away from its start, and then the result is `line[location..end]` with no operator in front; the call never returns exactly when the scan is stuck |
| Abbreviation.ExtractSpec | index.js:36-77 | what the extractor finds ends at the scan start and has no operator in front |
| Abbreviation.FoundSpan | index.js:68-75 | a result needs an empty stack and a scan that moved; the abbreviation is `line[location..end]` with no operator in front, and only operators lie between the stop and `location` |
| Abbreviation.FoundAbbreviation | index.js:48-75 | a returned abbreviation is `line[location..end]` with `0 <= location <= end <= len`, no leading operator, only operators stripped and only passable units in it; the scan stopped at the start of the line, at an open brace, or at a unit it may not step over |
| Abbreviation.FoundWhen | index.js:68-77 | a result comes back exactly when the scan stops with an empty stack away from `end`; the call never returns exactly when the scan is stuck |
| Abbreviation.Scan | index.js:44-66 | the `while` loop over `pos` and the brace stack computes `Run` from the scan start with an empty stack |
| Abbreviation.Extract | index.js:36-77 | the default export computes `ExtractSpec`: clamp, optional look-ahead, scan, result |
| Intended.IsAbbreviationIntended | index.js:108-113 | the corrected class holds every abbreviation character and `/`; whatever it holds is printable ASCII and no quote, brace or `>` |
| Intended.StepIntendedPasses | index.js:49-65 | away from a `>`, the corrected body steps over a unit exactly when it is a close brace, a matching open brace, a unit inside a pending `]`/`}` or a corrected abbreviation character, and its new stack is the pending braces |
| Intended.StepIntended | index.js:48-66 | the corrected loop body never stays in place |
| Intended.RunIntended | index.js:48-66 | the corrected scan always stops, at or left of where it began |
| Intended.RunIntendedOverAbbreviation | index.js:61-65 | outside `[...]` and `{...}` abbreviation characters, `/` among them, are passed without touching the stack |
| Intended.RunIntendedInsideZone | index.js:58-60 | while `]` or `}` is pending, every non-brace is passed without touching the stack |
| Intended.ExtractIntended | index.js:36-77 | the corrected extractor always returns, and never an empty abbreviation |
| Intended.RunIntendedPending | index.js:51-57 | the corrected stack is exactly the close braces still unmatched in the text the scan passed |
| Intended.PendingSkipsPrefix | index.js:71 | a prefix without braces leaves what is pending unchanged |
| Intended.StripKeepsBalance | index.js:71 | stripping leading operators keeps a balanced text balanced |
| Intended.IntendedFoundBalanced | index.js:68-75 | a corrected result is `line[location..end]` with no operator in front, and every brace in it has its partner |
| Intended.RunIntendedPassed | index.js:48-66 | a corrected scan that got past a stretch without `>` stepped over each of its units with the braces pending after it |
| Intended.RunIntendedThrough | index.js:48-66 | on a text it steps over throughout, the corrected scan reaches the start with the braces of the whole text pending |
| Intended.PassedSlice | index.js:48-66 | what a scan stepped over, cut out of the line, is stepped over as a text of its own |
| Intended.ReExtractsPassed | index.js:36-77 | a non-empty balanced text without `>` that the scan steps over and that starts with no operator is found whole, at 0 |
| Intended.IntendedReExtracts | index.js:36-77 | running the corrected extractor on what it found, caret at the end, finds the same text at 0 (for text without `>`) |
| Examples.OperatorsOnly | index.js:68-74 | a scan that stopped having passed only operators yields the empty abbreviation at the scan start |
| Examples.ScanPlain | index.js:58-65 | over plain units back to a stop, the scan ends there with an empty stack |
| Examples.ScanBracketIntended | index.js:51-65 | the corrected scan passes an abbreviation with one `[...]` or `{...}` group and stops where the abbreviation begins |
| Examples.WholeLineScan | test/extract.js:22 | on `.bar` the scan stops at 0 |
| Examples.WholeLine | test/extract.js:22 | `.bar` gives `.bar` at 0 |
| Examples.SpaceStopsScan | test/extract.js:23 | on `.foo .bar` the scan stops at 5 |
| Examples.SpaceStops | test/extract.js:23 | `.foo .bar` gives `.bar` at 5 |
| Examples.AtSignScan | test/extract.js:24 | on `.foo @bar` the scan stops at 5 |
| Examples.AtSign | test/extract.js:24 | `.foo @bar` gives `@bar` at 5 |
| Examples.NonAsciiStopsScan | test/extract.js:26 | on `текстdiv` the scan stops at 5 |
| Examples.NonAsciiStops | test/extract.js:26 | `текстdiv` gives `div` at 5 |
| Examples.OperatorsScan | test/extract.js:31 | on `a foo+bar.baz` the scan stops at 2 |
| Examples.Operators | test/extract.js:31 | `a foo+bar.baz` gives `foo+bar.baz` at 2 |
| Examples.ChildOperatorScan | test/extract.js:32 | on `a foo>bar+baz*3` the scan stops at 2 when `isHTMLTag` is false at its `>` |
| Examples.ChildOperator | test/extract.js:32 | `a foo>bar+baz*3` gives `foo>bar+baz*3` at 2 when `isHTMLTag` is false at its `>` |
| Examples.NotATagScan | test/extract.js:43 | on `foo>bar` the scan stops at 0 when `isHTMLTag` is false at its `>` |
| Examples.NotATag | test/extract.js:43 | `foo>bar` gives `foo>bar` at 0 when `isHTMLTag` is false at its `>` |
| Examples.TagStopsScan | test/extract.js:44 | on `<foo>bar` the scan stops at 5 when `isHTMLTag` accepts `<foo>` |
| Examples.TagStops | test/extract.js:44 | `<foo>bar` gives `bar` at 5 when `isHTMLTag` accepts `<foo>` |
| Examples.OnlyOperatorsScan | index.js:71-74 | on `a ++` the scan stops at 2 |
| Examples.OnlyOperators | index.js:71-74 | `a ++` gives the empty abbreviation located at the caret, since everything passed was an operator |
| Examples.OnlyOperatorsRerun | index.js:68-75 | as written, the empty text that `a ++` gives is not found again |
| Examples.AttributesHangScan | test/extract.js:36 | as written, the scan from the caret in `a foo[bar]` (caret before `]`) is stuck |
| Examples.AttributesHang | test/extract.js:36 | as written, `a foo[bar]` with the caret before `]` never returns |
| Examples.TextHangsScan | test/extract.js:48 | as written, the scan from the caret in `foo{bar}` (caret before `}`) is stuck |
| Examples.TextHangs | test/extract.js:48 | as written, `foo{bar}` with the caret before `}` never returns |
| Examples.StylesheetScan | test/extract.js:49 | with look-ahead off, the scan on `foo{bar}` from before `}` passes `bar` and stops at the `{` with an empty stack |
| Examples.Stylesheet | test/extract.js:49 | `foo{bar}` with the caret before `}` and an options object as third argument gives `bar` at 4, as the test asserts; with look-ahead on the same line hangs (`TextHangs`) |
| Examples.SlashRefusedScan | test/extract.js:25 | as written, on `.foo img/` the scan stops at once |
| Examples.SlashRefused | test/extract.js:25 | as written, `.foo img/` gives nothing |
| Examples.MismatchReturnsUnbalancedScan | index.js:53-56 | as written, on `x(]` the scan stops at 2 with an empty stack |
| Examples.MismatchReturnsUnbalanced | index.js:53-56 | as written, `x(]` gives `]` at 2, which is not balanced |
| Examples.MismatchRerun | index.js:68-75 | as written, the `]` that `x(]` gives is not found again: its `]` stays pending |
| Examples.AttributesIntendedScan | test/extract.js:36 | corrected, the scan on `a foo[bar]` stops at 2 |
| Examples.AttributesIntended | test/extract.js:36 | corrected, `a foo[bar]` with the caret before `]` gives `foo[bar]` at 2 |
| Examples.TextIntendedScan | test/extract.js:48 | corrected, the scan on `foo{bar}` stops at 0 |
| Examples.TextIntended | test/extract.js:48 | corrected, `foo{bar}` with the caret before `}` gives `foo{bar}` at 0 |
| Examples.AttributesMidLineScan | test/extract.js:38 | corrected, the scan on `foo bar[a] baz` stops at 4 |
| Examples.AttributesMidLine | test/extract.js:38 | corrected, `foo bar[a] baz` with the caret before `]` gives `bar[a]` at 4 |
| Examples.QuotedAttributesScan | test/extract.js:37 | corrected, the scan on `a foo[bar="baz" a b]` stops at 2 |
| Examples.QuotedAttributes | test/extract.js:37 | corrected, `a foo[bar="baz" a b]` gives `foo[bar="baz" a b]` at 2 |
| Examples.NonAsciiAttributesScan | test/extract.js:27 | corrected, the scan on `foo div[foo="текст" bar=текст2]` stops at 4 |
| Examples.NonAsciiAttributes | test/extract.js:27 | corrected, `foo div[foo="текст" bar=текст2]` gives `div[foo="текст" bar=текст2]` at 4 |
| Examples.TagBeforeAttributesScan | test/extract.js:42 | corrected, the scan on `<foo>bar[a b="c"]>baz` stops at 5 when `isHTMLTag` accepts `<foo>` and not the later `>` |
| Examples.TagBeforeAttributes | test/extract.js:42 | corrected, `<foo>bar[a b="c"]>baz` gives `bar[a b="c"]>baz` at 5 under the same assumption |
| Examples.SlashIntendedScan | test/extract.js:25 | corrected, the scan on `.foo img/` stops at 5 |
| Examples.SlashIntended | test/extract.js:25 | corrected, `.foo img/` gives `img/` at 5 |
| Examples.MismatchIntendedScan | index.js:53-56 | corrected, the scan on `x(]` stops at 2 with `]` still pending |
| Examples.MismatchIntended | index.js:53-56 | corrected, `x(]` gives nothing |
| Examples.OnlyOperatorsIntendedScan | index.js:48-66 | corrected, the scan on `a ++` stops at 2 |
| Examples.OnlyOperatorsIntended | index.js:68-75 | corrected, `a ++` gives nothing |
| Examples.QuotedScenarios | test/quotes.js:12-31 | ` "foo"` opens at 1; `"foo"` and `""` open at 0; `"a\"b"` steps over the escaped quote to 0; `foo` is not quoted |
| Examples.EatQuotedScenarios | test/quotes.js:12-31 | `eatQuoted` on ` "foo"` succeeds with the cursor at 1; on `foo` it fails with the cursor back at 3 |

## Left out

- The body of `isHTMLTag`: lib/is-html.js is not part of this model. It is the parameter `isTag`, so the outcomes of test/extract.js:42-44 are stated under explicit assumptions about it.
- The `syntax` and `prefix` options and the `start`/`end` result fields: index.js does not implement them. An options object as third argument is neither `null`, `undefined` nor `true`, so it only switches look-ahead off (`LookAhead.Other`). That alone is why test/extract.js:49 gets `bar` at 4 (`Examples.Stylesheet`), not any stylesheet syntax.
- The unused helper `last` (index.js:100-102).
- The regular expression at index.js:71 is replaced by the explicit function `StripOperators`.
- Unicode: code units are integers, and non-ASCII units are simply not abbreviation characters.
- A caret that is not an integer (fractional, NaN, a string) is not modelled: the caret is `Option<int>`, with `None` for `null` and `undefined`.
- `undefined` and `NaN` are one sentinel. Both compare unequal to every code unit, and nothing in the core tells them apart.
- Reader.StreamReader.EatWhile: requires a matcher that rejects `NaN` or some unit left of the cursor. A function matcher that accepts `NaN` and every unit left of the cursor makes the source loop run past the start of the string forever; that case is not modelled. The second case also requires `pos <= |str|`, so a cursor beyond the end of the string with a matcher that accepts `NaN` is refused even when the source loop would stop. The class never reaches that state: the cursor starts at the length of the string and only moves down or back to a value it had before.
- Missing imports: index.js imports neither `isQuote` nor `isHTMLTag`. As written, the look-ahead (on by default) throws a ReferenceError at index.js:88 and reaching a `>` throws one at index.js:61. The model assumes both are imported and does not model the ReferenceError.
- Intended.IntendedReExtracts: proved only for text without `>`. Whether a `>` closes a tag is decided by `isHTMLTag` from the line around it, which is not part of this model.
- Abbreviation.Extract: where the source loops forever, the method returns `NeverReturns`, because a loop that never ends cannot be written here. `StuckLoopSpins` proves the source loop never exits from that state.
- The test scaffolding (babel-register, the caret-marker splicing in test/extract.js:8-17) is not modelled.

## Findings

| source | as written | input that shows it | evidently intended | confidence | as-written member | corrected member |
|---|---|---|---|---|---|---|
| index.js:58-60 | inside `[...]` or `{...}` a non-brace hits `continue` before `state.pos--`, so the loop repeats the same pass forever | `a foo[bar]` with the caret before `]` (test/extract.js:36); likewise test/extract.js:27,37-38,48, and test/extract.js:42 when `isHTMLTag` is false at the `>` at index 17 (cursor 18) | step over every non-brace inside the group; the test expects `foo[bar]` at 2 | high; not executed | Examples.AttributesHang | Examples.AttributesIntended |
| index.js:14 | `/` is missing from `specialChars`, so the scan stops at once and nothing is returned | `.foo img/` (test/extract.js:25) | `img/` at 5 | high; not executed | Examples.SlashRefused | Examples.SlashIntended |
| index.js:53-56 | `stack.pop()` runs before the comparison, so a mismatched open brace removes the pending close brace; the stack is then empty and an unbalanced text is returned | `x(]` gives `]` at 2 | stop with the close brace still pending and return nothing, so every result is balanced | medium, no test covers it; not executed | Examples.MismatchReturnsUnbalanced | Intended.IntendedFoundBalanced |
| index.js:68-75 | the guard only checks that the scan moved, so a text made only of operators is stripped to an empty abbreviation; running the extractor on that result finds nothing, and the same holds for the unbalanced `]` of the previous row (Examples.MismatchRerun) | `a ++` gives the empty text at 4; the empty line gives nothing | return nothing when only operators were found, so that running the extractor again on a result finds the same result | medium, no test covers it; not executed | Examples.OnlyOperatorsRerun | Intended.IntendedReExtracts |
