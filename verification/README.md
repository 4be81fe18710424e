# beautiful-errors: a Dafny model of the console error reporter

The repository installs PHP error and exception handlers. These handlers print
an uncaught error or exception as a coloured console report:

- a red title badge, the message, and the file;
- a syntax-highlighted snippet of the source around the failing line;
- for exceptions, a numbered call trace with coloured arguments.

This project models how `src/Handler.php` builds that text. It proves what the
text looks like for every input.

Modules, one per concern of the handler:

- `Severity` (severity.dfy): the `switch` in `errorHandler` that turns a PHP
  error code into one of six labels. The switch is modelled as its ordered list
  of arms, with fall-through `case` groups and a `default`. PHP's own values of
  the `E_*` constants are used.
- `Style` (style.dfy): `printText`. It puts the line renderer's escape
  prologue before the text and `ANSI_RESET_STYLES` after it. `LEFT_PADDING`
  is defined here too.
- `Text` (text.dfy): the PHP string primitives the handler relies on:
  - `str_replace` with a one-character search string;
  - `implode`;
  - repeated `.=` appends;
  - decimal printing of integers (`%d` and `.`).
- `Trace` (trace.dfy): `buildStackTrace`. Arguments are the tagged variant
  `Arg = Str | Int | Other`, and PHP's real `gettype` names are kept.
- `Handler` (handler.dfy): `buildBaseError`, `errorHandler` and
  `exceptionHandler`.
- `Wrappers` (wrappers.dfy): `Option` and `Result`.

The collaborators are parameters, with no behaviour assumed of them. They are
the Highlighter library's `buildStyleCode`, `ANSI_RESET_STYLES` and
`getSnippet`, and Coduo's `StringConverter`. They appear as the function fields
of `Style.Renderer` and `Handler.Env`. `getSnippet` can throw when the file
cannot be read. It therefore returns a `Result`, and its failure propagates
unchanged through the banner and both handlers.

The colour switch for trace arguments has a `case 'int'` arm meant for
integers. But `gettype` returns `"integer"`, so that arm is never taken, and
integers are coloured light cyan like every other non-string value
(`Trace.NoArgumentIsBlue`).

## Model

| member | source | states |
|---|---|---|
| Severity.DispatchFirstMatch | src/Handler.php:50-78 | switch semantics for any list of arms: the first arm listing the code decides the label; with no arm listing it, the `default` label is used |
| Severity.Classify | src/Handler.php:50-77 | E_PARSE, E_ERROR, E_CORE_ERROR, E_COMPILE_ERROR and E_USER_ERROR give "Fatal Error". E_WARNING, E_USER_WARNING, E_COMPILE_WARNING and E_RECOVERABLE_ERROR give "Warning". E_NOTICE and E_USER_NOTICE give "Notice", E_STRICT gives "Strict", and E_DEPRECATED and E_USER_DEPRECATED give "Deprecated". Each holds in both directions, and every other integer gives "Unknown error" |
| Severity.CoreWarningIsUnknown | src/Handler.php:75-77 | E_CORE_WARNING (32) is listed in no case and is printed as "Unknown error" |
| Severity.LabelTextInjective | src/Handler.php:56-76 | the six labels print as six distinct titles |
| Style.PrintTextBrackets | src/Handler.php:101-104 | every styled unit begins with the prologue for its tags and ends with the reset, and has exactly their lengths plus the content's |
| Style.UnstylePrintText | src/Handler.php:101-104 | round trip: stripping the prologue and the reset from `printText(s, tags)` gives back exactly `s`, whatever `s` contains |
| Style.PrintTextInjective | src/Handler.php:101-104 | units with the same tags are equal only if their contents are |
| Text.Replace | src/Handler.php:127 | a snippet without a newline is left unchanged by the replacement |
| Text.ReplaceLength | src/Handler.php:127 | each replaced newline adds one character less than the replacement's length, and nothing else changes the length |
| Text.ReplaceAppend | src/Handler.php:127 | the replacement works piecewise: replacing in `a + b` equals replacing in `a`, then in `b` |
| Text.RestoreReplace | src/Handler.php:127 | round trip: when the replacement begins with the searched character, collapsing each replacement back gives the original, so no other character changes |
| Text.JoinIsSeparatedConcat | src/Handler.php:177 | `implode(",", ...)` of a non-empty list is its first piece followed by every later piece, each preceded by one separator, in order |
| Text.JoinAppend | src/Handler.php:177 | `implode(",", ...)` puts exactly one separator between neighbouring pieces: adding a piece adds the separator and the piece |
| Text.JoinLength | src/Handler.php:177 | the joined text is all pieces plus `n - 1` separators long |
| Text.NatDecimalRoundTrip | src/Handler.php:147 | the `%d` frame number reads back as the number printed |
| Text.IntDecimalRoundTrip | src/Handler.php:182 | the printed line number, sign included, reads back as the line |
| Trace.RenderArg | src/Handler.php:157-174 | a string argument renders as `printText("\"" + s + "\"", [green])`; every other argument, integers included, renders as `printText(Stringify(arg), [light_cyan])` |
| Trace.NoArgumentIsBlue | src/Handler.php:164-174 | the `'int'` case never matches: no argument is blue, integers are light cyan, and green means exactly "string" |
| Trace.RenderArgs | src/Handler.php:155-175 | the argument array has one rendered entry per argument, in argument order |
| Trace.StringThenIntegerArgs | src/Handler.php:157-177 | the arguments `("hi", 42)` render as the quoted green string, a bare comma, and the stringified integer in light cyan |
| Trace.IndexBadge | src/Handler.php:147 | the frame number printed with `%s%d %s` is a blue unit holding the number and one space |
| Trace.BlockLayout | src/Handler.php:146-182 | a frame block is, in order: a blank line and `LEFT_PADDING`, the blue frame number, `LEFT_PADDING`, the class in yellow, the call type in white, the function in light gray, the rendered arguments joined by bare commas inside parentheses, a newline with two paddings and two spaces, and `file : line` in green |
| Trace.BlockOpensWithIndex | src/Handler.php:146-147 | every block begins with `"\n\n" + LEFT_PADDING`, then its number k as a blue unit from which k reads back |
| Trace.Reverse | src/Handler.php:144 | `array_reverse` keeps the length and puts element n-1-i of an n-element list at position i |
| Trace.ReverseInvolutive | src/Handler.php:144 | reversing twice gives back the trace |
| Trace.TraceBlocksAt | src/Handler.php:144-183 | the reference block list is defined frame by frame, independently of `array_reverse`. For a trace of n frames, its block k (1-based) renders `trace[n-k]` with number k |
| Trace.BuildStackTrace | src/Handler.php:137-186 | an empty trace renders as the empty string. A non-empty trace renders as the yellow "Call trace: " label followed by exactly the reference blocks, in order |
| Trace.OutermostFrameFirst | src/Handler.php:144-147 | the first block shows the last input frame as number 1, and the last block shows the first input frame as number n, the frame count |
| Trace.TwoFrameTrace | src/Handler.php:144-183 | for a runtime trace `[inner, outer]`, the blocks after the header are the outer frame's block as number 1, then the inner frame's as number 2 |
| Handler.ReindentKeepsSnippet | src/Handler.php:127 | re-indenting the snippet changes only its newlines: the snippet reads back exactly, and each newline adds five characters |
| Handler.ReindentIndentsEveryLine | src/Handler.php:127 | in the re-indented snippet every newline is followed by `" " + LEFT_PADDING` |
| Handler.BuildBaseError | src/Handler.php:115-130 | fails exactly when `getSnippet(file, line, 9)` fails, with the same error. Otherwise the banner starts with the padded badge `" " + title + " "` styled `[bg_red, white, bold]`, directly followed by `" : "` and the message in yellow. It ends with "at " and the green file, a newline, then `LEFT_PADDING + " "` and the re-indented snippet |
| Handler.BannerLayout | src/Handler.php:117-125 | the banner starts with the badge, directly followed by `" : "` and the yellow message; whatever follows the banner head is preceded directly by "at ", the green file and a newline |
| Handler.ErrorHandler | src/Handler.php:48-81 | fails exactly when `getSnippet(file, line, 9)` fails, with the same error. Otherwise the banner starts with the padded badge titled with the label of the code's classification, directly followed by `" : "` and the yellow message, and ends with "at " and the green file, a newline, `LEFT_PADDING + " "` and the re-indented snippet |
| Handler.ExceptionHandler | src/Handler.php:88-94 | when the snippet can be read, the output is a newline, the banner titled with the exception class, the call trace (empty when there are no frames) and a final newline, with no fault. When it cannot, the fault is the snippet's error, raised after the leading newline was written and before anything else |

## Left out

- `setupHandlers` (src/Handler.php:30-38): registering the callbacks with the runtime and building the highlighter singletons is runtime plumbing. The error-mask filter is applied by PHP itself. The singletons are passed in explicitly as `Env`.
- `echo` (src/Handler.php:80, 90-93): output is I/O. The handlers return the text they would write. For `exceptionHandler`, which writes in four steps, the result also carries the fault raised part-way, after the text written before it.
- `PHP_EOL` is fixed to `"\n"`. The `str_replace` at src/Handler.php:127 only looks for `"\n"` anyway.
- `buildStyleCode`, `ANSI_RESET_STYLES`, `getSnippet` and `StringConverter` belong to libraries that are not part of this model. They are uninterpreted parameters, so nothing is assumed about the escape codes, the snippet text, or how a non-string value is stringified.
- src/HighlighterTheme.php: two constant getters that override a theme of the highlighting library. They only affect the escape codes the collaborator produces.
- Re-entrancy: a fault thrown while rendering may re-enter the exception handler. This is runtime behaviour, not logic in the code.
- Malformed trace frames: a frame of a plain function call has no `class` or `type` key; reading it gives null (a notice, or a warning from PHP 8), which prints as the empty string. The model takes these fields as strings in which absence is `""`. Frames missing `file`, `line`, `function` or `args` are not modelled.
- Trace arrays with non-list keys: `array_reverse` renumbers list keys from 0. The model takes the trace as a list, as `getTrace()` returns it.
- PHP's loose `==` comparison in `switch`: the runtime always passes an integer error code, so only integer codes are modelled.
- Handler.BannerLayout: places the badge and message at the start and the file line directly before the snippet. It does not state the separator between the message and the file line (a blank line and `LEFT_PADDING`); `Handler.BannerHead` defines it.
- Handler.BuildBaseError: same as `Handler.BannerLayout`: the blank line and padding between the message and the file line are not stated in its contract.
- Handler.ErrorHandler: same as `Handler.BuildBaseError`, whose banner it returns: the blank line and padding between the message and the file line are not stated in its contract.
- PHP strings are byte strings; the model uses `seq<char>`. This does not matter here: the handler only inserts ASCII text and passes every other string through unchanged.
