# Music-to-Music-Video: the segment planner, formally

This is a Dafny model of the core of a browser app that turns a song into
music-video prompts. The user chooses:

- an audio file;
- a character image;
- the lyric text;
- a segment length.

Pressing "Generate Prompts" runs `handleGenerate`. It decodes the song's
duration, reads the image as base64 and cuts the song into fixed-length time
windows. Each window gets a slice of the non-blank lyric lines and an "outro"
flag. The app asks the generation service for one prompt per window, joins
the answers with `Promise.all`, and shows one card per window. Each card has
an `M:SS - M:SS` header.

The model is spread over these modules:

- `Results`: `Option`, `Result`, and the values a promise can reject with.
- `Text`: the JavaScript string built-ins the app uses. That is `split` on one
  character, `join`, `trim` with the ECMAScript whitespace set, decimal
  rendering and `padStart`. `split` and `join` are proved inverse to each
  other, decimal rendering is proved to read back, and `trim` and `padStart`
  carry contracts that characterise their results.
- `Types`: the `GeneratedPrompt` record.
- `Segments`: the planner inside `handleGenerate`. It covers the segment
  count, the windows, the outro test, the lyric filter, lines per segment and
  the clamped slices.
- `FileUtils`: the string step of `fileToBase64`, which cuts the data URL at
  its commas.
- `PromptCard`: `formatTime` and the card header.
- `App`: the enable guard and the ordered, fail-fast `Promise.all`. It also
  covers a whole run, written as a pure function of the page state, the
  inputs and an `Environment`. The environment holds:
  - the decoded duration, or the decoder's rejection;
  - the image reader's output;
  - the answer to each generation call;
  - the time at which each call settles.

Durations are exact reals. The JavaScript operators are written out where
their meaning differs from Dafny's:

- `%` takes the sign of the dividend.
- The truncation inside `%` (components/PromptCard.tsx:15) and `Math.ceil` (App.tsx:49) are spelled out.
- `slice` clamps its bounds to the length.

## Model

| member | source | states |
|---|---|---|
| Segments.Ceil | App.tsx:49 | `Math.ceil` gives the least integer not below its argument |
| Segments.NumSegments | App.tsx:49 | the segment count reaches the end of the song, and one fewer segment would not |
| Segments.CeilOfQuotient | App.tsx:49 | the ceiling of duration / segment length is a non-negative count whose segments cover the song, and one fewer do not |
| Segments.NumSegmentsPositive | App.tsx:49 | there is at least one segment exactly when the song has positive length |
| Segments.KeepNonBlank | App.tsx:50 | the line filter never adds lines, and every line it keeps has a non-whitespace character |
| Segments.KeepNonBlankMembers | App.tsx:50 | a line survives the filter exactly when it occurs in the input and does not trim to "" |
| Segments.KeepNonBlankAppend | App.tsx:50 | the filter keeps relative order: filtering a concatenation filters each part |
| Segments.LyricLines | App.tsx:50 | every lyric line is free of line breaks and not blank |
| Segments.BlankLyricsHaveNoLines | App.tsx:50 | whitespace-only lyrics yield no lines at all |
| Segments.LyricLinesExample | App.tsx:50 | "a\nb\n\nc" yields the lines a, b, c, with the empty line dropped |
| Segments.LinesPerSegment | App.tsx:52 | at least one line per segment; with enough lines, the largest count with `lps * n <= total` |
| Segments.Chunk | App.tsx:65-67 | the slice of a segment is the clamped index range `[i*lps, (i+1)*lps)` of the line list |
| Segments.Plan | App.tsx:57-79 | the loop makes exactly `numSegments` requests |
| Segments.WindowInSong | App.tsx:58-59 | each window of a song of positive length is non-empty and lies inside the song |
| Segments.WindowsMeet | App.tsx:58-59 | each window ends exactly where the next one starts |
| Segments.PlanWindows | App.tsx:57-59 | `WindowAt` in the plan: windows start at 0, start at `i * segmentDuration`, are non-empty, leave no gap and no overlap, and the last ends exactly at the end of the song |
| Segments.LastWindowHasTimeLeft | App.tsx:61-63 | the `remainingTime > 0` half of the outro test always holds for the last window of a song of positive length |
| Segments.PlanOutro | App.tsx:61-63 | `IsOutroAt` in the plan: only the last segment can be the outro, and it is one exactly when it is shorter than half a segment |
| Segments.PlanLines | App.tsx:65-67 | segment `i` carries chunk `i` of the lyric lines |
| Segments.ChunksInOrder | App.tsx:65-66 | the line range of an earlier segment ends no later than that of a later one starts |
| Segments.PlanChunks | App.tsx:52-67 | the chunk ranges are clamped, in order and disjoint, and a segment whose range starts past the last line gets no lyrics |
| Segments.ChunkExtendsPrefix | App.tsx:65-67 | appending chunk `k` to the first `k*lps` lines gives the first `(k+1)*lps` lines |
| Segments.SentChunks | App.tsx:57-67 | the first `k` segments together send exactly the first `k*lps` lines |
| Segments.PlanSendsPrefix | App.tsx:52-67 | all segments together send exactly the first `n*lps` lines, and some lines go unsent exactly when `n*lps` is below the line count |
| Segments.RemainderBound | App.tsx:52 | with at least as many lines as segments fewer than `n` lines are left over; with fewer lines, `lps` is 1 and nothing is left over |
| Segments.PlanRemainder | App.tsx:52-67 | fewer than one line per segment is ever left unsent; with fewer lines than segments every line is sent and the trailing segments get none |
| Segments.PlanLyricsChunkRoundTrip | App.tsx:67 | a segment's lyric text is "" exactly when it has no lines, and otherwise splits back at line breaks into exactly its lines |
| Segments.PlanOfBlankLyrics | App.tsx:50-67 | whitespace-only lyrics send every segment without lyrics |
| Segments.PlanOfSilence | App.tsx:49-57 | a zero-length song is planned as no segments |
| Segments.PlanExample | App.tsx:49-63 | 22 s in 10 s segments gives windows [0,10], [10,20], [20,22], and only the last is an outro |
| Text.Split | App.tsx:50 | `split` gives at least one piece, and no piece contains the separator |
| Text.JoinSplit | App.tsx:67 | joining the pieces of a split with the same separator restores the string |
| Text.SplitJoin | App.tsx:67 | splitting a join of separator-free pieces restores the pieces |
| Text.SplitAfterHead | utils/fileUtils.ts:10 | a separator-free head followed by the separator splits off as the first piece |
| Text.TrimStart | App.tsx:50 | drops a whitespace-only prefix and leaves a suffix that starts with a non-whitespace character |
| Text.TrimEnd | App.tsx:50 | drops a whitespace-only suffix and leaves a prefix that ends with a non-whitespace character |
| Text.TrimEmptyIffBlank | App.tsx:50 | a line trims to "" exactly when it is all whitespace |
| Text.NatToString | components/PromptCard.tsx:16 | decimal rendering uses only digits, has one digit exactly for numbers below ten, and has no leading zero |
| Text.ParseNatToString | components/PromptCard.tsx:16 | reading a decimal rendering back gives the number |
| Text.PadStart | components/PromptCard.tsx:16 | `padStart` reaches the width, keeps the string as a suffix, and fills only with the fill character |
| FileUtils.PayloadOf | utils/fileUtils.ts:9-13 | a result without a comma is refused with the fixed message, and the payload kept contains no comma |
| FileUtils.PayloadBetweenFirstCommas | utils/fileUtils.ts:10 | the payload is exactly the text between the first comma and the next comma (or the end) |
| FileUtils.PayloadOfDataUrl | utils/fileUtils.ts:8-10 | for `prefix,payload` with no other comma, the `data:...;base64` prefix is dropped and the payload kept intact |
| FileUtils.FileToBase64 | utils/fileUtils.ts:2-17 | a failed read rejects with the reader's event, a comma-less result rejects with the fixed string, and anything else resolves to the payload |
| PromptCard.Trunc | components/PromptCard.tsx:15 | rounding toward zero: floor for non-negative numbers, within one above the number for negative ones |
| PromptCard.TimeParts | components/PromptCard.tsx:14-15 | for a non-negative time, minutes and seconds 0..59 recombine to the whole seconds |
| PromptCard.PaddedSeconds | components/PromptCard.tsx:16 | seconds 0..59 are shown as exactly two digits |
| PromptCard.FormatTimeShape | components/PromptCard.tsx:13-17 | `FormatTime`: for a non-negative time, a label is the minutes, a colon, and exactly two digits of seconds |
| PromptCard.FormatTimeOneColon | components/PromptCard.tsx:16 | every label has exactly one colon, between the minutes and the padded seconds |
| PromptCard.LabelRoundTrip | components/PromptCard.tsx:16 | a label of minutes and seconds 0..59 reads back as those two numbers |
| PromptCard.FormatTimeRoundTrip | components/PromptCard.tsx:13-17 | reading a label back gives the whole minutes and seconds of the time: only the fraction is lost |
| PromptCard.FormatTimeMonotone | components/PromptCard.tsx:14-15 | a later time never gets an earlier label |
| PromptCard.FormatTimeExamples | components/PromptCard.tsx:13-17 | 0 s is "0:00" and 65 s is "1:05" |
| PromptCard.HeaderParts | components/PromptCard.tsx:30 | `Header`: the header splits at its spaces into the start label, "-", and the end label |
| App.ShownMessageAsWritten | App.tsx:91 | as written, the shown error is never empty: an `Error`'s own message when it has one, and the unknown-error message for every other rejection |
| App.ShownMessage | App.tsx:91 | the shown error is never empty, and shows the rejection's own text whenever it has any |
| App.AsWrittenHidesStringReasons | App.tsx:91 | as written, every string rejection shows the unknown-error message, including the invalid-format one |
| App.ShownMessageRefinesAsWritten | App.tsx:91 | the corrected message agrees with the written one except on string rejections |
| App.EarliestRejection | App.tsx:81 | finds no rejection exactly when all calls resolved; otherwise finds a rejected call that settled no later than any other |
| App.PromiseAll | App.tsx:81 | succeeds exactly when every call resolved, with the texts in call order; otherwise fails with the message of a rejection that settled first |
| App.PromiseAllIgnoresSettleOrder | App.tsx:81-86 | when all calls resolve, the joined list does not depend on the order they settled in |
| App.PromiseAllExample | App.tsx:81-86 | three answers where the second settles first still join in call order |
| App.Press | App.tsx:37-95 | for any way of showing a rejection: a disabled press changes nothing; otherwise a run clears prompts and error, shows loading, and ends not loading with either an error and no prompts or one prompt per request; a failed decode or encode ends with the shown rejection and no calls |
| App.Generate | App.tsx:37-95 | the same run as written: the decoder's rejections that are not `Error` objects, a failed image read and a comma-less image all show the unknown-error message |
| App.GenerationGuard | App.tsx:20-42 | `GenerationDisabled`: a press goes ahead exactly when both files are chosen, the lyrics are non-empty and no run is loading, and then it shows the cleared loading state; otherwise nothing changes |
| App.GenerateCorrected | App.tsx:29-93 | with the corrected message, a string rejection of the decoder and a comma-less image show their own text |
| App.GenerateCorrectedAgrees | App.tsx:37-95 | the correction changes only the error text: calls, prompts, loading and whether there is an error are unchanged, and the whole final state is the same unless an enabled press failed on a decoder string rejection or a comma-less image |
| App.CommalessImageExample | App.tsx:91 | a comma-less image shows the unknown error as written and the invalid-format message when corrected |
| App.GenerateCallsOncePerSegment | App.tsx:45-79 | after a successful decode and encode, the calls are exactly the plan, one per segment |
| App.GenerateSuccess | App.tsx:81-88 | `Assemble` in a run: when every call resolves, prompt `i` carries window `i` and the answer to call `i`, with no error |
| App.GenerateFailFast | App.tsx:81-93 | any rejected call discards all prompts and shows the message of a rejected call |
| App.GenerateStopsBeforeCalls | App.tsx:44-93 | a failed decode or encode ends the run with an error before any call is made; as written, a comma-less image shows the unknown-error message |
| App.BlankLyricsStillGenerate | App.tsx:20-67 | with both files chosen and no run loading, non-empty whitespace-only lyrics pass the enable check, the calls made are exactly the plan, and every call is made without lyrics |

## Left out

- Audio decoding (App.tsx:22-35) and the file reader (utils/fileUtils.ts:3-6,15) are I/O. Their outcomes enter as the `Environment`'s `duration` and `imageRead`.
- The generation service is a network call. Its answer to call `i` enters as `respond(i)`.
  - services/geminiService.ts is not part of this model: prompt wording, the model call and its error remapping are left out.
  - Its rejections are always `Error` objects (services/geminiService.ts:60-62), so a rejected call is modelled by its message.
  - The request arguments `imageBase64`, `imageMimeType` and `segmentDuration` are passed through unchanged. The model records only the window, the lyric lines and the outro flag of each request.
- Timing and concurrency are modelled only as the order in which the calls settle (`settle`).
  - Two overlapping runs, and React's re-rendering and stale closures (App.tsx:95), are not modelled.
  - A run is one atomic step from the pending state to the final state.
- Floating point: durations are exact reals.
  - Double rounding in `i * segmentDuration` and in `duration / segmentDuration` is not modelled.
  - NaN and Infinity durations are not modelled; the decoded duration is assumed non-negative.
- Zero-length songs. A duration of 0 gives no segments. JavaScript then computes `linesPerSegment` as Infinity, or as NaN when there are no lyric lines, but never uses it. The model skips that computation.
- `Number.prototype.toString` for minutes of 10^21 or more (exponent notation) is not modelled. Integer-valued minutes are rendered as plain decimals.
- Strings are sequences of Unicode scalar values, not UTF-16 code units.
- The page's other components are not part of this model: layout, the file pickers, the duration selector, the copy button, its clipboard call and its 2-second timer (components/PromptCard.tsx:19-24).
- types.ts is not part of this model. The `GeneratedPrompt` shape is taken from its uses (App.tsx:83-86, components/PromptCard.tsx:30,40).
- PromptCard.FormatTimeRoundTrip, PromptCard.TimeParts, PromptCard.FormatTimeShape and PromptCard.FormatTimeMonotone are stated for non-negative times only, because the app only formats window bounds. `FormatTime` itself is defined for every real, with JavaScript's sign-following `%`, and PromptCard.FormatTimeOneColon and PromptCard.HeaderParts hold for every real.

Two edge cases of the planner are modelled as the code computes them:

- a zero-length song gives zero segments (App.tsx:49);
- `slice` clamps both bounds, so trailing segments get empty line lists (App.tsx:65-67).

## Findings

| source | as written | input that shows it | evidently intended | confidence | as-written member | corrected member |
|---|---|---|---|---|---|---|
| App.tsx:91 | `err.message \|\| 'An unknown error occurred.'` reads `.message` of every rejection. The audio decoder (App.tsx:29,32) and `fileToBase64` (utils/fileUtils.ts:12) reject with bare strings, which have no `message`. | An image whose data URL has no comma: the run rejects with "Invalid file format for Base64 conversion", but the page shows "An unknown error occurred." | Show the text of a string rejection, as these reasons were evidently written to be read by the user | high; not executed | App.CommalessImageExample | App.GenerateCorrected |

`App.Generate` models the code as written, with `ShownMessageAsWritten`. `App.GenerateCorrected` runs the same press with `ShownMessage`. `App.AsWrittenHidesStringReasons` and `App.ShownMessageRefinesAsWritten` compare the two messages. `App.GenerateCorrectedAgrees` shows that the correction changes nothing but the error text.
