# design-on-trial, modelled in Dafny

design-on-trial puts a design document "on trial". Personas generated by a
language model take turns arguing about the document. A judge persona may
interject and gives the closing verdict. A reporter persona then writes an
HTML report, which is saved next to the document. This project models the
core of that pipeline and proves what it promises:

- `runner.dfy` (module `Runner`): the debate loop, `RunDebate`. This covers
  argument validation, the turn cap and duration cap, round-robin speakers,
  the judge's random interjections, and the closing sentinel and verdict.
  `RunDebate` is a method with the source's `for` loop. It is proved
  against the specification function `Debate`, and the transcript's shape
  is proved about `Debate` as lemmas.
- `report.dfy` (module `Report`): `truncateLocal`, `buildTranscriptSnippet`
  (a loop, proved against `TranscriptSnippet`) and `BuildReportFromLLM`.
  `BuildReportFromLLM` asks for an optional snippet, then the title, the
  comic images and the body, each failure being fatal, and then writes the
  HTML page. Its request order and failure policy are given by the function
  `ReportPipeline`, and the page layout by `Page`. `Page` takes the fixed
  markup as a `Template` record, so the layout lemmas hold for any markup;
  the build uses `Html`, the source's literal strings.
- `write_report.dfy` (module `ReportFile`): `WriteReport`. It derives the
  report's file name (`filepath.Ext`, `strings.TrimSuffix`), defaults the
  directory, joins the path, and writes into a `FileSystem` class whose
  write can fail.
- `cmd.dfy` (module `Cli`): two parts of `main`. The first is the exit with
  status 2 when `--file` is empty. The second is the loop that splits the
  personas into a judge, a reporter and participants, with its fallback.
- `text.dfy` (module `Text`): the byte-string library functions the core
  uses, each with a reference definition that pins it down:
  `strings.ToLower`, `strings.Contains`, `strings.TrimSpace`,
  `strings.Join` (checked against a `Split`) and
  `template.HTMLEscapeString` (checked against unescaping).
- `model.dfy` and `backend.dfy`: the value types (`Agent`, `Argument`,
  `Message`) and the language-model backend.

A Go `string` is a byte string, so a Dafny `string` here holds one `char`
per byte, and `|s|` is Go's `len(s)`. The "…" that `truncateLocal` appends
is its three UTF-8 bytes.

The backend is an oracle. `Backend.Llm` holds three total functions from a
request to a result that may be an error:

- `generate` for `Agent.GenerateArgument`;
- `getArgument` for `LLM.GetArgument`;
- `getComicStrip` for `LLM.GetComicStrip`.

Every request carries the point of the run where it is made, so the backend
may answer each call differently. The random draw, the elapsed time and the
timestamps come from a `Runner.Env` parameter in the same way. Prompts are
modelled as the data they are built from, not as their wording.

## Model

| member | source | states |
|---|---|---|
| Runner.RunDebate | agents/runner.go:14-70 | A nil backend gives "llm is nil". Fewer than two participants gives "need at least two participants". Otherwise the result is `Debate(s, n)` for the iteration `n` at which the loop first stops. |
| Runner.Sentinel | agents/runner.go:60 | The closing marker comes from "User" with content "--- END OF DEBATE ---" and tone "info". |
| Runner.TurnMessage | agents/runner.go:40-45 | Iteration t's speaker is participant t mod len. The message carries the backend's argument when generation succeeds. A failed generation still adds a message, with the empty argument. |
| Runner.JudgeInterjection | agents/runner.go:49-56 | At most one message. There is one exactly when a judge is set, the draw is below 15 and the judge's generation succeeds. It is the judge's, and it carries the generated argument. |
| Runner.PlayRound | agents/runner.go:40-56 | One pass of the loop body appends exactly `Round(s, t, history)`: the speaker's turn, then the judge's interjection when there is one. |
| Runner.CloseDebate | agents/runner.go:59-67 | The code after the loop produces exactly `Close`. |
| Runner.Close | agents/runner.go:59-67 | The loop's transcript is kept as a prefix. Without a judge nothing is added. With a judge the sentinel follows, and then the verdict exactly when the judge's generation succeeds. The verdict is the judge's and carries the generated argument. |
| Runner.TerminatesIffStops | agents/runner.go:28-38 | The stop test fires at some iteration exactly when the caps are both zero, the turn cap is positive, or a positive duration cap is eventually exceeded. |
| Runner.FirstStopExists | agents/runner.go:28-38 | An iteration where the stop test fires bounds the first such iteration, which is where the loop exits. |
| Runner.LoopBound | agents/runner.go:28-38 | Under caps that end the loop, there is a first iteration where the stop test fires; RunDebate uses it to bound the loop. |
| Runner.TurnCapOnly | agents/runner.go:33-35 | With only a positive turn cap T, the loop runs exactly T iterations. |
| Runner.NoCaps | agents/runner.go:29-31 | With both caps zero, no turn is taken. Without a judge the transcript is empty whatever the backend does. With a judge it starts with the sentinel. |
| Runner.RoundsPrefix | agents/runner.go:45 | The transcript only grows: an earlier transcript is a prefix of every later one. |
| Runner.RoundsLength | agents/runner.go:40-56 | n iterations append between n and 2n messages, and exactly n without a judge. |
| Runner.TurnAt | agents/runner.go:40-45 | Iteration t's participant message is at the position where the transcript stood, generated from everything before it, and it never moves. |
| Runner.RoundSize | agents/runner.go:49-56 | Iteration t appends a second message exactly when the interjection conditions hold. |
| Runner.InterjectionAt | agents/runner.go:49-55 | In the transcript after iteration t, that second message is the judge's, generated from the transcript ending with the turn of iteration t. |
| Runner.MessageInRound | agents/runner.go:28-57 | Every message of the loop belongs to some iteration: it lies between the transcript before that iteration and the transcript after it. |
| Runner.OnlyJudgeInterjects | agents/runner.go:49-56 | Every loop message that is not a participant turn is the judge's. |
| Runner.NoJudgeTranscript | agents/runner.go:40-45 | Without a judge, message t is participant (t mod len)'s turn, generated from the t messages before it. |
| Runner.DebateEnding | agents/runner.go:59-67 | With a judge, the sentinel is the last message or is followed only by the judge's verdict. Without a judge the debate is the loop's transcript. |
| Runner.ThreeTurnsTwoParticipants | agents/runner.go:28-45 | Two participants, no judge, a turn cap of 3: the senders are A, B, A. |
| Report.TruncateLocal | agents/report.go:116-121 | A string that fits in n bytes is unchanged. A longer one keeps its first n bytes and then the ellipsis. |
| Report.TruncateExamples | agents/report_test.go:91-134 | The six expected results of the truncation test. |
| Report.LastMessages | agents/report.go:103-107 | The window is the last min(n, len) messages of the history. |
| Report.BuildTranscriptSnippet | agents/report.go:99-113 | The loop's result equals `TranscriptSnippet`: the lines of the last min(n, len) messages joined by newlines, or "" when n <= 0. |
| Report.SnippetHoldsLastMessages | agents/report.go:99-113 | When senders and contents have no newline, splitting the snippet at newlines gives back exactly one line per kept message, in order, with no extra line. |
| Report.LineWithoutBreak | agents/report.go:109 | Cutting at 200 bytes and adding the ellipsis adds no line break. |
| Report.SnippetEmpty | agents/report.go:100-104 | The snippet is empty if and only if n <= 0 or the history is empty. |
| Report.SnippetEnds | agents/report.go:107-112 | The snippet starts with the oldest kept line, ends with the newest, and has no trailing newline. |
| Report.LongMessageLine | agents/report_test.go:71-89 | A 300-byte message shows as its first 200 bytes followed by the ellipsis. |
| Report.LastTwoExample | agents/report_test.go:23-28 | Asking for 2 of the three sample messages gives Agent2's and Agent3's lines. |
| Report.LastOneAndAllExample | agents/report_test.go:29-40 | Asking for 1 gives Agent3's line; asking for 5 gives all three lines. |
| Report.EmptySnippetExamples | agents/report_test.go:41-58 | n = 0, n = -1 and an empty history each give "". |
| Report.GalleryStep | agents/report.go:86-88 | One more image appends its element to the image markup. |
| Report.WriteImages | agents/report.go:86-88 | The image loop appends exactly the image markup, one element per image in order. |
| Report.GalleryAppend | agents/report.go:86-88 | The image markup of a concatenation is the concatenation of the image markup. |
| Report.GalleryOrder | agents/report.go:86-88 | Image i's element follows the elements of the images before it. |
| Report.TitleHeading | agents/report.go:81-83 | The page opens with its opening markup (`<html><body ...>` in `Html`), followed by the heading. The heading holds the title escaped, with no markup byte, for every title. For a title without NUL, unescaping gives the title back. |
| Report.ImagesInOrder | agents/report.go:85-89 | Every image element appears in the page, in input order, right after the page head. |
| Report.BodyAtEnd | agents/report.go:90-94 | The page ends with the body text, embedded verbatim, and then the closing tags. |
| Report.RenderPage | agents/report.go:80-95 | The writes, including the image loop, produce exactly `Page` with the source's literal markup `Html`. |
| Report.GenerateBody | agents/report.go:62-78 | The body comes from the reporter's argument, or from the direct fallback request when there is no reporter. Each has its own wrapped error. Either way one body request is logged. |
| Report.BuildReportFromLLM | agents/report.go:13-96 | The result and the log of requests made equal `ReportPipeline`, with a missing reporter handled by the fallback branch (see Findings). Each request is logged by the method that makes it. |
| Report.BuildAfterSnippet | agents/report.go:30-96 | Once the snippet is chosen, the title, comic and body requests and the page equal `AfterSnippet`: each failure ends the build with its wrapped error and the requests made so far. |
| Report.FailurePolicy | agents/report.go:20-69 | A failed snippet request only empties the snippet. Title, comic and body failures each end the build with their own message, in that order, and nothing later is requested. The build succeeds exactly when all three succeed, and then returns the page. |
| Report.BodyErrors | agents/report.go:66-78 | A reporter's failure and a fallback failure are told apart by their message prefix. |
| Report.NoBackend | agents/report.go:16-18 | A nil backend gives "llm is required" before any request. |
| Report.ReportAsWritten | agents/report.go:13-14 | As written, a nil reporter panics, and that is the only way to panic. |
| Report.NilReporterPanics | agents/report.go:14-78 | As written, a nil reporter panics even with a working backend, so the branch at lines 71-78 is dead. The corrected build succeeds exactly when title, comic and fallback body succeed. With a reporter the two agree. |
| ReportFile.Ext | agents/write_report.go:15 | The extension is a suffix of the name. It starts at a '.' and holds no other '.' or '/'. It is empty only when no '.' follows the last '/'. |
| ReportFile.TrimSuffix | agents/write_report.go:15 | With the suffix present, the result plus the suffix gives the input back. Otherwise the input is unchanged. |
| ReportFile.StemAndExtension | agents/write_report.go:15 | The stem plus the extension gives the name back, and the report's file name is the stem plus `_report.html`. |
| ReportFile.NoExtension | agents/write_report.go:15 | A name with no '.' keeps all of itself. |
| ReportFile.FinalExtensionOnly | agents/write_report.go:15 | Only the last extension is removed; earlier dots stay in the stem. |
| ReportFile.MarkdownExample | agents/write_report_test.go:105 | test.md gives test_report.html (design.txt on the next line is the same case). |
| ReportFile.UnderscoreExample | agents/write_report_test.go:107 | sample_hld.md gives sample_hld_report.html. |
| ReportFile.NoExtensionExample | agents/write_report_test.go:108 | noextension gives noextension_report.html. |
| ReportFile.DottedNameExample | agents/write_report_test.go:109 | multiple.dots.in.name.md gives multiple.dots.in.name_report.html. |
| ReportFile.OutDir | agents/write_report.go:12-14 | An empty directory becomes "."; any other is kept. |
| ReportFile.PathEndsWithName | agents/write_report.go:15-16 | The returned path ends with the report's file name. With no directory, the path is that name alone. |
| ReportFile.ParentOfJoin | agents/write_report.go:16 | Joining a clean directory with a plain file name puts the file in that directory. |
| ReportFile.FileSystem.WriteFile | agents/write_report.go:17 | Success exactly when the parent directory exists and the path is not a directory. Then the file holds exactly the data. On failure nothing changes. |
| ReportFile.WriteReport | agents/write_report.go:11-21 | Success exactly when the file system accepts the write. It then returns the report path and that file holds the HTML. On error the files are unchanged. |
| ReportFile.WriteNeedsDirectory | agents/write_report.go:16-19 | For a plain file name, the write needs exactly an existing output directory, and the path must not be a directory. |
| Cli.CheckFileFlag | cmd/design-on-trial.go:24-27 | main stops with status 2, writing the usage line and its newline to standard error, exactly when `--file` is empty. |
| Cli.ReporterRoleIsReport | cmd/design-on-trial.go:58 | The "reporter" test adds nothing: a reporter role is one that mentions "report". |
| Cli.Classify | cmd/design-on-trial.go:51-65 | The judge, the reporter and every participant index name one of the personas seen so far. |
| Cli.PlaceKeepsPartition | cmd/design-on-trial.go:52-64 | One pass of the loop body keeps the split: persona n goes to exactly one of judge, reporter or participants, after the earlier participants. |
| Cli.AssignRoles | cmd/design-on-trial.go:47-69 | The loop and its fallback compute `CastOf`: the classified judge, reporter and participants, or all personas when fewer than two participants are left. |
| Cli.JudgeIsFirst | cmd/design-on-trial.go:54-57 | The judge is the first persona whose role mentions "judge". There is none only when no role does. |
| Cli.ReporterIsFirst | cmd/design-on-trial.go:58-61 | The reporter is the first persona, other than the judge, whose role mentions "report". There is none only when no such persona exists. |
| Cli.Partition | cmd/design-on-trial.go:51-65 | Each persona is exactly one of judge, reporter or participant, the judge is not the reporter, participants keep persona order, and the counts add up. |
| Cli.EnoughParticipants | cmd/design-on-trial.go:66-69 | With two or more personas, RunDebate always gets at least two participants. With fewer, all personas are passed on. |
| Cli.LeftOverInOrder | cmd/design-on-trial.go:63-65 | Without the fallback, the participants are the personas that are neither judge nor reporter, in order. |
| Cli.NoReporterPersonaPanics | cmd/design-on-trial.go:58-76 | With no persona whose role mentions "report", main passes a nil reporter, and the report step as written panics. |
| Text.ToLower | cmd/design-on-trial.go:52 | ASCII capitals become lower case; every other byte is kept. |
| Text.ContainsAt | cmd/design-on-trial.go:54 | `Contains` holds exactly when the substring occurs at some index. |
| Text.ReporterContainsReport | cmd/design-on-trial.go:58 | A string containing "reporter" contains "report". |
| Text.TrimSpace | agents/report.go:27 | The result neither starts nor ends with white space, and comes from the input by removing white space only. |
| Text.SplitJoin | agents/report.go:112 | When no part contains the separator, splitting a join gives the parts back. |
| Text.HtmlEscape | agents/report.go:83 | The escaped text has no `<`, `>`, quote or NUL byte. |
| Text.UnescapeEscape | agents/report.go:83 | Unescaping the escaped text gives it back (for text without NUL). |

## Findings

| source | as written | input that shows it | evidently intended | confidence | as-written member | corrected member |
|---|---|---|---|---|---|---|
| agents/report.go:14 | The progress line reads `reporter.Name` before anything else, so a nil reporter panics. The `reporter == nil` branch at lines 71-78 can never run. | Personas where no role mentions "report": main (cmd/design-on-trial.go:76) passes a nil reporter. | With no reporter, the body comes from the direct fallback request at lines 72-77. | high; not executed | Report.NilReporterPanics | Report.BuildReportFromLLM |

`Report.ReportAsWritten` models the function as written. `Cli.NoReporterPersonaPanics` shows that main reaches it. The rest of the model uses the corrected `ReportPipeline` and `BuildReportFromLLM`.

## Left out

- Prompt wording, the JSON parsing inside `LLM.GetArgument` (including its `log.Fatalf` and `responses[0]` indexing) and the image encoding in `LLM.GetComicStrip`: the backend is an oracle that returns a value or an error.
- Console output (`log.Println`, `fmt.Printf` of every message, the progress line) is left out. The only effect of the progress line that is modelled is the panic in Findings.
- Wall-clock time: `time.Now`, `time.Since` and the RFC 1123 stamp are parameters (`Env.elapsed`, `Env.now`, `generatedOn`). The random source is `Env.draw`. Cancellation through `ctx` is not modelled.
- Runner.RunDebate: requires that the loop terminates (`Terminates`). With caps that are not both zero, a turn cap <= 0 and a duration cap that is never exceeded, the source loops forever.
- Report.TruncateLocal: `n` is a nat; a negative `n` makes the Go slice panic, and the only caller passes 200.
- Report.BuildReportFromLLM: the fallback prompt formats the whole title `Argument` struct rather than its content; the model passes that struct as it is.
- Text.ToLower and Text.TrimSpace: only ASCII case and ASCII white space are modelled, not Unicode letters or spaces.
- Text.HtmlEscape: a NUL byte becomes U+FFFD, so the round trip holds only for text without NUL.
- ReportFile.JoinPath: `filepath.Join` cleans its result. The model covers the cases main produces: "." drops out, and a trailing separator is not doubled. Other clean-ups (`..` elements, doubled or `./` separators inside a path) are not modelled. Windows separators are not modelled.
- ReportFile.FileSystem.WriteFile: file permissions and other operating-system failures are not modelled. The error text stands in for Go's `*PathError`.
- The rest of `main`: flag parsing, reading the document, `NewLLM`, `LoadPersonas`, the `log.Fatalf` exits, and the call sequence itself. Only the `--file` check and the role split are modelled.
- The `Message.Time` values are abstract numbers; only their source (`Env.now`) is modelled.
