# StructuraLens action, modelled in Dafny

This project models the core of the StructuraLens GitHub Action. The action's whole
logic sits in `src/index.js`. On a pull request, the action:

- downloads the StructuraLens CLI;
- checks out the base revision and analyses it, then does the same for the head revision;
- writes JSON, HTML and Markdown diffs of the two reports;
- uploads the HTML report;
- posts the Markdown diff as a comment, or a compact summary when the diff is too long
  for a comment, with retries;
- uploads the report as an artifact when no comment could be posted;
- sets the report paths as outputs;
- in every case checks the original revision out again.

On other events it only analyses the revision that is checked out.

The modules follow the pieces of the script:

- `Text`: the string helpers the script gets from JavaScript:
  - `split`, `join` and `\s`;
  - `String.prototype.length`, which counts UTF-16 code units.
- `MarkdownTable`: `isMarkdownTableSeparator`, written out by hand instead of as a regular
  expression, and `extractFirstMarkdownTable`, both as a function and as the original
  two-loop scan.
- `CommentComposer`:
  - the comment limits;
  - the HTML report header;
  - `buildCompactComment`;
  - the choice between the full comment and the compact one.
- `Retry`: `retryAsync` over an abstract sequence of attempt outcomes. It is written as a
  function that records the attempts and the waits, and as a loop proved equal to it.
- `Platform`: `getPlatformAsset`.
- `Orchestration`: the control flow of `main` and `analyzeWithRefs` as a pure function.
  - It maps the outcomes of the outside calls to the trace of what the action did: calls
    with their outcomes, warnings, outputs and `setFailed`.
  - `Env` holds the inputs, the runner, the pull-request payload and the token.
  - `Env` also says how every outside call ends, including every comment-post attempt.
- `OrchestrationFacts` and `FlowFacts`: what that trace guarantees:
  - base before head;
  - every analysis runs at the revision it was meant for;
  - failures are sorted into fatal and warned-only;
  - the restore runs last;
  - the comment fallback fires exactly when no comment was posted;
  - outputs appear only on success, only for files that were written.
- `Action`: the class `ActionRun`. It holds the working copy's checked-out revision and the
  log of events, and has one method per step of `main`.
  - Each method is proved to append exactly the events the pure model prescribes.
  - So every fact about the pure model holds of the imperative run.
  - Every method also states where it leaves the working copy. A run ends at the revision
    it started on unless the restore fails.

Two consequences of the code that are easy to miss:

- The HTML diff and the Markdown diff are not inside a `try`, so their failures are fatal,
  like the JSON diff's (src/index.js:336-353 and 379-400).
- Only the raw report's length is tested (`body.length > 64512`, src/index.js:414). The
  compact summary contains the report's first table whole, so the comment that is posted
  has no length bound. `CommentComposer.PostedCommentUnbounded` proves this.

## Model

| member | source | states |
|---|---|---|
| Text.SplitOn | src/index.js:131 | splitting at a separator gives at least one piece, no piece contains the separator, and joining the pieces with it gives back the input |
| Text.SplitJoin | src/index.js:131 | splitting pieces that were joined with the separator, none containing it, gives back exactly those pieces |
| Text.Utf16Length | src/index.js:402 | the JavaScript length of a string is between its number of code points and twice that |
| Text.Utf16LengthAppend | src/index.js:414 | the JavaScript length of a concatenation is the sum of the lengths |
| MarkdownTable.IsMarkdownTableSeparator | src/index.js:126-128 | the separator test, defined on the pipe-separated cells of the line; SeparatorShape, SeparatorSound and SeparatorComplete state what it accepts |
| MarkdownTable.SeparatorShape | src/index.js:126-128 | an accepted separator line holds only whitespace, pipes, colons and dashes, and has at least two cells, each containing a dash |
| MarkdownTable.SeparatorSound | src/index.js:126-128 | an accepted separator line is its dash cells joined by pipes, with optional blank edges before the first and after the last pipe |
| MarkdownTable.SeparatorComplete | src/index.js:126-128 | every line built from two or more dash cells joined by pipes, with optional blank edges, is accepted |
| MarkdownTable.SplitLines | src/index.js:131 | splitting a report into lines gives as many lines as there are line feeds plus one, and no line contains a line feed |
| MarkdownTable.DropCarriageReturn | src/index.js:131 | a line loses at most one trailing carriage return |
| MarkdownTable.SplitLinesJoin | src/index.js:131 | lines joined with line feeds split back into the same lines when no line but the last ends in a carriage return |
| MarkdownTable.WithCarriageReturns | src/index.js:131 | lines with a carriage return added to all but the last, as "\r\n" line breaks leave them; keeps the number of lines |
| MarkdownTable.SplitLinesCrlf | src/index.js:131 | lines joined with "\r\n" split back into the same lines: the carriage returns go with the line breaks |
| MarkdownTable.RowsEnd | src/index.js:138-141 | the table's rows extend to the first line without a pipe at or after the given line, or to the end of the input |
| MarkdownTable.FirstTableFrom | src/index.js:132-144 | the scan for the first table from line i on; FirstTableFromNone and FirstTableFromAt state its result |
| MarkdownTable.FirstTable | src/index.js:130-145 | the first table of a report, the scan from line 0 of its lines; FirstTableSpec states its result |
| MarkdownTable.FirstTableFromNone | src/index.js:132-144 | the scan from line i finds nothing exactly when no line from i on is a header row followed by a separator row |
| MarkdownTable.FirstTableFromAt | src/index.js:132-143 | when line j is the first table start from i on, the scan returns lines j up to the end of the rows, joined by line feeds |
| MarkdownTable.FirstTableSpec | src/index.js:130-145 | the result is null exactly when no line is a header row followed by a separator row; otherwise it is the block from the first such header to the first line without a pipe, joined by line feeds |
| MarkdownTable.FirstTableFromNonEmpty | src/index.js:161-165 | an extracted table is never the empty string, so testing the table for truth is testing it for null |
| MarkdownTable.SingleTableExtracted | src/index.js:130-145 | for a report made of pipe-free lines, a header, a separator, pipe rows and a pipe-free line, the result is exactly header, separator and rows |
| MarkdownTable.ExtractFirstMarkdownTable | src/index.js:130-145 | returns the first table of the report as the specification function defines it |
| MarkdownTable.ScanForTable | src/index.js:132-144 | the two loops return the block from the first table start to the end of its rows, or null |
| CommentComposer.BuildCompactComment | src/index.js:147-166 | the compact comment; CompactCommentParts states its parts |
| CommentComposer.NeedsCompact | src/index.js:414 | a report needs the compact comment exactly when its JavaScript length exceeds 64512 |
| CommentComposer.CommentBody | src/index.js:402-439 | the comment chosen for a report; CommentChoice and FullCommentLength state which one and its length |
| CommentComposer.HeaderPresence | src/index.js:153-156 | the header is empty exactly when the link is null or empty; otherwise it holds the link between its fixed lead and tail |
| CommentComposer.BannerNamesArtifact | src/index.js:158-160 | the banner for an uploaded report ends by naming the artifact; the other banner does not depend on the name |
| CommentComposer.CompactCommentParts | src/index.js:147-166 | the compact comment is header, banner and, exactly when a table was found, a blank line and that table |
| CommentComposer.FullCommentLength | src/index.js:405-414 | a full comment is at most 64512 plus the header's length long |
| CommentComposer.CommentChoice | src/index.js:405-439 | the comment starts with the header; after it comes the report unchanged when the report has at most 64512 units, and the banner when it has more |
| CommentComposer.CompactCommentUnbounded | src/index.js:414-438 | for every bound there is a report whose compact comment is longer than that bound |
| CommentComposer.PostedCommentUnbounded | src/index.js:402-439 | for every bound n there is a report over the limit whose posted comment is still longer than n |
| Retry.Retry | src/index.js:25-41 | a whole retried call, the attempts from the first on; RetryContract states its result |
| Retry.RetryFrom | src/index.js:29-40 | from a given attempt on, attempts stop at the first success or after retries + 1 attempts; every earlier attempt failed; a failure is only returned from the last attempt; the wait after attempt k is delay times backoff to the power k - 1 |
| Retry.RetryContract | src/index.js:25-41 | at most retries + 1 attempts; the result is the first success; failure exactly when every attempt failed, and then it is the last attempt's error unchanged; one wait fewer than attempts, growing geometrically |
| Retry.DefaultPolicyAllFail | src/index.js:449-458 | with the comment's policy and all attempts failing: four attempts, waits 1000, 2000 and 4000, and the fourth error returned |
| Retry.ScheduleAt | src/index.js:34 | the j-th wait of the schedule is delay times backoff to the power j |
| Retry.RetryWaits | src/index.js:34-38 | the waits of a run are the first attempts - 1 entries of the geometric schedule |
| Retry.TotalWait | src/index.js:34 | (backoff - 1) times the sum of the first n waits equals delay times (backoff^n - 1) |
| Retry.DefaultPolicyTotalWait | src/index.js:457 | the three waits of the comment's policy add up to 7000 ms |
| Retry.RetryAsync | src/index.js:25-41 | the loop ends with the result, attempt count and waits that the retry function defines |
| Platform.GetPlatformAsset | src/index.js:43-62 | an asset name is returned exactly for linux, darwin on arm64 and win32; an error otherwise |
| Platform.AssetName | src/index.js:47-59 | the asset name is "structuralens-", the target, "-", the version and the archive extension |
| Platform.AssetNameParts | src/index.js:47-59 | the asset name splits into prefix, target, version and extension at fixed positions |
| Platform.AssetNamesDistinct | src/index.js:43-62 | two supported runners get the same asset name only when they share a target |
| Platform.ZipExactlyOnWindows | src/index.js:58 | the asset is a ZIP exactly on Windows |
| Platform.UnsupportedMessages | src/index.js:52-61 | the error messages for darwin on other architectures and for unknown platforms |
| Orchestration.ResolveVersion | src/index.js:69-74 | "latest" is looked up and its tag loses a leading "v"; any other version is kept; ResolvedVersion gives the version used |
| Orchestration.FetchCli | src/index.js:76-116 | the asset for the runner, or the platform error thrown, then one fetch of the CLI; Action.ActionRun.DownloadCli follows it |
| Orchestration.Setup | src/index.js:263-284 | the set-up's trace; SetupSorted and SetupQuiet state its failures and that it checks nothing out |
| Orchestration.AnalyzeWithRefs | src/index.js:203-249 | the trace of analyzeWithRefs; AnalyzeWithRefsOrder, AnalyzeWithRefsInPlace and AnalyzeWithRefsRevision state its order, revisions and end revision |
| Orchestration.HtmlReport | src/index.js:336-377 | the HTML diff and its caught upload; HtmlReportSorted states its failures |
| Orchestration.Publish | src/index.js:405-487 | the comment and its fallback after the report was read; PublishCalls and PublishSorted state which calls happen |
| Orchestration.CommentFlow | src/index.js:379-488 | the Markdown diff, the read and the publishing; CommentFlowSorted states its failures |
| Orchestration.DiffReports | src/index.js:316-488 | the JSON diff, the HTML report and the comment; DiffReportsQuiet states that it checks nothing out |
| Orchestration.PrFlow | src/index.js:295-489 | the pull-request flow; PrFlowSorted, PrFlowInPlace and PrFlowRevision state its failures and revisions |
| Orchestration.NonPrFlow | src/index.js:490-515 | the other flow; NonPrFlowSorted and NonPrFlowInPlace state its failures and revisions |
| Orchestration.PathsOf | src/index.js:290-515 | the report paths a completed flow sets; FlowPaths states them |
| Orchestration.OutputEvents | src/index.js:517-521 | one setOutput per set path; OutputNames states them |
| Orchestration.Work | src/index.js:262-515 | the try block up to the outputs; WorkSorted, WorkInPlace and WorkRevision state its failures and revisions |
| Orchestration.Run | src/index.js:258-537 | a whole run; FailureSorting, RestoreRunsLast, AnalysesInPlace and RunRevision state what it guarantees |
| OrchestrationFacts.AnalyzeWithRefsOrder | src/index.js:215-245 | the calls are directory set-up, base checkout, base analysis, head checkout and head analysis in that order; each starts only if the previous passed; the first failure ends the step with its message |
| OrchestrationFacts.AnalyzeWithRefsInPlace | src/index.js:219-245 | each analysis runs at the revision checked out just before it |
| OrchestrationFacts.SetupSorted | src/index.js:263-284 | the set-up's failures are all fatal and end it |
| OrchestrationFacts.AnalyzeWithRefsSorted | src/index.js:203-249 | a failed checkout or analysis is fatal and ends the step |
| OrchestrationFacts.HtmlReportSorted | src/index.js:336-377 | an HTML diff failure is fatal; an upload failure is followed by its warning and the flow goes on |
| OrchestrationFacts.PublishSorted | src/index.js:405-487 | every failure after the report was read is caught and followed by its warning |
| OrchestrationFacts.CommentFlowSorted | src/index.js:379-488 | the Markdown diff and the read are fatal; everything after them only warns |
| OrchestrationFacts.PrFlowSorted | src/index.js:295-489 | in the pull-request flow every failure is caught and warned about, except a last one, which is fatal and is the error thrown |
| OrchestrationFacts.NonPrFlowSorted | src/index.js:490-515 | in the other flow every failed analysis is fatal |
| OrchestrationFacts.WorkSorted | src/index.js:262-515 | in the whole try block, caught failures are warned about and the run goes on; a fatal failure ends it with its message |
| OrchestrationFacts.FailureSorting | src/index.js:258-537 | in a run, every failed call is followed by its warning or by setFailed; setFailed carries the thrown error's message verbatim and is followed only by the restore |
| OrchestrationFacts.RestoreRunsLast | src/index.js:258-537 | if reading the revision fails nothing else runs; otherwise the last call is the restore; when it passes the working copy is back at the original revision, and when it fails only a warning follows |
| OrchestrationFacts.PrFlowInPlace | src/index.js:295-489 | every analysis of the pull-request flow runs at the revision checked out at that point |
| OrchestrationFacts.NonPrFlowInPlace | src/index.js:490-515 | the other flow checks nothing out and analyses the revision the run started on |
| OrchestrationFacts.WorkInPlace | src/index.js:262-515 | every analysis of the try block runs at the revision checked out at that point |
| OrchestrationFacts.AnalysesInPlace | src/index.js:258-537 | in a whole run every analysis runs at the revision checked out at that point |
| OrchestrationFacts.AnalyzeWithRefsRevision | src/index.js:215-245 | analyzeWithRefs leaves the working copy at the head when both checkouts passed, at the base when only the first was reached and passed, and where it was otherwise |
| OrchestrationFacts.DiffReportsQuiet | src/index.js:316-488 | the diffs, uploads and comment check nothing out |
| OrchestrationFacts.PrFlowRevision | src/index.js:295-489 | the pull-request flow leaves the working copy where analyzeWithRefs left it, and where it was when the payload is missing |
| OrchestrationFacts.WorkRevision | src/index.js:262-515 | only the pull-request flow after a completed set-up moves the working copy |
| OrchestrationFacts.TryRevision | src/index.js:517-525 | the outputs and setFailed do not move the working copy |
| OrchestrationFacts.RestoreRevision | src/index.js:526-537 | the finally block puts the working copy back at the original revision unless that checkout fails |
| OrchestrationFacts.RunRevision | src/index.js:258-537 | a run ends at its starting revision unless the revision was read and the restore failed, and then where the try block left it |
| FlowFacts.PostedIff | src/index.js:441-471 | a comment is posted exactly when there is a token and one of the four attempts succeeds |
| FlowFacts.CompactCalls | src/index.js:414-439 | the Markdown report is uploaded exactly when it is too long |
| FlowFacts.CommentCalls | src/index.js:441-471 | the comment is posted exactly when there is a token |
| FlowFacts.FallbackCalls | src/index.js:473-487 | the fallback upload happens exactly when no comment was posted |
| FlowFacts.PublishCalls | src/index.js:405-487 | after reading the report: the Markdown upload happens iff the report is too long, a comment post iff there is a token, the fallback upload iff no comment was posted |
| FlowFacts.CommentCall | src/index.js:441-471 | with a token, the comment post carries the chosen comment text, at most four attempts and the waits 1000 * 2^j |
| FlowFacts.OutputsOf | src/index.js:517-521 | the outputs of a trace are some of its events, all of them setOutput |
| FlowFacts.RunOutputs | src/index.js:517-521 | a run sets outputs only when the try block completed, and then exactly those for the non-null paths |
| FlowFacts.OutputNames | src/index.js:517-521 | each output name is set exactly when its path is set, and to that path |
| FlowFacts.FlowPaths | src/index.js:290-521 | the pull-request flow sets the base, head and diff paths, and the HTML path iff the HTML report is wanted; the other flow sets the head path iff the JSON report is wanted and the HTML path iff the HTML report is wanted |
| FlowFacts.PrFlowWrote | src/index.js:305-353 | a completed pull-request flow has written the base, head and JSON diff reports, and the HTML diff when wanted |
| FlowFacts.NonPrFlowWrote | src/index.js:492-513 | a completed other flow has written the JSON and HTML reports that were wanted |
| FlowFacts.OutputsWritten | src/index.js:517-521 | every output names a report that the run wrote |
| Action.ActionRun.constructor | src/index.js:258-260 | a run starts with an empty log at the revision checked out |
| Action.ActionRun.Record | src/index.js:219-237 | an event is appended to the log; a passed checkout moves the working copy to its revision |
| Action.ActionRun.Caught | src/index.js:358-375 | a caught call appends the call and, when it failed, its warning |
| Action.ActionRun.RunAnalysis | src/index.js:121-124 | the CLI analyses the revision checked out now, and the working copy stays there |
| Action.ActionRun.DownloadCli | src/index.js:64-119 | resolves "latest" to the newest tag without its "v", picks the asset for the runner and fetches it; any failure is thrown |
| Action.ActionRun.Setup | src/index.js:263-284 | the required input, the download and, off Windows, the chmod, as the pure set-up prescribes |
| Action.ActionRun.AnalyzeWithRefs | src/index.js:203-249 | the directory set-up, the base checkout and analysis, then the head's, as the pure model prescribes; the working copy ends where those checkouts leave it, at the head when the step completes |
| Action.ActionRun.HtmlReport | src/index.js:335-377 | the HTML diff and its upload; the link is kept exactly when the upload passed |
| Action.ActionRun.ComposeComment | src/index.js:405-439 | the comment text is the chosen body, after the oversize warning and the upload when the report is too long |
| Action.ActionRun.PostComment | src/index.js:441-471 | no token means a warning only; otherwise one retried post, warned about when it fails; reports whether a comment was posted |
| Action.ActionRun.Publish | src/index.js:405-487 | the comment text, its post, and the fallback upload when nothing was posted |
| Action.ActionRun.CommentFlow | src/index.js:379-488 | the Markdown diff, the read and the publishing, with the diff and the read fatal |
| Action.ActionRun.DiffReports | src/index.js:316-488 | the JSON diff, the HTML report and, when wanted, the comment |
| Action.ActionRun.PrFlow | src/index.js:295-489 | the pull-request flow; when it completes, the paths are those the flow promises and the working copy is at the head revision; in any case the working copy is where the trace's checkouts leave it |
| Action.ActionRun.NonPrFlow | src/index.js:490-515 | the requested analyses at the revision checked out; the working copy does not move |
| Action.ActionRun.Work | src/index.js:262-515 | the try block up to the outputs; when it completes, the paths are those of the flow taken; the working copy is where the trace's checkouts leave it: unmoved off the pull-request flow, at the head when that flow completes |
| Action.ActionRun.SetOutputs | src/index.js:517-521 | one setOutput per non-null path, in the source's order |
| Action.ActionRun.TryCatch | src/index.js:262-525 | the work, then the outputs when it completed or setFailed with its message; the working copy is where the work left it |
| Action.ActionRun.Run | src/index.js:258-537 | the log is the trace the pure model gives and the working copy is where that trace's checkouts leave it: back at the starting revision unless the revision was read and the restore failed, and then where the try block left it |

## Left out

- Network and file I/O: the release lookup, the asset download, the extraction, the
  uploads, the comment API and reading the report file. Each is an outside call whose
  outcome `Env` gives.
- Action.ActionRun.DownloadCli: the tag lookup, the asset search, the download, the
  extraction and the check that the CLI exists (src/index.js:78-116) are modelled as one
  fetch with one outcome. So "Release asset not found" and "CLI not found" are two of that
  fetch's failure messages.
- The subprocesses (`git` and the CLI) and what they compute. A checkout, an analysis and a
  diff are calls that pass or fail. A failed checkout leaves the revision unchanged.
- `startTimer`, `core.info`, and the per-attempt warnings of `retryAsync` (src/index.js:35-37).
  They are logging only.
- `setTimeout`: waits are recorded as numbers and time is not modelled. `Math.pow` is
  natural-number power.
- `core.getInput` and `parseInt`: the inputs are strings that are already trimmed. A flag is
  on unless it is exactly "false".
- `max-projects`, `working-directory` and the report paths: reports are named by an
  enumeration.
- The two `mkdirP` calls are one directory set-up call.
- `buildHtmlArtifactUrl` (src/index.js:196-201): the run link is a parameter, `Env.runUrl`.
- Action.ActionRun.PostComment: a successful post counts as posted. The test of the
  response's truth value (src/index.js:459) is not modelled, because the API always returns
  a response object.
- Where `getCurrentRef` fails before the `try`, `main`'s promise rejects. The model records
  only that failed call.
