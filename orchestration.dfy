/** The control flow of `main` (src/index.js:258-538) and `analyzeWithRefs`
    (src/index.js:203-249) as a pure function from the outcomes of the outside calls
    to the trace of what the action did.

    Every subprocess, API call and file operation is an `Op`; the environment `Env`
    says how each one ends (`Pass`, or `Fail` with the thrown error's message). The
    trace records each call with its outcome, each `core.warning` of a caught failure,
    each `core.setOutput` and the `core.setFailed` of a fatal error. The working copy's
    checked-out revision is not part of the trace: it follows from it (`RevisionAfter`). */
module Orchestration {
  import opened Wrappers
  import Retry
  import Platform
  import opened CommentComposer

  datatype Format = Json | Html | Markdown

  /** The report files the CLI writes: the base and head analyses and the diffs of the
      pull-request flow, the analyses of the other flow. */
  datatype File = BaseReport | HeadReport | DiffJson | DiffHtml | DiffMarkdown | ReportJson | ReportHtml

  /** The three artifacts the action may upload; `ArtifactName` gives their names. */
  datatype Artifact = HtmlDiffArtifact | MarkdownDiffArtifact | CommentFallbackArtifact

  datatype Op =
    | GetCurrentRef                               // git rev-parse HEAD
    | ResolveLatestRelease                        // getLatestRelease
    | DownloadCli(asset: string)                  // fetch and unpack the release asset
    | MakeExecutable                              // chmod 755 of the CLI
    | PrepareDirectories                          // mkdirP of the base and head directories
    | CheckoutBase(sha: string)                   // git checkout --force <base>
    | CheckoutHead(sha: string)                   // git checkout --force <head>
    | Analyze(format: Format, out: File, at: string)  // CLI analyze, at the checked-out revision
    | Diff(format: Format, out: File)             // CLI diff of the base and head reports
    | ReadMarkdown                                // readFileSync of the Markdown diff
    | UploadArtifact(artifact: Artifact, file: File)
    | CreateComment(issue: nat, body: string, attempts: nat, waits: seq<nat>)
    | Restore(sha: string)                        // git checkout --force <original ref>

  datatype Event =
    | Call(op: Op, status: Status)
    | Warning(message: string)
    | SetOutput(name: string, file: File)
    | SetFailed(message: string)

  /** The action inputs as `core.getInput` returns them (trimmed, "" when not given). */
  datatype Inputs = Inputs(solution: string, runDiff: string, postComment: string,
                           reportHtml: string, reportJson: string, version: string)

  datatype PullRequest = PullRequest(number: nat, baseSha: string, headSha: string)

  /** Everything the run depends on: inputs, runner, event payload, `GITHUB_TOKEN`, the
      workflow-run link `buildHtmlArtifactUrl` makes, and the outcome of every outside call
      (`comment` gives the outcome of each `createComment` attempt). */
  datatype Env = Env(inputs: Inputs, platform: string, arch: string, eventName: string,
                     pullRequest: Option<PullRequest>, token: string, runUrl: string,
                     latestTag: Result<string>, markdown: Result<string>,
                     comment: nat -> Result<nat>, outcome: Op -> Status)

  const HtmlArtifactName := "structuralens-diff-report.html"
  const CommentArtifactName := "structuralens-pr-comment.md"

  function ArtifactName(artifact: Artifact): string {
    match artifact
    case HtmlDiffArtifact => HtmlArtifactName
    case MarkdownDiffArtifact => MarkdownArtifactName
    case CommentFallbackArtifact => CommentArtifactName
  }
  const RequiredSolution := "Input required and not supplied: solution"
  const MissingPayload := "Pull request payload not found."
  const NoToken := "GitHub token not provided. Skipping PR comment."
  const Oversize := "Markdown report exceeds 64512 chars; posting compact summary instead."

  /** A boolean input is on unless it is exactly "false". */
  predicate Flag(value: string) {
    value != "false"
  }

  predicate IsPullRequest(eventName: string) {
    eventName == "pull_request" || eventName == "pull_request_target"
  }

  function Version(inputs: Inputs): string {
    if inputs.version == "" then "latest" else inputs.version
  }

  /** `tag_name.replace(/^v/, "")`. */
  function StripV(tag: string): string {
    if |tag| > 0 && tag[0] == 'v' then tag[1..] else tag
  }

  function StatusOf<T>(r: Result<T>): Status {
    if r.Ok? then Pass else Fail(r.message)
  }

  /** The failures `main` catches: the artifact uploads, the comment post and the restore. */
  predicate IsCaught(op: Op) {
    op.UploadArtifact? || op.CreateComment? || op.Restore?
  }

  /** The warning that reports a caught failure. */
  function WarningFor(op: Op, message: string): string {
    match op
    case UploadArtifact(artifact, _) =>
      (match artifact
       case HtmlDiffArtifact => "Failed to upload HTML artifact: "
       case MarkdownDiffArtifact => "Failed to upload markdown artifact: "
       case CommentFallbackArtifact => "Failed to upload PR comment as artifact: ") + message
    case CreateComment(_, _, _, _) => "Failed to post PR comment after retries: " + message
    case Restore(_) => "Failed to restore original ref: " + message
    case _ => message
  }

  /** The checked-out revision after one event: a checkout that passed moves it. */
  function RevisionAfterEvent(rev: string, e: Event): string {
    if e.Call? && e.status.Pass? then
      match e.op
      case CheckoutBase(sha) => sha
      case CheckoutHead(sha) => sha
      case Restore(sha) => sha
      case _ => rev
    else rev
  }

  /** The checked-out revision after a trace that started at `rev`. */
  function RevisionAfter(rev: string, events: seq<Event>): string
    decreases |events|
  {
    if events == [] then rev
    else RevisionAfterEvent(RevisionAfter(rev, events[..|events| - 1]), events[|events| - 1])
  }

  // ----- pieces of a run -----

  /** What a stretch of the `try` block did, and the message of the error it threw, if any. */
  datatype Segment = Segment(events: seq<Event>, error: Option<string>)

  /** Run `b` when `a` did not throw. */
  function Then(a: Segment, b: Segment): Segment {
    if a.error.Some? then a else Segment(a.events + b.events, b.error)
  }

  const Skip := Segment([], None)

  function Throw(message: string): Segment {
    Segment([], Some(message))
  }

  /** A call whose failure propagates. */
  function Fatal(op: Op, s: Status): Segment {
    Segment([Call(op, s)], if s.Fail? then Some(s.message) else None)
  }

  /** A call inside `try { ... } catch { core.warning(...) }`. */
  function CaughtEvents(op: Op, s: Status): seq<Event> {
    [Call(op, s)] + (if s.Fail? then [Warning(WarningFor(op, s.message))] else [])
  }

  function Outside(env: Env, op: Op): Segment {
    Fatal(op, env.outcome(op))
  }

  // ----- downloadCli and the set-up of main (src/index.js:263-284) -----

  /** The version `downloadCli` fetches when asked for `version`. */
  function ResolvedVersion(env: Env, version: string): string {
    if version != "latest" then version
    else if env.latestTag.Ok? then StripV(env.latestTag.value) else ""
  }

  function ResolveVersion(env: Env, version: string): Segment {
    if version == "latest" then Fatal(ResolveLatestRelease, StatusOf(env.latestTag)) else Skip
  }

  function FetchCli(env: Env, version: string): Segment {
    match Platform.GetPlatformAsset(env.platform, env.arch, ResolvedVersion(env, version))
    case Err(message) => Throw(message)
    case Ok(asset) => Outside(env, DownloadCli(asset))
  }

  function MakeCliExecutable(env: Env): Segment {
    if env.platform != "win32" then Outside(env, MakeExecutable) else Skip
  }

  function Setup(env: Env): Segment {
    if env.inputs.solution == "" then Throw(RequiredSolution)
    else Then(ResolveVersion(env, Version(env.inputs)),
              Then(FetchCli(env, Version(env.inputs)), MakeCliExecutable(env)))
  }

  // ----- analyzeWithRefs (src/index.js:203-249) -----

  function AnalyzeWithRefs(env: Env, baseSha: string, headSha: string): Segment {
    Then(Outside(env, PrepareDirectories),
    Then(Outside(env, CheckoutBase(baseSha)),
    Then(Outside(env, Analyze(Json, BaseReport, baseSha)),
    Then(Outside(env, CheckoutHead(headSha)),
         Outside(env, Analyze(Json, HeadReport, headSha))))))
  }

  // ----- the pull-request flow (src/index.js:295-489) -----

  const HtmlUpload := UploadArtifact(HtmlDiffArtifact, DiffHtml)
  const MarkdownUpload := UploadArtifact(MarkdownDiffArtifact, DiffMarkdown)
  const FallbackUpload := UploadArtifact(CommentFallbackArtifact, DiffMarkdown)

  /** The link put in the comment header: set only when the HTML report was uploaded. */
  function HtmlUrl(env: Env): Option<string> {
    if Flag(env.inputs.reportHtml) && Flag(env.inputs.postComment) && env.outcome(HtmlUpload).Pass?
    then Some(env.runUrl) else None
  }

  function HtmlReport(env: Env): Segment {
    if Flag(env.inputs.reportHtml) then
      Then(Outside(env, Diff(Html, DiffHtml)),
           if Flag(env.inputs.postComment) then Segment(CaughtEvents(HtmlUpload, env.outcome(HtmlUpload)), None)
           else Skip)
    else Skip
  }

  /** The compact branch's upload of the full report passed. */
  predicate MarkdownUploaded(env: Env, body: string) {
    NeedsCompact(body) && env.outcome(MarkdownUpload).Pass?
  }

  /** The body handed to `createComment`. */
  function PostedBody(env: Env, body: string, htmlUrl: Option<string>): string {
    CommentBody(body, htmlUrl, MarkdownUploaded(env, body))
  }

  /** The comment post with the action's retry policy. */
  function CommentRun(env: Env): Retry.RetryRun<nat> {
    Retry.Retry(env.comment, 3, 1000, 2)
  }

  /** A comment was posted: there was a token and some attempt succeeded. */
  predicate Posted(env: Env) {
    env.token != "" && CommentRun(env).result.Ok?
  }

  function CompactEvents(env: Env, body: string): seq<Event> {
    if NeedsCompact(body) then [Warning(Oversize)] + CaughtEvents(MarkdownUpload, env.outcome(MarkdownUpload))
    else []
  }

  /** Posting `commentBody`: skipped with a warning when there is no token, otherwise one
      call with the retry policy's attempts and waits, caught. */
  function PostEvents(env: Env, issue: nat, commentBody: string): seq<Event> {
    if env.token == "" then [Warning(NoToken)]
    else
      var run := CommentRun(env);
      CaughtEvents(CreateComment(issue, commentBody, run.attempts, run.waits), StatusOf(run.result))
  }

  function CommentEvents(env: Env, issue: nat, body: string, htmlUrl: Option<string>): seq<Event> {
    PostEvents(env, issue, PostedBody(env, body, htmlUrl))
  }

  function FallbackEvents(env: Env): seq<Event> {
    if Posted(env) then [] else CaughtEvents(FallbackUpload, env.outcome(FallbackUpload))
  }

  /** Everything after the report was read (src/index.js:405-487): nothing here throws. */
  function Publish(env: Env, issue: nat, body: string, htmlUrl: Option<string>): seq<Event> {
    CompactEvents(env, body) + CommentEvents(env, issue, body, htmlUrl) + FallbackEvents(env)
  }

  function CommentFlow(env: Env, issue: nat, htmlUrl: Option<string>): Segment {
    Then(Outside(env, Diff(Markdown, DiffMarkdown)),
         Then(Fatal(ReadMarkdown, StatusOf(env.markdown)),
              if env.markdown.Ok? then Segment(Publish(env, issue, env.markdown.value, htmlUrl), None) else Skip))
  }

  /** After the analyses: the JSON diff, the HTML report and the comment. */
  function DiffReports(env: Env, issue: nat): Segment {
    Then(Outside(env, Diff(Json, DiffJson)),
    Then(HtmlReport(env),
         if Flag(env.inputs.postComment) then CommentFlow(env, issue, HtmlUrl(env)) else Skip))
  }

  function PrFlow(env: Env): Segment {
    match env.pullRequest
    case None => Throw(MissingPayload)
    case Some(pr) =>
      Then(AnalyzeWithRefs(env, pr.baseSha, pr.headSha), DiffReports(env, pr.number))
  }

  // ----- the other flow (src/index.js:490-515), at the revision the run started on -----

  function NonPrFlow(env: Env, rev: string): Segment {
    Then(if Flag(env.inputs.reportJson) then Outside(env, Analyze(Json, ReportJson, rev)) else Skip,
         if Flag(env.inputs.reportHtml) then Outside(env, Analyze(Html, ReportHtml, rev)) else Skip)
  }

  predicate RunsDiff(env: Env) {
    IsPullRequest(env.eventName) && Flag(env.inputs.runDiff)
  }

  // ----- outputs (src/index.js:517-521) -----

  /** The report paths that are non-null when the flow completes. */
  datatype Paths = Paths(base: Option<File>, head: Option<File>, diff: Option<File>, html: Option<File>)

  function PathsOf(env: Env): Paths {
    if RunsDiff(env) then
      Paths(Some(BaseReport), Some(HeadReport), Some(DiffJson),
            if Flag(env.inputs.reportHtml) then Some(DiffHtml) else None)
    else
      Paths(None, if Flag(env.inputs.reportJson) then Some(ReportJson) else None,
            None, if Flag(env.inputs.reportHtml) then Some(ReportHtml) else None)
  }

  function OutputIf(name: string, path: Option<File>): seq<Event> {
    if path.Some? then [SetOutput(name, path.value)] else []
  }

  function OutputEvents(p: Paths): seq<Event> {
    OutputIf("base-report-json", p.base) + OutputIf("head-report-json", p.head)
    + OutputIf("diff-report-json", p.diff) + OutputIf("diff-report-html", p.html)
  }

  // ----- main -----

  /** The `try` block up to the outputs, started at revision `rev`. */
  function Work(env: Env, rev: string): Segment {
    Then(Setup(env), if RunsDiff(env) then PrFlow(env) else NonPrFlow(env, rev))
  }

  /** The whole `try` block: the outputs are set only when the work did not throw. */
  function TryBody(env: Env, rev: string): Segment {
    Then(Work(env, rev), Segment(OutputEvents(PathsOf(env)), None))
  }

  /** The `catch`: a thrown error is reported through `core.setFailed`. */
  function Reported(seg: Segment): seq<Event> {
    seg.events + (if seg.error.Some? then [SetFailed(seg.error.value)] else [])
  }

  /** The `finally`: check the original revision out again; a failure is only a warning. */
  function RestoreEvents(env: Env, originalRef: string): seq<Event> {
    CaughtEvents(Restore(originalRef), env.outcome(Restore(originalRef)))
  }

  /** A whole run of `main` on a working copy at revision `rev0`. When reading the current
      revision fails, that happens before the `try`: the promise rejects and nothing else runs. */
  function Run(env: Env, rev0: string): seq<Event> {
    var ref := env.outcome(GetCurrentRef);
    if ref.Fail? then [Call(GetCurrentRef, ref)]
    else [Call(GetCurrentRef, ref)] + Reported(TryBody(env, rev0)) + RestoreEvents(env, rev0)
  }
}
