/** `main` (src/index.js:258-538) with `downloadCli` (src/index.js:64-119), `runCli`
    (src/index.js:121-124) and `analyzeWithRefs` (src/index.js:203-249) as the source runs
    them: one step after another against a working copy whose checked-out revision the
    checkouts change. Every method is proved to leave the trace the pure model of
    `Orchestration` describes, so what `OrchestrationFacts` and `FlowFacts` prove about that
    model holds of these steps. */
module Action {
  import opened Wrappers
  import opened Text
  import Retry
  import Platform
  import opened CommentComposer
  import Spec = Orchestration
  import OrchestrationFacts

  /** Appending the events of `a` and then, when `a` did not throw, those of `b` appends
      the events of `Then(a, b)`. */
  lemma ThenLog(log0: seq<Spec.Event>, a: Spec.Segment, log1: seq<Spec.Event>, b: Spec.Segment,
                log2: seq<Spec.Event>)
    requires log1 == log0 + a.events && a.error.None? && log2 == log1 + b.events
    ensures log2 == log0 + Spec.Then(a, b).events && Spec.Then(a, b).error == b.error
  {
  }

  lemma AppendLog(log0: seq<Spec.Event>, a: seq<Spec.Event>, log1: seq<Spec.Event>, b: seq<Spec.Event>,
                  log2: seq<Spec.Event>)
    requires log1 == log0 + a && log2 == log1 + b
    ensures log2 == log0 + (a + b)
  {
  }

  class ActionRun {
    /** The inputs, the runner, the event payload and the outcome of every outside call. */
    const env: Spec.Env
    /** The revision checked out when the run started. */
    ghost const start: string
    /** The revision the working copy has checked out. */
    var revision: string
    /** What the run has done so far: calls with their outcomes, warnings, outputs. */
    var log: seq<Spec.Event>

    constructor (env: Spec.Env, revision: string)
      ensures this.env == env && start == revision && this.revision == revision && log == []
    {
      this.env := env;
      start := revision;
      this.revision := revision;
      log := [];
    }

    /** Records one event; a checkout that passed moves the working copy to its revision. */
    method Record(e: Spec.Event)
      modifies this
      ensures log == old(log) + [e]
      ensures revision == Spec.RevisionAfterEvent(old(revision), e)
    {
      if e.Call? && e.status.Pass? && (e.op.CheckoutBase? || e.op.CheckoutHead? || e.op.Restore?) {
        revision := e.op.sha;
      }
      log := log + [e];
      assert log[..|log| - 1] == old(log);
    }

    /** An outside call; how it ends is the environment's outcome for it. */
    method Invoke(op: Spec.Op) returns (s: Status)
      modifies this
      ensures s == env.outcome(op) && log == old(log) + [Spec.Call(op, s)]
      ensures revision == Spec.RevisionAfterEvent(old(revision), Spec.Call(op, s))
    {
      s := env.outcome(op);
      Record(Spec.Call(op, s));
    }

    /** A call whose failure is thrown on. */
    method Step(op: Spec.Op) returns (error: Option<string>)
      modifies this
      ensures log == old(log) + Spec.Outside(env, op).events && error == Spec.Outside(env, op).error
      ensures revision == Spec.RevisionAfterEvent(old(revision), Spec.Call(op, env.outcome(op)))
    {
      var s := Invoke(op);
      error := if s.Fail? then Some(s.message) else None;
    }

    /** A call inside `try { ... } catch { core.warning(...) }`. */
    method Caught(op: Spec.Op) returns (s: Status)
      modifies this
      ensures s == env.outcome(op) && log == old(log) + Spec.CaughtEvents(op, s)
      ensures revision == Spec.RevisionAfterEvent(old(revision), Spec.Call(op, s))
    {
      s := Invoke(op);
      if s.Fail? {
        Record(Spec.Warning(Spec.WarningFor(op, s.message)));
      }
    }

    /** `runCli` of an analysis: the CLI analyses whatever revision is checked out now. */
    method RunAnalysis(format: Spec.Format, out: Spec.File) returns (error: Option<string>)
      modifies this
      ensures revision == old(revision)
      ensures var seg := Spec.Outside(env, Spec.Analyze(format, out, old(revision)));
        log == old(log) + seg.events && error == seg.error
    {
      error := Step(Spec.Analyze(format, out, revision));
    }

    /** `downloadCli`: resolve "latest" to the newest release's tag without its "v", pick
        the asset for this runner and fetch it. */
    method DownloadCli(version: string) returns (error: Option<string>)
      modifies this
      ensures revision == old(revision)
      ensures var seg := Spec.Then(Spec.ResolveVersion(env, version), Spec.FetchCli(env, version));
        log == old(log) + seg.events && error == seg.error
    {
      var resolved := version;
      if version == "latest" {
        Record(Spec.Call(Spec.ResolveLatestRelease, Spec.StatusOf(env.latestTag)));
        if env.latestTag.Err? {
          error := Some(env.latestTag.message);
          return;
        }
        resolved := Spec.StripV(env.latestTag.value);
      }
      var asset := Platform.GetPlatformAsset(env.platform, env.arch, resolved);
      if asset.Err? {
        error := Some(asset.message);
        return;
      }
      error := Step(Spec.DownloadCli(asset.value));
    }

    /** The start of the `try` block: the required input, the CLI download and, off
        Windows, making the CLI executable. */
    method Setup() returns (error: Option<string>)
      modifies this
      ensures revision == old(revision)
      ensures log == old(log) + Spec.Setup(env).events && error == Spec.Setup(env).error
    {
      if env.inputs.solution == "" {
        error := Some(Spec.RequiredSolution);
        return;
      }
      var version := if env.inputs.version == "" then "latest" else env.inputs.version;
      error := DownloadCli(version);
      OrchestrationFacts.ThenAssociative(Spec.ResolveVersion(env, version), Spec.FetchCli(env, version),
                                         Spec.MakeCliExecutable(env));
      if error.Some? {
        return;
      }
      if env.platform != "win32" {
        error := Step(Spec.MakeExecutable);
      }
    }

    /** `analyzeWithRefs`: check out the base and analyse it, then the head. */
    method AnalyzeWithRefs(baseSha: string, headSha: string) returns (error: Option<string>)
      modifies this
      ensures var seg := Spec.AnalyzeWithRefs(env, baseSha, headSha);
        log == old(log) + seg.events && error == seg.error
      ensures revision == Spec.RevisionAfter(old(revision), Spec.AnalyzeWithRefs(env, baseSha, headSha).events)
      ensures error.None? ==> revision == headSha
    {
      OrchestrationFacts.AnalyzeWithRefsRevision(env, baseSha, headSha, revision);
      error := Step(Spec.PrepareDirectories);
      if error.Some? {
        return;
      }
      error := Step(Spec.CheckoutBase(baseSha));
      if error.Some? {
        return;
      }
      error := RunAnalysis(Spec.Json, Spec.BaseReport);
      if error.Some? {
        return;
      }
      error := Step(Spec.CheckoutHead(headSha));
      if error.Some? {
        return;
      }
      error := RunAnalysis(Spec.Json, Spec.HeadReport);
    }

    /** The HTML diff and, when a comment is wanted, its upload; the link to the run is
        kept for the comment only when the upload passed. */
    method HtmlReport() returns (error: Option<string>, htmlUrl: Option<string>)
      modifies this
      ensures revision == old(revision)
      ensures log == old(log) + Spec.HtmlReport(env).events && error == Spec.HtmlReport(env).error
      ensures error.None? ==> htmlUrl == Spec.HtmlUrl(env)
    {
      error, htmlUrl := None, None;
      if Spec.Flag(env.inputs.reportHtml) {
        error := Step(Spec.Diff(Spec.Html, Spec.DiffHtml));
        if error.Some? {
          return;
        }
        if Spec.Flag(env.inputs.postComment) {
          var uploaded := Caught(Spec.HtmlUpload);
          if uploaded.Pass? {
            htmlUrl := Some(env.runUrl);
          }
        }
      }
    }

    /** The comment text: the report after the header, or, when the report is too long,
        the compact summary, after trying to upload the full report. */
    method ComposeComment(body: string, htmlUrl: Option<string>) returns (commentBody: string)
      modifies this
      ensures revision == old(revision)
      ensures log == old(log) + Spec.CompactEvents(env, body)
      ensures commentBody == Spec.PostedBody(env, body, htmlUrl)
    {
      commentBody := if Truthy(htmlUrl) then HtmlHeader(htmlUrl.value) + body else body;
      assert commentBody == FullComment(body, htmlUrl);
      if Utf16Length(body) > SafeCommentCharLimit {
        ghost var before := log;
        Record(Spec.Warning(Spec.Oversize));
        var uploaded := Caught(Spec.MarkdownUpload);
        assert log == before + ([Spec.Warning(Spec.Oversize)] + Spec.CaughtEvents(Spec.MarkdownUpload, uploaded));
        commentBody := BuildCompactComment(body, MarkdownArtifactName, uploaded.Pass?, htmlUrl);
      }
    }

    /** The comment post, with the action's retry policy; a failure is only a warning. */
    method PostComment(issue: nat, commentBody: string) returns (posted: bool)
      modifies this
      ensures revision == old(revision)
      ensures log == old(log) + Spec.PostEvents(env, issue, commentBody)
      ensures posted == Spec.Posted(env)
    {
      posted := false;
      if env.token == "" {
        Record(Spec.Warning(Spec.NoToken));
      } else {
        var result, attempts, waits := Retry.RetryAsync(env.comment, 3, 1000, 2);
        var op := Spec.CreateComment(issue, commentBody, attempts, waits);
        Record(Spec.Call(op, Spec.StatusOf(result)));
        if result.Err? {
          Record(Spec.Warning(Spec.WarningFor(op, result.message)));
        }
        posted := result.Ok?;
      }
    }

    /** Everything after the report was read: the comment text, its post, and the upload
        of the report as an artifact when no comment was posted. */
    method Publish(issue: nat, body: string, htmlUrl: Option<string>)
      modifies this
      ensures revision == old(revision)
      ensures log == old(log) + Spec.Publish(env, issue, body, htmlUrl)
    {
      ghost var before := log;
      var commentBody := ComposeComment(body, htmlUrl);
      ghost var afterCompact := log;
      var posted := PostComment(issue, commentBody);
      ghost var afterComment := log;
      if !posted {
        var uploaded := Caught(Spec.FallbackUpload);
      }
      AppendLog(before, Spec.CompactEvents(env, body), afterCompact,
                Spec.CommentEvents(env, issue, body, htmlUrl), afterComment);
      AppendLog(before, Spec.CompactEvents(env, body) + Spec.CommentEvents(env, issue, body, htmlUrl),
                afterComment, Spec.FallbackEvents(env), log);
    }

    /** The Markdown diff, reading it back, and publishing it. */
    method CommentFlow(issue: nat, htmlUrl: Option<string>) returns (error: Option<string>)
      modifies this
      ensures revision == old(revision)
      ensures var seg := Spec.CommentFlow(env, issue, htmlUrl);
        log == old(log) + seg.events && error == seg.error
    {
      ghost var before := log;
      var diff := Spec.Diff(Spec.Markdown, Spec.DiffMarkdown);
      error := Step(diff);
      if error.Some? {
        return;
      }
      ghost var afterDiff := log;
      var read := Spec.Call(Spec.ReadMarkdown, Spec.StatusOf(env.markdown));
      Record(read);
      if env.markdown.Err? {
        error := Some(env.markdown.message);
        return;
      }
      ghost var afterRead := log;
      ghost var published := Spec.Segment(Spec.Publish(env, issue, env.markdown.value, htmlUrl), None);
      Publish(issue, env.markdown.value, htmlUrl);
      ThenLog(afterDiff, Spec.Fatal(Spec.ReadMarkdown, Pass), afterRead, published, log);
      ThenLog(before, Spec.Outside(env, diff), afterDiff,
              Spec.Then(Spec.Fatal(Spec.ReadMarkdown, Pass), published), log);
    }

    /** After the analyses: the JSON diff, the HTML report and, when wanted, the comment. */
    method DiffReports(issue: nat) returns (error: Option<string>)
      modifies this
      ensures revision == old(revision)
      ensures var seg := Spec.DiffReports(env, issue);
        log == old(log) + seg.events && error == seg.error
    {
      ghost var before := log;
      var diff := Spec.Diff(Spec.Json, Spec.DiffJson);
      error := Step(diff);
      if error.Some? {
        return;
      }
      ghost var afterDiff := log;
      var htmlUrl: Option<string>;
      error, htmlUrl := HtmlReport();
      if error.Some? {
        return;
      }
      ghost var afterHtml := log;
      ghost var comment := if Spec.Flag(env.inputs.postComment) then Spec.CommentFlow(env, issue, Spec.HtmlUrl(env))
                           else Spec.Skip;
      if Spec.Flag(env.inputs.postComment) {
        error := CommentFlow(issue, htmlUrl);
      }
      ThenLog(afterDiff, Spec.HtmlReport(env), afterHtml, comment, log);
      ThenLog(before, Spec.Outside(env, diff), afterDiff, Spec.Then(Spec.HtmlReport(env), comment), log);
    }

    /** The pull-request flow: the analyses of both revisions, then the diffs. */
    method PrFlow() returns (error: Option<string>, paths: Spec.Paths)
      modifies this
      ensures log == old(log) + Spec.PrFlow(env).events && error == Spec.PrFlow(env).error
      ensures error.None? && Spec.RunsDiff(env) ==> paths == Spec.PathsOf(env)
      ensures revision == Spec.RevisionAfter(old(revision), Spec.PrFlow(env).events)
      ensures error.None? ==> env.pullRequest.Some? && revision == env.pullRequest.value.headSha
    {
      OrchestrationFacts.PrFlowRevision(env, revision);
      paths := Spec.Paths(None, None, None, None);
      if env.pullRequest.None? {
        error := Some(Spec.MissingPayload);
        return;
      }
      var pr := env.pullRequest.value;
      ghost var before := log;
      error := AnalyzeWithRefs(pr.baseSha, pr.headSha);
      if error.Some? {
        return;
      }
      ghost var afterAnalyses := log;
      paths := Spec.Paths(Some(Spec.BaseReport), Some(Spec.HeadReport), Some(Spec.DiffJson),
                          if Spec.Flag(env.inputs.reportHtml) then Some(Spec.DiffHtml) else None);
      error := DiffReports(pr.number);
      ThenLog(before, Spec.AnalyzeWithRefs(env, pr.baseSha, pr.headSha), afterAnalyses,
              Spec.DiffReports(env, pr.number), log);
    }

    /** The other flow: the requested analyses of the revision checked out. */
    method NonPrFlow() returns (error: Option<string>, paths: Spec.Paths)
      modifies this
      ensures revision == old(revision)
      ensures var seg := Spec.NonPrFlow(env, old(revision));
        log == old(log) + seg.events && error == seg.error
      ensures error.None? && !Spec.RunsDiff(env) ==> paths == Spec.PathsOf(env)
    {
      paths := Spec.Paths(None, None, None, None);
      error := None;
      if Spec.Flag(env.inputs.reportJson) {
        error := RunAnalysis(Spec.Json, Spec.ReportJson);
        if error.Some? {
          return;
        }
        paths := paths.(head := Some(Spec.ReportJson));
      }
      if Spec.Flag(env.inputs.reportHtml) {
        error := RunAnalysis(Spec.Html, Spec.ReportHtml);
        if error.Some? {
          return;
        }
        paths := paths.(html := Some(Spec.ReportHtml));
      }
    }

    /** The `try` block up to the outputs. */
    method Work() returns (error: Option<string>, paths: Spec.Paths)
      modifies this
      ensures var seg := Spec.Work(env, old(revision));
        log == old(log) + seg.events && error == seg.error
      ensures error.None? ==> paths == Spec.PathsOf(env)
      ensures revision == Spec.RevisionAfter(old(revision), Spec.Work(env, old(revision)).events)
      ensures !Spec.RunsDiff(env) ==> revision == old(revision)
      ensures error.None? && Spec.RunsDiff(env) ==>
        env.pullRequest.Some? && revision == env.pullRequest.value.headSha
    {
      paths := Spec.Paths(None, None, None, None);
      ghost var before := log;
      ghost var rev := revision;
      OrchestrationFacts.WorkRevision(env, rev);
      error := Setup();
      if error.Some? {
        return;
      }
      ghost var afterSetup := log;
      ghost var flow := if Spec.RunsDiff(env) then Spec.PrFlow(env) else Spec.NonPrFlow(env, rev);
      if Spec.IsPullRequest(env.eventName) && Spec.Flag(env.inputs.runDiff) {
        error, paths := PrFlow();
      } else {
        error, paths := NonPrFlow();
      }
      ThenLog(before, Spec.Setup(env), afterSetup, flow, log);
    }

    /** `core.setOutput` for every report path that is set. */
    method SetOutputs(paths: Spec.Paths)
      modifies this
      ensures revision == old(revision)
      ensures log == old(log) + Spec.OutputEvents(paths)
    {
      if paths.base.Some? {
        Record(Spec.SetOutput("base-report-json", paths.base.value));
      }
      if paths.head.Some? {
        Record(Spec.SetOutput("head-report-json", paths.head.value));
      }
      if paths.diff.Some? {
        Record(Spec.SetOutput("diff-report-json", paths.diff.value));
      }
      if paths.html.Some? {
        Record(Spec.SetOutput("diff-report-html", paths.html.value));
      }
    }

    /** The `try` block and its `catch`: the work, then the outputs when it completed or
        `core.setFailed` with the error it threw. */
    method TryCatch()
      modifies this
      ensures log == old(log) + Spec.Reported(Spec.TryBody(env, old(revision)))
      ensures revision == Spec.RevisionAfter(old(revision), Spec.Reported(Spec.TryBody(env, old(revision))))
      ensures revision == Spec.RevisionAfter(old(revision), Spec.Work(env, old(revision)).events)
    {
      OrchestrationFacts.TryRevision(env, revision);
      ghost var before := log;
      ghost var w := Spec.Work(env, revision);
      var error, paths := Work();
      ghost var afterWork := log;
      ghost var tail := if error.Some? then [Spec.SetFailed(error.value)] else Spec.OutputEvents(Spec.PathsOf(env));
      if error.None? {
        SetOutputs(paths);
      } else {
        Record(Spec.SetFailed(error.value));
      }
      AppendLog(before, w.events, afterWork, tail, log);
      OrchestrationFacts.ReportedThen(w, Spec.OutputEvents(Spec.PathsOf(env)));
    }

    /** A whole run of `main` on a fresh working copy: read the revision, run the `try`
        block, report a thrown error with `core.setFailed`, and in any case check the
        original revision out again. When that last checkout passes, the working copy is
        back where it started. */
    method Run()
      requires log == [] && revision == start
      modifies this
      ensures log == Spec.Run(env, start)
      ensures env.outcome(Spec.GetCurrentRef).Pass? && env.outcome(Spec.Restore(start)).Pass? ==>
        revision == start
      ensures revision == Spec.RevisionAfter(start, log)
      ensures revision == if env.outcome(Spec.GetCurrentRef).Pass? && env.outcome(Spec.Restore(start)).Fail?
                          then Spec.RevisionAfter(start, Spec.Work(env, start).events)
                          else start
    {
      OrchestrationFacts.RunRevision(env, start);
      var current := Invoke(Spec.GetCurrentRef);
      if current.Fail? {
        return;
      }
      var originalRef := revision;
      assert originalRef == start;
      ghost var tried := Spec.Reported(Spec.TryBody(env, start));
      TryCatch();
      assert log == [Spec.Call(Spec.GetCurrentRef, Pass)] + tried;
      var restored := Caught(Spec.Restore(originalRef));
    }
  }
}
