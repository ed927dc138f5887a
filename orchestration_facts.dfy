/** What the control flow of `main` guarantees, proved on the trace of `Orchestration.Run`. */
module OrchestrationFacts {
  import opened Wrappers
  import opened Orchestration
  import Retry
  import opened CommentComposer

  // ----- the revision -----

  lemma {:induction false} RevisionAfterAppend(rev: string, a: seq<Event>, b: seq<Event>)
    ensures RevisionAfter(rev, a + b) == RevisionAfter(RevisionAfter(rev, a), b)
    decreases |b|
  {
    if b == [] {
      assert a + b == a;
    } else {
      var n := |b| - 1;
      assert (a + b)[..|a + b| - 1] == a + b[..n];
      assert (a + b)[|a + b| - 1] == b[n];
      RevisionAfterAppend(rev, a, b[..n]);
    }
  }

  predicate MovesRevision(e: Event) {
    e.Call? && (e.op.CheckoutBase? || e.op.CheckoutHead? || e.op.Restore?)
  }

  predicate IsAnalysis(e: Event) {
    e.Call? && e.op.Analyze?
  }

  /** Neither checks anything out nor analyses. */
  predicate Quiet(events: seq<Event>) {
    forall i :: 0 <= i < |events| ==> !MovesRevision(events[i]) && !IsAnalysis(events[i])
  }

  lemma {:induction false} StaysAt(rev: string, events: seq<Event>)
    requires forall i :: 0 <= i < |events| ==> !MovesRevision(events[i])
    ensures RevisionAfter(rev, events) == rev
    decreases |events|
  {
    if events != [] {
      StaysAt(rev, events[..|events| - 1]);
    }
  }

  /** Every analysis in the trace runs at the revision checked out at that point. */
  predicate AnalysesAt(rev: string, events: seq<Event>) {
    forall i :: 0 <= i < |events| ==> InPlaceAt(rev, events, i)
  }

  /** Event `i`, when it is an analysis, runs at the revision checked out before it. */
  predicate InPlaceAt(rev: string, events: seq<Event>, i: nat)
    requires i < |events|
  {
    IsAnalysis(events[i]) ==> events[i].op.at == RevisionAfter(rev, events[..i])
  }

  lemma InPlaceFirst(rev: string, a: seq<Event>, b: seq<Event>, i: nat)
    requires i < |a| && InPlaceAt(rev, a, i)
    ensures InPlaceAt(rev, a + b, i)
  {
    assert (a + b)[i] == a[i];
    assert (a + b)[..i] == a[..i];
  }

  lemma InPlaceSecond(rev: string, a: seq<Event>, b: seq<Event>, j: nat)
    requires j < |b| && InPlaceAt(RevisionAfter(rev, a), b, j)
    ensures InPlaceAt(rev, a + b, |a| + j)
  {
    assert (a + b)[|a| + j] == b[j];
    assert (a + b)[..|a| + j] == a + b[..j];
    RevisionAfterAppend(rev, a, b[..j]);
  }

  lemma AnalysesAtAppend(rev: string, a: seq<Event>, b: seq<Event>)
    requires AnalysesAt(rev, a) && AnalysesAt(RevisionAfter(rev, a), b)
    ensures AnalysesAt(rev, a + b)
  {
    forall i | 0 <= i < |a + b|
      ensures InPlaceAt(rev, a + b, i)
    {
      if i < |a| {
        InPlaceFirst(rev, a, b, i);
      } else {
        InPlaceSecond(rev, a, b, i - |a|);
      }
    }
  }

  lemma QuietAnalysesAt(rev: string, events: seq<Event>)
    requires Quiet(events)
    ensures AnalysesAt(rev, events) && RevisionAfter(rev, events) == rev
  {
    forall i | 0 <= i < |events| ensures InPlaceAt(rev, events, i) {
      assert !IsAnalysis(events[i]);
    }
    StaysAt(rev, events);
  }

  // ----- analyzeWithRefs: base strictly before head -----

  /** The steps of `analyzeWithRefs`, in source order. */
  function RefsOps(baseSha: string, headSha: string): seq<Op> {
    [PrepareDirectories, CheckoutBase(baseSha), Analyze(Json, BaseReport, baseSha),
     CheckoutHead(headSha), Analyze(Json, HeadReport, headSha)]
  }

  /** Checkout order: `analyzeWithRefs` makes its steps in the order prepare, check out
      base, analyse base, check out head, analyse head, each only after all earlier ones
      passed; it throws the error of the first failing step, and completes exactly when
      all five passed. */
  lemma AnalyzeWithRefsOrder(env: Env, baseSha: string, headSha: string)
    ensures var seg := AnalyzeWithRefs(env, baseSha, headSha);
      var ops := RefsOps(baseSha, headSha);
      var n := |seg.events|;
      && 1 <= n <= 5
      && (forall k :: 0 <= k < n ==> seg.events[k] == Call(ops[k], env.outcome(ops[k])))
      && (forall k :: 0 <= k < n - 1 ==> env.outcome(ops[k]).Pass?)
      && (seg.error.None? <==> n == 5 && env.outcome(ops[4]).Pass?)
      && (seg.error.Some? ==> env.outcome(ops[n - 1]) == Fail(seg.error.value))
  {
  }

  /** Both analyses of `analyzeWithRefs` run at the revision they are labelled with: the
      base report at the base commit, the head report at the head commit. */
  lemma AnalyzeWithRefsInPlace(env: Env, baseSha: string, headSha: string, rev: string)
    ensures AnalysesAt(rev, AnalyzeWithRefs(env, baseSha, headSha).events)
  {
    var events := AnalyzeWithRefs(env, baseSha, headSha).events;
    AnalyzeWithRefsOrder(env, baseSha, headSha);
    forall i | 0 <= i < |events|
      ensures InPlaceAt(rev, events, i)
    {
      if i == 2 {
        assert events[..2][..1][..0] == [];
        assert events[..2][..1] == events[..1];
        assert RevisionAfter(rev, events[..2]) == baseSha;
      } else if i == 4 {
        assert events[..4][..3] == events[..3];
        assert RevisionAfter(rev, events[..4]) == headSha;
      }
    }
  }

  // ----- sorting failures into fatal and caught -----

  /** Every failed call is a caught one, directly followed by the warning reporting it. */
  predicate FailuresWarned(events: seq<Event>) {
    forall i :: 0 <= i < |events| && events[i].Call? && events[i].status.Fail? ==>
      IsCaught(events[i].op) && i + 1 < |events|
      && events[i + 1] == Warning(WarningFor(events[i].op, events[i].status.message))
  }

  /** What the `try` block can do itself: calls other than reading and restoring the
      revision, and warnings. */
  predicate InTry(e: Event) {
    (e.Call? && !e.op.Restore? && !e.op.GetCurrentRef?) || e.Warning?
  }

  predicate FatalEnd(e: Event, message: string) {
    e.Call? && e.status == Fail(message) && !IsCaught(e.op)
  }

  /** All failures but the last call's are warned about, and the last call failed fatally. */
  predicate EndsFatally(events: seq<Event>, message: string) {
    |events| > 0 && FailuresWarned(events[..|events| - 1]) && FatalEnd(events[|events| - 1], message)
  }

  /** A stretch of the `try` block whose failures are sorted: caught failures are warned
      about and the run goes on; a fatal failure ends the stretch and its message is the
      error thrown (an error with no failed call is a `throw` of the code itself). */
  predicate Sorted(seg: Segment) {
    && AllInTry(seg.events)
    && (FailuresWarned(seg.events) || (seg.error.Some? && EndsFatally(seg.events, seg.error.value)))
  }

  lemma FailuresWarnedAppend(a: seq<Event>, b: seq<Event>)
    requires FailuresWarned(a) && FailuresWarned(b)
    ensures FailuresWarned(a + b)
  {
    forall i | 0 <= i < |a + b| && (a + b)[i].Call? && (a + b)[i].status.Fail?
      ensures IsCaught((a + b)[i].op) && i + 1 < |a + b|
        && (a + b)[i + 1] == Warning(WarningFor((a + b)[i].op, (a + b)[i].status.message))
    {
      if i < |a| {
        assert (a + b)[i] == a[i] && (a + b)[i + 1] == a[i + 1];
      } else {
        assert (a + b)[i] == b[i - |a|];
        assert (a + b)[i + 1] == b[i + 1 - |a|];
      }
    }
  }

  predicate AllInTry(events: seq<Event>) {
    forall i :: 0 <= i < |events| ==> InTry(events[i])
  }

  lemma AllInTryAppend(a: seq<Event>, b: seq<Event>)
    requires AllInTry(a) && AllInTry(b)
    ensures AllInTry(a + b)
  {
    forall i | 0 <= i < |a + b| ensures InTry((a + b)[i]) {
      if i < |a| { assert (a + b)[i] == a[i]; } else { assert (a + b)[i] == b[i - |a|]; }
    }
  }

  lemma EndsFatallyAppend(a: seq<Event>, b: seq<Event>, message: string)
    requires FailuresWarned(a) && EndsFatally(b, message)
    ensures EndsFatally(a + b, message)
  {
    var e := a + b;
    FailuresWarnedAppend(a, b[..|b| - 1]);
    assert e[..|e| - 1] == a + b[..|b| - 1];
    assert e[|e| - 1] == b[|b| - 1];
  }

  lemma ThenSorted(a: Segment, b: Segment)
    requires Sorted(a) && Sorted(b)
    ensures Sorted(Then(a, b))
  {
    if a.error.None? {
      AllInTryAppend(a.events, b.events);
      if FailuresWarned(b.events) {
        FailuresWarnedAppend(a.events, b.events);
      } else {
        EndsFatallyAppend(a.events, b.events, b.error.value);
      }
    }
  }

  /** Running `a`, then `b`, then `c` is the same however the steps are grouped. */
  lemma ThenAssociative(a: Segment, b: Segment, c: Segment)
    ensures Then(Then(a, b), c) == Then(a, Then(b, c))
  {
    if a.error.None? && b.error.None? {
      assert (a.events + b.events) + c.events == a.events + (b.events + c.events);
    }
  }

  lemma FatalSorted(op: Op, s: Status)
    requires !IsCaught(op) && !op.GetCurrentRef?
    ensures Sorted(Fatal(op, s))
  {
    if s.Fail? {
      assert Fatal(op, s).events[..0] == [];
    }
  }

  lemma CaughtSorted(op: Op, s: Status)
    requires IsCaught(op) && !op.Restore?
    ensures Sorted(Segment(CaughtEvents(op, s), None))
  {
  }

  // ----- each stretch of the try block is sorted -----

  lemma FetchCliSorted(env: Env)
    ensures Sorted(FetchCli(env, Version(env.inputs)))
  {
    match Platform.GetPlatformAsset(env.platform, env.arch, ResolvedVersion(env, Version(env.inputs)))
    case Err(_) =>
    case Ok(asset) => FatalSorted(DownloadCli(asset), env.outcome(DownloadCli(asset)));
  }

  lemma SetupSorted(env: Env)
    ensures Sorted(Setup(env))
  {
    FatalSorted(ResolveLatestRelease, StatusOf(env.latestTag));
    FetchCliSorted(env);
    FatalSorted(MakeExecutable, env.outcome(MakeExecutable));
    ThenSorted(FetchCli(env, Version(env.inputs)), MakeCliExecutable(env));
    ThenSorted(ResolveVersion(env, Version(env.inputs)), Then(FetchCli(env, Version(env.inputs)), MakeCliExecutable(env)));
  }

  lemma AnalyzeWithRefsSorted(env: Env, baseSha: string, headSha: string)
    ensures Sorted(AnalyzeWithRefs(env, baseSha, headSha))
  {
    var ops := RefsOps(baseSha, headSha);
    FatalSorted(ops[0], env.outcome(ops[0]));
    FatalSorted(ops[1], env.outcome(ops[1]));
    FatalSorted(ops[2], env.outcome(ops[2]));
    FatalSorted(ops[3], env.outcome(ops[3]));
    FatalSorted(ops[4], env.outcome(ops[4]));
    ThenSorted(Outside(env, ops[3]), Outside(env, ops[4]));
    ThenSorted(Outside(env, ops[2]), Then(Outside(env, ops[3]), Outside(env, ops[4])));
    ThenSorted(Outside(env, ops[1]), Then(Outside(env, ops[2]), Then(Outside(env, ops[3]), Outside(env, ops[4]))));
    ThenSorted(Outside(env, ops[0]),
      Then(Outside(env, ops[1]), Then(Outside(env, ops[2]), Then(Outside(env, ops[3]), Outside(env, ops[4])))));
  }

  lemma HtmlReportSorted(env: Env)
    ensures Sorted(HtmlReport(env))
  {
    FatalSorted(Diff(Html, DiffHtml), env.outcome(Diff(Html, DiffHtml)));
    CaughtSorted(HtmlUpload, env.outcome(HtmlUpload));
    ThenSorted(Outside(env, Diff(Html, DiffHtml)), Segment(CaughtEvents(HtmlUpload, env.outcome(HtmlUpload)), None));
  }

  /** Two stretches that cannot throw, one after the other. */
  lemma ConcatSorted(a: seq<Event>, b: seq<Event>)
    requires Sorted(Segment(a, None)) && Sorted(Segment(b, None))
    ensures Sorted(Segment(a + b, None))
  {
    ThenSorted(Segment(a, None), Segment(b, None));
  }

  lemma CompactSorted(env: Env, body: string)
    ensures Sorted(Segment(CompactEvents(env, body), None))
  {
    CaughtSorted(MarkdownUpload, env.outcome(MarkdownUpload));
    ConcatSorted([Warning(Oversize)], CaughtEvents(MarkdownUpload, env.outcome(MarkdownUpload)));
  }

  lemma CommentSorted(env: Env, issue: nat, body: string, htmlUrl: Option<string>)
    ensures Sorted(Segment(CommentEvents(env, issue, body, htmlUrl), None))
  {
    if env.token != "" {
      var run := CommentRun(env);
      var op, st := CreateComment(issue, PostedBody(env, body, htmlUrl), run.attempts, run.waits), StatusOf(run.result);
      assert CommentEvents(env, issue, body, htmlUrl) == CaughtEvents(op, st);
      CaughtSorted(op, st);
    }
  }

  lemma FallbackSorted(env: Env)
    ensures Sorted(Segment(FallbackEvents(env), None))
  {
    CaughtSorted(FallbackUpload, env.outcome(FallbackUpload));
  }

  lemma PublishSorted(env: Env, issue: nat, body: string, htmlUrl: Option<string>)
    ensures Sorted(Segment(Publish(env, issue, body, htmlUrl), None))
  {
    var compact, comment, fallback := CompactEvents(env, body), CommentEvents(env, issue, body, htmlUrl), FallbackEvents(env);
    CompactSorted(env, body);
    CommentSorted(env, issue, body, htmlUrl);
    FallbackSorted(env);
    ConcatSorted(compact, comment);
    ConcatSorted(compact + comment, fallback);
  }

  lemma CommentFlowSorted(env: Env, issue: nat, htmlUrl: Option<string>)
    ensures Sorted(CommentFlow(env, issue, htmlUrl))
  {
    FatalSorted(Diff(Markdown, DiffMarkdown), env.outcome(Diff(Markdown, DiffMarkdown)));
    FatalSorted(ReadMarkdown, StatusOf(env.markdown));
    var rest := if env.markdown.Ok? then Segment(Publish(env, issue, env.markdown.value, htmlUrl), None) else Skip;
    if env.markdown.Ok? {
      PublishSorted(env, issue, env.markdown.value, htmlUrl);
    }
    ThenSorted(Fatal(ReadMarkdown, StatusOf(env.markdown)), rest);
    ThenSorted(Outside(env, Diff(Markdown, DiffMarkdown)), Then(Fatal(ReadMarkdown, StatusOf(env.markdown)), rest));
  }

  lemma PrFlowSorted(env: Env)
    ensures Sorted(PrFlow(env))
  {
    match env.pullRequest
    case None =>
    case Some(pr) =>
      AnalyzeWithRefsSorted(env, pr.baseSha, pr.headSha);
      FatalSorted(Diff(Json, DiffJson), env.outcome(Diff(Json, DiffJson)));
      HtmlReportSorted(env);
      CommentFlowSorted(env, pr.number, HtmlUrl(env));
      var comment := if Flag(env.inputs.postComment) then CommentFlow(env, pr.number, HtmlUrl(env)) else Skip;
      ThenSorted(HtmlReport(env), comment);
      ThenSorted(Outside(env, Diff(Json, DiffJson)), Then(HtmlReport(env), comment));
      ThenSorted(AnalyzeWithRefs(env, pr.baseSha, pr.headSha),
                 Then(Outside(env, Diff(Json, DiffJson)), Then(HtmlReport(env), comment)));
  }

  lemma NonPrFlowSorted(env: Env, rev: string)
    ensures Sorted(NonPrFlow(env, rev))
  {
    FatalSorted(Analyze(Json, ReportJson, rev), env.outcome(Analyze(Json, ReportJson, rev)));
    FatalSorted(Analyze(Html, ReportHtml, rev), env.outcome(Analyze(Html, ReportHtml, rev)));
    ThenSorted(if Flag(env.inputs.reportJson) then Outside(env, Analyze(Json, ReportJson, rev)) else Skip,
               if Flag(env.inputs.reportHtml) then Outside(env, Analyze(Html, ReportHtml, rev)) else Skip);
  }

  lemma WorkSorted(env: Env, rev: string)
    ensures Sorted(Work(env, rev))
  {
    SetupSorted(env);
    PrFlowSorted(env);
    NonPrFlowSorted(env, rev);
    ThenSorted(Setup(env), if RunsDiff(env) then PrFlow(env) else NonPrFlow(env, rev));
  }

  // ----- failures in a whole run -----

  /** What follows a failed call: its warning when it is caught, `setFailed` otherwise. */
  function Reaction(op: Op, message: string): Event {
    if IsCaught(op) then Warning(WarningFor(op, message)) else SetFailed(message)
  }

  predicate FailuresHandled(t: seq<Event>) {
    forall i :: 0 <= i < |t| && t[i].Call? && t[i].status.Fail? ==>
      i + 1 < |t| && t[i + 1] == Reaction(t[i].op, t[i].status.message)
  }

  lemma TraceHandled(t: seq<Event>, c: Event, w: Segment, tail: seq<Event>, r: seq<Event>)
    requires t == [c] + w.events + tail + r
    requires c.Call? && c.status.Pass?
    requires Sorted(w) && TailOk(w, tail) && RestoreOk(r)
    ensures FailuresHandled(t)
  {
    var n := |w.events|;
    forall i | 0 <= i < |t| && t[i].Call? && t[i].status.Fail?
      ensures i + 1 < |t| && t[i + 1] == Reaction(t[i].op, t[i].status.message)
    {
      if 1 <= i <= n {
        var j := i - 1;
        assert t[i] == w.events[j];
        if FailuresWarned(w.events) {
          assert t[i + 1] == w.events[j + 1];
        } else if j < n - 1 {
          assert w.events[..n - 1][j] == w.events[j];
          assert t[i + 1] == w.events[..n - 1][j + 1];
        } else {
          assert t[i + 1] == tail[0];
        }
      } else {
        assert i > n + |tail|;
        assert t[i] == r[i - 1 - n - |tail|];
        assert t[i + 1] == r[i - n - |tail|];
      }
    }
  }

  /** What the `catch` and the outputs add after the work: `setFailed` when it threw, the
      outputs otherwise. */
  function Tail(env: Env, rev0: string): seq<Event> {
    var w := Work(env, rev0);
    if w.error.Some? then [SetFailed(w.error.value)] else OutputEvents(PathsOf(env))
  }

  /** The tail after the work: only outputs when it completed, only `setFailed` when it threw. */
  predicate TailOk(w: Segment, tail: seq<Event>) {
    && (w.error.None? ==> forall k :: 0 <= k < |tail| ==> tail[k].SetOutput?)
    && (w.error.Some? ==> tail == [SetFailed(w.error.value)])
  }

  /** The restore events: a caught call, so its failure is warned about; no analysis, no
      `setFailed`. */
  predicate RestoreOk(r: seq<Event>) {
    && FailuresWarned(r)
    && forall k :: 0 <= k < |r| ==> !r[k].SetFailed? && !IsAnalysis(r[k])
  }

  lemma OutputsOnly(p: Paths)
    ensures forall k :: 0 <= k < |OutputEvents(p)| ==> OutputEvents(p)[k].SetOutput?
  {
  }

  lemma TailFacts(env: Env, rev0: string)
    ensures TailOk(Work(env, rev0), Tail(env, rev0))
  {
    OutputsOnly(PathsOf(env));
  }

  lemma RestoreFacts(env: Env, rev0: string)
    ensures RestoreOk(RestoreEvents(env, rev0))
  {
  }

  lemma ReportedThen(w: Segment, outs: seq<Event>)
    ensures Reported(Then(w, Segment(outs, None)))
      == w.events + (if w.error.Some? then [SetFailed(w.error.value)] else outs)
  {
    if w.error.None? {
      assert Reported(Then(w, Segment(outs, None))) == w.events + outs + [];
    }
  }

  lemma RunShape(env: Env, rev0: string)
    requires env.outcome(GetCurrentRef).Pass?
    ensures Run(env, rev0)
      == [Call(GetCurrentRef, Pass)] + Work(env, rev0).events + Tail(env, rev0) + RestoreEvents(env, rev0)
  {
    var w := Work(env, rev0);
    ReportedThen(w, OutputEvents(PathsOf(env)));
    assert Reported(TryBody(env, rev0)) == w.events + Tail(env, rev0);
  }

  lemma TraceSetFailed(t: seq<Event>, c: Event, w: Segment, tail: seq<Event>, r: seq<Event>)
    requires t == [c] + w.events + tail + r
    requires c.Call? && Sorted(w) && TailOk(w, tail) && RestoreOk(r)
    ensures forall i :: 0 <= i < |t| && t[i].SetFailed? ==> w.error == Some(t[i].message) && t[i + 1..] == r
    ensures w.error.Some? ==> SetFailed(w.error.value) in t
  {
    var n := |w.events|;
    forall i | 0 <= i < |t| && t[i].SetFailed?
      ensures w.error == Some(t[i].message) && t[i + 1..] == r
    {
      if 1 <= i <= n || i > n + |tail| {
        assert false;
      } else {
        assert t[i] == tail[i - 1 - n];
      }
    }
    if w.error.Some? {
      assert t[1 + n] == SetFailed(w.error.value);
    }
  }

  /** Failure sorting: once the original revision is known, every failed call is followed
      by its reaction — a warning when it is an upload, the comment post or the restore, and
      `core.setFailed` with its own message otherwise. `setFailed` is called exactly when
      the `try` block threw, with the error's message, and only the restore follows it. */
  lemma FailureSorting(env: Env, rev0: string)
    requires env.outcome(GetCurrentRef).Pass?
    ensures FailuresHandled(Run(env, rev0))
    ensures var t := Run(env, rev0);
      forall i :: 0 <= i < |t| && t[i].SetFailed? ==>
        Work(env, rev0).error == Some(t[i].message) && t[i + 1..] == RestoreEvents(env, rev0)
    ensures Work(env, rev0).error.Some? ==> SetFailed(Work(env, rev0).error.value) in Run(env, rev0)
  {
    var t, w := Run(env, rev0), Work(env, rev0);
    RunShape(env, rev0);
    WorkSorted(env, rev0);
    TailFacts(env, rev0);
    RestoreFacts(env, rev0);
    TraceHandled(t, Call(GetCurrentRef, Pass), w, Tail(env, rev0), RestoreEvents(env, rev0));
    TraceSetFailed(t, Call(GetCurrentRef, Pass), w, Tail(env, rev0), RestoreEvents(env, rev0));
  }

  // ----- the restore in finally -----

  lemma TraceRestore(t: seq<Event>, c: Event, w: Segment, tail: seq<Event>, rev0: string, s: Status)
    requires t == [c] + w.events + tail + CaughtEvents(Restore(rev0), s)
    requires c.Call? && !c.op.Restore? && Sorted(w) && TailOk(w, tail)
    ensures var r := CaughtEvents(Restore(rev0), s);
      && (s.Pass? ==> t[|t| - 1] == Call(Restore(rev0), Pass) && RevisionAfter(rev0, t) == rev0)
      && (s.Fail? ==> t[|t| - 2] == Call(Restore(rev0), s)
                      && t[|t| - 1] == Warning("Failed to restore original ref: " + s.message))
      && (forall i :: 0 <= i < |t| && t[i].Call? && t[i].op.Restore? ==> i == |t| - |r|)
  {
    var r := CaughtEvents(Restore(rev0), s);
    var n := |w.events|;
    forall i | 0 <= i < |t| && t[i].Call? && t[i].op.Restore?
      ensures i == |t| - |r|
    {
      if 1 <= i <= n + |tail| {
        assert false;
      } else if i > n + |tail| {
        assert t[i] == r[i - 1 - n - |tail|];
      }
    }
  }

  /** Restore: after the original revision was read, the last call of every run is the
      checkout of that revision, whether or not the `try` block threw, and it is the only
      such call; when it passes, the working copy is back at the original revision, and
      when it fails, only a warning follows. When reading the revision fails, nothing else
      happens at all. */
  lemma RestoreRunsLast(env: Env, rev0: string)
    ensures env.outcome(GetCurrentRef).Fail? ==>
      Run(env, rev0) == [Call(GetCurrentRef, env.outcome(GetCurrentRef))]
    ensures env.outcome(GetCurrentRef).Pass? ==>
      var t := Run(env, rev0);
      var s := env.outcome(Restore(rev0));
      && (s.Pass? ==> t[|t| - 1] == Call(Restore(rev0), Pass) && RevisionAfter(rev0, t) == rev0)
      && (s.Fail? ==> t[|t| - 2] == Call(Restore(rev0), s)
                      && t[|t| - 1] == Warning("Failed to restore original ref: " + s.message))
      && (forall i :: 0 <= i < |t| && t[i].Call? && t[i].op.Restore? ==> i == |t| - |RestoreEvents(env, rev0)|)
  {
    if env.outcome(GetCurrentRef).Pass? {
      RunShape(env, rev0);
      WorkSorted(env, rev0);
      TailFacts(env, rev0);
      TraceRestore(Run(env, rev0), Call(GetCurrentRef, Pass), Work(env, rev0), Tail(env, rev0), rev0,
                   env.outcome(Restore(rev0)));
    }
  }

  // ----- analyses run at the revision they are labelled with -----

  lemma ThenInPlace(rev: string, a: Segment, b: Segment)
    requires AnalysesAt(rev, a.events) && AnalysesAt(RevisionAfter(rev, a.events), b.events)
    ensures AnalysesAt(rev, Then(a, b).events)
  {
    if a.error.None? {
      AnalysesAtAppend(rev, a.events, b.events);
    }
  }

  lemma ThenQuiet(a: Segment, b: Segment)
    requires Quiet(a.events) && Quiet(b.events)
    ensures Quiet(Then(a, b).events)
  {
    var e := Then(a, b).events;
    if a.error.None? {
      forall i | 0 <= i < |e| ensures !MovesRevision(e[i]) && !IsAnalysis(e[i]) {
        if i < |a.events| { assert e[i] == a.events[i]; } else { assert e[i] == b.events[i - |a.events|]; }
      }
    }
  }

  lemma SetupQuiet(env: Env)
    ensures Quiet(Setup(env).events)
  {
    ThenQuiet(FetchCli(env, Version(env.inputs)), MakeCliExecutable(env));
    ThenQuiet(ResolveVersion(env, Version(env.inputs)), Then(FetchCli(env, Version(env.inputs)), MakeCliExecutable(env)));
  }

  lemma QuietAppend(a: seq<Event>, b: seq<Event>)
    requires Quiet(a) && Quiet(b)
    ensures Quiet(a + b)
  {
    ThenQuiet(Segment(a, None), Segment(b, None));
  }

  lemma CaughtQuiet(op: Op, s: Status)
    requires !op.Analyze? && !op.CheckoutBase? && !op.CheckoutHead? && !op.Restore?
    ensures Quiet(CaughtEvents(op, s))
  {
  }

  lemma CompactQuiet(env: Env, body: string)
    ensures Quiet(CompactEvents(env, body))
  {
    CaughtQuiet(MarkdownUpload, env.outcome(MarkdownUpload));
    QuietAppend([Warning(Oversize)], CaughtEvents(MarkdownUpload, env.outcome(MarkdownUpload)));
  }

  lemma CommentQuiet(env: Env, issue: nat, body: string, htmlUrl: Option<string>)
    ensures Quiet(CommentEvents(env, issue, body, htmlUrl))
  {
    var run := CommentRun(env);
    CaughtQuiet(CreateComment(issue, PostedBody(env, body, htmlUrl), run.attempts, run.waits), StatusOf(run.result));
  }

  lemma FallbackQuiet(env: Env)
    ensures Quiet(FallbackEvents(env))
  {
    CaughtQuiet(FallbackUpload, env.outcome(FallbackUpload));
  }

  lemma PublishQuiet(env: Env, issue: nat, body: string, htmlUrl: Option<string>)
    ensures Quiet(Publish(env, issue, body, htmlUrl))
  {
    var compact, comment, fallback := CompactEvents(env, body), CommentEvents(env, issue, body, htmlUrl), FallbackEvents(env);
    CompactQuiet(env, body);
    CommentQuiet(env, issue, body, htmlUrl);
    FallbackQuiet(env);
    QuietAppend(compact, comment);
    QuietAppend(compact + comment, fallback);
  }

  lemma CommentFlowQuiet(env: Env, issue: nat, htmlUrl: Option<string>)
    ensures Quiet(CommentFlow(env, issue, htmlUrl).events)
  {
    var rest := if env.markdown.Ok? then Segment(Publish(env, issue, env.markdown.value, htmlUrl), None) else Skip;
    if env.markdown.Ok? {
      PublishQuiet(env, issue, env.markdown.value, htmlUrl);
    }
    ThenQuiet(Fatal(ReadMarkdown, StatusOf(env.markdown)), rest);
    ThenQuiet(Outside(env, Diff(Markdown, DiffMarkdown)), Then(Fatal(ReadMarkdown, StatusOf(env.markdown)), rest));
  }

  /** After `analyzeWithRefs`, the pull-request flow neither checks out nor analyses. */
  lemma PrFlowInPlace(env: Env, rev: string)
    ensures AnalysesAt(rev, PrFlow(env).events)
  {
    match env.pullRequest
    case None =>
    case Some(pr) =>
      var comment := if Flag(env.inputs.postComment) then CommentFlow(env, pr.number, HtmlUrl(env)) else Skip;
      CommentFlowQuiet(env, pr.number, HtmlUrl(env));
      ThenQuiet(Outside(env, HtmlUpload), Skip);
      ThenQuiet(Outside(env, Diff(Html, DiffHtml)), Segment(CaughtEvents(HtmlUpload, env.outcome(HtmlUpload)), None));
      ThenQuiet(HtmlReport(env), comment);
      ThenQuiet(Outside(env, Diff(Json, DiffJson)), Then(HtmlReport(env), comment));
      var awr := AnalyzeWithRefs(env, pr.baseSha, pr.headSha);
      var rest := Then(Outside(env, Diff(Json, DiffJson)), Then(HtmlReport(env), comment));
      AnalyzeWithRefsInPlace(env, pr.baseSha, pr.headSha, rev);
      QuietAnalysesAt(RevisionAfter(rev, awr.events), rest.events);
      ThenInPlace(rev, awr, rest);
  }

  lemma NonPrFlowInPlace(env: Env, rev: string)
    ensures AnalysesAt(rev, NonPrFlow(env, rev).events)
    ensures forall i :: 0 <= i < |NonPrFlow(env, rev).events| ==> !MovesRevision(NonPrFlow(env, rev).events[i])
  {
    var events := NonPrFlow(env, rev).events;
    forall i | 0 <= i < |events|
      ensures InPlaceAt(rev, events, i)
    {
      StaysAt(rev, events[..i]);
    }
  }

  lemma WorkInPlace(env: Env, rev: string)
    ensures AnalysesAt(rev, Work(env, rev).events)
  {
    SetupQuiet(env);
    QuietAnalysesAt(rev, Setup(env).events);
    PrFlowInPlace(env, rev);
    NonPrFlowInPlace(env, rev);
    ThenInPlace(rev, Setup(env), if RunsDiff(env) then PrFlow(env) else NonPrFlow(env, rev));
  }

  lemma TraceInPlace(t: seq<Event>, rev0: string, c: Event, w: Segment, tail: seq<Event>, r: seq<Event>)
    requires t == [c] + w.events + tail + r
    requires !MovesRevision(c) && !IsAnalysis(c)
    requires AnalysesAt(rev0, w.events)
    requires TailOk(w, tail) && RestoreOk(r)
    ensures AnalysesAt(rev0, t)
  {
    var w := w.events;
    assert Quiet(tail);
    QuietAnalysesAt(rev0, [c]);
    AnalysesAtAppend(rev0, [c], w);
    QuietAnalysesAt(RevisionAfter(rev0, [c] + w), tail);
    AnalysesAtAppend(rev0, [c] + w, tail);
    AnalysesAtAppend(rev0, [c] + w + tail, r);
  }

  /** Every analysis of a run happens at the revision it is labelled with: the base and
      head reports at the pull request's base and head commits, the reports of the other
      flow at the revision the run started on. */
  lemma AnalysesInPlace(env: Env, rev0: string)
    ensures AnalysesAt(rev0, Run(env, rev0))
  {
    if env.outcome(GetCurrentRef).Pass? {
      RunShape(env, rev0);
      WorkInPlace(env, rev0);
      TailFacts(env, rev0);
      RestoreFacts(env, rev0);
      TraceInPlace(Run(env, rev0), rev0, Call(GetCurrentRef, Pass), Work(env, rev0), Tail(env, rev0),
                   RestoreEvents(env, rev0));
    } else {
      QuietAnalysesAt(rev0, Run(env, rev0));
    }
  }

  // ----- where each step leaves the working copy -----

  /** The revision after `Then(a, b)`: after `a` alone when `a` threw, otherwise after `b`
      started where `a` left the working copy. */
  lemma ThenRevision(rev: string, a: Segment, b: Segment)
    ensures RevisionAfter(rev, Then(a, b).events)
      == if a.error.Some? then RevisionAfter(rev, a.events)
         else RevisionAfter(RevisionAfter(rev, a.events), b.events)
  {
    if a.error.None? {
      RevisionAfterAppend(rev, a.events, b.events);
    }
  }

  lemma OutsideRevision(env: Env, op: Op, rev: string)
    ensures RevisionAfter(rev, Outside(env, op).events) == RevisionAfterEvent(rev, Call(op, env.outcome(op)))
  {
    assert Outside(env, op).events[..0] == [];
  }

  /** `analyzeWithRefs` leaves the working copy where its last passed checkout put it: at
      the head when both checkouts passed, at the base when only the first did, and where
      it was when neither was reached or passed. */
  lemma AnalyzeWithRefsRevision(env: Env, baseSha: string, headSha: string, rev: string)
    ensures RevisionAfter(rev, AnalyzeWithRefs(env, baseSha, headSha).events)
      == if env.outcome(PrepareDirectories).Fail? || env.outcome(CheckoutBase(baseSha)).Fail? then rev
         else if env.outcome(Analyze(Json, BaseReport, baseSha)).Fail? || env.outcome(CheckoutHead(headSha)).Fail?
         then baseSha
         else headSha
  {
    var o1, o2 := Outside(env, PrepareDirectories), Outside(env, CheckoutBase(baseSha));
    var o3, o4 := Outside(env, Analyze(Json, BaseReport, baseSha)), Outside(env, CheckoutHead(headSha));
    var o5 := Outside(env, Analyze(Json, HeadReport, headSha));
    OutsideRevision(env, PrepareDirectories, rev);
    OutsideRevision(env, CheckoutBase(baseSha), rev);
    OutsideRevision(env, Analyze(Json, BaseReport, baseSha), baseSha);
    OutsideRevision(env, CheckoutHead(headSha), baseSha);
    OutsideRevision(env, Analyze(Json, HeadReport, headSha), headSha);
    ThenRevision(baseSha, o4, o5);
    ThenRevision(baseSha, o3, Then(o4, o5));
    ThenRevision(rev, o2, Then(o3, Then(o4, o5)));
    ThenRevision(rev, o1, Then(o2, Then(o3, Then(o4, o5))));
  }

  lemma DiffReportsQuiet(env: Env, issue: nat)
    ensures Quiet(DiffReports(env, issue).events)
  {
    var comment := if Flag(env.inputs.postComment) then CommentFlow(env, issue, HtmlUrl(env)) else Skip;
    CommentFlowQuiet(env, issue, HtmlUrl(env));
    ThenQuiet(Outside(env, Diff(Html, DiffHtml)), Segment(CaughtEvents(HtmlUpload, env.outcome(HtmlUpload)), None));
    ThenQuiet(HtmlReport(env), comment);
    ThenQuiet(Outside(env, Diff(Json, DiffJson)), Then(HtmlReport(env), comment));
  }

  /** After the analyses the pull-request flow does not move the working copy. */
  lemma PrFlowRevision(env: Env, rev: string)
    ensures RevisionAfter(rev, PrFlow(env).events)
      == if env.pullRequest.None? then rev
         else RevisionAfter(rev, AnalyzeWithRefs(env, env.pullRequest.value.baseSha, env.pullRequest.value.headSha).events)
  {
    match env.pullRequest
    case None =>
    case Some(pr) =>
      var awr := AnalyzeWithRefs(env, pr.baseSha, pr.headSha);
      DiffReportsQuiet(env, pr.number);
      QuietAnalysesAt(RevisionAfter(rev, awr.events), DiffReports(env, pr.number).events);
      ThenRevision(rev, awr, DiffReports(env, pr.number));
  }

  /** Only the pull-request flow moves the working copy; the set-up and the other flow
      leave it where it was. */
  lemma WorkRevision(env: Env, rev: string)
    ensures RevisionAfter(rev, Work(env, rev).events)
      == if Setup(env).error.None? && RunsDiff(env) then RevisionAfter(rev, PrFlow(env).events) else rev
  {
    SetupQuiet(env);
    QuietAnalysesAt(rev, Setup(env).events);
    NonPrFlowInPlace(env, rev);
    StaysAt(rev, NonPrFlow(env, rev).events);
    ThenRevision(rev, Setup(env), if RunsDiff(env) then PrFlow(env) else NonPrFlow(env, rev));
  }

  /** The outputs and `setFailed` after the work do not move the working copy. */
  lemma TryRevision(env: Env, rev: string)
    ensures RevisionAfter(rev, Reported(TryBody(env, rev))) == RevisionAfter(rev, Work(env, rev).events)
  {
    var w := Work(env, rev);
    var tail := if w.error.Some? then [SetFailed(w.error.value)] else OutputEvents(PathsOf(env));
    ReportedThen(w, OutputEvents(PathsOf(env)));
    OutputsOnly(PathsOf(env));
    StaysAt(RevisionAfter(rev, w.events), tail);
    RevisionAfterAppend(rev, w.events, tail);
  }

  /** The `finally` puts the working copy back at `originalRef` unless the checkout fails. */
  lemma RestoreRevision(env: Env, originalRef: string, rev: string)
    ensures RevisionAfter(rev, RestoreEvents(env, originalRef))
      == if env.outcome(Restore(originalRef)).Fail? then rev else originalRef
  {
    var call := Call(Restore(originalRef), env.outcome(Restore(originalRef)));
    assert [call][..0] == [];
    if env.outcome(Restore(originalRef)).Fail? {
      var events := RestoreEvents(env, originalRef);
      assert events[..1] == [call];
      assert RevisionAfter(rev, [call]) == rev;
      assert RevisionAfter(rev, events) == RevisionAfterEvent(rev, events[1]);
    }
  }

  lemma PrefixedRevision(rev: string, first: Event, middle: seq<Event>, last: seq<Event>)
    requires RevisionAfterEvent(rev, first) == rev
    ensures RevisionAfter(rev, [first] + middle + last) == RevisionAfter(RevisionAfter(rev, middle), last)
  {
    assert [first][..0] == [];
    RevisionAfterAppend(rev, [first], middle);
    RevisionAfterAppend(rev, [first] + middle, last);
  }

  /** Where a run leaves the working copy: back at the start unless the revision was read
      and the restore failed, and then where the work left it. */
  lemma RunRevision(env: Env, rev0: string)
    ensures RevisionAfter(rev0, Run(env, rev0))
      == if env.outcome(GetCurrentRef).Pass? && env.outcome(Restore(rev0)).Fail?
         then RevisionAfter(rev0, Work(env, rev0).events)
         else rev0
  {
    var c := Call(GetCurrentRef, env.outcome(GetCurrentRef));
    assert [c][..0] == [];
    if env.outcome(GetCurrentRef).Pass? {
      var tried := Reported(TryBody(env, rev0));
      PrefixedRevision(rev0, c, tried, RestoreEvents(env, rev0));
      TryRevision(env, rev0);
      RestoreRevision(env, rev0, RevisionAfter(rev0, tried));
    }
  }
}
