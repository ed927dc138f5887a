/** What the comment step and the outputs of `main` guarantee: when a comment is posted,
    when the fallback artifact is uploaded, and which outputs a run sets. */
module FlowFacts {
  import opened Wrappers
  import Retry
  import opened CommentComposer
  import opened Orchestration
  import opened OrchestrationFacts

  /** Some event of the trace is a call of `op`. */
  predicate Calls(events: seq<Event>, op: Op) {
    exists i :: 0 <= i < |events| && events[i].Call? && events[i].op == op
  }

  /** Some event of the trace is a `createComment` call. */
  predicate Comments(events: seq<Event>) {
    exists i :: 0 <= i < |events| && events[i].Call? && events[i].op.CreateComment?
  }

  // ----- the comment and its fallback (src/index.js:441-487) -----

  /** A comment is posted exactly when there is a token and one of the four attempts of the
      retry policy succeeds. */
  lemma PostedIff(env: Env)
    ensures Posted(env) <==> env.token != "" && exists k :: 1 <= k <= 4 && env.comment(k).Ok?
  {
    Retry.RetryContract(env.comment, 3, 1000, 2);
  }

  lemma CaughtCalls(op: Op, s: Status, other: Op)
    ensures Calls(CaughtEvents(op, s), other) <==> op == other
    ensures Comments(CaughtEvents(op, s)) <==> op.CreateComment?
  {
    assert CaughtEvents(op, s)[0] == Call(op, s);
  }

  lemma CallsAppend(a: seq<Event>, b: seq<Event>, op: Op)
    ensures Calls(a + b, op) <==> Calls(a, op) || Calls(b, op)
    ensures Comments(a + b) <==> Comments(a) || Comments(b)
  {
    if Calls(a + b, op) {
      var i :| 0 <= i < |a + b| && (a + b)[i].Call? && (a + b)[i].op == op;
      if i >= |a| { assert (a + b)[i] == b[i - |a|]; }
    }
    if Calls(a, op) {
      var i :| 0 <= i < |a| && a[i].Call? && a[i].op == op;
      assert (a + b)[i] == a[i];
    }
    if Calls(b, op) {
      var i :| 0 <= i < |b| && b[i].Call? && b[i].op == op;
      assert (a + b)[|a| + i] == b[i];
    }
    if Comments(a + b) {
      var i :| 0 <= i < |a + b| && (a + b)[i].Call? && (a + b)[i].op.CreateComment?;
      if i >= |a| { assert (a + b)[i] == b[i - |a|]; }
    }
    if Comments(a) {
      var i :| 0 <= i < |a| && a[i].Call? && a[i].op.CreateComment?;
      assert (a + b)[i] == a[i];
    }
    if Comments(b) {
      var i :| 0 <= i < |b| && b[i].Call? && b[i].op.CreateComment?;
      assert (a + b)[|a| + i] == b[i];
    }
  }

  lemma CompactCalls(env: Env, body: string)
    ensures Calls(CompactEvents(env, body), MarkdownUpload) <==> NeedsCompact(body)
    ensures !Calls(CompactEvents(env, body), FallbackUpload) && !Comments(CompactEvents(env, body))
  {
    if NeedsCompact(body) {
      var caught := CaughtEvents(MarkdownUpload, env.outcome(MarkdownUpload));
      CaughtCalls(MarkdownUpload, env.outcome(MarkdownUpload), MarkdownUpload);
      CaughtCalls(MarkdownUpload, env.outcome(MarkdownUpload), FallbackUpload);
      CallsAppend([Warning(Oversize)], caught, MarkdownUpload);
      CallsAppend([Warning(Oversize)], caught, FallbackUpload);
    }
  }

  lemma CommentCalls(env: Env, issue: nat, body: string, htmlUrl: Option<string>)
    ensures Comments(CommentEvents(env, issue, body, htmlUrl)) <==> env.token != ""
    ensures !Calls(CommentEvents(env, issue, body, htmlUrl), MarkdownUpload)
    ensures !Calls(CommentEvents(env, issue, body, htmlUrl), FallbackUpload)
  {
    if env.token != "" {
      var run := CommentRun(env);
      var op := CreateComment(issue, PostedBody(env, body, htmlUrl), run.attempts, run.waits);
      CaughtCalls(op, StatusOf(run.result), MarkdownUpload);
      CaughtCalls(op, StatusOf(run.result), FallbackUpload);
    }
  }

  lemma FallbackCalls(env: Env)
    ensures Calls(FallbackEvents(env), FallbackUpload) <==> !Posted(env)
    ensures !Calls(FallbackEvents(env), MarkdownUpload) && !Comments(FallbackEvents(env))
  {
    if !Posted(env) {
      CaughtCalls(FallbackUpload, env.outcome(FallbackUpload), FallbackUpload);
      CaughtCalls(FallbackUpload, env.outcome(FallbackUpload), MarkdownUpload);
    }
  }

  /** After the report is read: the full report is uploaded exactly when it is too long for a
      comment, a comment is attempted exactly when there is a token, and the report is
      uploaded as the fallback artifact exactly when no comment was posted. */
  lemma PublishCalls(env: Env, issue: nat, body: string, htmlUrl: Option<string>)
    ensures Calls(Publish(env, issue, body, htmlUrl), MarkdownUpload) <==> NeedsCompact(body)
    ensures Comments(Publish(env, issue, body, htmlUrl)) <==> env.token != ""
    ensures Calls(Publish(env, issue, body, htmlUrl), FallbackUpload) <==> !Posted(env)
  {
    var compact, comment, fallback := CompactEvents(env, body), CommentEvents(env, issue, body, htmlUrl), FallbackEvents(env);
    CompactCalls(env, body);
    CommentCalls(env, issue, body, htmlUrl);
    FallbackCalls(env);
    CallsAppend(compact, comment, MarkdownUpload);
    CallsAppend(compact + comment, fallback, MarkdownUpload);
    CallsAppend(compact, comment, FallbackUpload);
    CallsAppend(compact + comment, fallback, FallbackUpload);
  }

  /** With a token, the one `createComment` call carries the composed body and the attempts
      and waits of the retry policy, and its outcome is the policy's result. */
  lemma CommentCall(env: Env, issue: nat, body: string, htmlUrl: Option<string>)
    requires env.token != ""
    ensures var run := CommentRun(env);
      && Call(CreateComment(issue, PostedBody(env, body, htmlUrl), run.attempts, run.waits), StatusOf(run.result))
           in Publish(env, issue, body, htmlUrl)
      && run.attempts == |run.waits| + 1 <= 4
      && (forall j :: 0 <= j < |run.waits| ==> run.waits[j] == 1000 * Retry.Pow(2, j))
  {
    var run := CommentRun(env);
    var e := Call(CreateComment(issue, PostedBody(env, body, htmlUrl), run.attempts, run.waits), StatusOf(run.result));
    var compact := CompactEvents(env, body);
    assert Publish(env, issue, body, htmlUrl)[|compact|] == e;
    Retry.RetryContract(env.comment, 3, 1000, 2);
  }

  // ----- the outputs (src/index.js:517-521) -----

  /** The `core.setOutput` events of a trace, in order. */
  function OutputsOf(events: seq<Event>): (r: seq<Event>)
    ensures |r| <= |events|
    ensures forall k :: 0 <= k < |r| ==> r[k].SetOutput? && r[k] in events
    decreases |events|
  {
    if events == [] then []
    else
      var last := events[|events| - 1];
      OutputsOf(events[..|events| - 1]) + (if last.SetOutput? then [last] else [])
  }

  lemma {:induction false} OutputsOfAppend(a: seq<Event>, b: seq<Event>)
    ensures OutputsOf(a + b) == OutputsOf(a) + OutputsOf(b)
    decreases |b|
  {
    if b == [] {
      assert a + b == a;
    } else {
      var n := |b| - 1;
      assert (a + b)[..|a + b| - 1] == a + b[..n];
      assert (a + b)[|a + b| - 1] == b[n];
      OutputsOfAppend(a, b[..n]);
    }
  }

  lemma {:induction false} NoOutputs(events: seq<Event>)
    requires forall k :: 0 <= k < |events| ==> !events[k].SetOutput?
    ensures OutputsOf(events) == []
    decreases |events|
  {
    if events != [] {
      NoOutputs(events[..|events| - 1]);
    }
  }

  lemma {:induction false} OnlyOutputs(events: seq<Event>)
    requires forall k :: 0 <= k < |events| ==> events[k].SetOutput?
    ensures OutputsOf(events) == events
    decreases |events|
  {
    if events != [] {
      OnlyOutputs(events[..|events| - 1]);
    }
  }

  lemma TraceOutputs(t: seq<Event>, c: Event, w: Segment, tail: seq<Event>, r: seq<Event>)
    requires t == [c] + w.events + tail + r
    requires c.Call? && AllInTry(w.events) && TailOk(w, tail)
    requires forall k :: 0 <= k < |r| ==> r[k].Call? || r[k].Warning?
    ensures OutputsOf(t) == if w.error.None? then tail else []
  {
    NoOutputs([c]);
    NoOutputs(w.events);
    NoOutputs(r);
    var outs := if w.error.None? then tail else [];
    if w.error.None? { OnlyOutputs(tail); } else { NoOutputs(tail); }
    OutputsOfAppend([c], w.events);
    assert OutputsOf([c] + w.events) == [];
    OutputsOfAppend([c] + w.events, tail);
    assert OutputsOf([c] + w.events + tail) == outs;
    OutputsOfAppend([c] + w.events + tail, r);
  }

  /** A run sets its outputs only when the `try` block did not throw, and then exactly the
      report paths of its flow, in the source's order. */
  lemma RunOutputs(env: Env, rev0: string)
    ensures OutputsOf(Run(env, rev0))
      == if env.outcome(GetCurrentRef).Pass? && Work(env, rev0).error.None?
         then OutputEvents(PathsOf(env)) else []
  {
    if env.outcome(GetCurrentRef).Pass? {
      RunShape(env, rev0);
      WorkSorted(env, rev0);
      TailFacts(env, rev0);
      TraceOutputs(Run(env, rev0), Call(GetCurrentRef, Pass), Work(env, rev0), Tail(env, rev0),
                   RestoreEvents(env, rev0));
    } else {
      NoOutputs(Run(env, rev0));
    }
  }

  /** Each output name is set to its own report path, and only when that path is set. */
  lemma OutputNames(p: Paths, name: string, f: File)
    ensures SetOutput(name, f) in OutputEvents(p) <==>
      || (name == "base-report-json" && p.base == Some(f))
      || (name == "head-report-json" && p.head == Some(f))
      || (name == "diff-report-json" && p.diff == Some(f))
      || (name == "diff-report-html" && p.html == Some(f))
  {
  }

  lemma OutputListed(p: Paths, name: string, f: File)
    requires SetOutput(name, f) in OutputEvents(p)
    ensures Listed(p, f)
  {
    OutputNames(p, name, f);
  }

  /** The paths of each flow: the pull-request flow sets the base, head and diff reports and,
      with HTML on, the HTML diff; the other flow sets only `head-report-json`, to its JSON
      analysis when JSON is on, and `diff-report-html`, to its HTML analysis when HTML is on. */
  lemma FlowPaths(env: Env)
    ensures RunsDiff(env) ==>
      && PathsOf(env).base == Some(BaseReport) && PathsOf(env).head == Some(HeadReport)
      && PathsOf(env).diff == Some(DiffJson)
      && (PathsOf(env).html.Some? <==> Flag(env.inputs.reportHtml))
    ensures !RunsDiff(env) ==>
      && PathsOf(env).base.None? && PathsOf(env).diff.None?
      && (PathsOf(env).head.Some? <==> Flag(env.inputs.reportJson))
      && (PathsOf(env).html.Some? <==> Flag(env.inputs.reportHtml))
  {
  }

  // ----- every output names a file the CLI wrote -----

  /** The event is a passing CLI run that wrote `f`. */
  predicate Writes(e: Event, f: File) {
    e.Call? && e.status.Pass? && ((e.op.Analyze? && e.op.out == f) || (e.op.Diff? && e.op.out == f))
  }

  predicate Wrote(events: seq<Event>, f: File) {
    exists i :: 0 <= i < |events| && Writes(events[i], f)
  }

  predicate Listed(p: Paths, f: File) {
    p.base == Some(f) || p.head == Some(f) || p.diff == Some(f) || p.html == Some(f)
  }

  lemma WroteAppend(a: seq<Event>, b: seq<Event>, f: File)
    requires Wrote(a, f) || Wrote(b, f)
    ensures Wrote(a + b, f)
  {
    if Wrote(a, f) {
      var i :| 0 <= i < |a| && Writes(a[i], f);
      assert (a + b)[i] == a[i];
    } else {
      var i :| 0 <= i < |b| && Writes(b[i], f);
      assert (a + b)[|a| + i] == b[i];
    }
  }

  lemma OutsideWrote(env: Env, op: Op, f: File)
    requires Outside(env, op).error.None?
    requires (op.Analyze? && op.out == f) || (op.Diff? && op.out == f)
    ensures Wrote(Outside(env, op).events, f)
  {
    assert Writes(Outside(env, op).events[0], f);
  }

  lemma AnalyzeWithRefsWrote(env: Env, baseSha: string, headSha: string)
    requires AnalyzeWithRefs(env, baseSha, headSha).error.None?
    ensures Wrote(AnalyzeWithRefs(env, baseSha, headSha).events, BaseReport)
    ensures Wrote(AnalyzeWithRefs(env, baseSha, headSha).events, HeadReport)
  {
    var events := AnalyzeWithRefs(env, baseSha, headSha).events;
    AnalyzeWithRefsOrder(env, baseSha, headSha);
    assert Writes(events[2], BaseReport);
    assert Writes(events[4], HeadReport);
  }

  lemma PrFlowWrote(env: Env)
    requires PrFlow(env).error.None?
    ensures Wrote(PrFlow(env).events, BaseReport) && Wrote(PrFlow(env).events, HeadReport)
    ensures Wrote(PrFlow(env).events, DiffJson)
    ensures Flag(env.inputs.reportHtml) ==> Wrote(PrFlow(env).events, DiffHtml)
  {
    var pr := env.pullRequest.value;
    var refs := AnalyzeWithRefs(env, pr.baseSha, pr.headSha);
    var json := Outside(env, Diff(Json, DiffJson));
    var html := HtmlReport(env);
    var comment := if Flag(env.inputs.postComment) then CommentFlow(env, pr.number, HtmlUrl(env)) else Skip;
    var rest := Then(json, Then(html, comment));
    assert PrFlow(env) == Then(refs, rest);
    assert PrFlow(env).events == refs.events + rest.events;
    assert rest.events == json.events + Then(html, comment).events;
    assert Then(html, comment).events == html.events + comment.events;
    AnalyzeWithRefsWrote(env, pr.baseSha, pr.headSha);
    WroteAppend(refs.events, rest.events, BaseReport);
    WroteAppend(refs.events, rest.events, HeadReport);
    OutsideWrote(env, Diff(Json, DiffJson), DiffJson);
    WroteAppend(json.events, Then(html, comment).events, DiffJson);
    WroteAppend(refs.events, rest.events, DiffJson);
    if Flag(env.inputs.reportHtml) {
      OutsideWrote(env, Diff(Html, DiffHtml), DiffHtml);
      assert html.events == Outside(env, Diff(Html, DiffHtml)).events + html.events[1..];
      WroteAppend(Outside(env, Diff(Html, DiffHtml)).events, html.events[1..], DiffHtml);
      WroteAppend(html.events, comment.events, DiffHtml);
      WroteAppend(json.events, Then(html, comment).events, DiffHtml);
      WroteAppend(refs.events, rest.events, DiffHtml);
    }
  }

  lemma NonPrFlowWrote(env: Env, rev: string)
    requires NonPrFlow(env, rev).error.None?
    ensures Flag(env.inputs.reportJson) ==> Wrote(NonPrFlow(env, rev).events, ReportJson)
    ensures Flag(env.inputs.reportHtml) ==> Wrote(NonPrFlow(env, rev).events, ReportHtml)
  {
    var json := if Flag(env.inputs.reportJson) then Outside(env, Analyze(Json, ReportJson, rev)) else Skip;
    var html := if Flag(env.inputs.reportHtml) then Outside(env, Analyze(Html, ReportHtml, rev)) else Skip;
    assert NonPrFlow(env, rev).events == json.events + html.events;
    if Flag(env.inputs.reportJson) {
      OutsideWrote(env, Analyze(Json, ReportJson, rev), ReportJson);
      WroteAppend(json.events, html.events, ReportJson);
    }
    if Flag(env.inputs.reportHtml) {
      OutsideWrote(env, Analyze(Html, ReportHtml, rev), ReportHtml);
      WroteAppend(json.events, html.events, ReportHtml);
    }
  }

  /** When the `try` block completes, every report path it outputs was written by a CLI run
      that passed. */
  lemma WorkWrote(env: Env, rev: string, f: File)
    requires Work(env, rev).error.None? && Listed(PathsOf(env), f)
    ensures Wrote(Work(env, rev).events, f)
  {
    var flow := if RunsDiff(env) then PrFlow(env) else NonPrFlow(env, rev);
    assert Work(env, rev).events == Setup(env).events + flow.events;
    if RunsDiff(env) { PrFlowWrote(env); } else { NonPrFlowWrote(env, rev); }
    WroteAppend(Setup(env).events, flow.events, f);
  }

  /** An output is set only by a run whose `try` block completed, and only for a path of
      its flow. */
  lemma OutputInRun(env: Env, rev0: string, name: string, f: File)
    requires SetOutput(name, f) in Run(env, rev0)
    ensures env.outcome(GetCurrentRef).Pass? && Work(env, rev0).error.None?
    ensures SetOutput(name, f) in OutputEvents(PathsOf(env))
  {
    var t := Run(env, rev0);
    RunOutputs(env, rev0);
    var k :| 0 <= k < |t| && t[k] == SetOutput(name, f);
    OutputsInOrder(t, k);
  }

  /** Every output a run sets names a report file that a passing CLI run of the same run
      wrote. */
  lemma OutputsWritten(env: Env, rev0: string, name: string, f: File)
    requires SetOutput(name, f) in Run(env, rev0)
    ensures Wrote(Run(env, rev0), f)
  {
    OutputInRun(env, rev0, name, f);
    OutputListed(PathsOf(env), name, f);
    WorkWrote(env, rev0, f);
    RunWrote(env, rev0, f);
  }

  lemma RunWrote(env: Env, rev0: string, f: File)
    requires env.outcome(GetCurrentRef).Pass? && Wrote(Work(env, rev0).events, f)
    ensures Wrote(Run(env, rev0), f)
  {
    var w := Work(env, rev0).events;
    var i :| 0 <= i < |w| && Writes(w[i], f);
    RunPrefix(env, rev0, i);
  }

  lemma RunPrefix(env: Env, rev0: string, i: nat)
    requires env.outcome(GetCurrentRef).Pass? && i < |Work(env, rev0).events|
    ensures 1 + i < |Run(env, rev0)| && Run(env, rev0)[1 + i] == Work(env, rev0).events[i]
  {
    RunShape(env, rev0);
    TraceAt(Run(env, rev0), Call(GetCurrentRef, Pass), Work(env, rev0).events,
            Tail(env, rev0) + RestoreEvents(env, rev0), i);
  }

  lemma TraceAt(t: seq<Event>, c: Event, w: seq<Event>, rest: seq<Event>, i: nat)
    requires t == [c] + w + rest && i < |w|
    ensures 1 + i < |t| && t[1 + i] == w[i]
  {
  }

  lemma {:induction false} OutputsInOrder(events: seq<Event>, k: nat)
    requires k < |events| && events[k].SetOutput?
    ensures events[k] in OutputsOf(events)
    decreases |events|
  {
    var n := |events| - 1;
    if k < n {
      assert events[..n][k] == events[k];
      OutputsInOrder(events[..n], k);
    }
  }
}
