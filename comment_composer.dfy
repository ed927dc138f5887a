/** The pull-request comment: the full Markdown report, or, when that is too long for a
    comment, a compact summary (`buildCompactComment`, src/index.js:147-166, and the
    size decision of src/index.js:405-439). */
module CommentComposer {
  import opened Wrappers
  import opened Text
  import opened MarkdownTable

  /** The platform's hard limit on a comment, the margin kept below it, and the length
      above which the report is replaced by the compact summary (src/index.js:11-13). */
  const CommentCharLimit: nat := 65536
  const CommentCharBuffer: nat := 1024
  const SafeCommentCharLimit: nat := CommentCharLimit - CommentCharBuffer

  /** Name of the artifact holding the full Markdown report when it is too long. */
  const MarkdownArtifactName := "structuralens-diff.md"

  /** JavaScript truthiness of a possibly-null string: neither null nor "". */
  predicate Truthy(s: Option<string>) {
    s.Some? && s.value != ""
  }

  /** The header linking to the HTML report artifact. */
  function HtmlHeader(url: string): string {
    HeaderLead + url + HeaderTail
  }

  const HeaderLead := "## 📊 StructuraLens Analysis\n\n**[View Interactive HTML Report →]("
  const HeaderTail := ")**\n\n"

  /** The header placed before either comment form: present only for a truthy URL. */
  function Header(htmlArtifactUrl: Option<string>): string {
    if Truthy(htmlArtifactUrl) then HtmlHeader(htmlArtifactUrl.value) else ""
  }

  const TooLarge := "**StructuraLens report too large for PR comment.**"

  /** The banner of the compact summary, saying whether the full report was uploaded. */
  function Banner(artifactName: string, artifactUploaded: bool): string {
    if artifactUploaded then
      TooLarge + " Full markdown uploaded as artifact: `" + artifactName + "`."
    else
      TooLarge + " Full markdown could not be uploaded as an artifact."
  }

  /** `buildCompactComment`: header, banner and, when the report holds a table, that table. */
  function BuildCompactComment(markdown: string, artifactName: string, artifactUploaded: bool,
                               htmlArtifactUrl: Option<string>): string
  {
    var header := Header(htmlArtifactUrl);
    var banner := Banner(artifactName, artifactUploaded);
    var table := FirstTable(markdown);
    if table.None? || table.value == "" then header + banner
    else header + banner + "\n\n" + table.value
  }

  /** The full comment: the report itself, after the header when there is one
      (src/index.js:405-411). */
  function FullComment(body: string, htmlArtifactUrl: Option<string>): string {
    Header(htmlArtifactUrl) + body
  }

  /** The size test of src/index.js:414: on the report's own JavaScript length, without
      the header. */
  predicate NeedsCompact(body: string) {
    Utf16Length(body) > SafeCommentCharLimit
  }

  /** The comment posted for `body`: compact when the report is over the limit. */
  function CommentBody(body: string, htmlArtifactUrl: Option<string>, artifactUploaded: bool): string {
    if NeedsCompact(body) then BuildCompactComment(body, MarkdownArtifactName, artifactUploaded, htmlArtifactUrl)
    else FullComment(body, htmlArtifactUrl)
  }

  /** The header is empty exactly when the URL is null or "", and otherwise carries the URL
      as its link target. */
  lemma HeaderPresence(htmlArtifactUrl: Option<string>)
    ensures Header(htmlArtifactUrl) == "" <==> !Truthy(htmlArtifactUrl)
    ensures Truthy(htmlArtifactUrl) ==>
      Header(htmlArtifactUrl)[|HeaderLead|..|Header(htmlArtifactUrl)| - |HeaderTail|] == htmlArtifactUrl.value
  {
    if Truthy(htmlArtifactUrl) {
      var h := Header(htmlArtifactUrl);
      assert h == HeaderLead + htmlArtifactUrl.value + HeaderTail;
      assert |h| > 0;
    }
  }

  /** The banner names the artifact, in backquotes, when the upload succeeded; otherwise it
      is the same text whatever the artifact is called. */
  lemma BannerNamesArtifact(artifactName: string, otherName: string)
    ensures var b := Banner(artifactName, true);
      b[|b| - |artifactName| - 3..] == "`" + artifactName + "`."
    ensures Banner(artifactName, false) == Banner(otherName, false)
  {
    var b := Banner(artifactName, true);
    var pre := TooLarge + " Full markdown uploaded as artifact: ";
    assert b == pre + ("`" + artifactName + "`.");
  }

  /** Compact comment structure: header, banner, and the first table after a blank line
      exactly when the report holds one. */
  lemma CompactCommentParts(markdown: string, artifactName: string, artifactUploaded: bool,
                            htmlArtifactUrl: Option<string>)
    ensures var table := FirstTable(markdown);
      BuildCompactComment(markdown, artifactName, artifactUploaded, htmlArtifactUrl)
        == Header(htmlArtifactUrl) + Banner(artifactName, artifactUploaded)
           + (if table.Some? then "\n\n" + table.value else "")
  {
    var lines := SplitLines(markdown);
    if FirstTableFrom(lines, 0).Some? {
      FirstTableFromNonEmpty(lines, 0);
    }
  }

  /** A full comment is at most the safe limit plus its header: the header is not counted
      by the size test. */
  lemma FullCommentLength(body: string, htmlArtifactUrl: Option<string>)
    requires !NeedsCompact(body)
    ensures Utf16Length(FullComment(body, htmlArtifactUrl))
            <= SafeCommentCharLimit + Utf16Length(Header(htmlArtifactUrl))
  {
    Utf16LengthAppend(Header(htmlArtifactUrl), body);
  }

  /** The size decision of src/index.js:405-439: the comment always starts with the header;
      a report of at most 64512 UTF-16 units follows it whole, a longer one is replaced by
      the compact summary, whose banner follows the header. */
  lemma CommentChoice(body: string, htmlArtifactUrl: Option<string>, artifactUploaded: bool)
    ensures var c := CommentBody(body, htmlArtifactUrl, artifactUploaded);
      var h := Header(htmlArtifactUrl);
      && |h| <= |c| && c[..|h|] == h
      && (Utf16Length(body) <= 64512 ==> c[|h|..] == body)
      && (Utf16Length(body) > 64512 ==>
            var b := Banner(MarkdownArtifactName, artifactUploaded);
            |h| + |b| <= |c| && c[|h|..|h| + |b|] == b)
  {
    var c := CommentBody(body, htmlArtifactUrl, artifactUploaded);
    var h := Header(htmlArtifactUrl);
    if NeedsCompact(body) {
      var b := Banner(MarkdownArtifactName, artifactUploaded);
      var table := FirstTable(body);
      var rest := if table.Some? then "\n\n" + table.value else "";
      CompactCommentParts(body, MarkdownArtifactName, artifactUploaded, htmlArtifactUrl);
      assert c == h + b + rest;
      assert c[..|h|] == h;
      assert c[|h|..|h| + |b|] == b;
    } else {
      assert c == h + body;
      assert c[..|h|] == h;
    }
  }

  /** A row of `n` pipes: a table row of any length. */
  function Pipes(n: nat): (r: string)
    ensures |r| == n && forall k :: 0 <= k < n ==> r[k] == '|'
  {
    seq(n, _ => '|')
  }

  lemma DashCell(p: string)
    requires p == ['-']
    ensures IsCell(p) && !IsBlank(p) && '|' !in p
  {
    assert !IsWhitespace(p[0]);
    assert TrimStart(p) == p;
    assert Trim(p) == p;
  }

  lemma TwoCellsListed(d: string)
    requires IsCell(d) && '|' !in d
    ensures forall k :: 0 <= k < |[d, d]| ==> IsCell([d, d][k]) && '|' !in [d, d][k]
  {
  }

  lemma TwoCellsSeparator(d: string)
    requires forall k :: 0 <= k < |[d, d]| ==> IsCell([d, d][k]) && '|' !in [d, d][k]
    ensures IsMarkdownTableSeparator(SeparatorLine([d, d], None, None))
  {
    SeparatorComplete([d, d], None, None);
  }

  lemma TwoCells(d: string)
    requires IsCell(d) && '|' !in d
    ensures IsMarkdownTableSeparator(SeparatorLine([d, d], None, None))
  {
    TwoCellsListed(d);
    TwoCellsSeparator(d);
  }

  /** The smallest separator row: two one-dash cells, no outer pipes. */
  lemma DashesSeparator(d: string)
    requires d == ['-']
    ensures IsMarkdownTableSeparator(d + "|" + d)
  {
    DashCell(d);
    TwoCells(d);
    assert [d, d][1..] == [d];
    assert JoinWith([d, d], '|') == d + "|" + d;
    assert "" + (d + "|" + d) + "" == d + "|" + d;
  }

  /** The report of three lines: a header `|`, the separator `-|-` and a row of n + 1 pipes. */
  function PipeReport(n: nat): string {
    var d := ['-'];
    JoinWith(["|", d + "|" + d, Pipes(n + 1)], '\n')
  }

  /** A header, a separator and one long row of pipes form one table: the whole report. */
  lemma PipeTable(n: nat)
    ensures FirstTable(PipeReport(n)) == Some(PipeReport(n)) && |PipeReport(n)| > n
  {
    var d := ['-'];
    var separator := d + "|" + d;
    var rows := [Pipes(n + 1)];
    var lines := ["|", separator] + rows;
    DashesSeparator(d);
    forall k | 0 <= k < |lines| ensures '\n' !in lines[k] {
      if k == 2 {
        assert forall j :: 0 <= j < n + 1 ==> lines[k][j] != '\n';
      }
    }
    SplitLinesJoin(lines);
    assert Pipes(n + 1)[0] == '|';
    SingleTableExtracted([], "|", separator, rows, []);
    assert [] + ["|", separator] + rows + [] == lines;
    JoinWithLength(lines, '\n');
    assert ["|", separator, Pipes(n + 1)] == lines;
  }

  /** The compact comment has no length bound: for every n there is a report whose compact
      comment is longer than n, because the table it carries can be as long as the report. */
  lemma CompactCommentUnbounded(n: nat, artifactName: string, artifactUploaded: bool,
                                htmlArtifactUrl: Option<string>)
    ensures Utf16Length(BuildCompactComment(PipeReport(n), artifactName, artifactUploaded, htmlArtifactUrl)) > n
  {
    PipeTable(n);
    CompactCommentParts(PipeReport(n), artifactName, artifactUploaded, htmlArtifactUrl);
  }

  /** The same holds for the comment `main` posts: for every n, the report PipeReport(n +
      SafeCommentCharLimit) is over the limit, so it is replaced by its compact comment, and
      that comment is still longer than n. */
  lemma PostedCommentUnbounded(n: nat, htmlArtifactUrl: Option<string>, artifactUploaded: bool)
    ensures NeedsCompact(PipeReport(n + SafeCommentCharLimit))
    ensures Utf16Length(CommentBody(PipeReport(n + SafeCommentCharLimit), htmlArtifactUrl, artifactUploaded)) > n
  {
    var m := n + SafeCommentCharLimit;
    PipeTable(m);
    CompactCommentUnbounded(m, MarkdownArtifactName, artifactUploaded, htmlArtifactUrl);
  }
}
