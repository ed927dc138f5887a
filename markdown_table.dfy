/** The lightweight Markdown table sniffer used to shrink an oversized report:
    `isMarkdownTableSeparator` (src/index.js:126-128) and
    `extractFirstMarkdownTable` (src/index.js:130-145). */
module MarkdownTable {
  import opened Wrappers
  import opened Text

  // ---------------------------------------------------------------------------
  // The separator row: /^\s*\|?(\s*:?-+:?\s*\|)+\s*:?-+:?\s*\|?\s*$/
  // ---------------------------------------------------------------------------

  /** `t` is `:?-+:?`: one or more dashes, optionally with a colon on either side. */
  predicate IsDashRun(t: string) {
    var a := if |t| > 0 && t[0] == ':' then t[1..] else t;
    var b := if |a| > 0 && a[|a| - 1] == ':' then a[..|a| - 1] else a;
    |b| > 0 && forall k :: 0 <= k < |b| ==> b[k] == '-'
  }

  /** One cell of a separator row, `\s*:?-+:?\s*`. */
  predicate IsCell(p: string) {
    IsDashRun(Trim(p))
  }

  /** The cells of a row cut at its pipes: a blank piece before the first pipe is the
      room for the optional leading `|`, a blank piece after the last pipe the room for
      the optional trailing `|`; every other piece must be a cell. */
  function Cells(parts: seq<string>): seq<string>
    requires |parts| >= 2
  {
    var first := if IsBlank(parts[0]) then [] else [parts[0]];
    var last := if IsBlank(parts[|parts| - 1]) then [] else [parts[|parts| - 1]];
    first + parts[1..|parts| - 1] + last
  }

  /** The regular expression of src/index.js:127, decided by cutting the line at its pipes:
      at least two cells, every one of them a dash run surrounded by whitespace. */
  predicate IsMarkdownTableSeparator(line: string) {
    var parts := SplitOn(line, '|');
    |parts| >= 2 &&
    var cells := Cells(parts);
    |cells| >= 2 && forall k :: 0 <= k < |cells| ==> IsCell(cells[k])
  }

  /** The separator row built from cells, with an optional leading and trailing pipe
      (each with the whitespace on its outer side). */
  function SeparatorLine(cells: seq<string>, lead: Option<string>, trail: Option<string>): string {
    (if lead.Some? then lead.value + "|" else "")
    + JoinWith(cells, '|')
    + (if trail.Some? then "|" + trail.value else "")
  }

  lemma DashRunHasDash(t: string)
    requires IsDashRun(t)
    ensures '-' in t
  {
    var a := if |t| > 0 && t[0] == ':' then t[1..] else t;
    var b := if |a| > 0 && a[|a| - 1] == ':' then a[..|a| - 1] else a;
    assert b[0] == '-';
    assert b[0] in a;
  }

  /** The characters a separator cell may hold. */
  predicate IsCellChar(c: char) {
    IsWhitespace(c) || c == ':' || c == '-'
  }

  predicate AllCellChars(s: string) {
    forall k :: 0 <= k < |s| ==> IsCellChar(s[k])
  }

  lemma AllCellCharsAppend(a: string, b: string)
    requires AllCellChars(a) && AllCellChars(b)
    ensures AllCellChars(a + b)
  {
    forall k | 0 <= k < |a + b| ensures IsCellChar((a + b)[k]) {
      if k >= |a| {
        assert (a + b)[k] == b[k - |a|];
      }
    }
  }

  lemma DashRunAlphabet(t: string)
    requires IsDashRun(t)
    ensures AllCellChars(t)
  {
    var a := if |t| > 0 && t[0] == ':' then t[1..] else t;
    var b := if |a| > 0 && a[|a| - 1] == ':' then a[..|a| - 1] else a;
    assert forall k :: 0 <= k < |a| ==> a[k] == ':' || a[k] in b;
    assert forall k :: 0 <= k < |t| ==> t[k] == ':' || t[k] in a;
  }

  /** A piece is its leading whitespace, its trimmed core and its trailing whitespace. */
  lemma TrimSplits(p: string) returns (lead: string, tail: string)
    ensures p == lead + Trim(p) + tail
    ensures IsBlank(lead) && IsBlank(tail)
  {
    lead := TrimStartSplits(p);
    tail := TrimEndSplits(TrimStart(p));
  }

  /** A cell is never blank: it holds at least one dash, and only whitespace, `:` and `-`. */
  lemma CellShape(p: string)
    requires IsCell(p)
    ensures '-' in p && !IsBlank(p)
    ensures AllCellChars(p)
  {
    var lead, tail := TrimSplits(p);
    var core := Trim(p);
    DashRunHasDash(core);
    DashRunAlphabet(core);
    AllCellCharsAppend(lead, core);
    AllCellCharsAppend(lead + core, tail);
    var d :| 0 <= d < |core| && core[d] == '-';
    assert p[|lead| + d] == core[d];
  }

  /** Every character of a joined string is the separator or a character of a piece. */
  lemma JoinWithChars(parts: seq<string>, sep: char, c: char)
    requires c in JoinWith(parts, sep)
    ensures c == sep || exists k :: 0 <= k < |parts| && c in parts[k]
  {
    if |parts| > 1 {
      var rest := JoinWith(parts[1..], sep);
      assert JoinWith(parts, sep) == parts[0] + [sep] + rest;
      if c in rest {
        JoinWithChars(parts[1..], sep, c);
        if c != sep {
          var k :| 0 <= k < |parts[1..]| && c in parts[1..][k];
          assert c in parts[k + 1];
        }
      } else if c != sep {
        assert c in parts[0];
      }
    }
  }

  /** Joining two non-empty runs of pieces puts one separator between them. */
  lemma {:induction false} JoinWithAppend(a: seq<string>, b: seq<string>, sep: char)
    requires |a| >= 1 && |b| >= 1
    ensures JoinWith(a + b, sep) == JoinWith(a, sep) + [sep] + JoinWith(b, sep)
  {
    if |a| > 1 {
      assert (a + b)[1..] == a[1..] + b;
      JoinWithAppend(a[1..], b, sep);
    }
  }

  /** The pieces of a separator row: the optional leading blank, the cells, the optional
      trailing blank. */
  function Pieces(cells: seq<string>, lead: Option<string>, trail: Option<string>): seq<string> {
    (if lead.Some? then [lead.value] else []) + cells + (if trail.Some? then [trail.value] else [])
  }

  lemma SeparatorLineJoin(cells: seq<string>, lead: Option<string>, trail: Option<string>)
    requires |cells| >= 1
    ensures SeparatorLine(cells, lead, trail) == JoinWith(Pieces(cells, lead, trail), '|')
  {
    var body := JoinWith(cells, '|');
    match (lead, trail)
    case (None, None) =>
      assert Pieces(cells, lead, trail) == cells;
      assert SeparatorLine(cells, lead, trail) == body;
    case (Some(l), None) =>
      assert Pieces(cells, lead, trail) == [l] + cells;
      JoinWithAppend([l], cells, '|');
    case (None, Some(t)) =>
      assert Pieces(cells, lead, trail) == cells + [t];
      JoinWithAppend(cells, [t], '|');
      assert SeparatorLine(cells, lead, trail) == body + "|" + t;
    case (Some(l), Some(t)) =>
      assert Pieces(cells, lead, trail) == ([l] + cells) + [t];
      JoinWithAppend([l], cells, '|');
      JoinWithAppend([l] + cells, [t], '|');
  }

  /** Cutting a row at its pipes gives back exactly the blank ends and the cells. */
  lemma PartsArePieces(parts: seq<string>)
    requires |parts| >= 2
    ensures parts == Pieces(Cells(parts),
                            if IsBlank(parts[0]) then Some(parts[0]) else None,
                            if IsBlank(parts[|parts| - 1]) then Some(parts[|parts| - 1]) else None)
  {
    var n := |parts|;
    assert parts == [parts[0]] + parts[1..n - 1] + [parts[n - 1]];
  }

  /** Every piece of a row cut at its pipes is a blank end or one of its cells. */
  lemma PartsInCells(parts: seq<string>)
    requires |parts| >= 2
    ensures forall m :: 0 <= m < |parts| ==> IsBlank(parts[m]) || parts[m] in Cells(parts)
  {
    var n := |parts|;
    var mid := parts[1..n - 1];
    var first := if IsBlank(parts[0]) then [] else [parts[0]];
    var last := if IsBlank(parts[n - 1]) then [] else [parts[n - 1]];
    assert Cells(parts) == first + mid + last;
    forall m | 0 < m < n - 1 ensures parts[m] in Cells(parts) {
      assert parts[m] == mid[m - 1];
    }
  }

  /** Every piece of an accepted row is a blank end or a cell. */
  lemma SeparatorParts(line: string)
    requires IsMarkdownTableSeparator(line)
    ensures forall m :: 0 <= m < |SplitOn(line, '|')| ==>
      IsBlank(SplitOn(line, '|')[m]) || IsCell(SplitOn(line, '|')[m])
  {
    var parts := SplitOn(line, '|');
    var cells := Cells(parts);
    PartsInCells(parts);
    forall m | 0 <= m < |parts| && !IsBlank(parts[m]) ensures IsCell(parts[m]) {
      var k :| 0 <= k < |cells| && cells[k] == parts[m];
    }
  }

  /** Separator shape: an accepted line holds only whitespace, `|`, `:` and `-`, and at
      least two cells, each with at least one dash. */
  lemma SeparatorShape(line: string)
    requires IsMarkdownTableSeparator(line)
    ensures forall k :: 0 <= k < |line| ==>
      IsWhitespace(line[k]) || line[k] == '|' || line[k] == ':' || line[k] == '-'
    ensures |Cells(SplitOn(line, '|'))| >= 2
    ensures forall k :: 0 <= k < |Cells(SplitOn(line, '|'))| ==> '-' in Cells(SplitOn(line, '|'))[k]
  {
    var parts := SplitOn(line, '|');
    var cells := Cells(parts);
    forall k | 0 <= k < |cells| ensures '-' in cells[k] {
      CellShape(cells[k]);
    }
    SeparatorParts(line);
    forall k | 0 <= k < |line|
      ensures IsWhitespace(line[k]) || line[k] == '|' || line[k] == ':' || line[k] == '-'
    {
      var c := line[k];
      assert c in JoinWith(parts, '|');
      JoinWithChars(parts, '|', c);
      if c != '|' {
        var m :| 0 <= m < |parts| && c in parts[m];
        var q :| 0 <= q < |parts[m]| && parts[m][q] == c;
        if !IsBlank(parts[m]) {
          CellShape(parts[m]);
          assert IsCellChar(parts[m][q]);
        }
      }
    }
  }

  /** Soundness: an accepted line is an optional blank-led `|`, at least two cells joined
      with `|`, and an optional `|` followed by blanks. */
  lemma SeparatorSound(line: string)
    requires IsMarkdownTableSeparator(line)
    ensures var parts := SplitOn(line, '|');
      var first := parts[0];
      var last := parts[|parts| - 1];
      line == SeparatorLine(Cells(parts),
                            if IsBlank(first) then Some(first) else None,
                            if IsBlank(last) then Some(last) else None)
  {
    var parts := SplitOn(line, '|');
    var lead := if IsBlank(parts[0]) then Some(parts[0]) else None;
    var trail := if IsBlank(parts[|parts| - 1]) then Some(parts[|parts| - 1]) else None;
    PartsArePieces(parts);
    SeparatorLineJoin(Cells(parts), lead, trail);
  }

  /** Cutting the pieces of a row into cells recovers the cells. */
  lemma CellsNoEdges(cells: seq<string>)
    requires |cells| >= 2 && !IsBlank(cells[0]) && !IsBlank(cells[|cells| - 1])
    ensures Cells(cells) == cells
  {
    var c := |cells|;
    assert cells == [cells[0]] + cells[1..c - 1] + [cells[c - 1]];
  }

  lemma CellsLeadEdge(l: string, cells: seq<string>)
    requires |cells| >= 2 && IsBlank(l) && !IsBlank(cells[|cells| - 1])
    ensures Cells([l] + cells) == cells
  {
    var parts, c := [l] + cells, |cells|;
    assert parts[1..|parts| - 1] == cells[..c - 1];
    assert cells == cells[..c - 1] + [cells[c - 1]];
  }

  lemma CellsTrailEdge(cells: seq<string>, t: string)
    requires |cells| >= 2 && !IsBlank(cells[0]) && IsBlank(t)
    ensures Cells(cells + [t]) == cells
  {
    var parts := cells + [t];
    assert parts[1..|parts| - 1] == cells[1..];
    assert cells == [cells[0]] + cells[1..];
  }

  lemma CellsBothEdges(l: string, cells: seq<string>, t: string)
    requires |cells| >= 2 && IsBlank(l) && IsBlank(t)
    ensures Cells([l] + cells + [t]) == cells
  {
    var parts := [l] + cells + [t];
    assert parts[1..|parts| - 1] == cells;
  }

  lemma CellsOfPieces(cells: seq<string>, lead: Option<string>, trail: Option<string>)
    requires |cells| >= 2 && !IsBlank(cells[0]) && !IsBlank(cells[|cells| - 1])
    requires lead.Some? ==> IsBlank(lead.value)
    requires trail.Some? ==> IsBlank(trail.value)
    ensures |Pieces(cells, lead, trail)| >= 2 && Cells(Pieces(cells, lead, trail)) == cells
  {
    match (lead, trail)
    case (None, None) =>
      assert Pieces(cells, lead, trail) == cells;
      CellsNoEdges(cells);
    case (Some(l), None) =>
      assert Pieces(cells, lead, trail) == [l] + cells;
      CellsLeadEdge(l, cells);
    case (None, Some(t)) =>
      assert Pieces(cells, lead, trail) == cells + [t];
      CellsTrailEdge(cells, t);
    case (Some(l), Some(t)) =>
      assert Pieces(cells, lead, trail) == [l] + cells + [t];
      CellsBothEdges(l, cells, t);
  }

  /** Completeness: every line of the shape the regular expression describes is accepted. */
  lemma SeparatorComplete(cells: seq<string>, lead: Option<string>, trail: Option<string>)
    requires |cells| >= 2
    requires forall k :: 0 <= k < |cells| ==> IsCell(cells[k]) && '|' !in cells[k]
    requires lead.Some? ==> IsBlank(lead.value) && '|' !in lead.value
    requires trail.Some? ==> IsBlank(trail.value) && '|' !in trail.value
    ensures IsMarkdownTableSeparator(SeparatorLine(cells, lead, trail))
  {
    var parts := Pieces(cells, lead, trail);
    var pre := if lead.Some? then [lead.value] else [];
    SeparatorLineJoin(cells, lead, trail);
    forall k | 0 <= k < |parts| ensures '|' !in parts[k] {
      if |pre| <= k < |pre| + |cells| {
        assert parts[k] == cells[k - |pre|];
      }
    }
    SplitJoin(parts, '|');
    CellShape(cells[0]);
    CellShape(cells[|cells| - 1]);
    CellsOfPieces(cells, lead, trail);
  }

  // ---------------------------------------------------------------------------
  // The first table of a report
  // ---------------------------------------------------------------------------

  /** `markdown.split(/\r?\n/)`: cut at every line feed; a carriage return right before
      a line feed belongs to the line break, so it is dropped from every line but the last. */
  function SplitLines(markdown: string): (lines: seq<string>)
    ensures |lines| == |SplitOn(markdown, '\n')| >= 1
    ensures forall k :: 0 <= k < |lines| ==> '\n' !in lines[k]
  {
    var parts := SplitOn(markdown, '\n');
    seq(|parts|, k requires 0 <= k < |parts| =>
      if k < |parts| - 1 then DropCarriageReturn(parts[k]) else parts[k])
  }

  function DropCarriageReturn(line: string): (r: string)
    ensures r == line || line == r + "\r"
    ensures |line| > 0 && line[|line| - 1] == '\r' ==> line == r + "\r"
  {
    if |line| > 0 && line[|line| - 1] == '\r' then line[..|line| - 1] else line
  }

  /** Lines joined with line feeds split back into the same lines, provided no line
      but the last ends in a carriage return. */
  lemma SplitLinesJoin(lines: seq<string>)
    requires |lines| >= 1
    requires forall k :: 0 <= k < |lines| ==> '\n' !in lines[k]
    requires forall k :: 0 <= k < |lines| - 1 ==> lines[k] == [] || lines[k][|lines[k]| - 1] != '\r'
    ensures SplitLines(JoinWith(lines, '\n')) == lines
  {
    SplitJoin(lines, '\n');
  }

  /** Lines as a Windows editor writes them: every line but the last ends in a carriage
      return before its line feed. */
  function WithCarriageReturns(lines: seq<string>): (crlf: seq<string>)
    ensures |crlf| == |lines|
  {
    seq(|lines|, k requires 0 <= k < |lines| => if k < |lines| - 1 then lines[k] + "\r" else lines[k])
  }

  /** Lines joined with "\r\n" split back into the same lines: the carriage returns go
      with the line breaks. */
  lemma SplitLinesCrlf(lines: seq<string>)
    requires |lines| >= 1
    requires forall k :: 0 <= k < |lines| ==> '\n' !in lines[k]
    ensures SplitLines(JoinWith(WithCarriageReturns(lines), '\n')) == lines
  {
    var crlf := WithCarriageReturns(lines);
    forall k | 0 <= k < |crlf|
      ensures '\n' !in crlf[k]
    {
      if k < |lines| - 1 {
        assert crlf[k] == lines[k] + "\r";
      }
    }
    SplitJoin(crlf, '\n');
    forall k | 0 <= k < |lines| - 1
      ensures DropCarriageReturn(crlf[k]) == lines[k]
    {
      assert crlf[k] == lines[k] + "\r";
      assert crlf[k][..|crlf[k]| - 1] == lines[k];
    }
  }

  predicate HasPipe(line: string) {
    '|' in line
  }

  /** Line `i` is a header row (it contains a pipe) directly followed by a separator row. */
  predicate IsTableStart(lines: seq<string>, i: int) {
    0 <= i < |lines| - 1 && HasPipe(lines[i]) && IsMarkdownTableSeparator(lines[i + 1])
  }

  /** The first line at or after `k` that contains no pipe, or the end of the input. */
  function RowsEnd(lines: seq<string>, k: nat): (e: nat)
    requires k <= |lines|
    ensures k <= e <= |lines|
    ensures forall j :: k <= j < e ==> HasPipe(lines[j])
    ensures e == |lines| || !HasPipe(lines[e])
    decreases |lines| - k
  {
    if k == |lines| || !HasPipe(lines[k]) then k else RowsEnd(lines, k + 1)
  }

  /** The table that begins at the first table start at or after line `i`. */
  function FirstTableFrom(lines: seq<string>, i: nat): Option<string>
    decreases |lines| - i
  {
    if i + 1 >= |lines| then None
    else if IsTableStart(lines, i) then Some(JoinWith(lines[i..RowsEnd(lines, i + 2)], '\n'))
    else FirstTableFrom(lines, i + 1)
  }

  /** What `extractFirstMarkdownTable` returns: the first table of `markdown`, or null. */
  function FirstTable(markdown: string): Option<string> {
    FirstTableFrom(SplitLines(markdown), 0)
  }

  /** No table is found exactly when no line is a header row followed by a separator row. */
  lemma {:induction false} FirstTableFromNone(lines: seq<string>, i: nat)
    ensures FirstTableFrom(lines, i).None? <==> forall j :: i <= j < |lines| ==> !IsTableStart(lines, j)
    decreases |lines| - i
  {
    if i + 1 < |lines| && !IsTableStart(lines, i) {
      FirstTableFromNone(lines, i + 1);
    }
  }

  /** The table found starts at the first table start `j`, and runs from the header row to
      the first line after the separator that has no pipe (or to the end of the input). */
  lemma {:induction false} FirstTableFromAt(lines: seq<string>, i: nat, j: nat)
    requires i <= j && IsTableStart(lines, j)
    requires forall k :: i <= k < j ==> !IsTableStart(lines, k)
    ensures FirstTableFrom(lines, i) == Some(JoinWith(lines[j..RowsEnd(lines, j + 2)], '\n'))
    decreases j - i
  {
    if i < j {
      FirstTableFromAt(lines, i + 1, j);
    }
  }

  /** Table extraction, in terms of the lines of the report: null exactly when no line is a
      header followed by a separator; otherwise the block from the first such header to the
      first later line without a pipe. */
  lemma FirstTableSpec(markdown: string)
    ensures var lines := SplitLines(markdown);
      && (FirstTable(markdown).None? <==> forall i :: 0 <= i < |lines| ==> !IsTableStart(lines, i))
      && (forall i :: IsTableStart(lines, i) && (forall k :: 0 <= k < i ==> !IsTableStart(lines, k)) ==>
            FirstTable(markdown) == Some(JoinWith(lines[i..RowsEnd(lines, i + 2)], '\n')))
  {
    var lines := SplitLines(markdown);
    FirstTableFromNone(lines, 0);
    forall i | IsTableStart(lines, i) && (forall k :: 0 <= k < i ==> !IsTableStart(lines, k))
      ensures FirstTable(markdown) == Some(JoinWith(lines[i..RowsEnd(lines, i + 2)], '\n'))
    {
      FirstTableFromAt(lines, 0, i);
    }
  }

  /** A table found is never the empty string: it has at least its header and separator
      rows, so the JavaScript test `!table` is the same as `table === null`. */
  lemma {:induction false} FirstTableFromNonEmpty(lines: seq<string>, i: nat)
    requires FirstTableFrom(lines, i).Some?
    ensures |FirstTableFrom(lines, i).value| >= 1
    decreases |lines| - i
  {
    if IsTableStart(lines, i) {
      var block := lines[i..RowsEnd(lines, i + 2)];
      JoinWithLength(block, '\n');
    } else {
      FirstTableFromNonEmpty(lines, i + 1);
    }
  }

  /** A report holding exactly one table block (no pipe before its header, and the block
      followed by the end of input or a line without a pipe) yields that block verbatim. */
  lemma SingleTableExtracted(pre: seq<string>, header: string, separator: string,
                             rows: seq<string>, post: seq<string>)
    requires forall k :: 0 <= k < |pre| ==> !HasPipe(pre[k])
    requires HasPipe(header) && IsMarkdownTableSeparator(separator)
    requires forall k :: 0 <= k < |rows| ==> HasPipe(rows[k])
    requires post == [] || !HasPipe(post[0])
    ensures FirstTableFrom(pre + [header, separator] + rows + post, 0)
            == Some(JoinWith([header, separator] + rows, '\n'))
  {
    var lines := pre + [header, separator] + rows + post;
    var i := |pre|;
    assert IsTableStart(lines, i);
    forall k | 0 <= k < i ensures !IsTableStart(lines, k) {
      assert lines[k] == pre[k];
    }
    FirstTableFromAt(lines, 0, i);
    var e := i + 2 + |rows|;
    forall j | i + 2 <= j < e ensures HasPipe(lines[j]) {
      assert lines[j] == rows[j - i - 2];
    }
    assert e == |lines| || lines[e] == post[0];
    assert RowsEnd(lines, i + 2) == e;
    assert lines[i..e] == [header, separator] + rows;
  }

  /** `extractFirstMarkdownTable`: split the report into lines and scan them. */
  method ExtractFirstMarkdownTable(markdown: string) returns (table: Option<string>)
    ensures table == FirstTable(markdown)
  {
    var lines := SplitLines(markdown);
    table := ScanForTable(lines);
  }

  /** The scan of src/index.js:132-144: look for the first header row followed by a
      separator row, then extend the block over the following lines that contain a pipe. */
  method ScanForTable(lines: seq<string>) returns (table: Option<string>)
    ensures table == FirstTableFrom(lines, 0)
  {
    var i := 0;
    while i < |lines| - 1
      invariant 0 <= i <= |lines|
      invariant FirstTableFrom(lines, i) == FirstTableFrom(lines, 0)
    {
      if !HasPipe(lines[i]) || !IsMarkdownTableSeparator(lines[i + 1]) {
        i := i + 1;
        continue;
      }
      var end := i + 2;
      while end < |lines| && HasPipe(lines[end])
        invariant i + 2 <= end <= |lines|
        invariant RowsEnd(lines, end) == RowsEnd(lines, i + 2)
      {
        end := end + 1;
      }
      return Some(JoinWith(lines[i..end], '\n'));
    }
    return None;
  }
}
