/** String helpers shared by the Markdown table sniffer and the comment
    composer: splitting on and joining with a separator character, the
    whitespace class of JavaScript regular expressions, and the length
    JavaScript reports for a string. */
module Text {

  /** The characters matched by `\s` in a JavaScript regular expression. */
  predicate IsWhitespace(c: char) {
    c == ' ' || c == '\t' || c == '\n' || c == '\r' || c == '\U{000B}' || c == '\U{000C}'
    || c == '\U{00A0}' || c == '\U{1680}' || ('\U{2000}' <= c <= '\U{200A}')
    || c == '\U{2028}' || c == '\U{2029}' || c == '\U{202F}' || c == '\U{205F}'
    || c == '\U{3000}' || c == '\U{FEFF}'
  }

  /** Every character of `s` is whitespace (also true of ""). */
  predicate IsBlank(s: string) {
    forall k :: 0 <= k < |s| ==> IsWhitespace(s[k])
  }

  /** `s` with its leading whitespace removed. */
  function TrimStart(s: string): string {
    if s == [] || !IsWhitespace(s[0]) then s else TrimStart(s[1..])
  }

  /** `s` with its trailing whitespace removed. */
  function TrimEnd(s: string): string {
    if s == [] || !IsWhitespace(s[|s| - 1]) then s else TrimEnd(s[..|s| - 1])
  }

  /** What TrimStart removes is whitespace. */
  lemma {:induction false} TrimStartSplits(s: string) returns (lead: string)
    ensures s == lead + TrimStart(s) && IsBlank(lead)
  {
    if s == [] || !IsWhitespace(s[0]) {
      lead := "";
    } else {
      var rest := TrimStartSplits(s[1..]);
      lead := [s[0]] + rest;
      assert s == [s[0]] + s[1..];
    }
  }

  /** What TrimEnd removes is whitespace. */
  lemma {:induction false} TrimEndSplits(s: string) returns (tail: string)
    ensures s == TrimEnd(s) + tail && IsBlank(tail)
  {
    if s == [] || !IsWhitespace(s[|s| - 1]) {
      tail := "";
    } else {
      var rest := TrimEndSplits(s[..|s| - 1]);
      tail := rest + [s[|s| - 1]];
      assert s == s[..|s| - 1] + [s[|s| - 1]];
    }
  }

  /** `s` without leading and trailing whitespace. */
  function Trim(s: string): string {
    TrimEnd(TrimStart(s))
  }

  /** The pieces joined with `sep` between consecutive pieces (Array.prototype.join). */
  function JoinWith(parts: seq<string>, sep: char): string {
    if parts == [] then ""
    else if |parts| == 1 then parts[0]
    else parts[0] + [sep] + JoinWith(parts[1..], sep)
  }

  /** `s` cut at every occurrence of `sep` (String.prototype.split with a one-character separator):
      the pieces never contain `sep`, and joining them back with `sep` gives `s`. */
  function SplitOn(s: string, sep: char): (parts: seq<string>)
    ensures |parts| >= 1
    ensures forall k :: 0 <= k < |parts| ==> sep !in parts[k]
    ensures JoinWith(parts, sep) == s
  {
    if s == [] then [""]
    else if s[0] == sep then
      var rest := SplitOn(s[1..], sep);
      assert s == [sep] + s[1..];
      [""] + rest
    else
      var rest := SplitOn(s[1..], sep);
      var parts := [[s[0]] + rest[0]] + rest[1..];
      assert parts[1..] == rest[1..];
      assert s == [s[0]] + s[1..];
      parts
  }

  /** Splitting a piece that does not contain `sep` gives that piece alone. */
  lemma {:induction false} SplitOnPlain(a: string, sep: char)
    requires sep !in a
    ensures SplitOn(a, sep) == [a]
  {
    if a != [] {
      SplitOnPlain(a[1..], sep);
    }
  }

  /** Splitting `a + [sep] + b` cuts at the first separator, which is the one after `a`. */
  lemma {:induction false} SplitOnFirst(a: string, b: string, sep: char)
    requires sep !in a
    ensures SplitOn(a + [sep] + b, sep) == [a] + SplitOn(b, sep)
  {
    var s := a + [sep] + b;
    if a == [] {
      assert s[1..] == b;
    } else {
      assert s[1..] == a[1..] + [sep] + b;
      SplitOnFirst(a[1..], b, sep);
      assert [a[0]] + a[1..] == a;
    }
  }

  /** Split undoes join: joining pieces that do not contain `sep` and splitting the
      result gives the pieces back. */
  lemma {:induction false} SplitJoin(parts: seq<string>, sep: char)
    requires |parts| >= 1
    requires forall k :: 0 <= k < |parts| ==> sep !in parts[k]
    ensures SplitOn(JoinWith(parts, sep), sep) == parts
  {
    if |parts| == 1 {
      SplitOnPlain(parts[0], sep);
    } else {
      SplitJoin(parts[1..], sep);
      SplitOnFirst(parts[0], JoinWith(parts[1..], sep), sep);
    }
  }

  /** Joining n >= 1 pieces adds n - 1 separators. */
  lemma {:induction false} JoinWithLength(parts: seq<string>, sep: char)
    requires |parts| >= 1
    ensures |JoinWith(parts, sep)| >= |parts| - 1
    ensures |JoinWith(parts, sep)| >= |parts[|parts| - 1]|
  {
    if |parts| > 1 {
      JoinWithLength(parts[1..], sep);
    }
  }

  /** The number of UTF-16 code units JavaScript counts for `s` (`s.length`):
      characters outside the Basic Multilingual Plane take two. */
  function Utf16Length(s: string): (n: nat)
    ensures |s| <= n <= 2 * |s|
  {
    if s == [] then 0
    else (if s[0] as int > 0xFFFF then 2 else 1) + Utf16Length(s[1..])
  }

  /** JavaScript lengths add up under concatenation. */
  lemma {:induction false} Utf16LengthAppend(a: string, b: string)
    ensures Utf16Length(a + b) == Utf16Length(a) + Utf16Length(b)
  {
    if a == [] {
      assert a + b == b;
    } else {
      assert (a + b)[0] == a[0];
      assert (a + b)[1..] == a[1..] + b;
      Utf16LengthAppend(a[1..], b);
    }
  }
}
