/** The statement splitter of the importer (`import.rs`): it reads a file line by line
    and cuts it at semicolons that stand outside single-quoted literals. */
module Splitter {
  import opened Texts

  // ── Single-quoted literals ────────────────────────────────────────────

  /** Where a scan stands before a unit. `Closed` is the moment after a quote that
      ends the literal unless another quote follows. */
  datatype Scan = Outside | Within | Escaping | Closed

  function Advance(st: Scan, c: char): Scan {
    match st
    case Outside => if c == '\'' then Within else Outside
    case Within => if c == '\\' then Escaping else if c == '\'' then Closed else Within
    case Escaping => Within
    case Closed => if c == '\'' then Within else Outside
  }

  function ScanTo(st: Scan, s: Text, i: nat): Scan
    requires i <= |s|
  {
    if i == 0 then st else Advance(ScanTo(st, s, i - 1), s[i - 1])
  }

  predicate IsOpen(st: Scan) {
    st.Within? || st.Escaping?
  }

  /** A literal is open at the end of `s`. */
  predicate Open(s: Text) {
    IsOpen(ScanTo(Outside, s, |s|))
  }

  /** Where the line after `s` starts: what the scanner remembers across a newline. */
  function Reentry(open: bool): Scan {
    if open then Within else Outside
  }

  lemma {:induction false} ScanPrefix(st: Scan, a: Text, b: Text, i: nat)
    requires i <= |a| && i <= |b| && forall k :: 0 <= k < i ==> a[k] == b[k]
    ensures ScanTo(st, a, i) == ScanTo(st, b, i)
  {
    if i > 0 {
      ScanPrefix(st, a, b, i - 1);
    }
  }

  /** Scanning is compositional. */
  lemma {:induction false} ScanConcat(st: Scan, a: Text, b: Text, i: nat)
    requires i <= |b|
    ensures ScanTo(st, a + b, |a| + i) == ScanTo(ScanTo(st, a, |a|), b, i)
  {
    if i == 0 {
      ScanPrefix(st, a + b, a, |a|);
    } else {
      ScanConcat(st, a, b, i - 1);
      assert (a + b)[|a| + i - 1] == b[i - 1];
    }
  }

  lemma {:induction false} NewlineState(a: Text)
    ensures ScanTo(Outside, a + "\n", |a| + 1) == Reentry(Open(a))
  {
    ScanPrefix(Outside, a + "\n", a, |a|);
    assert (a + "\n")[|a|] == '\n';
  }

  /** The open literal is all that crosses a newline: the state after `a`, newline and
      `b` is that of `b` alone, started inside or outside a literal. */
  lemma {:induction false} NewlineReenters(a: Text, b: Text)
    ensures Open(a + "\n" + b) == IsOpen(ScanTo(Reentry(Open(a)), b, |b|))
  {
    NewlineState(a);
    ScanConcat(Outside, a + "\n", b, |b|);
  }

  /** Blanks at the end neither open nor close a literal. */
  lemma {:induction false} BlanksKeepOpen(s: Text, i: nat, j: nat)
    requires i <= j <= |s| && forall k :: i <= k < j ==> IsBlankUnit(s[k])
    ensures IsOpen(ScanTo(Outside, s, j)) == IsOpen(ScanTo(Outside, s, i))
    decreases j - i
  {
    if i < j {
      BlanksKeepOpen(s, i, j - 1);
    }
  }

  lemma {:induction false} TrimEndKeepsOpen(s: Text)
    ensures Open(TrimEnd(s)) == Open(s)
  {
    var r := TrimBack(s, |s|);
    TrimBackSkipsBlanks(s, |s|);
    BlanksKeepOpen(s, r, |s|);
    ScanPrefix(Outside, s[..r], s, r);
  }

  // ── The scanners ──────────────────────────────────────────────────────

  /** The loop shared by `has_open_string` and `terminates_string`. */
  method ScanQuotes(s: Text, start: bool) returns (inQ: bool)
    ensures inQ == IsOpen(ScanTo(Reentry(start), s, |s|))
  {
    inQ := start;
    var i: nat := 0;
    while i < |s|
      invariant i <= |s| + 1
      invariant i == |s| + 1 ==> inQ && ScanTo(Reentry(start), s, |s|) == Escaping
      invariant i <= |s| ==>
          var st := ScanTo(Reentry(start), s, i);
          if inQ then st == Within else st == Outside || (st == Closed && (i < |s| ==> s[i] != '\''))
    {
      if s[i] == '\\' && inQ {
        i := i + 2;
        continue;
      }
      if s[i] == '\'' {
        if inQ && i + 1 < |s| && s[i + 1] == '\'' {
          i := i + 2;
          continue;
        }
        inQ := !inQ;
      }
      i := i + 1;
    }
  }

  /** `has_open_string` */
  method HasOpenString(s: Text) returns (open: bool)
    ensures open == Open(s)
  {
    open := ScanQuotes(s, false);
  }

  /** `terminates_string` */
  method TerminatesString(line: Text, wasInString: bool) returns (closes: bool)
    ensures closes <==> wasInString && !IsOpen(ScanTo(Within, line, |line|))
  {
    if !wasInString {
      return false;
    }
    var inQ := ScanQuotes(line, true);
    return !inQ;
  }

  predicate EndsWith(s: Text, c: char) {
    s != [] && s[|s| - 1] == c
  }

  /** The statement ends here. */
  predicate IsTerminated(s: Text) {
    EndsWith(TrimEnd(s), ';') && !Open(s)
  }

  /** `ends_with_semicolon_outside_quotes` */
  method EndsWithSemicolonOutsideQuotes(s: Text) returns (r: bool)
    ensures r == IsTerminated(s)
  {
    var trimmed := TrimEnd(s);
    TrimEndKeepsOpen(s);
    if !EndsWith(trimmed, ';') {
      return false;
    }
    var open := HasOpenString(trimmed);
    return !open;
  }

  /** `trim_trailing_semicolon` */
  function TrimTrailingSemicolon(s: Text): Text {
    var trimmed := TrimEnd(s);
    TrimEnd(if EndsWith(trimmed, ';') then trimmed[..|trimmed| - 1] else trimmed)
  }

  predicate StartsComment(s: Text) {
    |s| >= 2 && s[0] == '-' && s[1] == '-'
  }

  /** Nothing but blanks can be trimmed away to nothing. */
  lemma {:induction false} AllTrimmed(s: Text, i: nat)
    requires 0 < i <= |s| && TrimBack(s, i) == 0
    ensures BlankFrom(s, 0) > 0
    decreases i
  {
    var k := BlankTo(s, i);
    if i > k {
      AllTrimmed(s, i - k);
    }
  }

  /** What stands before a comment in a trimmed line is not blank. */
  lemma {:induction false} TrimmedPrefix(s: Text, i: nat)
    requires 0 < i <= |s| && BlankFrom(s, 0) == 0
    ensures Trim(s[..i]) != []
  {
    var p := s[..i];
    assert BlankFrom(p, 0) == 0;
    if TrimBack(p, |p|) == 0 {
      AllTrimmed(p, |p|);
    }
  }

  /** `is_comment_line`: the walk through quotes comes down to the first two units. */
  method IsCommentLine(trimmed: Text) returns (r: bool)
    requires BlankFrom(trimmed, 0) == 0
    ensures r == StartsComment(trimmed)
  {
    if Find(trimmed, "--", 0).None? {
      assert !OccursAt(trimmed, "--", 0);
      return false;
    }
    var inQuotes := false;
    var i: nat := 0;
    while i < |trimmed|
      invariant i == 0 ==> !inQuotes
      invariant i > 0 ==> !StartsComment(trimmed)
    {
      if trimmed[i] == '\'' {
        if inQuotes && i + 1 < |trimmed| && trimmed[i + 1] == '\'' {
          i := i + 2;
          continue;
        }
        inQuotes := !inQuotes;
      } else if !inQuotes && i + 1 < |trimmed| && trimmed[i] == '-' && trimmed[i + 1] == '-' {
        if i > 0 {
          TrimmedPrefix(trimmed, i);
        }
        return i == 0 || Trim(trimmed[..i]) == [];
      }
      i := i + 1;
    }
    return false;
  }

  // ── Splitting ─────────────────────────────────────────────────────────

  /** The statement being gathered, and those handed on. */
  datatype Split = Split(current: Text, out: seq<Text>)

  const START := Split([], [])

  /** Hand on a statement that is complete. */
  function Settle(out: seq<Text>, next: Text): Split {
    if !IsTerminated(next) then Split(next, out)
    else
      var stmt := TrimTrailingSemicolon(next);
      Split([], if stmt == [] then out else out + [stmt])
  }

  /** What one line does. Inside a literal it is kept as it is; elsewhere it is
      trimmed, and skipped if blank or a comment. */
  function Feed(st: Split, line: Text): Split {
    if Open(st.current) then Settle(st.out, st.current + "\n" + line)
    else
      var trimmed := Trim(line);
      if trimmed == [] || StartsComment(trimmed) then st
      else Settle(st.out, if st.current == [] then trimmed else st.current + "\n" + trimmed)
  }

  function LineEnd(text: Text, pos: nat): (e: nat)
    requires pos <= |text|
    ensures pos <= e <= |text|
    decreases |text| - pos
  {
    if pos < |text| && text[pos] != '\n' then LineEnd(text, pos + 1) else pos
  }

  /** A line ends at the first newline. */
  lemma {:induction false} LineEndIsFirst(text: Text, pos: nat)
    requires pos <= |text|
    ensures var e := LineEnd(text, pos);
      && (forall k :: pos <= k < e ==> text[k] != '\n')
      && (e < |text| ==> text[e] == '\n')
    decreases |text| - pos
  {
    if pos < |text| && text[pos] != '\n' {
      LineEndIsFirst(text, pos + 1);
    }
  }

  /** A line that ends at `e`, without a carriage return in front of its newline. */
  function Chomped(text: Text, pos: nat, e: nat): (c: nat)
    requires pos <= e <= |text|
    ensures pos <= c <= e
  {
    if pos < e < |text| && text[e - 1] == '\r' then e - 1 else e
  }

  /** A line as `BufRead::lines` gives it. */
  function LineAt(text: Text, pos: nat): Text
    requires pos <= |text|
  {
    text[pos..Chomped(text, pos, LineEnd(text, pos))]
  }

  function LineAfter(text: Text, pos: nat): (n: nat)
    requires pos < |text|
    ensures pos < n <= |text|
  {
    var e := LineEnd(text, pos);
    if e < |text| then e + 1 else e
  }

  /** What `f` makes of the lines of `text` from `pos` on. */
  function FoldLines<S>(f: (S, Text) -> S, st: S, text: Text, pos: nat): S
    requires pos <= |text|
    decreases |text| - pos
  {
    if pos == |text| then st else FoldLines(f, f(st, LineAt(text, pos)), text, LineAfter(text, pos))
  }

  /** The splitter after a whole text. */
  function SplitText(text: Text): Split {
    FoldLines(Feed, START, text, 0)
  }

  /** The statements of a text, one without a semicolon at the end included. */
  function Statements(text: Text): seq<Text> {
    var st := SplitText(text);
    if Trim(st.current) == [] then st.out else st.out + [Trim(st.current)]
  }

  lemma {:induction false} TrimStartsPlain(s: Text)
    ensures BlankFrom(Trim(s), 0) == 0
  {
    TrimForwardSkipsBlanks(s, 0);
  }

  method CheckTerminated(out: seq<Text>, next: Text, inString: bool) returns (st: Split)
    requires inString == Open(next)
    ensures st == Settle(out, next)
  {
    st := Split(next, out);
    if !inString {
      var done := EndsWithSemicolonOutsideQuotes(next);
      if done {
        var stmt := TrimTrailingSemicolon(next);
        st := Split([], if stmt != [] then out + [stmt] else out);
      }
    }
  }

  /** One turn of the loop of `stream_gql_import`. */
  method FeedLine(st: Split, line: Text, inString: bool) returns (next: Split, nextInString: bool)
    requires inString == Open(st.current)
    ensures next == Feed(st, line) && nextInString == Open(next.current)
  {
    if inString {
      var current := st.current + "\n" + line;
      var closes := TerminatesString(line, inString);
      NewlineReenters(st.current, line);
      next := CheckTerminated(st.out, current, !closes);
      nextInString := !closes;
      return;
    }
    var trimmed := Trim(line);
    TrimStartsPlain(line);
    if trimmed == [] {
      return st, false;
    }
    var comment := IsCommentLine(trimmed);
    if comment {
      return st, false;
    }
    var current := if st.current == [] then trimmed else st.current + "\n" + trimmed;
    var open := HasOpenString(trimmed);
    NewlineReenters(st.current, trimmed);
    next := CheckTerminated(st.out, current, open);
    nextInString := open;
  }

  /** `stream_gql_import`, and `split_gql_statements` on top of it: whatever the lines
      are, `in_string` tells whether the text gathered so far leaves a literal open. */
  method StreamGqlImport(text: Text) returns (out: seq<Text>, count: nat)
    ensures out == Statements(text) && count == |out|
  {
    var st := START;
    var inString := false;
    var pos: nat := 0;
    while pos < |text|
      invariant pos <= |text|
      invariant inString == Open(st.current)
      invariant FoldLines(Feed, st, text, pos) == SplitText(text)
    {
      st, inString := FeedLine(st, LineAt(text, pos), inString);
      pos := LineAfter(text, pos);
    }
    out := st.out;
    if st.current != [] {
      var trimmed := Trim(st.current);
      if trimmed != [] {
        out := out + [trimmed];
      }
    }
    count := |out|;
  }
}
