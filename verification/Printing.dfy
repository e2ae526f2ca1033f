/** Writing statements out and splitting them again: exactly which statements come
    back as they were. */
module Printing {
  import opened Texts
  import opened Splitter

  // ── Canonical statements ──────────────────────────────────────────────

  predicate IsLineStart(t: Text, i: nat) {
    i <= |t| && (i == 0 || t[i - 1] == '\n')
  }

  /** The line that starts at `i` starts inside a literal. */
  predicate StartsInLiteral(t: Text, i: nat)
    requires i <= |t|
  {
    i > 0 && Open(t[..i - 1])
  }

  /** A line outside literals: begins with something other than a blank or a comment. */
  predicate BeginsPlainly(line: Text) {
    line != [] && BlankFrom(line, 0) == 0 && !StartsComment(line)
  }

  /** The line at `i`, and the line break behind it if there is one, survive. */
  predicate IsCanonicalLine(t: Text, i: nat)
    requires IsLineStart(t, i)
  {
    var e := LineEnd(t, i);
    && (!StartsInLiteral(t, i) ==> BeginsPlainly(t[i..e]))
    && (e < |t| ==>
          && (if StartsInLiteral(t, i) then Chomped(t, i, e) == e else BlankTo(t[i..e], e - i) == 0)
          && !IsTerminated(t[..e]))
  }

  ghost predicate IsCanonicalFrom(t: Text, from: nat) {
    forall i :: from <= i <= |t| && IsLineStart(t, i) ==> IsCanonicalLine(t, i)
  }

  /** Every line survives, no literal is left open, no blank stands at the end. */
  ghost predicate IsCanonical(t: Text) {
    IsCanonicalFrom(t, 0) && !Open(t) && BlankTo(t, |t|) == 0
  }

  function Printed(t: Text): Text {
    t + ";\n"
  }

  /** The splitter hands on `t` and is then back where it started. */
  predicate ComesBack(t: Text) {
    SplitText(Printed(t)) == Split([], [t])
  }

  // ── Lines of a statement, seen in the file ────────────────────────────

  predicate UnitIsWritten(text: Text, t: Text, o: nat, k: nat)
    requires o + k < |text| && k < |t| + 2
  {
    text[o + k] == Printed(t)[k]
  }

  /** `t`, a semicolon and a newline stand in `text` at `o`. */
  ghost predicate IsWrittenAt(text: Text, t: Text, o: nat) {
    o + |t| + 2 <= |text| && forall k :: 0 <= k < |t| + 2 ==> UnitIsWritten(text, t, o, k)
  }

  lemma {:induction false} LineEndIs(text: Text, pos: nat, e: nat)
    requires pos <= e < |text| && text[e] == '\n'
    requires forall k :: pos <= k < e ==> text[k] != '\n'
    ensures LineEnd(text, pos) == e
    decreases e - pos
  {
    if pos < e {
      LineEndIs(text, pos + 1, e);
    }
  }

  lemma {:induction false} WrittenUnit(text: Text, t: Text, o: nat, k: nat)
    requires IsWrittenAt(text, t, o) && k < |t| + 2
    ensures text[o + k] == Printed(t)[k]
  {
    assert UnitIsWritten(text, t, o, k);
  }

  /** The end of the file's line is that of the statement's, or its semicolon's. */
  lemma {:induction false} FileLineEnd(text: Text, t: Text, o: nat, i: nat)
    requires IsWrittenAt(text, t, o) && i <= |t|
    ensures var e := LineEnd(t, i);
      LineEnd(text, o + i) == o + if e < |t| then e else |t| + 1
  {
    var e := LineEnd(t, i);
    var f := if e < |t| then e else |t| + 1;
    LineEndIsFirst(t, i);
    WrittenUnit(text, t, o, f);
    forall k | o + i <= k < o + f ensures text[k] != '\n' {
      WrittenUnit(text, t, o, k - o);
    }
    LineEndIs(text, o + i, o + f);
  }

  lemma {:induction false} FileSlice(text: Text, t: Text, o: nat, i: nat, e: nat)
    requires IsWrittenAt(text, t, o) && i <= e <= |t| + 1
    ensures text[o + i..o + e] == Printed(t)[i..e]
  {
    forall k | 0 <= k < e - i ensures text[o + i..o + e][k] == Printed(t)[i..e][k] {
      WrittenUnit(text, t, o, i + k);
    }
  }

  /** What the splitter is given for the line of `t` at `i`. */
  function Given(t: Text, i: nat): Text
    requires i <= |t|
  {
    if LineEnd(t, i) == |t| then t[i..] + ";" else LineAt(t, i)
  }

  lemma {:induction false} FileChomped(text: Text, t: Text, o: nat, i: nat, e: nat)
    requires IsWrittenAt(text, t, o) && i <= e < |t|
    ensures Chomped(text, o + i, o + e) == o + Chomped(t, i, e)
  {
    if i < e {
      WrittenUnit(text, t, o, e - 1);
    }
  }

  lemma {:induction false} FileLineAt(text: Text, t: Text, o: nat, i: nat)
    requires IsWrittenAt(text, t, o) && i <= |t| && LineEnd(t, i) < |t|
    ensures LineAt(text, o + i) == Given(t, i) && LineAfter(text, o + i) == o + LineEnd(t, i) + 1
  {
    var e := LineEnd(t, i);
    var c := Chomped(t, i, e);
    FileLineEnd(text, t, o, i);
    FileChomped(text, t, o, i, e);
    FileSlice(text, t, o, i, c);
    assert Printed(t)[i..c] == t[i..c];
  }

  lemma {:induction false} FileLastLine(text: Text, t: Text, o: nat, i: nat)
    requires IsWrittenAt(text, t, o) && i <= |t| && LineEnd(t, i) == |t|
    ensures LineAt(text, o + i) == Given(t, i) && LineAfter(text, o + i) == o + |t| + 2
  {
    FileLineEnd(text, t, o, i);
    FileSlice(text, t, o, i, |t| + 1);
    assert Printed(t)[i..|t| + 1] == t[i..] + ";";
    WrittenUnit(text, t, o, |t|);
  }

  // ── Canonical statements come back ────────────────────────────────────

  /** What has been gathered before the line at `i`. */
  function Gathered(t: Text, i: nat): Text
    requires i <= |t|
  {
    if i == 0 then [] else t[..i - 1]
  }

  /** A text with no blank at either end is left alone. */
  lemma {:induction false} NothingToTrim(s: Text)
    requires s != [] && BlankFrom(s, 0) == 0 && BlankTo(s, |s|) == 0
    ensures Trim(s) == s && TrimEnd(s) == s
  {
    assert TrimForward(s, 0) == 0 && TrimBack(s, |s|) == |s|;
  }

  /** A semicolon ends a line with something that is not blank. */
  lemma {:induction false} SemicolonIsPlain(line: Text)
    ensures BlankTo(line + ";", |line| + 1) == 0
    ensures line != [] ==> BlankFrom(line + ";", 0) == BlankFrom(line, 0)
    ensures StartsComment(line + ";") == StartsComment(line)
  {
    assert (line + ";")[|line|] == ';';
  }

  lemma {:induction false} GatheredLine(t: Text, i: nat)
    requires IsLineStart(t, i) && i > 0
    ensures t[..i - 1] + "\n" + t[i..LineEnd(t, i)] == t[..LineEnd(t, i)]
  {
  }

  lemma {:induction false} PlainLineIsKept(current: Text, line: Text, out: seq<Text>)
    requires !Open(current) && BeginsPlainly(line) && BlankTo(line, |line|) == 0
    ensures Feed(Split(current, out), line) ==
            Settle(out, if current == [] then line else current + "\n" + line)
  {
    NothingToTrim(line);
  }

  /** A line break of a canonical statement is kept. */
  lemma {:induction false} CanonicalLineIsKept(t: Text, i: nat, out: seq<Text>)
    requires IsLineStart(t, i) && IsCanonicalLine(t, i) && LineEnd(t, i) < |t| && i != 1
    ensures Feed(Split(Gathered(t, i), out), Given(t, i)) == Split(t[..LineEnd(t, i)], out)
  {
    var e := LineEnd(t, i);
    if i > 0 {
      GatheredLine(t, i);
    }
    if !StartsInLiteral(t, i) {
      assert e > i ==> t[i..e][e - i - 1] == t[e - 1];
      assert Given(t, i) == t[i..e];
      PlainLineIsKept(Gathered(t, i), t[i..e], out);
    }
  }

  /** Adding the semicolon ends the statement. */
  lemma {:induction false} SemicolonTerminates(t: Text)
    requires t != [] && !Open(t) && BlankTo(t, |t|) == 0
    ensures IsTerminated(t + ";") && TrimTrailingSemicolon(t + ";") == t
  {
    SemicolonIsPlain(t);
    assert TrimEnd(t + ";") == t + ";";
    ScanConcat(Outside, t, ";", 1);
    assert (t + ";")[..|t|] == t;
    assert TrimEnd(t) == t;
  }

  lemma {:induction false} CanonicalLastLine(t: Text, i: nat, out: seq<Text>)
    requires IsLineStart(t, i) && IsCanonicalLine(t, i) && LineEnd(t, i) == |t|
    requires i != 1 && t != [] && !Open(t) && BlankTo(t, |t|) == 0
    ensures Feed(Split(Gathered(t, i), out), Given(t, i)) == Split([], out + [t])
  {
    var line := t[i..];
    SemicolonTerminates(t);
    if i > 0 {
      assert t[..i - 1] + "\n" + (line + ";") == t + ";";
    } else {
      assert line == t;
    }
    if !StartsInLiteral(t, i) {
      assert t[i..|t|] == line;
      SemicolonIsPlain(line);
      NothingToTrim(line + ";");
    }
  }

  /** What `f` makes of the lines it is given for `t`, from the one at `i` on. */
  function FoldGiven<S>(f: (S, Text) -> S, st: S, t: Text, i: nat): S
    requires i <= |t|
    decreases |t| - i
  {
    var next := f(st, Given(t, i));
    if LineEnd(t, i) < |t| then FoldGiven(f, next, t, LineEnd(t, i) + 1) else next
  }

  lemma {:induction false} NextLineStart(t: Text, i: nat)
    requires i <= |t| && LineEnd(t, i) < |t|
    ensures IsLineStart(t, LineEnd(t, i) + 1)
  {
    LineEndIsFirst(t, i);
  }

  /** `f` keeps the line of `t` at `i`, or hands `t` on if it is the last. */
  predicate KeepsLine(f: (Split, Text) -> Split, t: Text, out: seq<Text>, i: nat)
    requires IsLineStart(t, i) && i != 1
  {
    f(Split(Gathered(t, i), out), Given(t, i)) ==
    if LineEnd(t, i) < |t| then Split(t[..LineEnd(t, i)], out) else Split([], out + [t])
  }

  ghost predicate KeepsLines(f: (Split, Text) -> Split, t: Text, out: seq<Text>) {
    forall i :: IsLineStart(t, i) && i != 1 ==> KeepsLine(f, t, out, i)
  }

  lemma {:induction false} KeptLines(f: (Split, Text) -> Split, t: Text, i: nat, out: seq<Text>)
    requires KeepsLines(f, t, out) && IsLineStart(t, i) && i != 1 && LineEnd(t, 0) > 0
    ensures FoldGiven(f, Split(Gathered(t, i), out), t, i) == Split([], out + [t])
    decreases |t| - i
  {
    var e := LineEnd(t, i);
    assert KeepsLine(f, t, out, i);
    if e < |t| {
      NextLineStart(t, i);
      assert Gathered(t, e + 1) == t[..e];
      KeptLines(f, t, e + 1, out);
    }
  }

  lemma {:induction false} CanonicalKeepsLines(t: Text, out: seq<Text>)
    requires IsCanonical(t)
    ensures KeepsLines(Feed, t, out) && LineEnd(t, 0) > 0
  {
    assert IsLineStart(t, 0) && IsCanonicalLine(t, 0);
    forall i | IsLineStart(t, i) && i != 1 ensures KeepsLine(Feed, t, out, i) {
      assert IsCanonicalLine(t, i);
      if LineEnd(t, i) < |t| {
        CanonicalLineIsKept(t, i, out);
      } else {
        CanonicalLastLine(t, i, out);
      }
    }
  }

  lemma {:induction false} CanonicalComesBack(t: Text, out: seq<Text>)
    requires IsCanonical(t)
    ensures FoldGiven(Feed, Split([], out), t, 0) == Split([], out + [t])
  {
    CanonicalKeepsLines(t, out);
    KeptLines(Feed, t, 0, out);
  }

  // ── Lists of statements ───────────────────────────────────────────────

  function PrintUpTo(stmts: seq<Text>, n: nat): Text
    requires n <= |stmts|
  {
    if n == 0 then [] else PrintUpTo(stmts, n - 1) + Printed(stmts[n - 1])
  }

  function Print(stmts: seq<Text>): Text {
    PrintUpTo(stmts, |stmts|)
  }

  lemma {:induction false} PrintedPart(stmts: seq<Text>, k: nat, n: nat)
    requires k <= n <= |stmts|
    ensures |PrintUpTo(stmts, k)| <= |PrintUpTo(stmts, n)|
    decreases n
  {
    if k < n {
      PrintedPart(stmts, k, n - 1);
    }
  }

  lemma {:induction false} PrintedUnit(stmts: seq<Text>, k: nat, n: nat, j: nat)
    requires k <= n <= |stmts| && j < |PrintUpTo(stmts, k)|
    ensures j < |PrintUpTo(stmts, n)| && PrintUpTo(stmts, n)[j] == PrintUpTo(stmts, k)[j]
    decreases n
  {
    if k < n {
      PrintedUnit(stmts, k, n - 1, j);
    }
  }

  lemma {:induction false} PrintedAt(stmts: seq<Text>, k: nat)
    requires k < |stmts|
    ensures IsWrittenAt(Print(stmts), stmts[k], |PrintUpTo(stmts, k)|)
  {
    PrintedPart(stmts, k + 1, |stmts|);
    var (o, t) := (|PrintUpTo(stmts, k)|, stmts[k]);
    forall j | 0 <= j < |t| + 2 ensures UnitIsWritten(Print(stmts), t, o, j) {
      PrintedUnit(stmts, k + 1, |stmts|, o + j);
      assert PrintUpTo(stmts, k + 1)[o + j] == Printed(t)[j];
    }
  }

  // ── From text to lines ────────────────────────────────────────────────

  function FileNext(t: Text, i: nat): (n: nat)
    requires i <= |t|
    ensures i < n <= |t| + 2
  {
    if LineEnd(t, i) < |t| then LineEnd(t, i) + 1 else |t| + 2
  }

  predicate LineIsGiven(text: Text, t: Text, o: nat, i: nat)
    requires i <= |t| && o + |t| + 2 <= |text|
  {
    LineAt(text, o + i) == Given(t, i) && LineAfter(text, o + i) == o + FileNext(t, i)
  }

  lemma {:induction false} FoldWrittenFrom<S>(f: (S, Text) -> S, st: S, text: Text, t: Text, o: nat, i: nat)
    requires i <= |t| && o + |t| + 2 <= |text|
    requires forall j :: 0 <= j <= |t| ==> LineIsGiven(text, t, o, j)
    ensures FoldLines(f, st, text, o + i) == FoldLines(f, FoldGiven(f, st, t, i), text, o + |t| + 2)
    decreases |t| - i
  {
    assert LineIsGiven(text, t, o, i);
    if LineEnd(t, i) < |t| {
      FoldWrittenFrom(f, f(st, Given(t, i)), text, t, o, LineEnd(t, i) + 1);
    }
  }

  /** A printed statement gives its lines, whatever follows it in the file. */
  lemma {:induction false} FoldWritten<S>(f: (S, Text) -> S, st: S, text: Text, t: Text, o: nat)
    requires IsWrittenAt(text, t, o)
    ensures FoldLines(f, st, text, o) == FoldLines(f, FoldGiven(f, st, t, 0), text, o + |t| + 2)
  {
    forall i | 0 <= i <= |t| ensures LineIsGiven(text, t, o, i) {
      if LineEnd(t, i) == |t| {
        FileLastLine(text, t, o, i);
      } else {
        FileLineAt(text, t, o, i);
      }
    }
    FoldWrittenFrom(f, st, text, t, o, 0);
  }

  /** `f` hands on the statements one by one. */
  ghost predicate HandsOn(f: (Split, Text) -> Split, stmts: seq<Text>) {
    forall k :: 0 <= k < |stmts| ==> HandsOnOne(f, stmts, k)
  }

  predicate HandsOnOne(f: (Split, Text) -> Split, stmts: seq<Text>, k: nat)
    requires k < |stmts|
  {
    FoldGiven(f, Split([], stmts[..k]), stmts[k], 0) == Split([], stmts[..k + 1])
  }

  lemma {:induction false} CanonicalAreHandedOn(stmts: seq<Text>)
    requires forall j :: 0 <= j < |stmts| ==> IsCanonical(stmts[j])
    ensures HandsOn(Feed, stmts)
  {
    forall k | 0 <= k < |stmts| ensures HandsOnOne(Feed, stmts, k) {
      CanonicalComesBack(stmts[k], stmts[..k]);
      assert stmts[..k + 1] == stmts[..k] + [stmts[k]];
    }
  }

  lemma {:induction false} PrintedEnd(stmts: seq<Text>, k: nat, o: nat)
    requires k < |stmts| && o == |PrintUpTo(stmts, k)|
    ensures |PrintUpTo(stmts, k + 1)| == o + |stmts[k]| + 2 <= |Print(stmts)|
  {
    PrintedPart(stmts, k + 1, |stmts|);
  }

  /** Where `fold` comes to from the statement `k` on. */
  function FoldFrom(fold: (Split, nat) -> Split, stmts: seq<Text>, k: nat): Split {
    if k <= |stmts| then fold(Split([], stmts[..k]), |PrintUpTo(stmts, k)|) else Split([], [])
  }

  predicate IsSameNext(g: nat -> Split, k: nat) {
    g(k) == g(k + 1)
  }

  lemma {:induction false} SameThroughout(g: nat -> Split, n: nat)
    requires forall k :: 0 <= k < n ==> IsSameNext(g, k)
    ensures g(0) == g(n)
  {
    if n > 0 {
      SameThroughout(g, n - 1);
      assert IsSameNext(g, n - 1);
    }
  }

  lemma {:induction false} FoldFromNext(fold: (Split, nat) -> Split, stmts: seq<Text>, k: nat, o: nat)
    requires k < |stmts| && o == |PrintUpTo(stmts, k)|
    requires fold(Split([], stmts[..k]), o) == fold(Split([], stmts[..k + 1]), o + |stmts[k]| + 2)
    ensures FoldFrom(fold, stmts, k) == FoldFrom(fold, stmts, k + 1)
  {
    PrintedEnd(stmts, k, o);
  }

  lemma {:induction false} FoldFromEnds(fold: (Split, nat) -> Split, stmts: seq<Text>)
    ensures FoldFrom(fold, stmts, 0) == fold(Split([], []), 0)
    ensures FoldFrom(fold, stmts, |stmts|) == fold(Split([], stmts), |Print(stmts)|)
  {
    assert stmts[..0] == [] && stmts[..|stmts|] == stmts;
  }

  /** Folding `f` over the lines of `text`. */
  function Folding(f: (Split, Text) -> Split, text: Text): (Split, nat) -> Split {
    (st, o: nat) => if o <= |text| then FoldLines(f, st, text, o) else st
  }

  lemma {:induction false} FoldingWritten(
      f: (Split, Text) -> Split, a: Split, b: Split, text: Text, t: Text, o: nat, e: nat)
    requires IsWrittenAt(text, t, o) && FoldGiven(f, a, t, 0) == b && e == o + |t| + 2 <= |text|
    ensures Folding(f, text)(a, o) == Folding(f, text)(b, e)
  {
    FoldWritten(f, a, text, t, o);
  }

  lemma {:induction false} FoldingHandsOn(f: (Split, Text) -> Split, stmts: seq<Text>, k: nat, text: Text, o: nat)
    requires k < |stmts| && HandsOnOne(f, stmts, k) && text == Print(stmts) && o == |PrintUpTo(stmts, k)|
    ensures Folding(f, text)(Split([], stmts[..k]), o)
         == Folding(f, text)(Split([], stmts[..k + 1]), o + |stmts[k]| + 2)
  {
    PrintedEnd(stmts, k, o);
    PrintedAt(stmts, k);
    FoldingWritten(f, Split([], stmts[..k]), Split([], stmts[..k + 1]), text, stmts[k], o, o + |stmts[k]| + 2);
  }

  lemma {:induction false} FoldPrinted(f: (Split, Text) -> Split, stmts: seq<Text>)
    requires HandsOn(f, stmts)
    ensures FoldLines(f, Split([], []), Print(stmts), 0) == Split([], stmts)
  {
    var fold := Folding(f, Print(stmts));
    var g := (k: nat) => FoldFrom(fold, stmts, k);
    forall k | 0 <= k < |stmts| ensures IsSameNext(g, k) {
      assert HandsOnOne(f, stmts, k);
      FoldingHandsOn(f, stmts, k, Print(stmts), |PrintUpTo(stmts, k)|);
      FoldFromNext(fold, stmts, k, |PrintUpTo(stmts, k)|);
    }
    SameThroughout(g, |stmts|);
    FoldFromEnds(fold, stmts);
  }

  /** Splitting undoes printing, for every list of canonical statements. */
  lemma {:induction false} SplitUndoesPrint(stmts: seq<Text>)
    requires forall j :: 0 <= j < |stmts| ==> IsCanonical(stmts[j])
    ensures SplitText(Print(stmts)) == Split([], stmts) && Statements(Print(stmts)) == stmts
  {
    CanonicalAreHandedOn(stmts);
    FoldPrinted(Feed, stmts);
    assert Trim([]) == [];
  }

  // ── And only canonical statements come back ───────────────────────────

  lemma {:induction false} TrimmedLength(s: Text)
    ensures |Trim(s)| <= |s| && |TrimEnd(s)| <= |s|
    ensures |Trim(s)| == |s| && s != [] ==> Trim(s) == s && BlankFrom(s, 0) == 0 && BlankTo(s, |s|) == 0
    ensures |TrimEnd(s)| == |s| ==> BlankTo(s, |s|) == 0
  {
  }

  lemma {:induction false} HandedOnIsShorter(next: Text)
    requires IsTerminated(next)
    ensures |TrimTrailingSemicolon(next)| < |next|
  {
    var trimmed := TrimEnd(next);
    TrimmedLength(trimmed[..|trimmed| - 1]);
  }

  /** Units gathered, the line break that would follow them included. */
  function Held(current: Text): nat {
    if current == [] then 0 else |current| + 1
  }

  ghost predicate AllShorter(out: seq<Text>, n: nat) {
    forall k :: 0 <= k < |out| ==> |out[k]| < n
  }

  /** Before unit `i` something of `t` has been lost, and `t` not handed on. */
  ghost predicate IsShort(t: Text, i: nat, st: Split) {
    Held(st.current) < i && AllShorter(st.out, |t|)
  }

  lemma {:induction false} SettleAdds(out: seq<Text>, next: Text, n: nat)
    requires AllShorter(out, n) && |next| <= n
    ensures AllShorter(Settle(out, next).out, n) && Held(Settle(out, next).current) <= |next| + 1
  {
    if IsTerminated(next) {
      HandedOnIsShorter(next);
      var stmt := TrimTrailingSemicolon(next);
      assert forall k :: 0 <= k < |out + [stmt]| ==> (out + [stmt])[k] == if k < |out| then out[k] else stmt;
    }
  }

  /** A line can add to what is held no more than its length. */
  lemma {:induction false} FeedAdds(st: Split, line: Text, n: nat)
    requires AllShorter(st.out, n) && Held(st.current) + |line| <= n
    ensures AllShorter(Feed(st, line).out, n)
    ensures Held(Feed(st, line).current) <= Held(st.current) + |line| + 1
  {
    TrimmedLength(line);
    if Open(st.current) {
      SettleAdds(st.out, st.current + "\n" + line, n);
    } else if Trim(line) != [] && !StartsComment(Trim(line)) {
      SettleAdds(st.out, if st.current == [] then Trim(line) else st.current + "\n" + Trim(line), n);
    }
  }

  lemma {:induction false} FeedKeepsShort(t: Text, i: nat, st: Split)
    requires i <= |t| && IsShort(t, i, st)
    ensures IsShort(t, FileNext(t, i), Feed(st, Given(t, i)))
  {
    FeedAdds(st, Given(t, i), |t|);
  }

  ghost predicate KeepsShort(f: (Split, Text) -> Split, t: Text) {
    forall i: nat, st :: i <= |t| && IsShort(t, i, st) ==> IsShort(t, FileNext(t, i), f(st, Given(t, i)))
  }

  lemma {:induction false} ShortStaysShort(f: (Split, Text) -> Split, t: Text, i: nat, st: Split)
    requires KeepsShort(f, t) && i <= |t| && IsShort(t, i, st)
    ensures AllShorter(FoldGiven(f, st, t, i).out, |t|)
    decreases |t| - i
  {
    var next := f(st, Given(t, i));
    assert IsShort(t, FileNext(t, i), next);
    if LineEnd(t, i) < |t| {
      ShortStaysShort(f, t, FileNext(t, i), next);
    }
  }

  lemma {:induction false} FeedKeepsAllShort(t: Text)
    ensures KeepsShort(Feed, t)
  {
    forall i: nat, st | i <= |t| && IsShort(t, i, st)
      ensures IsShort(t, FileNext(t, i), Feed(st, Given(t, i)))
    {
      FeedKeepsShort(t, i, st);
    }
  }

  lemma {:induction false} SettleLoses(t: Text, next: Text, e: nat)
    requires e < |t| && |next| <= e && (|next| == e ==> IsTerminated(next))
    ensures IsShort(t, e + 1, Settle([], next))
  {
    if IsTerminated(next) {
      HandedOnIsShorter(next);
    }
  }

  /** What is kept of a line outside literals. */
  lemma {:induction false} KeptWhole(t: Text, i: nat)
    requires IsLineStart(t, i) && LineEnd(t, i) < |t| && !StartsInLiteral(t, i)
    ensures |Trim(Given(t, i))| <= LineEnd(t, i) - i
    ensures var kept := Trim(Given(t, i));
      |kept| == LineEnd(t, i) - i && kept != [] && !StartsComment(kept) ==>
      kept == t[i..LineEnd(t, i)] && (IsCanonicalLine(t, i) || IsTerminated(t[..LineEnd(t, i)]))
  {
    TrimmedLength(Given(t, i));
  }

  /** What is kept of a line that starts inside a literal. */
  lemma {:induction false} KeptInLiteral(t: Text, i: nat)
    requires IsLineStart(t, i) && LineEnd(t, i) < |t| && StartsInLiteral(t, i)
    ensures |Given(t, i)| <= LineEnd(t, i) - i
    ensures |Given(t, i)| == LineEnd(t, i) - i ==>
      Given(t, i) == t[i..LineEnd(t, i)] && (IsCanonicalLine(t, i) || IsTerminated(t[..LineEnd(t, i)]))
  {
  }

  /** A line of `t` that is not canonical loses something. */
  lemma {:induction false} OtherLineLoses(t: Text, i: nat)
    requires IsLineStart(t, i) && i != 1 && LineEnd(t, i) < |t| && !IsCanonicalLine(t, i)
    ensures IsShort(t, LineEnd(t, i) + 1, Feed(Split(Gathered(t, i), []), Given(t, i)))
  {
    var (e, st) := (LineEnd(t, i), Split(Gathered(t, i), []));
    assert Held(st.current) == i;
    if StartsInLiteral(t, i) {
      KeptInLiteral(t, i);
      GatheredLine(t, i);
      SettleLoses(t, t[..i - 1] + "\n" + Given(t, i), e);
    } else {
      KeptWhole(t, i);
      var kept := Trim(Given(t, i));
      if kept != [] && !StartsComment(kept) {
        if i == 0 {
          SettleLoses(t, kept, e);
        } else {
          GatheredLine(t, i);
          SettleLoses(t, t[..i - 1] + "\n" + kept, e);
        }
      }
    }
  }

  lemma {:induction false} NotAllShorter(t: Text)
    ensures !AllShorter([t], |t|)
  {
    assert |[t][0]| == |t|;
  }

  /** What is lost is lost for good. */
  lemma {:induction false} LostForGood(f: (Split, Text) -> Split, t: Text, i: nat, st: Split)
    requires KeepsShort(f, t) && i <= |t| && LineEnd(t, i) < |t|
    requires IsShort(t, LineEnd(t, i) + 1, f(st, Given(t, i)))
    ensures FoldGiven(f, st, t, i) != Split([], [t])
  {
    ShortStaysShort(f, t, LineEnd(t, i) + 1, f(st, Given(t, i)));
    NotAllShorter(t);
  }

  lemma {:induction false} SettleHandsOn(next: Text, t: Text)
    requires Settle([], next) == Split([], [t])
    ensures IsTerminated(next) && TrimTrailingSemicolon(next) == t && t != [] && |t| < |next|
  {
    assert [t][0] == t;
    HandedOnIsShorter(next);
  }

  lemma {:induction false} SemicolonHandsOn(t: Text)
    requires IsTerminated(t + ";") && TrimTrailingSemicolon(t + ";") == t
    ensures !Open(t) && BlankTo(t, |t|) == 0
  {
    SemicolonIsPlain(t);
    assert TrimEnd(t + ";") == t + ";";
    assert (t + ";")[..|t|] == t;
    ScanConcat(Outside, t, ";", 1);
    TrimmedLength(t);
  }

  lemma {:induction false} LastLineIsNotEmpty(t: Text, i: nat)
    requires IsLineStart(t, i) && t != [] && BlankTo(t, |t|) == 0
    ensures i < |t|
  {
  }

  lemma {:induction false} GatheredLast(t: Text, i: nat)
    requires IsLineStart(t, i) && i > 0
    ensures t[..i - 1] + "\n" + (t[i..] + ";") == t + ";"
  {
  }

  /** The last line, if it hands on `t`, is kept as it is. */
  lemma {:induction false} LastLineWhole(t: Text, i: nat)
    requires IsLineStart(t, i) && i != 1 && LineEnd(t, i) == |t|
    requires Feed(Split(Gathered(t, i), []), Given(t, i)) == Split([], [t])
    ensures Settle([], t + ";") == Split([], [t])
    ensures !StartsInLiteral(t, i) ==> BlankFrom(t[i..] + ";", 0) == 0 && !StartsComment(t[i..] + ";")
  {
    var given := t[i..] + ";";
    if i > 0 {
      GatheredLast(t, i);
    } else {
      assert given == t + ";";
    }
    if !StartsInLiteral(t, i) {
      var kept := Trim(given);
      TrimmedLength(given);
      SettleHandsOn(if i == 0 then kept else t[..i - 1] + "\n" + kept, t);
      assert |kept| == |given|;
    }
  }

  /** The last line, if it hands on `t`, is canonical. */
  lemma {:induction false} LastLineHandsOn(t: Text, i: nat)
    requires IsLineStart(t, i) && i != 1 && LineEnd(t, i) == |t|
    requires Feed(Split(Gathered(t, i), []), Given(t, i)) == Split([], [t])
    ensures IsCanonicalLine(t, i) && !Open(t) && BlankTo(t, |t|) == 0
  {
    LastLineWhole(t, i);
    SettleHandsOn(t + ";", t);
    SemicolonHandsOn(t);
    LastLineIsNotEmpty(t, i);
    assert t[i..|t|] == t[i..];
    SemicolonIsPlain(t[i..]);
  }

  lemma {:induction false} CanonicalFold(f: (Split, Text) -> Split, t: Text, i: nat)
    requires i <= |t| && LineEnd(t, i) < |t|
    requires f(Split(Gathered(t, i), []), Given(t, i)) == Split(t[..LineEnd(t, i)], [])
    ensures FoldGiven(f, Split(Gathered(t, i), []), t, i) ==
            FoldGiven(f, Split(Gathered(t, LineEnd(t, i) + 1), []), t, LineEnd(t, i) + 1)
  {
    assert Gathered(t, LineEnd(t, i) + 1) == t[..LineEnd(t, i)];
  }

  lemma {:induction false} NoLineStartWithin(t: Text, i: nat, j: nat)
    requires i <= |t| && IsLineStart(t, j) && i < j
    ensures LineEnd(t, i) < j
  {
    LineEndIsFirst(t, i);
  }

  lemma {:induction false} LineStartsFrom(t: Text, i: nat)
    requires IsLineStart(t, i) && IsCanonicalLine(t, i)
    requires LineEnd(t, i) == |t| || IsCanonicalFrom(t, LineEnd(t, i) + 1)
    ensures IsCanonicalFrom(t, i)
  {
    forall j | i <= j <= |t| && IsLineStart(t, j) ensures IsCanonicalLine(t, j) {
      if i < j {
        NoLineStartWithin(t, i, j);
      }
    }
  }

  /** `f` keeps a canonical line and no statement with another. */
  ghost predicate DiscernsLine(f: (Split, Text) -> Split, t: Text, i: nat, next: Split)
    requires IsLineStart(t, i)
  {
    next == f(Split(Gathered(t, i), []), Given(t, i)) ==>
      if LineEnd(t, i) == |t| then
        next == Split([], [t]) ==> IsCanonicalLine(t, i) && !Open(t) && BlankTo(t, |t|) == 0
      else if IsCanonicalLine(t, i) then next == Split(t[..LineEnd(t, i)], [])
      else IsShort(t, LineEnd(t, i) + 1, next)
  }

  ghost predicate Discerns(f: (Split, Text) -> Split, t: Text) {
    forall i, next :: IsLineStart(t, i) && i != 1 ==> DiscernsLine(f, t, i, next)
  }

  lemma {:induction false} FeedDiscerns(t: Text)
    ensures Discerns(Feed, t)
  {
    forall i, next | IsLineStart(t, i) && i != 1 ensures DiscernsLine(Feed, t, i, next) {
      if next == Feed(Split(Gathered(t, i), []), Given(t, i)) {
        if LineEnd(t, i) < |t| {
          if IsCanonicalLine(t, i) {
            CanonicalLineIsKept(t, i, []);
          } else {
            OtherLineLoses(t, i);
          }
        } else if next == Split([], [t]) {
          LastLineHandsOn(t, i);
        }
      }
    }
  }

  lemma {:induction false} OnlyCanonicalFrom(f: (Split, Text) -> Split, t: Text, i: nat)
    requires Discerns(f, t) && KeepsShort(f, t)
    requires IsLineStart(t, i) && i != 1
    requires FoldGiven(f, Split(Gathered(t, i), []), t, i) == Split([], [t])
    ensures IsCanonicalFrom(t, i) && !Open(t) && BlankTo(t, |t|) == 0
    decreases |t| - i
  {
    assert DiscernsLine(f, t, i, f(Split(Gathered(t, i), []), Given(t, i)));
    if LineEnd(t, i) < |t| {
      if IsCanonicalLine(t, i) {
        CanonicalFold(f, t, i);
        NextLineStart(t, i);
        assert LineEnd(t, i) > 0;
        OnlyCanonicalFrom(f, t, LineEnd(t, i) + 1);
      } else {
        LostForGood(f, t, i, Split(Gathered(t, i), []));
      }
    }
    LineStartsFrom(t, i);
  }

  /** Exactly the canonical statements survive being written out and split. */
  lemma {:induction false} ComesBackExactly(t: Text)
    ensures ComesBack(t) <==> IsCanonical(t)
  {
    assert forall k :: 0 <= k < |t| + 2 ==> UnitIsWritten(Printed(t), t, 0, k);
    FoldWritten(Feed, START, Printed(t), t, 0);
    if IsCanonical(t) {
      CanonicalComesBack(t, []);
      assert [] + [t] == [t];
    }
    if ComesBack(t) {
      FeedDiscerns(t);
      FeedKeepsAllShort(t);
      OnlyCanonicalFrom(Feed, t, 0);
    }
  }

  /** A statement with a blank at the end of an inner line does not. */
  lemma {:induction false} NotEveryStatementComesBack()
    ensures !ComesBack("a \nb")
  {
    var t := "a \nb";
    ComesBackExactly(t);
    assert LineEnd(t, 2) == 2 && LineEnd(t, 1) == 2 && LineEnd(t, 0) == 2;
    assert t[0..2] == "a " && BlankTo("a ", 2) == 1;
    assert IsLineStart(t, 0) && !IsCanonicalLine(t, 0);
  }
}
