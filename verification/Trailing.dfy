/** A file whose last statement has no semicolon and no line break behind it. */
module Trailing {
  import opened Texts
  import opened Splitter
  import opened Printing

  // ── The lines in front of it ──────────────────────────────────────────

  /** `a` is made of whole lines, and `text` goes on behind it. */
  ghost predicate IsFront(text: Text, a: Text) {
    && |a| <= |text| && (a != [] ==> a[|a| - 1] == '\n')
    && forall k :: 0 <= k < |a| ==> text[k] == a[k]
  }

  lemma {:induction false} FrontLineEnd(text: Text, a: Text, i: nat)
    requires IsFront(text, a) && i < |a|
    ensures LineEnd(text, i) == LineEnd(a, i) < |a|
    decreases |a| - i
  {
    assert text[i] == a[i];
    if a[i] != '\n' {
      FrontLineEnd(text, a, i + 1);
    }
  }

  lemma {:induction false} FrontLine(text: Text, a: Text, i: nat)
    requires IsFront(text, a) && i < |a|
    ensures LineAt(text, i) == LineAt(a, i) && LineAfter(text, i) == LineAfter(a, i)
  {
    FrontLineEnd(text, a, i);
    var e := LineEnd(a, i);
    assert i < e ==> text[e - 1] == a[e - 1];
  }

  lemma {:induction false} FoldFront<S>(f: (S, Text) -> S, st: S, text: Text, a: Text, i: nat)
    requires IsFront(text, a) && i <= |a|
    ensures FoldLines(f, st, text, i) == FoldLines(f, FoldLines(f, st, a, i), text, |a|)
    decreases |a| - i
  {
    if i < |a| {
      FrontLine(text, a, i);
      FoldFront(f, f(st, LineAt(a, i)), text, a, LineAfter(a, i));
    }
  }

  lemma {:induction false} PrintIsLines(stmts: seq<Text>)
    ensures Print(stmts) != [] ==> Print(stmts)[|Print(stmts)| - 1] == '\n'
  {
    if stmts != [] {
      var (front, last) := (PrintUpTo(stmts, |stmts| - 1), Printed(stmts[|stmts| - 1]));
      assert Print(stmts) == front + last && last[|last| - 1] == '\n';
    }
  }

  // ── The lines of the last one ─────────────────────────────────────────

  ghost predicate EndsIn(text: Text, t: Text, o: nat) {
    |text| == o + |t| && forall k :: 0 <= k < |t| ==> text[o + k] == t[k]
  }

  lemma {:induction false} TailLineEnd(text: Text, t: Text, o: nat, i: nat)
    requires EndsIn(text, t, o) && i <= |t|
    ensures LineEnd(text, o + i) == o + LineEnd(t, i)
    decreases |t| - i
  {
    if i < |t| {
      assert text[o + i] == t[i];
      if t[i] != '\n' {
        TailLineEnd(text, t, o, i + 1);
      }
    }
  }

  lemma {:induction false} TailLine(text: Text, t: Text, o: nat, i: nat)
    requires EndsIn(text, t, o) && i < |t|
    ensures LineAt(text, o + i) == LineAt(t, i) && LineAfter(text, o + i) == o + LineAfter(t, i)
  {
    TailLineEnd(text, t, o, i);
    var e := LineEnd(t, i);
    assert i < e ==> text[o + e - 1] == t[e - 1];
  }

  lemma {:induction false} FoldTail<S>(f: (S, Text) -> S, st: S, text: Text, t: Text, o: nat, i: nat)
    requires EndsIn(text, t, o) && i <= |t|
    ensures FoldLines(f, st, text, o + i) == FoldLines(f, st, t, i)
    decreases |t| - i
  {
    if i < |t| {
      TailLine(text, t, o, i);
      FoldTail(f, f(st, LineAt(t, i)), text, t, o, LineAfter(t, i));
    }
  }

  // ── What becomes of it ────────────────────────────────────────────────

  lemma {:induction false} LastLineSettles(t: Text, i: nat, out: seq<Text>)
    requires IsLineStart(t, i) && IsCanonicalLine(t, i) && i < |t| && LineEnd(t, i) == |t|
    requires i != 1 && BlankTo(t, |t|) == 0
    ensures Feed(Split(Gathered(t, i), out), LineAt(t, i)) == Settle(out, t)
  {
    var line := t[i..];
    assert LineAt(t, i) == line;
    if i > 0 {
      assert t[..i - 1] + "\n" + line == t;
    } else {
      assert line == t;
    }
    if !StartsInLiteral(t, i) {
      assert t[i..|t|] == line;
      NothingToTrim(line);
    }
  }

  /** `f` keeps every line of `t` but the last, and settles with that. */
  ghost predicate SettlesAtEnd(f: (Split, Text) -> Split, t: Text, out: seq<Text>) {
    forall i: nat :: IsLineStart(t, i) && i != 1 && i < |t| ==> SettlesAt(f, t, i, out)
  }

  predicate SettlesAt(f: (Split, Text) -> Split, t: Text, i: nat, out: seq<Text>)
    requires i < |t|
  {
    f(Split(Gathered(t, i), out), LineAt(t, i)) ==
    if LineEnd(t, i) < |t| then Split(t[..LineEnd(t, i)], out) else Settle(out, t)
  }

  lemma {:induction false} CanonicalSettles(t: Text, out: seq<Text>)
    requires IsCanonical(t)
    ensures SettlesAtEnd(Feed, t, out) && LineEnd(t, 0) > 0
  {
    assert IsLineStart(t, 0) && IsCanonicalLine(t, 0);
    forall i: nat | IsLineStart(t, i) && i != 1 && i < |t| ensures SettlesAt(Feed, t, i, out) {
      assert IsCanonicalLine(t, i);
      if LineEnd(t, i) < |t| {
        CanonicalLineIsKept(t, i, out);
      } else {
        LastLineSettles(t, i, out);
      }
    }
  }

  lemma {:induction false} NotTheLast(t: Text, i: nat)
    requires i < |t| && t[|t| - 1] != '\n' && LineEnd(t, i) < |t|
    ensures LineEnd(t, i) + 1 < |t| && IsLineStart(t, LineEnd(t, i) + 1)
  {
    LineEndIsFirst(t, i);
  }

  lemma {:induction false} OneMoreLine(f: (Split, Text) -> Split, t: Text, i: nat, out: seq<Text>)
    requires SettlesAtEnd(f, t, out) && IsLineStart(t, i) && i != 1 && i < |t| && t[|t| - 1] != '\n'
    ensures var e := LineEnd(t, i);
      if e < |t| then
        && LineAfter(t, i) == e + 1
        && f(Split(Gathered(t, i), out), LineAt(t, i)) == Split(Gathered(t, e + 1), out)
      else LineAfter(t, i) == |t| && f(Split(Gathered(t, i), out), LineAt(t, i)) == Settle(out, t)
  {
    assert SettlesAt(f, t, i, out);
  }

  lemma {:induction false} FoldSettles(f: (Split, Text) -> Split, t: Text, i: nat, out: seq<Text>)
    requires SettlesAtEnd(f, t, out) && IsLineStart(t, i) && i != 1 && i < |t| && LineEnd(t, 0) > 0
    requires t[|t| - 1] != '\n'
    ensures FoldLines(f, Split(Gathered(t, i), out), t, i) == Settle(out, t)
    decreases |t| - i
  {
    var e := LineEnd(t, i);
    OneMoreLine(f, t, i, out);
    if e < |t| {
      NotTheLast(t, i);
      FoldSettles(f, t, e + 1, out);
    }
  }
  lemma {:induction false} CanonicalEnds(t: Text)
    requires IsCanonical(t)
    ensures t != [] && t[|t| - 1] != '\n' && Trim(t) == t
  {
    assert IsLineStart(t, 0) && IsCanonicalLine(t, 0);
    var e := LineEnd(t, 0);
    assert BlankFrom(t[0..e], 0) == 0;
    FirstLineTells(t, e);
    NothingToTrim(t);
  }

  lemma {:induction false} FirstLineTells(t: Text, e: nat)
    requires e == LineEnd(t, 0) && e > 0 && BlankFrom(t[0..e], 0) == 0
    ensures BlankFrom(t, 0) == 0
  {
    LineEndIsFirst(t, 0);
  }

  lemma {:induction false} LastIsSettled(stmts: seq<Text>, last: Text)
    requires (forall j :: 0 <= j < |stmts| ==> IsCanonical(stmts[j])) && IsCanonical(last)
    ensures SplitText(Print(stmts) + last) == Settle(stmts, last)
  {
    var (text, o) := (Print(stmts) + last, |Print(stmts)|);
    SplitUndoesPrint(stmts);
    PrintIsLines(stmts);
    FoldFront(Feed, START, text, Print(stmts), 0);
    FoldTail(Feed, Split([], stmts), text, last, o, 0);
    CanonicalSettles(last, stmts);
    CanonicalEnds(last);
    FoldSettles(Feed, last, 0, stmts);
  }

  lemma {:induction false} UnsettledIsKept(stmts: seq<Text>, last: Text)
    requires last != [] && Trim(last) == last
    ensures var st := Settle(stmts, last);
      var all := if Trim(st.current) == [] then st.out else st.out + [Trim(st.current)];
      all == stmts + [last] <==> !IsTerminated(last)
  {
    if IsTerminated(last) {
      HandedOnIsShorter(last);
      assert Trim([]) == [];
      var stmt := TrimTrailingSemicolon(last);
      assert (stmts + [stmt])[|stmts|] == stmt && (stmts + [last])[|stmts|] == last;
    }
  }

  /** A statement at the very end comes back as it is if and only if it does not itself
      end in a semicolon, and those in front of it come back in any case. */
  lemma {:induction false} TrailingComesBackExactly(stmts: seq<Text>, last: Text)
    requires (forall j :: 0 <= j < |stmts| ==> IsCanonical(stmts[j])) && IsCanonical(last)
    ensures Statements(Print(stmts) + last) == stmts + [last] <==> !IsTerminated(last)
    ensures |Statements(Print(stmts) + last)| >= |stmts| && Statements(Print(stmts) + last)[..|stmts|] == stmts
  {
    LastIsSettled(stmts, last);
    CanonicalEnds(last);
    UnsettledIsKept(stmts, last);
  }
}
