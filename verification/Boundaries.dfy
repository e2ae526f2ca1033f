/** A Rust string is valid UTF-8, and slicing it inside a character panics. Every pass of
    the preprocessor turns a well-formed text into a well-formed one, so that what holds
    of the offsets of one pass holds of the next. */
module Boundaries {
  import opened Texts
  import opened Slicing
  import opened Lexer
  import opened Clauses
  import opened Quoting
  import opened Preprocessor
  import Comments

  lemma {:induction false} BeforeContinuation(s: Text, k: nat)
    requires WellFormed(s) && k < |s| && IsContinuation(s[k])
    ensures k > 0 && !IsAscii(s[k - 1])
  {
    assert k > 0;
    assert IsWhole(s, k - 1);
  }

  // ── Comments ──────────────────────────────────────────────────────────

  lemma {:induction false} CommentMarksAreAscii(s: Text, k: nat)
    requires k < |s|
    ensures Comments.ScanAt(s, k).Opening? || Comments.ScanAt(s, k).Shutting? ==> IsAscii(s[k])
  {
  }

  /** A comment begins and ends between characters. */
  lemma {:induction false} SameComment(s: Text, k: nat)
    requires WellFormed(s) && 0 < k < |s| && IsContinuation(s[k])
    ensures Comments.InComment(s, k) == Comments.InComment(s, k - 1)
  {
    BeforeContinuation(s, k);
    CommentMarksAreAscii(s, k - 1);
  }

  lemma {:induction false} CharInOneComment(s: Text, i: nat, k: nat)
    requires WellFormed(s) && i <= k < |s| && forall j :: i < j <= k ==> IsContinuation(s[j])
    ensures Comments.InComment(s, k) == Comments.InComment(s, i)
    decreases k
  {
    if i < k {
      SameComment(s, k);
      CharInOneComment(s, i, k - 1);
    }
  }

  lemma {:induction false} StrippedIsWhole(s: Text, r: Text, i: nat)
    requires WellFormed(s) && r == Comments.StripUpTo(s, |s|) && i < |s|
    ensures IsWhole(r, i)
  {
    var e := i + UnitsOf(r[i]);
    assert IsWhole(s, i);
    if Comments.InComment(s, i) {
      if e < |s| && IsContinuation(s[e]) {
        SameComment(s, e);
      }
    } else if !IsContinuation(r[i]) {
      forall k | i < k < e ensures IsContinuation(r[k]) {
        CharInOneComment(s, i, k);
      }
    }
  }

  lemma {:induction false} StripKeepsWellFormed(s: Text)
    requires WellFormed(s) && Comments.Strip(s).Some?
    ensures WellFormed(Comments.Strip(s).value)
  {
    var r := Comments.StripUpTo(s, |s|);
    forall i | 0 <= i < |r| ensures IsWhole(r, i) {
      StrippedIsWhole(s, r, i);
    }
  }

  // ── Backtick identifiers ──────────────────────────────────────────────

  lemma {:induction false} LiteralEndStops(s: Text, start: nat, k: nat, e: nat)
    requires start < k <= |s| && e == LiteralEnd(s, start, k)
    ensures e == |s| || !InLiteral(s, start, e)
    ensures e > k ==> InLiteral(s, start, e - 1)
    decreases |s| - k
  {
    if k < |s| && InLiteral(s, start, k) {
      LiteralEndStops(s, start, k + 1, e);
    }
  }

  lemma {:induction false} LiteralEndsInAscii(s: Text, start: nat, e: nat)
    requires start < e < |s| && IsQuote(s[start]) && !InLiteral(s, start, e)
    requires e - 1 == start || InLiteral(s, start, e - 1)
    ensures IsAscii(s[e - 1])
  {
    assert StateFrom(s, start, e) == Next(StateFrom(s, start, e - 1), s[e - 1]);
  }

  /** A literal ends between characters. */
  lemma {:induction false} LiteralEndIsBoundary(s: Text, start: nat, e: nat)
    requires WellFormed(s) && start < |s| && IsQuote(s[start]) && e == LiteralEnd(s, start, start + 1)
    ensures IsBoundary(s, e)
  {
    LiteralEndStops(s, start, start + 1, e);
    if e < |s| {
      LiteralEndsInAscii(s, start, e);
      AfterAscii(s, e - 1);
    }
  }

  lemma {:induction false} DoubledOverChar(s: Text, k: nat, e: nat)
    requires k < e <= |s| && s[k] != '"' && forall j :: k < j < e ==> IsContinuation(s[j])
    ensures DoubledUpTo(s, e, '"') == DoubledUpTo(s, k, '"') + s[k..e]
    decreases e
  {
    if e == k + 1 {
      assert s[k..e] == [s[k]];
    } else {
      DoubledOverChar(s, k, e - 1);
      assert s[k..e] == s[k..e - 1] + [s[e - 1]];
    }
  }

  lemma {:induction false} DoubledKeepsWellFormed(s: Text, k: nat)
    requires WellFormed(s) && k <= |s| && IsBoundary(s, k) && WellFormed(DoubledUpTo(s, k, '"'))
    ensures WellFormed(DoubledUpTo(s, |s|, '"'))
    decreases |s| - k
  {
    if k < |s| {
      assert IsWhole(s, k) && !IsContinuation(s[k]);
      var e := k + UnitsOf(s[k]);
      var more := if s[k] == '"' then ['"', '"'] else s[k..e];
      if s[k] == '"' {
        AsciiIsWellFormed(more);
      } else {
        DoubledOverChar(s, k, e);
        SliceIsWellFormed(s, k, e, more);
      }
      assert DoubledUpTo(s, e, '"') == DoubledUpTo(s, k, '"') + more;
      ConcatIsWellFormed(DoubledUpTo(s, k, '"'), more, DoubledUpTo(s, e, '"'));
      DoubledKeepsWellFormed(s, e);
    }
  }

  lemma {:induction false} DelimitedIsWellFormed(s: Text)
    requires WellFormed(s)
    ensures WellFormed(Delimited(s, '"'))
  {
    var d := DoubledUpTo(s, |s|, '"');
    DoubledKeepsWellFormed(s, 0);
    AsciiIsWellFormed(['"']);
    ConcatIsWellFormed(['"'], d, ['"'] + d);
    ConcatIsWellFormed(['"'] + d, ['"'], Delimited(s, '"'));
  }

  /** What is converted at `i`, and where the next token starts. */
  lemma {:induction false} NextToken(s: Text, i: nat) returns (next: nat, piece: Text)
    requires WellFormed(s) && i < |s| && IsBoundary(s, i) && Backticks(s, i).Ok?
    ensures i < next <= |s| && IsBoundary(s, next) && WellFormed(piece)
    ensures Backticks(s, i) == Prepend(piece, Backticks(s, next))
  {
    assert IsWhole(s, i) && !IsContinuation(s[i]);
    if IsQuote(s[i]) {
      next := LiteralEnd(s, i, i + 1);
      LiteralEndIsBoundary(s, i, next);
      piece := s[i..next];
      SliceIsWellFormed(s, i, next, piece);
    } else if s[i] == '`' {
      var close := Find(s, "`", i + 1).value;
      assert s[close + 0] == "`"[0];
      next, piece := close + 1, Delimited(s[i + 1..close], '"');
      AfterAscii(s, i);
      AfterAscii(s, close);
      SliceIsWellFormed(s, i + 1, close, s[i + 1..close]);
      DelimitedIsWellFormed(s[i + 1..close]);
    } else {
      next := i + UnitsOf(s[i]);
      piece := s[i..next];
      BackticksSkipCode(s, i, next);
      SliceIsWellFormed(s, i, next, piece);
    }
  }

  lemma {:induction false} BackticksKeepWellFormed(s: Text, i: nat)
    requires WellFormed(s) && i <= |s| && IsBoundary(s, i) && Backticks(s, i).Ok?
    ensures WellFormed(Backticks(s, i).text)
    decreases |s| - i
  {
    if i < |s| {
      var next, piece := NextToken(s, i);
      BackticksKeepWellFormed(s, next);
      ConcatIsWellFormed(piece, Backticks(s, next).text, Backticks(s, i).text);
    }
  }

  // ── The pipeline ──────────────────────────────────────────────────────

  lemma {:induction false} RemoveKeepsWellFormed(s: Text)
    requires WellFormed(s) && Remove(s).Ok?
    ensures WellFormed(Remove(s).text)
  {
    var hit := FirstWord(UpperMask(s), REMOVE);
    if hit.Some? {
      RemoveAtKeepsWellFormed(s, hit.value);
    }
  }

  /** Valid UTF-8 in, valid UTF-8 out. */
  lemma {:induction false} PreprocessingKeepsWellFormed(input: Text)
    requires WellFormed(input) && CypherToGql(input).Ok?
    ensures WellFormed(CypherToGql(input).text)
  {
    var bare := Comments.Strip(input).value;
    StripKeepsWellFormed(input);
    BackticksKeepWellFormed(bare, 0);
    var ticked := Backticks(bare, 0).text;
    OptionalKeepsWellFormed(ticked);
    RemoveKeepsWellFormed(RewriteOptional(ticked));
    StarKeepsWellFormed(Remove(RewriteOptional(ticked)).text, 0);
  }
}
