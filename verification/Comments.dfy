/** Block comments (`strip_block_comments`). A quote inside a comment does not
    open a literal, and a comment mark inside a literal does not open a comment,
    so the reference is the literal automaton extended with comment states. */
module Comments {
  import opened Texts
  import opened Lexer

  // `Opening` is before the star of an opening mark, `Shutting` before the slash
  // of a closing one.
  datatype Scan =
    | Lexing(st: Lex)
    | Opening
    | Commented
    | Shutting

  predicate StartsComment(s: Text, st: Lex, i: nat)
    requires i < |s|
  {
    (st.Code? || st.Closing?) && s[i] == '/' && i + 1 < |s| && s[i + 1] == '*'
  }

  function ScanAt(s: Text, i: nat): Scan
    requires i <= |s|
  {
    if i == 0 then Lexing(Code)
    else
      match ScanAt(s, i - 1)
      case Lexing(st) =>
        if StartsComment(s, st, i - 1) then Opening else Lexing(Next(st, s[i - 1]))
      case Opening => Commented
      case Commented =>
        if s[i - 1] == '*' && i < |s| && s[i] == '/' then Shutting else Commented
      case Shutting => Lexing(Code)
  }

  /** Unit `i` is part of a block comment. */
  predicate InComment(s: Text, i: nat)
    requires i < |s|
  {
    var c := ScanAt(s, i);
    !c.Lexing? || StartsComment(s, c.st, i)
  }

  function StripUpTo(s: Text, i: nat): (r: Text)
    requires i <= |s|
    ensures |r| == i
    ensures forall k :: 0 <= k < i ==> r[k] == if InComment(s, k) then ' ' else s[k]
  {
    if i == 0 then []
    else StripUpTo(s, i - 1) + [if InComment(s, i - 1) then ' ' else s[i - 1]]
  }

  /** The text with its comments blanked; `None` if the last one never closes. */
  function Strip(s: Text): Option<Text> {
    if ScanAt(s, |s|).Lexing? then Some(StripUpTo(s, |s|)) else None
  }

  /** The literals of `s` that do not stand inside a comment. */
  function LiteralsOutsideComments(s: Text, i: nat): seq<Mark>
    requires i <= |s|
  {
    if i == 0 then []
    else
      LiteralsOutsideComments(s, i - 1)
      + if InComment(s, i - 1) then [] else MarkOf(ScanAt(s, i - 1).st, s[i - 1])
  }

  // No opening comment mark outside literals.
  ghost predicate IsCommentFree(s: Text) {
    forall i :: 0 <= i < |s| - 1 ==> !(Mask(s)[i] == '/' && Mask(s)[i + 1] == '*')
  }

  lemma {:induction false} ScanOfStripped(s: Text, i: nat)
    requires i <= |s|
    ensures StateAt(StripUpTo(s, |s|), i) == (var c := ScanAt(s, i); if c.Lexing? then c.st else Code)
    ensures LiteralsUpTo(StripUpTo(s, |s|), i) == LiteralsOutsideComments(s, i)
  {
    if i > 0 {
      ScanOfStripped(s, i - 1);
      var r := StripUpTo(s, |s|);
      assert r[i - 1] == if InComment(s, i - 1) then ' ' else s[i - 1];
    }
  }

  /** On success: same length, comments and only comments blanked, the literals
      outside comments kept, and no comment mark left outside literals. */
  lemma {:induction false} StripIsSafe(s: Text)
    requires Strip(s).Some?
    ensures var r := Strip(s).value;
      && |r| == |s|
      && (forall k :: 0 <= k < |s| ==> r[k] == if InComment(s, k) then ' ' else s[k])
      && Literals(r) == LiteralsOutsideComments(s, |s|)
      && IsCommentFree(r)
  {
    var r := Strip(s).value;
    ScanOfStripped(s, |s|);
    forall i | 0 <= i < |r| - 1
      ensures !(Mask(r)[i] == '/' && Mask(r)[i + 1] == '*')
    {
      ScanOfStripped(s, i);
      ScanOfStripped(s, i + 1);
      assert Mask(r)[i] == MaskAt(r, i) && Mask(r)[i + 1] == MaskAt(r, i + 1);
      assert r[i + 1] == if InComment(s, i + 1) then ' ' else s[i + 1];
    }
  }

  lemma {:induction false} CommentFreeScan(s: Text, i: nat)
    requires IsCommentFree(s) && i <= |s|
    ensures ScanAt(s, i) == Lexing(StateAt(s, i))
    ensures StripUpTo(s, i) == s[..i]
  {
    if i > 0 {
      CommentFreeScan(s, i - 1);
      assert !StartsComment(s, StateAt(s, i - 1), i - 1) by {
        assert i < |s| ==> Mask(s)[i - 1] == MaskAt(s, i - 1) && Mask(s)[i] == MaskAt(s, i);
      }
      assert s[..i] == s[..i - 1] + [s[i - 1]];
    }
  }

  /** Stripping leaves comment-free texts alone, its own results among them. */
  lemma {:induction false} StripIsIdentityOnCommentFree(s: Text)
    ensures IsCommentFree(s) ==> Strip(s) == Some(s)
    ensures Strip(s).Some? ==> Strip(Strip(s).value) == Strip(s)
  {
    if IsCommentFree(s) {
      CommentFreeScan(s, |s|);
      assert s[..|s|] == s;
    }
    if Strip(s).Some? {
      StripIsSafe(s);
      var r := Strip(s).value;
      CommentFreeScan(r, |r|);
      assert r[..|r|] == r;
    }
  }

  // ── The source's loop ─────────────────────────────────────────────────

  predicate IsBetween(s: Text, i: nat)
    requires i <= |s|
  {
    var c := ScanAt(s, i);
    i < |s| ==> c.Lexing? && (c.st.Code? || (c.st.Closing? && s[i] != c.st.q))
  }

  lemma {:induction false} StripOfLiteral(s: Text, start: nat, next: nat, k: nat)
    requires IsLiteralSpan(s, start, next) && IsBetween(s, start) && start < k <= next
    ensures ScanAt(s, k) == Lexing(StateFrom(s, start, k))
    ensures StripUpTo(s, k) == StripUpTo(s, start) + Piece(s, start, k, false)
  {
    if k > start + 1 {
      StripOfLiteral(s, start, next, k - 1);
      assert InLiteral(s, start, k - 1);
    } else {
      assert Piece(s, start, k, false) == Piece(s, start, start, false) + [s[start]];
    }
  }

  lemma {:induction false} ScanOfCode(s: Text, i: nat, e: nat)
    requires i < e <= |s| && IsBetween(s, i) && !IsQuote(s[i])
    requires !StartsComment(s, ScanAt(s, i).st, i)
    requires forall k :: i < k < e ==> IsContinuation(s[k])
    ensures ScanAt(s, e) == Lexing(Code)
    ensures forall k :: i <= k < e ==> !InComment(s, k)
  {
    if e > i + 1 {
      ScanOfCode(s, i, e - 1);
      assert IsContinuation(s[e - 1]);
    }
  }

  lemma {:induction false} StripOfCode(s: Text, i: nat, e: nat)
    requires i <= e <= |s| && forall k :: i <= k < e ==> !InComment(s, k)
    ensures StripUpTo(s, e) == StripUpTo(s, i) + s[i..e]
  {
    var (r, parts) := (StripUpTo(s, e), StripUpTo(s, i) + s[i..e]);
    forall k | 0 <= k < e ensures r[k] == parts[k] {
    }
  }

  lemma {:induction false} StripOfComment(s: Text, i: nat, e: nat)
    requires i <= e <= |s| && forall k :: i <= k < e ==> InComment(s, k)
    ensures StripUpTo(s, e) == StripUpTo(s, i) + Spaces(e - i)
  {
    if i < e {
      StripOfComment(s, i, e - 1);
      assert InComment(s, e - 1);
      assert Spaces(e - i) == Spaces(e - 1 - i) + [' '];
    }
  }

  /** The inner loop: from a comment's start to just after its end. */
  method FindCommentEnd(s: Text, start: nat) returns (next: nat, foundClose: bool)
    requires start < |s| && IsBetween(s, start) && StartsComment(s, ScanAt(s, start).st, start)
    ensures start < next <= |s|
    ensures foundClose ==> ScanAt(s, next) == Lexing(Code)
    ensures foundClose ==> forall k :: start <= k < next ==> InComment(s, k)
    ensures !foundClose ==> !ScanAt(s, |s|).Lexing?
  {
    var i := start + 2;
    assert ScanAt(s, start + 1) == Opening && InComment(s, start) && InComment(s, start + 1);
    while i + 1 < |s|
      invariant start + 2 <= i <= |s| && ScanAt(s, i) == Commented
      invariant forall k :: start <= k < i ==> InComment(s, k)
    {
      if s[i] == '*' && s[i + 1] == '/' {
        assert ScanAt(s, i + 1) == Shutting && InComment(s, i) && InComment(s, i + 1);
        return i + 2, true;
      }
      assert InComment(s, i);
      i := i + 1;
    }
    return i, false;
  }

  /** `strip_block_comments` */
  method StripBlockComments(s: Text) returns (r: Option<Text>)
    ensures r == Strip(s)
  {
    var result := [];
    var i := 0;
    while i < |s|
      invariant i <= |s| && IsBetween(s, i)
      invariant i == |s| ==> ScanAt(s, i).Lexing?
      invariant result == StripUpTo(s, i)
    {
      if IsQuote(s[i]) {
        var next, piece := ScanStringLiteral(s, i, false);
        StripOfLiteral(s, i, next, next);
        result := result + piece;
        i := next;
      } else if i + 1 < |s| && s[i] == '/' && s[i + 1] == '*' {
        var start := i;
        var next, foundClose := FindCommentEnd(s, start);
        if !foundClose {
          return None;
        }
        StripOfComment(s, start, next);
        result := result + Spaces(next - start);
        i := next;
      } else {
        var e := CharEnd(s, i);
        ScanOfCode(s, i, e);
        StripOfCode(s, i, e);
        result := result + s[i..e];
        i := e;
      }
    }
    return Some(result);
  }
}
