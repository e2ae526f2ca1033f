/** The clause rewrites of `preprocessor.rs` that work on a text and its
    upper-cased mask side by side: OPTIONAL MATCH and WITH *. */
module Clauses {
  import opened Texts
  import opened Slicing
  import opened Lexer

  const OPTIONAL := "OPTIONAL"
  const MATCH := "MATCH"
  const WITH := "WITH"

  // ── OPTIONAL MATCH ────────────────────────────────────────────────────

  /** First OPTIONAL MATCH outside literals. */
  function FirstOptional(s: Text): (r: Option<nat>)
    ensures r.Some? ==> OperatorAt(UpperMask(s), OPTIONAL, MATCH, r.value)
  {
    FirstOperator(UpperMask(s), OPTIONAL, MATCH, 0)
  }

  /** `s` without the OPTIONAL at `pos` and the blanks after it. */
  function DropOptional(s: Text, pos: nat): (t: Text)
    requires OperatorAt(UpperMask(s), OPTIONAL, MATCH, pos)
    ensures |t| < |s|
  {
    s[..pos] + s[SkipBlanks(UpperMask(s), pos + |OPTIONAL|)..]
  }

  /** Drop the first OPTIONAL until none is left. */
  function RewriteOptional(s: Text): Text
    decreases |s|
  {
    var pos := FirstOptional(s);
    if pos.None? then s else RewriteOptional(DropOptional(s, pos.value))
  }

  /** Searching MATCH after OPTIONAL finds the one that made the match. */
  lemma {:induction false} MatchFollowsBlanks(u: Text, pos: nat)
    requires OperatorAt(u, OPTIONAL, MATCH, pos)
    ensures Find(u, MATCH, pos + |OPTIONAL|) == Some(SkipBlanks(u, pos + |OPTIONAL|))
  {
    var gap := SkipBlanks(u, pos + |OPTIONAL|);
    var hit := Find(u, MATCH, pos + |OPTIONAL|);
    assert OccursAt(u, MATCH, gap);
    assert u[hit.value + 0] == MATCH[0];
    assert !IsAsciiBlank(u[hit.value]);
  }

  lemma {:induction false} OptionalIsCode(s: Text, pos: nat, gap: nat)
    requires OperatorAt(UpperMask(s), OPTIONAL, MATCH, pos)
    requires gap == SkipBlanks(UpperMask(s), pos + |OPTIONAL|)
    ensures gap < |s|
    ensures forall k :: pos <= k <= gap ==> IsCodeAt(s, k)
  {
    var u := UpperMask(s);
    assert u[gap + 0] == MATCH[0];
    forall k | pos <= k <= gap
      ensures !IsQuote(Mask(s)[k])
    {
      assert u[k] == UpperChar(Mask(s)[k]);
      if k < pos + |OPTIONAL| {
        assert u[pos + (k - pos)] == OPTIONAL[k - pos];
      }
    }
    assert u[pos + 0] == OPTIONAL[0];
    assert Mask(s)[pos] != ' ';
    VisibleRun(s, pos, gap + 1);
  }

  lemma {:induction false} CutCode(s: Text, p: nat, e: nat)
    requires p < e < |s| && forall k :: p <= k <= e ==> IsCodeAt(s, k)
    ensures UpperMask(s[..p] + s[e..]) == UpperMask(s)[..p] + UpperMask(s)[e..]
    ensures Literals(s[..p] + s[e..]) == Literals(s)
  {
    var t := s[..p] + s[e..];
    assert IsSplice(s, p, e, [], t);
    SpliceCode(s, p, e, [], t);
    UpperOfCut(Mask(s), p, e, Mask(t));
  }

  lemma {:induction false} UpperOfCut(m: Text, p: nat, e: nat, n: Text)
    requires p <= e <= |m| && n == m[..p] + [] + m[e..]
    ensures Upper(n) == Upper(m)[..p] + Upper(m)[e..]
  {
    var v, w := Upper(n), Upper(m)[..p] + Upper(m)[e..];
    forall k | 0 <= k < |n|
      ensures v[k] == w[k]
    {
      assert n[k] == if k < p then m[k] else m[k - p + e];
    }
  }

  /** One step edits text and mask alike, and no literal. */
  lemma {:induction false} DropOptionalStep(s: Text, pos: nat)
    requires OperatorAt(UpperMask(s), OPTIONAL, MATCH, pos)
    ensures UpperMask(DropOptional(s, pos)) ==
            UpperMask(s)[..pos] + UpperMask(s)[SkipBlanks(UpperMask(s), pos + |OPTIONAL|)..]
    ensures Literals(DropOptional(s, pos)) == Literals(s)
  {
    var gap := SkipBlanks(UpperMask(s), pos + |OPTIONAL|);
    OptionalIsCode(s, pos, gap);
    CutCode(s, pos, gap);
  }

  /** Dropping an OPTIONAL slices at boundaries. */
  lemma {:induction false} DropOptionalSlices(s: Text, pos: nat, gap: nat)
    requires WellFormed(s) && OperatorAt(UpperMask(s), OPTIONAL, MATCH, pos)
    requires gap == SkipBlanks(UpperMask(s), pos + |OPTIONAL|)
    ensures IsBoundary(s, pos) && IsBoundary(s, gap) && WellFormed(DropOptional(s, pos))
  {
    var u := UpperMask(s);
    assert u[pos + 0] == OPTIONAL[0] && u[gap + 0] == MATCH[0];
    ShownIsAscii(s, pos);
    ShownIsAscii(s, gap);
    SliceIsWellFormed(s, 0, pos, s[..pos]);
    SliceIsWellFormed(s, gap, |s|, s[gap..]);
    ConcatIsWellFormed(s[..pos], s[gap..], DropOptional(s, pos));
  }

  lemma {:induction false} OptionalKeepsWellFormed(s: Text)
    requires WellFormed(s)
    ensures WellFormed(RewriteOptional(s))
    decreases |s|
  {
    var hit := FirstOptional(s);
    if hit.Some? {
      DropOptionalSlices(s, hit.value, SkipBlanks(UpperMask(s), hit.value + |OPTIONAL|));
      OptionalKeepsWellFormed(DropOptional(s, hit.value));
    }
  }

  /** No OPTIONAL MATCH outside literals survives, and every literal does. */
  lemma {:induction false} OptionalIsGone(s: Text)
    ensures FirstOptional(RewriteOptional(s)).None?
    ensures Literals(RewriteOptional(s)) == Literals(s)
    ensures |RewriteOptional(s)| <= |s|
    decreases |s|
  {
    var pos := FirstOptional(s);
    if pos.Some? {
      DropOptionalStep(s, pos.value);
      OptionalIsGone(DropOptional(s, pos.value));
    }
  }

  lemma {:induction false} RewriteOptionalIsIdempotent(s: Text)
    ensures RewriteOptional(RewriteOptional(s)) == RewriteOptional(s)
  {
    OptionalIsGone(s);
  }

  /** `rewrite_optional_match`: text and mask spliced in step, never re-masked. */
  method RewriteOptionalMatch(input: Text) returns (result: Text)
    ensures result == RewriteOptional(input)
    ensures FirstOptional(result).None?
    ensures Literals(result) == Literals(input)
    ensures WellFormed(input) ==> WellFormed(result)
  {
    var masked := BlankStringLiterals(input);
    var resultUpper := Upper(masked);
    result := input;
    while true
      invariant resultUpper == UpperMask(result)
      invariant RewriteOptional(result) == RewriteOptional(input)
      invariant Literals(result) == Literals(input)
      invariant WellFormed(input) ==> WellFormed(result)
      decreases |result|
    {
      var hit := FindCypherOperator(resultUpper, OPTIONAL, MATCH);
      if hit.None? {
        return;
      }
      var pos := hit.value;
      var afterOptional := pos + |OPTIONAL|;
      MatchFollowsBlanks(resultUpper, pos);
      DropOptionalStep(result, pos);
      var found := Find(resultUpper, MATCH, afterOptional);
      var matchStart := if found.Some? then found.value else afterOptional;
      if WellFormed(input) {
        DropOptionalSlices(result, pos, matchStart);
        assert IsBoundary(result, pos) && IsBoundary(result, matchStart);
      }
      result := result[..pos] + result[matchStart..];
      resultUpper := resultUpper[..pos] + resultUpper[matchStart..];
    }
  }

  // ── WITH * ────────────────────────────────────────────────────────────

  /** `is_standalone_with`: not the tail of STARTS WITH or ENDS WITH. */
  predicate IsStandaloneWith(u: Text, p: nat)
    requires p <= |u|
  {
    var before := TrimBack(u, p);
    !OccursBefore(u, "STARTS", before) && !OccursBefore(u, "ENDS", before)
  }

  /** Whitespace and then `*` follow the WITH at `p`, which is standalone. */
  predicate IsStarred(u: Text, p: nat)
    requires p + |WITH| <= |u|
  {
    var star := TrimForward(u, p + |WITH|);
    IsStandaloneWith(u, p) && star < |u| && u[star] == '*'
  }

  /** A starred whole-word WITH at `p`. */
  predicate HasStarAt(u: Text, p: nat) {
    WordAt(u, WITH, p) && IsStarred(u, p)
  }

  predicate IsBareAt(u: Text, e: nat) {
    e >= |u| || !IsAlnum(u[e])
  }

  /** … whose `*` ends the clause: `[p, e)` is what the rewrite blanks. */
  predicate IsStarSpan(u: Text, p: nat, e: nat) {
    HasStarAt(u, p) && e == TrimForward(u, p + |WITH|) + 1 && IsBareAt(u, e)
  }

  function BlankSpan(s: Text, p: nat, e: nat): (t: Text)
    requires p <= e <= |s|
    ensures |t| == |s|
  {
    s[..p] + Spaces(e - p) + s[e..]
  }

  /** What one turn of the loop does, decided on the mask `u` alone: stop, skip
      past a WITH, or blank a span. */
  datatype Turn = Stop | Skip(after: nat) | Blank(p: nat, e: nat)

  /** The decision about a WITH that was found at `hit`. */
  function TurnAt(u: Text, hit: Option<nat>): (turn: Turn)
    requires hit.Some? ==> hit.value + |WITH| <= |u|
    ensures turn.Skip? ==> hit.Some? && hit.value < turn.after <= |u|
    ensures turn.Blank? ==> hit == Some(turn.p) && turn.p < turn.e <= |u|
  {
    if hit.None? then Stop
    else
      var p := hit.value;
      var e := TrimForward(u, p + |WITH|) + 1;
      if IsStarred(u, p) && IsBareAt(u, e) then Blank(p, e) else Skip(p + |WITH|)
  }

  function NextTurn(u: Text, from: nat): (turn: Turn)
    ensures turn.Skip? ==> from < turn.after <= |u|
    ensures turn.Blank? ==> from <= turn.p < turn.e <= |u|
  {
    if from >= |u| then Stop else TurnAt(u, FirstWordIn(u, from, |u|, WITH, from))
  }

  /** The loop from offset `from` on, over a text and its mask. */
  function RewriteStarFrom(s: Text, u: Text, from: nat): (r: Text)
    requires |s| == |u|
    ensures |r| == |s|
    decreases |u| - from
  {
    match NextTurn(u, from)
    case Stop => s
    case Skip(after) => RewriteStarFrom(s, u, after)
    case Blank(p, e) => RewriteStarFrom(BlankSpan(s, p, e), BlankSpan(u, p, e), e)
  }

  function RewriteStar(s: Text): Text {
    RewriteStarFrom(s, UpperMask(s), 0)
  }

  /** No word straddles `from`, so searching the slice from there is safe. */
  predicate IsWordEdge(u: Text, from: nat) {
    from == 0 || from >= |u| || !IsAlnum(u[from - 1]) || !IsAlnum(u[from])
  }

  /** A hit in the slice is a hit in the text. */
  lemma {:induction false} SliceHit(u: Text, from: nat, p: nat)
    requires from < |u| && IsWordEdge(u, from) && WordIn(u, from, |u|, WITH, p)
    ensures WordAt(u, WITH, p)
    ensures IsWordEdge(u, p + |WITH|)
  {
    assert u[p + 0] == WITH[0];
  }

  lemma {:induction false} TurnIsSound(u: Text, from: nat)
    requires IsWordEdge(u, from)
    ensures var turn := NextTurn(u, from);
      match turn
      case Stop => true
      case Skip(after) => IsWordEdge(u, after)
      case Blank(p, e) => IsStarSpan(u, p, e) && HasStarAt(u, p)
  {
    if from < |u| {
      var hit := FirstWordIn(u, from, |u|, WITH, from);
      if hit.Some? {
        SliceHit(u, from, hit.value);
      }
    }
  }

  lemma {:induction false} StarSpanUnits(u: Text, p: nat, e: nat)
    requires IsStarSpan(u, p, e)
    ensures p + |WITH| < e <= |u| && u[p] == 'W' && u[e - 1] == '*'
    ensures forall k :: p <= k < e ==> !IsQuote(u[k])
  {
    TrimForwardSkipsBlanks(u, p + |WITH|);
    forall k | p <= k < e
      ensures !IsQuote(u[k])
    {
      if k < p + |WITH| {
        assert u[p + (k - p)] == WITH[k - p];
      }
    }
    assert u[p + 0] == WITH[0];
  }

  lemma {:induction false} StarSpanIsCode(s: Text, p: nat, e: nat)
    requires IsStarSpan(UpperMask(s), p, e)
    ensures p < e <= |s|
    ensures forall k :: p <= k < e ==> IsCodeAt(s, k)
  {
    StarSpanUnits(UpperMask(s), p, e);
    forall k | p <= k < e
      ensures !IsQuote(Mask(s)[k])
    {
      assert UpperMask(s)[k] == UpperChar(Mask(s)[k]);
    }
    assert Mask(s)[p] != ' ';
    VisibleRun(s, p, e);
  }

  lemma {:induction false} BlankCode(s: Text, p: nat, e: nat)
    requires p < e <= |s| && forall k :: p <= k < e ==> IsCodeAt(s, k)
    ensures UpperMask(BlankSpan(s, p, e)) == BlankSpan(UpperMask(s), p, e)
    ensures Literals(BlankSpan(s, p, e)) == Literals(s)
  {
    var (t, m) := (BlankSpan(s, p, e), Spaces(e - p));
    SpliceOfBlanks(s, p, e, m, t);
    SpliceCode(s, p, e, m, t);
    UpperOfBlanked(Mask(s), p, e, Mask(t));
  }

  lemma {:induction false} SpliceOfBlanks(s: Text, p: nat, e: nat, m: Text, t: Text)
    requires p < e <= |s| && (forall k :: p <= k < e ==> IsCodeAt(s, k))
    requires m == Spaces(e - p) && t == BlankSpan(s, p, e)
    ensures IsSplice(s, p, e, m, t)
  {
  }

  lemma {:induction false} UpperOfBlanked(m: Text, p: nat, e: nat, n: Text)
    requires p < e <= |m| && n == m[..p] + Spaces(e - p) + m[e..]
    ensures Upper(n) == BlankSpan(Upper(m), p, e)
  {
    var (v, w) := (Upper(n), BlankSpan(Upper(m), p, e));
    forall k | 0 <= k < |n| ensures v[k] == w[k] {
      assert n[k] == if p <= k < e then ' ' else m[k];
    }
  }

  /** Blanking a span does the same to the mask and touches no literal. */
  lemma {:induction false} BlankSpanStep(s: Text, p: nat, e: nat)
    requires IsStarSpan(UpperMask(s), p, e)
    ensures p < e <= |s|
    ensures UpperMask(BlankSpan(s, p, e)) == BlankSpan(UpperMask(s), p, e)
    ensures Literals(BlankSpan(s, p, e)) == Literals(s)
  {
    StarSpanIsCode(s, p, e);
    BlankCode(s, p, e);
  }

  /** Blanking a span slices at boundaries. */
  lemma {:induction false} BlankSpanSlices(s: Text, p: nat, e: nat)
    requires WellFormed(s) && IsStarSpan(UpperMask(s), p, e)
    ensures p < e <= |s| && IsBoundary(s, p) && IsBoundary(s, e) && WellFormed(BlankSpan(s, p, e))
  {
    StarSpanUnits(UpperMask(s), p, e);
    ShownIsAscii(s, p);
    ShownIsAscii(s, e - 1);
    AfterAscii(s, e - 1);
    BlankedIsWellFormed(s, p, e);
  }

  lemma {:induction false} BlankedIsWellFormed(s: Text, p: nat, e: nat)
    requires WellFormed(s) && p <= e <= |s| && IsBoundary(s, p) && IsBoundary(s, e)
    ensures WellFormed(BlankSpan(s, p, e))
  {
    var (front, blank, back) := (s[..p], Spaces(e - p), s[e..]);
    SliceIsWellFormed(s, 0, p, front);
    SliceIsWellFormed(s, e, |s|, back);
    AsciiIsWellFormed(blank);
    ConcatIsWellFormed(front, blank, front + blank);
    ConcatIsWellFormed(front + blank, back, BlankSpan(s, p, e));
  }

  lemma {:induction false} StarKeepsWellFormed(s: Text, from: nat)
    requires WellFormed(s) && IsWordEdge(UpperMask(s), from)
    ensures WellFormed(RewriteStarFrom(s, UpperMask(s), from))
    decreases |s| - from
  {
    var u := UpperMask(s);
    TurnIsSound(u, from);
    match NextTurn(u, from)
    case Stop =>
    case Skip(after) =>
      StarKeepsWellFormed(s, after);
    case Blank(p, e) =>
      BlankSpanStep(s, p, e);
      BlankSpanSlices(s, p, e);
      BlankIsEdge(u, p, e);
      StarKeepsWellFormed(BlankSpan(s, p, e), e);
  }

  /** Trimming back from `n` stops at the same place in two texts that agree
      from a little before that place. */
  lemma {:induction false} SameTrim(u: Text, v: Text, n: nat)
    requires n <= |u| == |v|
    requires var j := TrimBack(u, n); forall k :: j - 3 <= k < n && 0 <= k ==> u[k] == v[k]
    ensures TrimBack(v, n) == TrimBack(u, n)
    decreases n
  {
    var k := BlankTo(u, n);
    assert TrimBack(u, n) <= n - k;
    assert BlankTo(v, n) == k;
    if k > 0 {
      SameTrim(u, v, n - k);
    }
  }

  /** A word before the blanks before `q` is still there once `[p, e)`, which ends
      in `*`, has been blanked. */
  lemma {:induction false} PrecedingWordSurvives(u: Text, v: Text, p: nat, e: nat, q: nat, w: Text)
    requires p < e <= q <= |u| == |v| && u[e - 1] == '*'
    requires forall k :: 0 <= k < |u| && !(p <= k < e) ==> u[k] == v[k]
    requires |w| >= 4 && '*' !in w && OccursBefore(u, w, TrimBack(u, q))
    ensures OccursBefore(v, w, TrimBack(v, q))
  {
    var j := TrimBack(u, q);
    TrimBackSkipsBlanks(u, q);
    forall k | j - |w| <= k < j
      ensures u[k] != '*'
    {
      assert u[(j - |w|) + (k - (j - |w|))] == w[k - (j - |w|)];
    }
    assert e <= j - |w|;
    SameTrim(u, v, q);
  }

  /** Whether a later WITH is standalone does not depend on an earlier span
      having been blanked. */
  lemma {:induction false} StandaloneSurvives(u: Text, p: nat, e: nat, q: nat)
    requires p < e <= q <= |u| && u[e - 1] == '*'
    requires IsStandaloneWith(BlankSpan(u, p, e), q)
    ensures IsStandaloneWith(u, q)
  {
    var v := BlankSpan(u, p, e);
    var before := TrimBack(u, q);
    if OccursBefore(u, "STARTS", before) {
      PrecedingWordSurvives(u, v, p, e, q, "STARTS");
    }
    if OccursBefore(u, "ENDS", before) {
      PrecedingWordSurvives(u, v, p, e, q, "ENDS");
    }
  }

  lemma {:induction false} BlanksSurvive(u: Text, v: Text, i: nat)
    requires |u| == |v| && i <= |u| && forall k :: i <= k < |u| ==> u[k] == v[k]
    ensures TrimForward(u, i) == TrimForward(v, i)
    decreases |u| - i
  {
    var k := BlankFrom(u, i);
    assert k == BlankFrom(v, i);
    if k > 0 {
      BlanksSurvive(u, v, i + k);
    }
  }

  /** A span of the blanked mask is a span of the mask. */
  lemma {:induction false} SpanSurvives(u: Text, p: nat, e: nat, q: nat, f: nat)
    requires p < e <= q && e <= |u| && u[e - 1] == '*'
    requires IsStarSpan(BlankSpan(u, p, e), q, f)
    ensures IsStarSpan(u, q, f)
  {
    var v := BlankSpan(u, p, e);
    assert forall k :: e <= k < |u| ==> u[k] == v[k];
    assert WordAt(v, WITH, q);
    assert WordAt(u, WITH, q);
    BlanksSurvive(u, v, q + |WITH|);
    StandaloneSurvives(u, p, e, q);
  }

  /** `k` lies in a span that the rewrite may blank. */
  ghost predicate InStarSpan(u: Text, k: nat) {
    exists p: nat, e: nat :: p <= k < e && IsStarSpan(u, p, e)
  }

  /** Only standalone `WITH … *` spans are changed, to spaces. */
  lemma {:induction false} OnlySpansChange(s: Text, u: Text, from: nat, k: nat)
    requires |s| == |u| && IsWordEdge(u, from) && k < |s|
    requires RewriteStarFrom(s, u, from)[k] != s[k]
    ensures RewriteStarFrom(s, u, from)[k] == ' '
    ensures exists p, e :: from <= p <= k < e && IsStarSpan(u, p, e)
    decreases |u| - from
  {
    TurnIsSound(u, from);
    match NextTurn(u, from)
    case Stop =>
    case Skip(after) =>
      OnlySpansChange(s, u, after, k);
    case Blank(p, e) =>
      var t, v := BlankSpan(s, p, e), BlankSpan(u, p, e);
      assert v[e - 1] == ' ' && u[e - 1] == '*';
      if RewriteStarFrom(t, v, e)[k] != t[k] {
        OnlySpansChange(t, v, e, k);
        var q, f :| e <= q <= k < f && IsStarSpan(v, q, f);
        SpanSurvives(u, p, e, q, f);
      } else {
        assert p <= k < e;
      }
  }

  lemma {:induction false} BlankIsEdge(u: Text, p: nat, e: nat)
    requires p < e <= |u|
    ensures IsWordEdge(BlankSpan(u, p, e), e)
  {
    assert BlankSpan(u, p, e)[e - 1] == ' ';
  }

  lemma {:induction false} StarKeepsLiterals(s: Text, from: nat)
    requires IsWordEdge(UpperMask(s), from)
    ensures Literals(RewriteStarFrom(s, UpperMask(s), from)) == Literals(s)
    decreases |s| - from
  {
    var u := UpperMask(s);
    TurnIsSound(u, from);
    match NextTurn(u, from)
    case Stop =>
    case Skip(after) =>
      StarKeepsLiterals(s, after);
    case Blank(p, e) =>
      BlankSpanStep(s, p, e);
      BlankIsEdge(u, p, e);
      StarKeepsLiterals(BlankSpan(s, p, e), e);
  }

  /** The whole pass: length and literals are kept, and every changed unit was in
      a standalone `WITH … *` of the input and is now a space. */
  lemma {:induction false} StarBlanksSpans(s: Text)
    ensures |RewriteStar(s)| == |s|
    ensures Literals(RewriteStar(s)) == Literals(s)
    ensures forall k :: 0 <= k < |s| && RewriteStar(s)[k] != s[k] ==>
      RewriteStar(s)[k] == ' ' && InStarSpan(UpperMask(s), k)
  {
    StarKeepsLiterals(s, 0);
    forall k | 0 <= k < |s| && RewriteStar(s)[k] != s[k]
      ensures RewriteStar(s)[k] == ' ' && InStarSpan(UpperMask(s), k)
    {
      OnlySpansChange(s, UpperMask(s), 0, k);
    }
  }

  // ── … and it changes all of them ──────────────────────────────────────

  /** `v` is `u` with `[p, e)`, which ends in a star, blanked. */
  ghost predicate IsBlanked(u: Text, v: Text, p: nat, e: nat) {
    p < e <= |u| && u[e - 1] == '*' && v == BlankSpan(u, p, e)
  }

  lemma {:induction false} TrimAbove(u: Text, v: Text, p: nat, e: nat, n: nat)
    requires IsBlanked(u, v, p, e) && e <= n <= |u|
    ensures e <= TrimBack(u, n)
    ensures TrimBack(v, n) == if TrimBack(u, n) > e then TrimBack(u, n) else TrimBack(v, e)
    decreases n
  {
    var k := BlankTo(u, n);
    if n > e {
      assert BlankTo(v, n) == k && n - k >= e;
      if k > 0 {
        TrimAbove(u, v, p, e, n - k);
      }
    }
  }

  lemma {:induction false} TrimOverSpaces(v: Text, p: nat, e: nat)
    requires p <= e <= |v| && forall k :: p <= k < e ==> v[k] == ' '
    ensures TrimBack(v, e) == TrimBack(v, p)
  {
    if p < e {
      assert BlankTo(v, e) == 1;
      TrimOverSpaces(v, p, e - 1);
    }
  }

  lemma {:induction false} TrimBelow(u: Text, v: Text, n: nat)
    requires n <= |u| == |v| && forall k :: 0 <= k < n ==> u[k] == v[k]
    ensures TrimBack(v, n) == TrimBack(u, n)
    decreases n
  {
    var k := BlankTo(u, n);
    assert BlankTo(v, n) == k;
    if k > 0 {
      TrimBelow(u, v, n - k);
    }
  }

  lemma {:induction false} NoSpaceWithin(v: Text, w: Text, at: nat, x: nat)
    requires OccursAt(v, w, at) && ' ' !in w
    ensures at <= x < at + |w| ==> v[x] != ' '
  {
    if at <= x < at + |w| {
      assert v[at + (x - at)] == w[x - at];
    }
  }

  /** No word reaches into the blanks. */
  lemma {:induction false} WordIsAbove(u: Text, v: Text, p: nat, e: nat, j: nat, w: Text)
    requires IsBlanked(u, v, p, e) && e < j <= |u| && ' ' !in w && OccursBefore(v, w, j)
    ensures OccursBefore(u, w, j)
  {
    var at := j - |w|;
    NoSpaceWithin(v, w, at, e - 1);
    forall k | 0 <= k < |w| ensures u[at + k] == w[k] {
      assert v[at + k] == w[k];
    }
  }

  lemma {:induction false} WordIsBelow(u: Text, v: Text, p: nat, j: nat, w: Text)
    requires j <= p <= |u| == |v| && (forall k :: 0 <= k < p ==> u[k] == v[k]) && OccursBefore(v, w, j)
    ensures OccursBefore(u, w, j)
  {
    var at := j - |w|;
    forall k | 0 <= k < |w| ensures u[at + k] == w[k] {
      assert v[at + k] == w[k];
    }
  }

  /** A later WITH stays standalone when one that is standalone has been blanked. */
  lemma {:induction false} StandaloneStays(u: Text, v: Text, p: nat, e: nat, q: nat, w: Text)
    requires IsBlanked(u, v, p, e) && e <= q <= |u| && ' ' !in w
    requires !OccursBefore(u, w, TrimBack(u, p)) && !OccursBefore(u, w, TrimBack(u, q))
    ensures !OccursBefore(v, w, TrimBack(v, q))
  {
    TrimAbove(u, v, p, e, q);
    TrimOverSpaces(v, p, e);
    TrimBelow(u, v, p);
    var j := TrimBack(v, q);
    if OccursBefore(v, w, j) {
      if j > e {
        WordIsAbove(u, v, p, e, j, w);
      } else {
        WordIsBelow(u, v, p, j, w);
      }
    }
  }

  lemma {:induction false} WithStays(u: Text, v: Text, p: nat, e: nat, q: nat)
    requires IsBlanked(u, v, p, e) && e <= q && WordAt(u, WITH, q)
    ensures WordAt(v, WITH, q)
  {
    forall k | 0 <= k < |WITH| ensures v[q + k] == WITH[k] {
      assert u[q + k] == WITH[k];
    }
    assert q == e ==> v[q - 1] == ' ';
  }

  /** Blanking one span leaves every later span one. */
  lemma {:induction false} LaterSpanStays(u: Text, v: Text, p: nat, e: nat, q: nat, f: nat)
    requires IsBlanked(u, v, p, e) && IsStarSpan(u, p, e) && e <= q && IsStarSpan(u, q, f)
    ensures IsStarSpan(v, q, f)
  {
    WithStays(u, v, p, e, q);
    StandaloneStays(u, v, p, e, q, "STARTS");
    StandaloneStays(u, v, p, e, q, "ENDS");
    BlanksSurvive(u, v, q + |WITH|);
  }

  /** Two occurrences of WITH do not overlap. */
  lemma {:induction false} WithDoesNotOverlap(u: Text, p: nat, q: nat)
    requires OccursAt(u, WITH, p) && OccursAt(u, WITH, q) && p < q
    ensures p + |WITH| <= q
  {
    assert u[q + 0] == WITH[0];
    assert u[p + 1] == WITH[1] && u[p + 2] == WITH[2] && u[p + 3] == WITH[3];
  }

  /** The loop does not go past a span that is still to come. */
  lemma {:induction false} TurnMeetsSpan(u: Text, from: nat, q: nat, f: nat)
    requires IsWordEdge(u, from) && from <= q && IsStarSpan(u, q, f)
    ensures match NextTurn(u, from)
      case Stop => false
      case Skip(after) => after <= q
      case Blank(p, e) => (p == q && e == f) || e <= q
  {
    assert u[q + 0] == WITH[0];
    assert WordIn(u, from, |u|, WITH, q);
    TurnIsSound(u, from);
    var p := FirstWordIn(u, from, |u|, WITH, from).value;
    if p < q {
      WithDoesNotOverlap(u, p, q);
      SpanHasNoWith(u, p, q);
    }
  }

  /** Between a starred WITH and its star there is no other. */
  lemma {:induction false} SpanHasNoWith(u: Text, p: nat, q: nat)
    requires p + |WITH| <= q && OccursAt(u, WITH, q) && p + |WITH| <= |u|
    ensures var star := TrimForward(u, p + |WITH|); star < |u| && u[star] == '*' ==> star + 1 <= q
  {
    assert u[q + 0] == WITH[0];
    TrimForwardSkipsBlanks(u, p + |WITH|);
  }

  /** Spaces stay spaces. */
  lemma {:induction false} SpacesStay(s: Text, u: Text, from: nat, k: nat)
    requires |s| == |u| && IsWordEdge(u, from) && k < |s| && s[k] == ' '
    ensures RewriteStarFrom(s, u, from)[k] == ' '
  {
    if RewriteStarFrom(s, u, from)[k] != s[k] {
      OnlySpansChange(s, u, from, k);
    }
  }

  lemma {:induction false} SpanIsBlanked(s: Text, u: Text, from: nat, q: nat, f: nat, k: nat)
    requires |s| == |u| && IsWordEdge(u, from) && from <= q <= k < f && IsStarSpan(u, q, f)
    ensures k < |s| && RewriteStarFrom(s, u, from)[k] == ' '
    decreases |u| - from
  {
    TurnIsSound(u, from);
    TurnMeetsSpan(u, from, q, f);
    StarSpanUnits(u, q, f);
    match NextTurn(u, from)
    case Stop =>
    case Skip(after) =>
      SpanIsBlanked(s, u, after, q, f, k);
    case Blank(p, e) =>
      var t, v := BlankSpan(s, p, e), BlankSpan(u, p, e);
      StarSpanUnits(u, p, e);
      BlankIsEdge(u, p, e);
      if e <= q {
        LaterSpanStays(u, v, p, e, q, f);
        SpanIsBlanked(t, v, e, q, f, k);
      } else {
        SpacesStay(t, v, e, k);
      }
  }

  /** The whole pass, exactly: a unit becomes a space if it lies in a standalone
      `WITH … *` of the input, and stays what it was if it does not. */
  lemma {:induction false} BlankedExactly(s: Text, k: nat)
    requires k < |s|
    ensures RewriteStar(s)[k] == if InStarSpan(UpperMask(s), k) then ' ' else s[k]
  {
    var u := UpperMask(s);
    if InStarSpan(u, k) {
      var p: nat, e: nat :| p <= k < e && IsStarSpan(u, p, e);
      SpanIsBlanked(s, u, 0, p, e, k);
    } else {
      StarBlanksSpans(s);
    }
  }

  /** A mask with no starred WITH stops the loop with nothing changed. */
  lemma {:induction false} NoStarNoChange(s: Text, u: Text, from: nat)
    requires |s| == |u| && IsWordEdge(u, from)
    requires forall p :: 0 <= p < |u| ==> !HasStarAt(u, p)
    ensures RewriteStarFrom(s, u, from) == s
    decreases |u| - from
  {
    TurnIsSound(u, from);
    match NextTurn(u, from)
    case Stop =>
    case Skip(after) => NoStarNoChange(s, u, after);
    case Blank(p, e) =>
  }

  /** `rewrite_with_star` */
  method RewriteWithStar(input: Text) returns (result: Text)
    ensures result == RewriteStar(input)
    ensures |result| == |input| && Literals(result) == Literals(input)
    ensures WellFormed(input) ==> WellFormed(result)
  {
    var masked := BlankStringLiterals(input);
    var resultUpper := Upper(masked);
    result := input;
    var searchFrom: nat := 0;
    while searchFrom < |resultUpper|
      invariant |result| == |resultUpper| == |input|
      invariant resultUpper == UpperMask(result)
      invariant IsWordEdge(resultUpper, searchFrom)
      invariant RewriteStarFrom(result, resultUpper, searchFrom) == RewriteStar(input)
      invariant Literals(result) == Literals(input)
      invariant WellFormed(input) ==> WellFormed(result)
      decreases |result| - searchFrom
    {
      TurnIsSound(resultUpper, searchFrom);
      var hit := FindWord(resultUpper, searchFrom, |resultUpper|, WITH);
      match TurnAt(resultUpper, hit)
      case Stop => return;
      case Skip(after) => searchFrom := after;
      case Blank(p, e) =>
        BlankSpanStep(result, p, e);
        if WellFormed(input) {
          BlankSpanSlices(result, p, e);
          assert IsBoundary(result, p) && IsBoundary(result, e);
        }
        result := BlankSpan(result, p, e);
        resultUpper := BlankSpan(resultUpper, p, e);
        assert resultUpper[e - 1] == ' ';
        searchFrom := e;
    }
  }
}
