/** String literals inside query texts, and the mask that blanks them.

    The scanners of `preprocessor.rs` recognise `'…'` and `"…"` literals with
    backslash escapes and doubled quotes. The reference below is a four-state
    automaton over code units; the index loops of the source, which advance
    character by character, are proved to compute the same thing. */
module Lexer {
  import opened Texts
  import opened Slicing

  /** Where a scanner stands before a unit. `Closing` is the moment after a
      quote that ends the literal unless the same quote follows. */
  datatype Lex =
    | Code
    | Inside(q: char)
    | Escaped(q: char)
    | Closing(q: char)

  function Next(st: Lex, c: char): Lex {
    match st
    case Code => if IsQuote(c) then Inside(c) else Code
    case Inside(q) => if c == '\\' then Escaped(q) else if c == q then Closing(q) else st
    case Escaped(q) => Inside(q)
    case Closing(q) => if c == q then Inside(q) else if IsQuote(c) then Inside(c) else Code
  }

  /** The state before unit `i` of a scan that starts at `from`, in code. */
  function StateFrom(s: Text, from: nat, i: nat): (st: Lex)
    requires from <= i <= |s|
    ensures !st.Code? ==> IsQuote(st.q)
  {
    if i == from then Code else Next(StateFrom(s, from, i - 1), s[i - 1])
  }

  function StateAt(s: Text, i: nat): (st: Lex)
    requires i <= |s|
    ensures !st.Code? ==> IsQuote(st.q)
  {
    StateFrom(s, 0, i)
  }

  /** Unit `i` lies outside every literal. */
  predicate IsCodeAt(s: Text, i: nat)
    requires i < |s|
  {
    var st := StateAt(s, i);
    (st.Code? || (st.Closing? && s[i] != st.q)) && !IsQuote(s[i])
  }

  /** A scanner standing before `i` is between tokens. */
  predicate BetweenTokens(s: Text, i: nat)
    requires i <= |s|
  {
    var st := StateAt(s, i);
    i < |s| ==> st.Code? || (st.Closing? && s[i] != st.q)
  }

  // ── The mask ──────────────────────────────────────────────────────────

  /** What the mask shows for unit `i` when the scan stands in `st`. */
  function MaskUnit(s: Text, st: Lex, i: nat): char
    requires i < |s|
  {
    match st
    case Code => s[i]
    case Inside(q) => if s[i] == q && !(i + 1 < |s| && s[i + 1] == q) then q else ' '
    case Escaped(_) => ' '
    case Closing(q) => if s[i] == q then ' ' else s[i]
  }

  function MaskAt(s: Text, i: nat): char
    requires i < |s|
  {
    MaskUnit(s, StateAt(s, i), i)
  }

  function MaskUpTo(s: Text, i: nat): (m: Text)
    requires i <= |s|
    ensures |m| == i
    ensures forall k :: 0 <= k < i ==> m[k] == MaskAt(s, k)
  {
    if i == 0 then [] else MaskUpTo(s, i - 1) + [MaskAt(s, i - 1)]
  }

  /** The text with the contents of its literals blanked. */
  function Mask(s: Text): (m: Text)
    ensures |m| == |s|
    ensures forall i :: 0 <= i < |s| ==> m[i] == MaskAt(s, i)
  {
    MaskUpTo(s, |s|)
  }

  function UpperMask(s: Text): (u: Text)
    ensures |u| == |s|
    ensures forall i :: 0 <= i < |s| ==> u[i] == UpperChar(MaskAt(s, i))
  {
    Upper(Mask(s))
  }

  // ── The literals of a text ────────────────────────────────────────────

  /** The literals of a text in order, unit by unit, each announced by `Begin`. */
  datatype Mark = Begin | Unit(c: char)

  function MarkOf(st: Lex, c: char): seq<Mark> {
    match st
    case Code => if IsQuote(c) then [Begin, Unit(c)] else []
    case Inside(_) => [Unit(c)]
    case Escaped(_) => [Unit(c)]
    case Closing(q) =>
      if c == q then [Unit(c)] else if IsQuote(c) then [Begin, Unit(c)] else []
  }

  function LiteralsUpTo(s: Text, i: nat): seq<Mark>
    requires i <= |s|
  {
    if i == 0 then [] else LiteralsUpTo(s, i - 1) + MarkOf(StateAt(s, i - 1), s[i - 1])
  }

  /** Every literal of `s`, byte for byte. */
  function Literals(s: Text): seq<Mark> {
    LiteralsUpTo(s, |s|)
  }

  // ── Locality ──────────────────────────────────────────────────────────

  /** A run that starts on a unit the mask shows and crosses no quote is code. */
  lemma {:induction false} VisibleRun(s: Text, p: nat, e: nat)
    requires p < e <= |s|
    requires Mask(s)[p] != ' ' && forall k :: p <= k < e ==> !IsQuote(Mask(s)[k])
    ensures StateAt(s, e) == Code
    ensures forall k :: p <= k < e ==> s[k] == Mask(s)[k] && IsCodeAt(s, k)
  {
    assert !IsQuote(Mask(s)[e - 1]);
    if e > p + 1 {
      VisibleRun(s, p, e - 1);
    }
  }

  /** `t` is `s` with the code run `[p, e)` replaced by the quote-free `m`. */
  ghost predicate IsSplice(s: Text, p: nat, e: nat, m: Text, t: Text) {
    && p < e <= |s|
    && (forall k :: p <= k < e ==> IsCodeAt(s, k))
    && (forall k :: 0 <= k < |m| ==> !IsQuote(m[k]))
    && (m != [] || e == |s| || IsCodeAt(s, e))
    && |t| == p + |m| + (|s| - e)
    && (forall k :: 0 <= k < p ==> t[k] == s[k])
    && (forall k :: p <= k < p + |m| ==> t[k] == m[k - p])
    && (forall k :: e <= k < |s| ==> s[k] == t[k - e + p + |m|])
  }

  lemma {:induction false} SpliceFront(s: Text, p: nat, e: nat, m: Text, t: Text, k: nat)
    requires IsSplice(s, p, e, m, t) && k <= p
    ensures StateAt(t, k) == StateAt(s, k) && LiteralsUpTo(t, k) == LiteralsUpTo(s, k)
  {
    if k > 0 {
      SpliceFront(s, p, e, m, t, k - 1);
    }
  }

  /** The state before the edit is one from which a quote-free unit is code. */
  lemma {:induction false} SpliceMiddle(s: Text, p: nat, e: nat, m: Text, t: Text, d: nat)
    requires IsSplice(s, p, e, m, t)
    requires d == p + |m| + (if m == [] && e < |s| then 1 else 0)
    ensures d > p ==> StateAt(t, d) == Code
    ensures LiteralsUpTo(t, d) == LiteralsUpTo(s, p)
    ensures forall k :: p <= k < d ==> MaskAt(t, k) == t[k]
    ensures forall k :: p <= k < d ==> !IsQuote(t[k])
  {
    SpliceFront(s, p, e, m, t, p);
    assert IsCodeAt(s, p);
    assert m == [] && e < |s| ==> t[p] == s[e];
    QuoteFreeRun(t, p, d);
  }

  lemma {:induction false} SpliceMeet(s: Text, p: nat, e: nat, m: Text, t: Text, i: nat, d: nat)
    requires IsSplice(s, p, e, m, t) && !(m == [] && e == |s|)
    requires i == (if m == [] then e + 1 else e) && d == (if m == [] then p + 1 else p + |m|)
    ensures StateAt(s, i) == StateAt(t, d) && LiteralsUpTo(s, i) == LiteralsUpTo(t, d)
  {
    SpliceMiddle(s, p, e, m, t, d);
    CodeKeepsLiterals(s, p, i);
  }

  /** After the edit the two scans run together, at the latest one unit on. */
  lemma {:induction false} SpliceTail(s: Text, p: nat, e: nat, m: Text, t: Text, i: nat)
    requires IsSplice(s, p, e, m, t) && !(m == [] && e == |s|)
    requires e <= i <= |s| && (m == [] ==> i > e)
    ensures StateAt(t, i - e + p + |m|) == StateAt(s, i)
    ensures LiteralsUpTo(t, i - e + p + |m|) == LiteralsUpTo(s, i)
    decreases i
  {
    if i == e || (m == [] && i == e + 1) {
      SpliceMeet(s, p, e, m, t, i, i - e + p + |m|);
    } else {
      SpliceTail(s, p, e, m, t, i - 1);
      assert s[i - 1] == t[i - 1 - e + p + |m|];
    }
  }

  lemma {:induction false} SpliceMask(s: Text, p: nat, e: nat, m: Text, t: Text)
    requires IsSplice(s, p, e, m, t)
    ensures forall k :: 0 <= k < p ==> MaskAt(t, k) == MaskAt(s, k)
    ensures forall k :: p <= k < p + |m| ==> MaskAt(t, k) == m[k - p]
    ensures forall k :: e <= k < |s| ==> MaskAt(s, k) == MaskAt(t, k - e + p + |m|)
  {
    var d := p + |m| + (if m == [] && e < |s| then 1 else 0);
    SpliceMiddle(s, p, e, m, t, d);
    forall k | 0 <= k < p
      ensures MaskAt(t, k) == MaskAt(s, k)
    {
      SpliceFront(s, p, e, m, t, k);
      assert IsCodeAt(s, p);
      assert k + 1 < p ==> t[k + 1] == s[k + 1];
      assert m == [] && e == |s| ==> |t| == p;
    }
    forall k | e <= k < |s|
      ensures MaskAt(s, k) == MaskAt(t, k - e + p + |m|)
    {
      if m == [] && k == e {
        assert MaskAt(t, p) == t[p];
      } else {
        SpliceTail(s, p, e, m, t, k);
        assert k + 1 < |s| ==> s[k + 1] == t[k + 1 - e + p + |m|];
      }
    }
  }

  lemma {:induction false} SplicedText(a: Text, p: nat, e: nat, m: Text, b: Text)
    requires p <= e <= |a| && |b| == p + |m| + (|a| - e)
    requires forall k :: 0 <= k < p ==> b[k] == a[k]
    requires forall k :: p <= k < p + |m| ==> b[k] == m[k - p]
    requires forall k :: e <= k < |a| ==> a[k] == b[k - e + p + |m|]
    ensures b == a[..p] + m + a[e..]
  {
    forall k | p + |m| <= k < |b|
      ensures b[k] == a[k - p - |m| + e]
    {
      var j := k - p - |m| + e;
      assert a[j] == b[j - e + p + |m|];
    }
  }

  lemma {:induction false} SpliceLiterals(s: Text, p: nat, e: nat, m: Text, t: Text)
    requires IsSplice(s, p, e, m, t)
    ensures Literals(t) == Literals(s)
  {
    if m == [] && e == |s| {
      SpliceFront(s, p, e, m, t, p);
      CodeKeepsLiterals(s, p, e);
    } else {
      SpliceTail(s, p, e, m, t, |s|);
    }
  }

  /** Such an edit shows in the mask at the same place and leaves every literal
      as it was. */
  lemma {:induction false} SpliceCode(s: Text, p: nat, e: nat, m: Text, t: Text)
    requires IsSplice(s, p, e, m, t)
    ensures Mask(t) == Mask(s)[..p] + m + Mask(s)[e..]
    ensures Literals(t) == Literals(s)
  {
    SpliceLiterals(s, p, e, m, t);
    SpliceMask(s, p, e, m, t);
    SplicedText(Mask(s), p, e, m, Mask(t));
  }

  /** Between two code positions nothing is added to the literals. */
  lemma {:induction false} CodeKeepsLiterals(s: Text, p: nat, e: nat)
    requires p < e <= |s| && forall k :: p <= k < e ==> IsCodeAt(s, k)
    ensures StateAt(s, e) == Code
    ensures LiteralsUpTo(s, e) == LiteralsUpTo(s, p)
  {
    assert IsCodeAt(s, e - 1);
    if e > p + 1 {
      CodeKeepsLiterals(s, p, e - 1);
    }
  }

  /** A quote-free run entered between tokens is code. */
  lemma {:induction false} QuoteFreeRun(s: Text, p: nat, e: nat)
    requires p <= e <= |s|
    requires StateAt(s, p).Code? || StateAt(s, p).Closing?
    requires forall k :: p <= k < e ==> !IsQuote(s[k])
    ensures e > p ==> StateAt(s, e) == Code
    ensures LiteralsUpTo(s, e) == LiteralsUpTo(s, p)
    ensures forall k :: p <= k < e ==> MaskAt(s, k) == s[k]
  {
    if e > p {
      QuoteFreeRun(s, p, e - 1);
      assert !IsQuote(s[e - 1]);
    }
  }

  // ── What the mask promises ────────────────────────────────────────────

  /** Byte isomorphism: same length, code unchanged, only blanks and the two
      delimiters inside literals. */
  lemma {:induction false} MaskIsIsomorphic(s: Text)
    ensures |Mask(s)| == |s|
    ensures forall i :: 0 <= i < |s| ==>
      if IsCodeAt(s, i) then Mask(s)[i] == s[i]
      else Mask(s)[i] == ' ' || (IsQuote(s[i]) && Mask(s)[i] == s[i])
    ensures forall i :: 0 <= i < |s| && IsQuote(Mask(s)[i]) ==> !IsCodeAt(s, i)
  {
    forall i | 0 <= i < |s|
      ensures if IsCodeAt(s, i) then Mask(s)[i] == s[i]
              else Mask(s)[i] == ' ' || (IsQuote(s[i]) && Mask(s)[i] == s[i])
    {
      assert Mask(s)[i] == MaskAt(s, i);
    }
  }

  /** The state in which a scan of the mask stands, given the scan of the text. */
  function MaskedState(s: Text, i: nat): Lex
    requires i <= |s|
  {
    match StateAt(s, i)
    case Escaped(q) => Inside(q)
    case Closing(q) => if i < |s| && s[i] == q then Inside(q) else Closing(q)
    case st => st
  }

  lemma {:induction false} ScanOfMask(s: Text, i: nat)
    requires i <= |s|
    ensures StateAt(Mask(s), i) == MaskedState(s, i)
  {
    if i > 0 {
      ScanOfMask(s, i - 1);
      assert Mask(s)[i - 1] == MaskAt(s, i - 1);
    }
  }

  lemma {:induction false} MaskIsIdempotent(s: Text)
    ensures Mask(Mask(s)) == Mask(s)
  {
    forall i | 0 <= i < |s|
      ensures MaskAt(Mask(s), i) == MaskAt(s, i)
    {
      ScanOfMask(s, i);
      if i + 1 < |s| {
        assert Mask(s)[i + 1] == MaskAt(s, i + 1);
      }
    }
  }

  /** A keyword that the upper-cased mask shows is code, spelt in any case. */
  lemma {:induction false} KeywordIsCode(s: Text, w: Text, p: nat)
    requires |w| > 0 && (forall k :: 0 <= k < |w| ==> IsUpperLetter(w[k]))
    requires OccursAt(UpperMask(s), w, p)
    ensures StateAt(s, p + |w|) == Code
    ensures forall k :: p <= k < p + |w| ==> IsCodeAt(s, k) && UpperChar(s[k]) == w[k - p]
  {
    forall k | p <= k < p + |w|
      ensures UpperChar(Mask(s)[k]) == w[k - p] && Mask(s)[k] != ' ' && !IsQuote(Mask(s)[k])
    {
      assert UpperMask(s)[p + (k - p)] == w[k - p];
    }
    VisibleRun(s, p, p + |w|);
  }

  /** Hence a keyword found in the mask may be sliced out of the text it masks. */
  lemma {:induction false} KeywordOffsetsAreBoundaries(s: Text, w: Text, p: nat)
    requires WellFormed(s)
    requires |w| > 0 && (forall k :: 0 <= k < |w| ==> IsUpperLetter(w[k]))
    requires OccursAt(UpperMask(s), w, p)
    ensures IsBoundary(s, p) && IsBoundary(s, p + |w|)
  {
    var e := p + |w|;
    assert UpperMask(s)[p + 0] == w[0] && UpperMask(s)[p + (|w| - 1)] == w[|w| - 1];
    ShownIsAscii(s, p);
    ShownIsAscii(s, e - 1);
    AtAscii(s, p);
    AfterAscii(s, e - 1);
  }

  /** An ASCII unit other than a blank that the mask shows stands in the text. */
  lemma {:induction false} ShownIsAscii(s: Text, k: nat)
    requires k < |s| && IsAscii(UpperMask(s)[k]) && UpperMask(s)[k] != ' '
    ensures IsAscii(s[k])
  {
    assert UpperMask(s)[k] == UpperChar(Mask(s)[k]) && Mask(s)[k] == MaskAt(s, k);
  }

  // ── The source's loops ────────────────────────────────────────────────

  /** In a scan from `start`, unit `k` belongs to the literal being scanned. */
  predicate InLiteral(s: Text, start: nat, k: nat)
    requires start <= k < |s|
  {
    var st := StateFrom(s, start, k);
    st.Inside? || st.Escaped? || (st.Closing? && s[k] == st.q)
  }

  /** … and is blanked by the mask. */
  predicate IsContent(s: Text, start: nat, k: nat)
    requires start <= k < |s|
  {
    InLiteral(s, start, k) && MaskUnit(s, StateFrom(s, start, k), k) == ' '
  }

  /** `[start, next)` is the literal opened by the quote at `start`. */
  ghost predicate IsLiteralSpan(s: Text, start: nat, next: nat) {
    && start < next <= |s|
    && IsQuote(s[start])
    && (forall k :: start < k < next ==> InLiteral(s, start, k))
    && (next < |s| ==> StateFrom(s, start, next) == Closing(s[start]) && s[next] != s[start])
  }

  /** What the scanner pushes for `[start, next)`. */
  function Piece(s: Text, start: nat, next: nat, blank: bool): (piece: Text)
    requires start <= next <= |s|
    ensures |piece| == next - start
    decreases next
  {
    if next == start then []
    else
      Piece(s, start, next - 1, blank)
      + [if blank then MaskUnit(s, StateFrom(s, start, next - 1), next - 1) else s[next - 1]]
  }

  /** The rest of a multi-byte character cannot end a literal. */
  lemma {:induction false} InsideToCharEnd(s: Text, b: nat, i: nat, e: nat)
    requires b <= i < e <= |s| && StateFrom(s, b, i).Inside?
    requires s[i] != StateFrom(s, b, i).q && s[i] != '\\'
    requires forall k :: i < k < e ==> IsContinuation(s[k])
    ensures StateFrom(s, b, e) == StateFrom(s, b, i)
    ensures forall k :: i <= k < e ==> IsContent(s, b, k)
  {
    if e > i + 1 {
      InsideToCharEnd(s, b, i, e - 1);
      assert IsContinuation(s[e - 1]);
    }
  }

  /** An escaped character, of whatever width, is literal content. */
  lemma {:induction false} EscapeToCharEnd(s: Text, b: nat, i: nat, e: nat)
    requires b <= i && i + 1 < e <= |s| && StateFrom(s, b, i).Inside? && s[i] == '\\'
    requires forall k :: i + 1 < k < e ==> IsContinuation(s[k])
    ensures StateFrom(s, b, e) == StateFrom(s, b, i)
    ensures forall k :: i <= k < e ==> IsContent(s, b, k)
  {
    assert StateFrom(s, b, i + 1) == Escaped(StateFrom(s, b, i).q);
    assert StateFrom(s, b, i + 2) == StateFrom(s, b, i);
    if i + 2 < e {
      assert IsContinuation(s[i + 2]);
      InsideToCharEnd(s, b, i + 2, e);
    }
  }

  /** Outside literals a whole character is code. */
  lemma {:induction false} CodeToCharEnd(s: Text, i: nat, e: nat)
    requires i < e <= |s| && BetweenTokens(s, i) && !IsQuote(s[i])
    requires forall k :: i < k < e ==> IsContinuation(s[k])
    ensures StateAt(s, e) == Code
    ensures forall k :: i <= k < e ==> MaskAt(s, k) == s[k] && IsCodeAt(s, k)
  {
    if e > i + 1 {
      CodeToCharEnd(s, i, e - 1);
      assert IsContinuation(s[e - 1]);
    }
  }

  lemma {:induction false} PieceGrows(s: Text, start: nat, i: nat, e: nat, blank: bool)
    requires start <= i <= e <= |s|
    requires blank ==> forall k :: i <= k < e ==> IsContent(s, start, k)
    ensures Piece(s, start, e, blank) ==
            Piece(s, start, i, blank) + if blank then Spaces(e - i) else s[i..e]
  {
    if i < e {
      PieceGrows(s, start, i, e - 1, blank);
      assert blank ==> IsContent(s, start, e - 1);
      assert Spaces(e - i) == Spaces(e - 1 - i) + [' '];
      assert s[i..e] == s[i..e - 1] + [s[e - 1]];
    }
  }

  /** One turn of the loop below: the units `[i, e)` are literal content, pushed
      blanked or verbatim. */
  method PushContent(s: Text, start: nat, i: nat, e: nat, blank: bool, piece: Text) returns (grown: Text)
    requires start < i < e <= |s| && StateFrom(s, start, i).Inside?
    requires piece == Piece(s, start, i, blank)
    requires forall k :: start < k < i ==> InLiteral(s, start, k)
    requires forall k :: i <= k < e ==> IsContent(s, start, k)
    ensures grown == Piece(s, start, e, blank)
    ensures forall k :: start < k < e ==> InLiteral(s, start, k)
  {
    PieceGrows(s, start, i, e, blank);
    assert forall k :: i <= k < e ==> IsContent(s, start, k) && InLiteral(s, start, k);
    grown := piece + if blank then Spaces(e - i) else s[i..e];
  }

  /** The quote at `i` ends the literal being scanned. */
  predicate IsClosingQuote(s: Text, quote: char, i: nat)
    requires i < |s|
  {
    s[i] == quote && !(i + 1 < |s| && s[i + 1] == quote)
  }

  /** How far one turn of the loop below advances over content: an escape and the
      character it escapes, a doubled quote, or one character. */
  method ContentEnd(s: Text, start: nat, i: nat, quote: char) returns (e: nat)
    requires start < i < |s| && StateFrom(s, start, i) == Inside(quote)
    requires !IsClosingQuote(s, quote, i)
    ensures i < e <= |s|
    ensures forall k :: i <= k < e ==> IsContent(s, start, k)
    ensures e < |s| ==> StateFrom(s, start, e) == Inside(quote)
  {
    if s[i] == '\\' && i + 1 < |s| {
      e := CharEnd(s, i + 1);
      EscapeToCharEnd(s, start, i, e);
    } else if s[i] == quote {
      assert StateFrom(s, start, i + 1) == Closing(quote);
      assert IsContent(s, start, i) && IsContent(s, start, i + 1);
      e := i + 2;
    } else if s[i] == '\\' {
      assert IsContent(s, start, i);
      e := i + 1;
    } else {
      e := CharEnd(s, i);
      InsideToCharEnd(s, start, i, e);
    }
  }

  lemma {:induction false} CloseLiteral(s: Text, start: nat, i: nat, blank: bool)
    requires start < i < |s| && IsQuote(s[start])
    requires StateFrom(s, start, i) == Inside(s[start]) && IsClosingQuote(s, s[start], i)
    requires forall k :: start < k < i ==> InLiteral(s, start, k)
    ensures IsLiteralSpan(s, start, i + 1)
    ensures Piece(s, start, i + 1, blank) == Piece(s, start, i, blank) + [s[start]]
  {
    assert InLiteral(s, start, i);
    assert StateFrom(s, start, i + 1) == Closing(s[start]);
  }

  /** `scan_string_literal`: from an opening quote to the unit after its literal.
      `piece` is what it pushes, blanked or verbatim. */
  method ScanStringLiteral(s: Text, start: nat, blank: bool) returns (next: nat, piece: Text)
    requires start < |s| && IsQuote(s[start])
    ensures IsLiteralSpan(s, start, next)
    ensures piece == Piece(s, start, next, blank)
  {
    var quote := s[start];
    piece := [quote];
    next := start + 1;
    assert Piece(s, start, next, blank) == Piece(s, start, start, blank) + [quote];
    while next < |s|
      invariant start < next <= |s|
      invariant next < |s| ==> StateFrom(s, start, next) == Inside(quote)
      invariant piece == Piece(s, start, next, blank)
      invariant forall k :: start < k < next ==> InLiteral(s, start, k)
    {
      if IsClosingQuote(s, quote, next) {
        CloseLiteral(s, start, next, blank);
        return next + 1, piece + [quote];
      }
      var e := ContentEnd(s, start, next, quote);
      piece := PushContent(s, start, next, e, blank, piece);
      next := e;
    }
  }

  /** Seen from a scan of the whole text, a literal reached between tokens is
      exactly that literal. */
  lemma {:induction false} LocalScan(s: Text, start: nat, k: nat)
    requires start < k <= |s| && BetweenTokens(s, start) && IsQuote(s[start])
    ensures StateAt(s, k) == StateFrom(s, start, k)
    ensures MaskUpTo(s, k) == MaskUpTo(s, start) + Piece(s, start, k, true)
  {
    if k > start + 1 {
      LocalScan(s, start, k - 1);
    } else {
      assert Piece(s, start, k, true) == Piece(s, start, start, true) + [s[start]];
    }
  }

  /** `blank_string_literals` */
  method BlankStringLiterals(s: Text) returns (result: Text)
    ensures result == Mask(s)
  {
    result := [];
    var i := 0;
    while i < |s|
      invariant i <= |s| && BetweenTokens(s, i)
      invariant result == MaskUpTo(s, i)
    {
      if IsQuote(s[i]) {
        var next, piece := ScanStringLiteral(s, i, true);
        LocalScan(s, i, next);
        result := result + piece;
        i := next;
      } else {
        var e := CharEnd(s, i);
        CodeToCharEnd(s, i, e);
        MaskOfCode(s, i, e);
        result := result + s[i..e];
        i := e;
      }
    }
  }

  lemma {:induction false} MaskOfCode(s: Text, i: nat, e: nat)
    requires i <= e <= |s| && forall k :: i <= k < e ==> MaskAt(s, k) == s[k]
    ensures MaskUpTo(s, e) == MaskUpTo(s, i) + s[i..e]
  {
    var (m, parts) := (MaskUpTo(s, e), MaskUpTo(s, i) + s[i..e]);
    forall k | 0 <= k < e ensures m[k] == parts[k] {
    }
  }
}
