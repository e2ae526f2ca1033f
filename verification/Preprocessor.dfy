/** The Cypher-to-GQL preprocessor as a whole: the remaining passes, their
    composition, and the fast path that skips them. */
module Preprocessor {
  import opened Texts
  import opened Slicing
  import opened Lexer
  import opened Clauses
  import opened Quoting
  import Comments

  datatype CypherError =
    | UnclosedComment
    | UnclosedBacktick
    | EmptyBacktick
    | EmptyRemove
    | WithProjection

  datatype Result = Ok(text: Text) | Err(error: CypherError)

  // ── Backtick identifiers ──────────────────────────────────────────────

  /** Offset just after the literal opened at `start`, having reached `k`. */
  function LiteralEnd(s: Text, start: nat, k: nat): (e: nat)
    requires start < k <= |s|
    ensures k <= e <= |s|
    decreases |s| - k
  {
    if k < |s| && InLiteral(s, start, k) then LiteralEnd(s, start, k + 1) else k
  }

  lemma {:induction false} LiteralEndIs(s: Text, start: nat, next: nat, k: nat)
    requires IsLiteralSpan(s, start, next) && start < k <= next
    ensures LiteralEnd(s, start, k) == next
    decreases next - k
  {
    if k < next {
      assert InLiteral(s, start, k);
      LiteralEndIs(s, start, next, k + 1);
    }
  }

  function Prepend(s: Text, r: Result): Result {
    if r.Ok? then Ok(s + r.text) else r
  }

  /** `s` from `i` on, with backtick identifiers as delimited identifiers. */
  function Backticks(s: Text, i: nat): Result
    requires i <= |s|
    decreases |s| - i
  {
    if i == |s| then Ok([])
    else if IsQuote(s[i]) then
      var e := LiteralEnd(s, i, i + 1);
      Prepend(s[i..e], Backticks(s, e))
    else if s[i] == '`' then
      var close := Find(s, "`", i + 1);
      if close.None? then Err(UnclosedBacktick)
      else if close.value == i + 1 then Err(EmptyBacktick)
      else Prepend(Delimited(s[i + 1..close.value], '"'), Backticks(s, close.value + 1))
    else Prepend([s[i]], Backticks(s, i + 1))
  }

  lemma {:induction false} PrependAssoc(a: Text, b: Text, r: Result)
    ensures Prepend(a, Prepend(b, r)) == Prepend(a + b, r)
  {
    if r.Ok? {
      assert a + (b + r.text) == (a + b) + r.text;
    }
  }

  /** The inner loop: collect an identifier up to its closing backtick. */
  method ScanIdentifier(s: Text, start: nat) returns (next: nat, ident: Text, foundClose: bool)
    requires start < |s| && s[start] == '`'
    ensures start < next <= |s|
    ensures foundClose == Find(s, "`", start + 1).Some?
    ensures foundClose ==> next == Find(s, "`", start + 1).value + 1 && ident == s[start + 1..next - 1]
  {
    var i := start + 1;
    ident := [];
    while i < |s|
      invariant start < i <= |s| && ident == s[start + 1..i]
      invariant Find(s, "`", start + 1) == Find(s, "`", i)
    {
      assert OccursAt(s, "`", i) <==> s[i] == '`' by {
        assert s[i + 0] == "`"[0] <==> s[i] == '`';
      }
      if s[i] == '`' {
        return i + 1, ident, true;
      }
      assert s[start + 1..i + 1] == s[start + 1..i] + [s[i]];
      ident := ident + [s[i]];
      i := i + 1;
    }
    return i, ident, false;
  }

  method QuoteIdentifier(ident: Text) returns (quoted: Text)
    ensures quoted == Delimited(ident, '"')
  {
    quoted := ['"'];
    for k := 0 to |ident|
      invariant quoted == ['"'] + DoubledUpTo(ident, k, '"')
    {
      if ident[k] == '"' {
        quoted := quoted + ['"'];
      }
      quoted := quoted + [ident[k]];
    }
    quoted := quoted + ['"'];
  }

  /** The identifier that begins at `i`, as it was and as it becomes. */
  datatype Ident = Ident(name: Text, token: Text, after: Result)

  function IdentAt(s: Text, i: nat): Ident
    requires i < |s| && Find(s, "`", i + 1).Some?
  {
    var close := Find(s, "`", i + 1).value;
    Ident(s[i + 1..close], Delimited(s[i + 1..close], '"'), Backticks(s, close + 1))
  }

  lemma {:induction false} IdentIsConverted(s: Text, i: nat)
    requires i < |s| && s[i] == '`' && Backticks(s, i).Ok?
    ensures Find(s, "`", i + 1).Some?
    ensures var id := IdentAt(s, i); id.after.Ok? && Backticks(s, i).text == id.token + id.after.text
  {
  }

  /** A converted identifier is one token again, whatever stands before it and unless
      a double quote follows, if and only if no backslash in it escapes its end. */
  lemma {:induction false} IdentifierIsOneToken(s: Text, i: nat, before: Text)
    requires i < |s| && s[i] == '`' && Backticks(s, i).Ok?
    ensures Find(s, "`", i + 1).Some? && IdentAt(s, i).after.Ok?
    ensures var id := IdentAt(s, i);
      && Backticks(s, i).text == id.token + id.after.text
      && (id.after.text == [] || id.after.text[0] != '"' ==>
            (IsClosedSpan(before + Backticks(s, i).text, |before|, |before| + |id.token|) <==> IsSafe(id.name, '"')))
  {
    IdentIsConverted(s, i);
    var id := IdentAt(s, i);
    if id.after.text == [] || id.after.text[0] != '"' {
      ScanFindsLiteralExactly(before, id.name, id.after.text, '"');
      assert before + id.token + id.after.text == before + (id.token + id.after.text);
    }
  }

  lemma {:induction false} BackticksSkipCode(s: Text, i: nat, e: nat)
    requires i < e <= |s| && !IsQuote(s[i]) && s[i] != '`'
    requires forall k :: i < k < e ==> IsContinuation(s[k])
    ensures Backticks(s, i) == Prepend(s[i..e], Backticks(s, e))
    decreases e - i
  {
    if e == i + 1 {
      assert s[i..e] == [s[i]];
    } else {
      assert IsContinuation(s[i + 1]);
      BackticksSkipCode(s, i + 1, e);
      PrependAssoc([s[i]], s[i + 1..e], Backticks(s, e));
      assert s[i..e] == [s[i]] + s[i + 1..e];
    }
  }

  /** The loop's next token: its text as rewritten, and where the next one
      starts. */
  method ConvertToken(s: Text, at: nat) returns (next: nat, piece: Result)
    requires at < |s|
    ensures at < next <= |s|
    ensures piece.Err? ==> Backticks(s, at) == piece
    ensures piece.Ok? ==> Backticks(s, at) == Prepend(piece.text, Backticks(s, next))
  {
    if IsQuote(s[at]) {
      var verbatim;
      next, verbatim := ScanStringLiteral(s, at, false);
      LiteralEndIs(s, at, next, at + 1);
      VerbatimPiece(s, at, next);
      piece := Ok(verbatim);
    } else if s[at] == '`' {
      var ident, foundClose;
      next, ident, foundClose := ScanIdentifier(s, at);
      if !foundClose {
        return next, Err(UnclosedBacktick);
      }
      if ident == [] {
        return next, Err(EmptyBacktick);
      }
      var quoted := QuoteIdentifier(ident);
      piece := Ok(quoted);
    } else {
      next := CharEnd(s, at);
      BackticksSkipCode(s, at, next);
      piece := Ok(s[at..next]);
    }
  }

  /** `convert_backtick_idents` */
  method ConvertBacktickIdents(s: Text) returns (r: Result)
    ensures r == Backticks(s, 0)
  {
    var result := [];
    var i := 0;
    while i < |s|
      invariant i <= |s| && Backticks(s, 0) == Prepend(result, Backticks(s, i))
    {
      var next, piece := ConvertToken(s, i);
      if piece.Err? {
        return piece;
      }
      PrependAssoc(result, piece.text, Backticks(s, next));
      result := result + piece.text;
      i := next;
    }
    return Ok(result);
  }

  lemma {:induction false} VerbatimPiece(s: Text, start: nat, next: nat)
    requires start <= next <= |s|
    ensures Piece(s, start, next, false) == s[start..next]
    decreases next
  {
    if next > start {
      VerbatimPiece(s, start, next - 1);
      assert s[start..next] == s[start..next - 1] + [s[next - 1]];
    }
  }

  lemma {:induction false} CutAt(s: Text, i: nat, e: nat)
    requires i <= e <= |s|
    ensures s[i..e] + s[e..] == s[i..]
    ensures e == i + 1 ==> s[i..e] == [s[i]]
  {
  }

  /** With no backtick outside literals there is nothing to convert. */
  lemma {:induction false} NoBackticksNoChange(s: Text, i: nat)
    requires i <= |s| && BetweenTokens(s, i)
    requires forall k :: 0 <= k < |s| ==> Mask(s)[k] != '`'
    ensures Backticks(s, i) == Ok(s[i..])
    decreases |s| - i
  {
    if i < |s| {
      if IsQuote(s[i]) {
        var e := LiteralEnd(s, i, i + 1);
        LiteralEndIsBetween(s, i, i + 1);
        NoBackticksNoChange(s, e);
        CutAt(s, i, e);
      } else {
        assert Mask(s)[i] == s[i];
        NoBackticksNoChange(s, i + 1);
        CutAt(s, i, i + 1);
      }
    }
  }

  lemma {:induction false} LiteralEndIsBetween(s: Text, start: nat, k: nat)
    requires start < k <= |s| && BetweenTokens(s, start) && IsQuote(s[start])
    requires k < |s| ==> !StateFrom(s, start, k).Code?
    ensures BetweenTokens(s, LiteralEnd(s, start, k))
    decreases |s| - k
  {
    if k < |s| && InLiteral(s, start, k) {
      LiteralEndIsBetween(s, start, k + 1);
    } else if k < |s| {
      LocalScan(s, start, k);
    }
  }

  // ── REMOVE ────────────────────────────────────────────────────────────

  const REMOVE := "REMOVE"
  const CLAUSES: seq<Text> :=
    ["RETURN", "MATCH", "CREATE", "SET", "DELETE", "DETACH", "MERGE", "WHERE", "ORDER",
     "LIMIT", "WITH", "SKIP", "UNWIND"]

  /** Where a property list ends, given the clause words `kws` still to look for. */
  function ListEnd(rest: Text, upper: Text, end: nat, kws: seq<Text>): (e: nat)
    requires end <= |rest|
    ensures e <= end
  {
    if kws == [] then end
    else if kws[0] == [] then ListEnd(rest, upper, end, kws[1..])
    else
      var hit := FirstWord(upper, kws[0]);
      ListEnd(rest, upper, if hit.Some? && hit.value < end then hit.value else end, kws[1..])
  }

  function PropertyListEnd(rest: Text, upper: Text): (e: nat)
    ensures e <= |rest|
  {
    var semi := Find(rest, ";", 0);
    ListEnd(rest, upper, if semi.Some? then semi.value else |rest|, CLAUSES)
  }

  /** `"p, q"` as `"p = null, q = null"`, splitting at commas and trimming. */
  function NullAssignments(props: Text): Text
    decreases |props|
  {
    var comma := Find(props, ",", 0);
    if comma.None? then Trim(props) + " = null"
    else Trim(props[..comma.value]) + " = null, " + NullAssignments(props[comma.value + 1..])
  }

  /** A property as it can stand in a list: no comma, no blank at either end. */
  ghost predicate IsName(n: Text) {
    && n != [] && BlankFrom(n, 0) == 0 && BlankTo(n, |n|) == 0
    && forall k :: 0 <= k < |n| ==> n[k] != ','
  }

  function Listed(names: seq<Text>, k: nat): Text
    requires k < |names|
    decreases |names| - k
  {
    if k + 1 == |names| then names[k] else names[k] + (", " + Listed(names, k + 1))
  }

  function Nulled(names: seq<Text>, k: nat): Text
    requires k < |names|
    decreases |names| - k
  {
    if k + 1 == |names| then names[k] + " = null" else names[k] + " = null, " + Nulled(names, k + 1)
  }

  lemma {:induction false} TrimPadded(pad: Text, n: Text)
    requires IsName(n) && (pad == "" || pad == " ")
    ensures Trim(pad + n) == n
  {
    var s := pad + n;
    assert BlankTo(s, |s|) == BlankTo(n, |n|);
    if pad == " " {
      assert s[0] == ' ' && BlankFrom(s, 0) == 1 && BlankFrom(s, 1) == 0;
      assert TrimForward(s, 1) == 1;
    } else {
      assert s == n;
    }
    assert s[|pad|..] == n;
  }

  lemma {:induction false} FirstComma(head: Text, tail: Text)
    requires forall k :: 0 <= k < |head| ==> head[k] != ','
    ensures Find(head + ("," + tail), ",", 0) == Some(|head|)
    ensures Find(head, ",", 0).None?
  {
    var s := head + ("," + tail);
    assert OccursAt(s, ",", |head|);
    forall j | 0 <= j < |head| ensures !OccursAt(s, ",", j) && !OccursAt(head, ",", j) {
      assert s[j + 0] != ","[0] && head[j + 0] != ","[0];
    }
  }

  lemma {:induction false} NullFirst(head: Text, tail: Text)
    requires forall k :: 0 <= k < |head| ==> head[k] != ','
    ensures NullAssignments(head + ("," + tail)) == Trim(head) + " = null, " + NullAssignments(tail)
    ensures NullAssignments(head) == Trim(head) + " = null"
  {
    var s := head + ("," + tail);
    FirstComma(head, tail);
    assert s[..|head|] == head && s[|head| + 1..] == tail;
  }

  lemma {:induction false} ListedFrom(names: seq<Text>, k: nat, pad: Text)
    requires k + 1 < |names|
    ensures pad + Listed(names, k) == (pad + names[k]) + ("," + (" " + Listed(names, k + 1)))
  {
    assert ", " + Listed(names, k + 1) == "," + (" " + Listed(names, k + 1));
  }

  /** Every property of a list is set to null, in order, and nothing else. */
  lemma {:induction false} EveryPropertyIsNulled(names: seq<Text>, k: nat, pad: Text)
    requires k < |names| && (forall j :: 0 <= j < |names| ==> IsName(names[j]))
    requires pad == "" || pad == " "
    ensures NullAssignments(pad + Listed(names, k)) == Nulled(names, k)
    decreases |names| - k
  {
    TrimPadded(pad, names[k]);
    if k + 1 == |names| {
      NullFirst(pad + names[k], []);
    } else {
      ListedFrom(names, k, pad);
      NullFirst(pad + names[k], " " + Listed(names, k + 1));
      EveryPropertyIsNulled(names, k + 1, " ");
    }
  }

  /** `REMOVE` at `idx` rewritten to `SET`. */
  function RemoveAt(s: Text, idx: nat): Result
    requires idx + |REMOVE| <= |s|
  {
    var rest := s[idx + |REMOVE|..];
    var end := PropertyListEnd(rest, UpperMask(s)[idx + |REMOVE|..]);
    var props := Trim(rest[..end]);
    if props == [] then Err(EmptyRemove)
    else Ok(s[..idx] + "SET " + NullAssignments(props) + rest[end..])
  }

  /** Only the first REMOVE is rewritten. */
  function Remove(s: Text): Result {
    var hit := FirstWord(UpperMask(s), REMOVE);
    if hit.None? then Ok(s) else RemoveAt(s, hit.value)
  }

  // ── REMOVE slices at boundaries ───────────────────────────────────────

  /** A letter that the rest of the mask shows begins a character of the rest. */
  lemma {:induction false} RestIsAscii(s: Text, from: nat, k: nat)
    requires from + k < |s| && IsUpperLetter(UpperMask(s)[from..][k])
    ensures IsBoundary(s[from..], k)
  {
    ShownIsAscii(s, from + k);
    AtAscii(s[from..], k);
  }

  ghost predicate AreUpper(kws: seq<Text>) {
    forall i, k :: 0 <= i < |kws| && 0 <= k < |kws[i]| ==> IsUpperLetter(kws[i][k])
  }

  lemma {:induction false} ListEndIsBoundary(s: Text, from: nat, end: nat, kws: seq<Text>)
    requires from <= |s| && end <= |s| - from && IsBoundary(s[from..], end) && AreUpper(kws)
    ensures IsBoundary(s[from..], ListEnd(s[from..], UpperMask(s)[from..], end, kws))
    decreases |kws|
  {
    var (rest, upper) := (s[from..], UpperMask(s)[from..]);
    if kws != [] {
      assert AreUpper(kws[1..]);
      if kws[0] == [] {
        ListEndIsBoundary(s, from, end, kws[1..]);
      } else {
        var hit := FirstWord(upper, kws[0]);
        if hit.Some? && hit.value < end {
          assert upper[hit.value + 0] == kws[0][0];
          RestIsAscii(s, from, hit.value);
          ListEndIsBoundary(s, from, hit.value, kws[1..]);
        } else {
          ListEndIsBoundary(s, from, end, kws[1..]);
        }
      }
    }
  }

  lemma {:induction false} ClausesAreUpper()
    ensures AreUpper(CLAUSES)
  {
  }

  lemma {:induction false} PropertyListEndIsBoundary(s: Text, from: nat, end: nat)
    requires from <= |s| && end == PropertyListEnd(s[from..], UpperMask(s)[from..])
    ensures IsBoundary(s[from..], end)
  {
    var rest := s[from..];
    var semi := Find(rest, ";", 0);
    if semi.Some? {
      assert rest[semi.value + 0] == ";"[0];
    }
    ClausesAreUpper();
    ListEndIsBoundary(s, from, if semi.Some? then semi.value else |rest|, CLAUSES);
  }

  lemma {:induction false} NullIsWellFormed(name: Text, tail: Text)
    requires WellFormed(name) && (tail == " = null" || tail == " = null, ")
    ensures WellFormed(Trim(name) + tail)
  {
    TrimIsWellFormed(name);
    AsciiIsWellFormed(tail);
    ConcatIsWellFormed(Trim(name), tail, Trim(name) + tail);
  }

  lemma {:induction false} NullAssignmentsAreWellFormed(props: Text)
    requires WellFormed(props)
    ensures WellFormed(NullAssignments(props))
    decreases |props|
  {
    var comma := Find(props, ",", 0);
    if comma.None? {
      NullIsWellFormed(props, " = null");
    } else {
      var c := comma.value;
      var (head, tail) := (props[..c], props[c + 1..]);
      assert props[c + 0] == ","[0];
      AfterAscii(props, c);
      SliceIsWellFormed(props, 0, c, head);
      SliceIsWellFormed(props, c + 1, |props|, tail);
      NullIsWellFormed(head, " = null, ");
      NullAssignmentsAreWellFormed(tail);
      ConcatIsWellFormed(Trim(head) + " = null, ", NullAssignments(tail), NullAssignments(props));
    }
  }

  /** Rewriting a REMOVE slices at boundaries. */
  lemma {:induction false} RemoveSlices(s: Text, idx: nat, from: nat, end: nat)
    requires WellFormed(s) && OccursAt(UpperMask(s), REMOVE, idx) && from == idx + |REMOVE|
    requires end == PropertyListEnd(s[from..], UpperMask(s)[from..])
    ensures IsBoundary(s, idx) && IsBoundary(s, from) && IsBoundary(s[from..], end)
    ensures WellFormed(s[..idx]) && WellFormed(s[from..][..end]) && WellFormed(s[from..][end..])
  {
    KeywordOffsetsAreBoundaries(s, REMOVE, idx);
    PropertyListEndIsBoundary(s, from, end);
    SliceIsWellFormed(s, 0, idx, s[..idx]);
    SliceIsWellFormed(s, from, |s|, s[from..]);
    HalvesAreWellFormed(s[from..], end);
  }

  lemma {:induction false} HalvesAreWellFormed(s: Text, i: nat)
    requires WellFormed(s) && i <= |s| && IsBoundary(s, i)
    ensures WellFormed(s[..i]) && WellFormed(s[i..])
  {
    SliceIsWellFormed(s, 0, i, s[..i]);
    SliceIsWellFormed(s, i, |s|, s[i..]);
  }

  lemma {:induction false} RemoveAtKeepsWellFormed(s: Text, idx: nat)
    requires WellFormed(s) && OccursAt(UpperMask(s), REMOVE, idx) && RemoveAt(s, idx).Ok?
    ensures WellFormed(RemoveAt(s, idx).text)
  {
    var from := idx + |REMOVE|;
    var rest := s[from..];
    var end := PropertyListEnd(rest, UpperMask(s)[from..]);
    RemoveSlices(s, idx, from, end);
    TrimIsWellFormed(rest[..end]);
    NullAssignmentsAreWellFormed(Trim(rest[..end]));
    FourAreWellFormed(s[..idx], "SET ", NullAssignments(Trim(rest[..end])), rest[end..]);
  }

  lemma {:induction false} FourAreWellFormed(a: Text, b: Text, c: Text, d: Text)
    requires WellFormed(a) && b == "SET " && WellFormed(c) && WellFormed(d)
    ensures WellFormed(a + b + c + d)
  {
    AsciiIsWellFormed(b);
    ConcatIsWellFormed(a, b, a + b);
    ConcatIsWellFormed(a + b, c, a + b + c);
    ConcatIsWellFormed(a + b + c, d, a + b + c + d);
  }

  /** Truncating a text at its first REMOVE leaves no REMOVE before it, so the
      loop that means to work backwards stops after one turn. */
  lemma {:induction false} NothingBeforeFirst(u: Text, idx: nat)
    requires FirstWord(u, REMOVE) == Some(idx)
    ensures FirstWordIn(u, 0, idx, REMOVE, 0).None?
  {
    forall j: nat | j < idx
      ensures !WordIn(u, 0, idx, REMOVE, j)
    {
      var e := j + |REMOVE|;
      if OccursAt(u, REMOVE, j) {
        assert u[j + 5] == REMOVE[5];
        assert e != idx;
        assert !WordIn(u, 0, |u|, REMOVE, j);
      }
    }
  }

  /** `rewrite_remove_clauses` */
  method RewriteRemoveClauses(s: Text) returns (r: Result)
    ensures r == Remove(s)
    ensures WellFormed(s) && r.Ok? ==> WellFormed(r.text)
  {
    var masked := BlankStringLiterals(s);
    var upper := Upper(masked);
    var result := s;
    var searchFrom: nat := |upper|;
    while searchFrom > 0
      invariant searchFrom <= |upper| == |s| && upper == UpperMask(s)
      invariant searchFrom == |upper| ==> result == s
      invariant searchFrom < |upper| ==>
        FirstWordIn(upper, 0, searchFrom, REMOVE, 0).None? && Remove(s) == Ok(result)
      invariant WellFormed(s) ==> WellFormed(result)
      decreases searchFrom
    {
      var hit := FindWord(upper, 0, searchFrom, REMOVE);
      if hit.None? {
        break;
      }
      var idx := hit.value;
      NothingBeforeFirst(upper, idx);
      var one := RemoveAt(s, idx);
      if one.Err? {
        return one;
      }
      if WellFormed(s) {
        RemoveAtKeepsWellFormed(s, idx);
      }
      result := one.text;
      searchFrom := idx;
    }
    return Ok(result);
  }

  // ── The pipeline ──────────────────────────────────────────────────────

  /** `detect_unsupported_clauses`: the first WITH outside literals projects. */
  predicate HasProjection(s: Text) {
    var u := UpperMask(s);
    var hit := FirstWord(u, WITH);
    hit.Some? && IsStandaloneWith(u, hit.value)
  }

  function CypherToGql(input: Text): Result {
    var afterComments := Comments.Strip(input);
    if afterComments.None? then Err(UnclosedComment)
    else
      var afterBackticks := Backticks(afterComments.value, 0);
      if afterBackticks.Err? then afterBackticks
      else
        var afterRemove := Remove(RewriteOptional(afterBackticks.text));
        if afterRemove.Err? then afterRemove
        else
          var afterStar := RewriteStar(afterRemove.text);
          if HasProjection(afterStar) then Err(WithProjection) else Ok(afterStar)
  }

  /** `cypher_to_gql` */
  method Preprocess(input: Text) returns (r: Result)
    ensures r == CypherToGql(input)
  {
    var afterComments := Comments.StripBlockComments(input);
    if afterComments.None? {
      return Err(UnclosedComment);
    }
    var afterBackticks := ConvertBacktickIdents(afterComments.value);
    if afterBackticks.Err? {
      return afterBackticks;
    }
    var afterOptional := RewriteOptionalMatch(afterBackticks.text);
    var afterRemove := RewriteRemoveClauses(afterOptional);
    if afterRemove.Err? {
      return afterRemove;
    }
    var afterStar := RewriteWithStar(afterRemove.text);
    var masked := BlankStringLiterals(afterStar);
    var upper := Upper(masked);
    var with := FindWord(upper, 0, |upper|, WITH);
    if with.Some? && IsStandaloneWith(upper, with.value) {
      return Err(WithProjection);
    }
    return Ok(afterStar);
  }

  // ── The fast path ─────────────────────────────────────────────────────

  /** What `contains_cypher_constructs` looks for. */
  ghost predicate HasCypherConstructs(s: Text) {
    var u := UpperMask(s);
    || (exists k :: 0 <= k < |s| && Mask(s)[k] == '`')
    || !Comments.IsCommentFree(s)
    || FirstWord(u, OPTIONAL).Some?
    || FirstWord(u, REMOVE).Some?
    || (exists p :: 0 <= p < |s| && HasStarAt(u, p))
  }

  /** Without OPTIONAL as a word there is no OPTIONAL MATCH. */
  lemma {:induction false} NoOptionalNoChange(s: Text)
    requires FirstWord(UpperMask(s), OPTIONAL).None?
    ensures RewriteOptional(s) == s
  {
    var hit := FirstOptional(s);
    if hit.Some? {
      assert WordAt(UpperMask(s), OPTIONAL, hit.value);
    }
  }

  /** The fast path refines the slow one: on a text without Cypher constructs
      every pass is the identity, and the preprocessor can differ from handing the
      text on unchanged only by reporting a projecting WITH. */
  lemma {:induction false} FastPathRefinesSlowPath(s: Text)
    requires !HasCypherConstructs(s)
    ensures Comments.Strip(s) == Some(s)
    ensures Backticks(s, 0) == Ok(s)
    ensures RewriteOptional(s) == s
    ensures Remove(s) == Ok(s)
    ensures RewriteStar(s) == s
    ensures CypherToGql(s) == if HasProjection(s) then Err(WithProjection) else Ok(s)
  {
    Comments.StripIsIdentityOnCommentFree(s);
    NoBackticksNoChange(s, 0);
    assert s[0..] == s;
    NoOptionalNoChange(s);
    NoStarNoChange(s, UpperMask(s), 0);
  }

  /** `contains_with_star`, hopping from one WITH to the next. */
  method ContainsWithStar(u: Text) returns (yes: bool)
    ensures yes <==> exists p :: 0 <= p < |u| && HasStarAt(u, p)
  {
    var searchFrom: nat := 0;
    while true
      invariant searchFrom <= |u|
      invariant forall p :: 0 <= p < searchFrom ==> !HasStarAt(u, p)
      decreases |u| - searchFrom
    {
      var hit := Find(u, WITH, searchFrom);
      if hit.None? {
        assert forall p :: searchFrom <= p < |u| ==> !OccursAt(u, WITH, p);
        return false;
      }
      var at := hit.value;
      var isWord := (at == 0 || !IsAlnum(u[at - 1])) && IsBareAt(u, at + |WITH|);
      if isWord && IsStarred(u, at) {
        assert HasStarAt(u, at);
        return true;
      }
      forall p | searchFrom <= p < at + |WITH|
        ensures !HasStarAt(u, p)
      {
        if p < at {
          assert !OccursAt(u, WITH, p);
        } else if p > at && OccursAt(u, WITH, p) {
          WithDoesNotOverlap(u, at, p);
        }
      }
      searchFrom := at + |WITH|;
    }
  }

  /** `contains_cypher_constructs` */
  method ContainsCypherConstructs(s: Text) returns (yes: bool)
    ensures yes <==> HasCypherConstructs(s)
  {
    var masked := BlankStringLiterals(s);
    var upper := Upper(masked);
    var tick, slash := Find(masked, "`", 0), Find(masked, "/*", 0);
    TickFound(masked);
    CommentMarkFound(masked);
    if tick.Some? || slash.Some? {
      return true;
    }
    var optional := FindWord(upper, 0, |upper|, OPTIONAL);
    if optional.Some? {
      return true;
    }
    var remove := FindWord(upper, 0, |upper|, REMOVE);
    if remove.Some? {
      return true;
    }
    yes := ContainsWithStar(upper);
  }

  lemma {:induction false} TickFound(m: Text)
    ensures Find(m, "`", 0).Some? <==> exists k :: 0 <= k < |m| && m[k] == '`'
  {
    forall k | 0 <= k < |m|
      ensures OccursAt(m, "`", k) <==> m[k] == '`'
    {
      assert m[k + 0] == "`"[0] <==> m[k] == '`';
    }
  }

  lemma {:induction false} CommentMarkFound(m: Text)
    ensures Find(m, "/*", 0).None? <==> forall k :: 0 <= k < |m| - 1 ==> !(m[k] == '/' && m[k + 1] == '*')
  {
    var mark := "/*";
    assert |mark| == 2 && mark[0] == '/' && mark[1] == '*';
    var hit := Find(m, mark, 0);
    if hit.Some? {
      assert m[hit.value + 0] == mark[0] && m[hit.value + 1] == mark[1];
    } else {
      forall k | 0 <= k < |m| - 1
        ensures !(m[k] == '/' && m[k + 1] == '*')
      {
        assert !OccursAt(m, mark, k);
      }
    }
  }
}
