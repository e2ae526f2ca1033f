/** One text for each pass of the preprocessor, sent through all of them. */
module Samples {
  import opened Texts
  import opened Lexer
  import opened Clauses
  import opened Quoting
  import opened Preprocessor
  import opened Removal
  import Comments

  // ── Texts with nothing to rewrite ─────────────────────────────────────

  /** What a mask can show of a text of these units. */
  predicate IsDull(c: char) {
    c !in {'`', '*', 'O', 'V', 'W', 'o', 'v', 'w'}
  }

  lemma {:induction false} DullMask(t: Text)
    requires forall k :: 0 <= k < |t| ==> IsDull(t[k])
    ensures forall k :: 0 <= k < |t| ==> IsDull(Mask(t)[k]) && IsDull(UpperMask(t)[k])
  {
    forall k | 0 <= k < |t| ensures IsDull(Mask(t)[k]) && IsDull(UpperMask(t)[k]) {
      assert Mask(t)[k] == MaskAt(t, k);
      assert UpperMask(t)[k] == UpperChar(Mask(t)[k]);
    }
  }

  lemma {:induction false} DullHasNoConstructs(t: Text)
    requires forall k :: 0 <= k < |t| ==> IsDull(t[k])
    ensures !HasCypherConstructs(t) && !HasProjection(t)
  {
    DullMask(t);
    AlienWord(UpperMask(t), OPTIONAL, 0);
    AlienWord(UpperMask(t), REMOVE, 4);
    AlienWord(UpperMask(t), WITH, 0);
    NoStarIsThere(UpperMask(t));
    assert Comments.IsCommentFree(t);
  }

  lemma {:induction false} NoStarIsThere(u: Text)
    requires forall k :: 0 <= k < |u| ==> u[k] != '*'
    ensures forall p :: 0 <= p < |u| ==> !HasStarAt(u, p)
  {
  }

  /** Such a text goes through untouched. */
  lemma {:induction false} DullIsKept(t: Text)
    requires forall k :: 0 <= k < |t| ==> IsDull(t[k])
    ensures Comments.Strip(t) == Some(t) && Backticks(t, 0) == Ok(t) && RewriteOptional(t) == t
    ensures Remove(t) == Ok(t) && RewriteStar(t) == t && !HasProjection(t)
  {
    DullHasNoConstructs(t);
    FastPathRefinesSlowPath(t);
  }

  /** A text with neither comment nor backtick reaches the third pass as it is. */
  lemma {:induction false} ReachesThird(t: Text)
    requires forall k :: 0 <= k < |t| ==> t[k] != '/' && t[k] != '`'
    ensures Comments.Strip(t) == Some(t) && Backticks(t, 0) == Ok(t)
  {
    forall k | 0 <= k < |t| ensures Mask(t)[k] != '/' && Mask(t)[k] != '`' {
      assert Mask(t)[k] == MaskAt(t, k);
    }
    Comments.StripIsIdentityOnCommentFree(t);
    NoBackticksNoChange(t, 0);
    assert t[0..] == t;
  }

  /** What the passes give, one after the other. */
  lemma {:induction false} Composed(s: Text, bare: Text, quoted: Text, matched: Text, kept: Text, r: Text)
    requires Comments.Strip(s) == Some(bare) && Backticks(bare, 0) == Ok(quoted) && RewriteOptional(quoted) == matched
    requires Remove(matched) == Ok(kept) && RewriteStar(kept) == r && !HasProjection(r)
    ensures CypherToGql(s) == Ok(r)
  {
  }

  predicate IsCapital(c: char) {
    c == ' ' || IsUpperLetter(c)
  }

  // ── A comment ─────────────────────────────────────────────────────────

  lemma {:induction false} ScanOfComment(t: Text)
    requires |t| == 6 && t[0] == '/' && t[1] == '*' && t[2] == 'C' && t[3] == '*' && t[4] == '/' && t[5] == 'A'
    ensures Comments.ScanAt(t, 6).Lexing?
    ensures forall k :: 0 <= k < 5 ==> Comments.InComment(t, k)
    ensures !Comments.InComment(t, 5)
  {
    assert Comments.ScanAt(t, 1) == Comments.Opening;
    assert Comments.ScanAt(t, 2) == Comments.Commented;
    assert Comments.ScanAt(t, 3) == Comments.Commented;
    assert Comments.ScanAt(t, 4) == Comments.Shutting;
    assert Comments.ScanAt(t, 5) == Comments.Lexing(Code);
  }

  lemma {:induction false} CommentGoes()
    ensures CypherToGql("/*C*/A") == Ok("     A")
  {
    var (t, r) := ("/*C*/A", "     A");
    ScanOfComment(t);
    assert Comments.StripUpTo(t, 6) == r;
    DullIsKept(r);
  }

  // ── An identifier ─────────────────────────────────────────────────────

  lemma {:induction false} TickedIsQuoted(t: Text)
    requires |t| == 3 && t[0] == '`' && t[1] == 'A' && t[2] == '`'
    ensures Backticks(t, 0) == Ok(['"', 'A', '"'])
  {
    assert !OccursAt(t, "`", 1) by {
      assert t[1 + 0] != "`"[0];
    }
    assert OccursAt(t, "`", 2);
    assert Find(t, "`", 1) == Some(2);
    var id := t[1..2];
    assert id == ['A'] && DoubledUpTo(id, 1, '"') == DoubledUpTo(id, 0, '"') + ['A'];
    assert Delimited(id, '"') == ['"', 'A', '"'];
  }

  lemma {:induction false} IdentifierIsQuoted()
    ensures CypherToGql("`A`") == Ok("\"A\"")
  {
    var (t, r) := ("`A`", ['"', 'A', '"']);
    forall k | 0 <= k < |t| - 1 ensures !(Mask(t)[k] == '/' && Mask(t)[k + 1] == '*') {
      assert Mask(t)[k] == MaskAt(t, k);
    }
    Comments.StripIsIdentityOnCommentFree(t);
    TickedIsQuoted(t);
    DullIsKept(r);
  }

  // ── What is refused ───────────────────────────────────────────────────

  lemma {:induction false} OpenComment(t: Text)
    requires |t| == 2 && t[0] == '/' && t[1] == '*'
    ensures CypherToGql(t) == Err(UnclosedComment)
  {
    assert Comments.ScanAt(t, 1) == Comments.Opening;
    assert Comments.ScanAt(t, 2) == Comments.Commented;
  }

  lemma {:induction false} TicksReachSecond(t: Text)
    requires forall k :: 0 <= k < |t| ==> t[k] != '/'
    ensures Comments.Strip(t) == Some(t)
  {
    forall k | 0 <= k < |t| ensures Mask(t)[k] != '/' {
      assert Mask(t)[k] == MaskAt(t, k);
    }
    Comments.StripIsIdentityOnCommentFree(t);
  }

  lemma {:induction false} OpenBacktick(t: Text)
    requires |t| == 2 && t[0] == '`' && t[1] == 'A'
    ensures CypherToGql(t) == Err(UnclosedBacktick)
  {
    TicksReachSecond(t);
    NoUnit(t[1..], '`');
    forall j: nat | j >= 1 ensures !OccursAt(t, "`", j) {
      assert j < |t| ==> t[j + 0] != "`"[0];
    }
    assert Find(t, "`", 1).None?;
  }

  lemma {:induction false} EmptyBackticks(t: Text)
    requires |t| == 2 && t[0] == '`' && t[1] == '`'
    ensures CypherToGql(t) == Err(EmptyBacktick)
  {
    TicksReachSecond(t);
    assert OccursAt(t, "`", 1);
    assert Find(t, "`", 1) == Some(1);
  }

  lemma {:induction false} NothingListed(t: Text)
    requires |t| == 6 && UpperMask(t) == t
    ensures RemoveAt(t, 0) == Err(EmptyRemove)
  {
    assert t[6..] == [];
    ListToTheEnd([]);
    assert Trim([]) == [];
  }

  lemma {:induction false} FailsAtRemove(t: Text)
    requires (forall k :: 0 <= k < |t| ==> IsCapital(t[k])) && FirstWord(UpperMask(t), OPTIONAL).None?
    requires Remove(t).Err?
    ensures CypherToGql(t) == Remove(t)
  {
    ReachesThird(t);
    NoOptionalNoChange(t);
  }

  lemma {:induction false} RemoveOfNothing(t: Text)
    requires t == "REMOVE"
    ensures CypherToGql(t) == Err(EmptyRemove)
  {
    assert forall k :: 0 <= k < |t| ==> IsCapital(t[k]) && t[k] != 'P';
    ShownAsIs(t);
    NoOptionalIn(t);
    Spelled(t, 0);
    FirstAtStart(t);
    NothingListed(t);
    FailsAtRemove(t);
  }

  // ── OPTIONAL MATCH ────────────────────────────────────────────────────

  /** `OPTIONAL MATCH N`, unit by unit. */
  predicate IsOptionalSample(t: Text) {
    && |t| == 16 && t[0] == 'O' && t[1] == 'P' && t[2] == 'T' && t[3] == 'I' && t[4] == 'O'
    && t[5] == 'N' && t[6] == 'A' && t[7] == 'L' && t[8] == ' ' && t[9] == 'M' && t[10] == 'A'
    && t[11] == 'T' && t[12] == 'C' && t[13] == 'H' && t[14] == ' ' && t[15] == 'N'
  }

  lemma {:induction false} SampleWords(t: Text)
    requires IsOptionalSample(t)
    ensures OccursAt(t, OPTIONAL, 0) && OccursAt(t, MATCH, 9) && SkipBlanks(t, 8) == 9
  {
    assert SkipBlanks(t, 9) == 9;
  }

  lemma {:induction false} OptionalIsFirst(t: Text)
    requires IsOptionalSample(t) && UpperMask(t) == t
    ensures FirstOptional(t) == Some(0) && DropOptional(t, 0) == t[9..]
  {
    SampleWords(t);
    assert OperatorAt(t, OPTIONAL, MATCH, 0);
    assert t[..0] + t[9..] == t[9..];
  }
  lemma {:induction false} RestIsDull(t: Text)
    requires IsOptionalSample(t)
    ensures forall k :: 0 <= k < |t[9..]| ==> IsDull(t[9..][k])
    ensures forall k :: 0 <= k < |t| ==> IsCapital(t[k])
  {
  }

  lemma {:induction false} OptionalIsDropped(t: Text, r: Text)
    requires FirstOptional(t) == Some(0) && DropOptional(t, 0) == r && (forall k :: 0 <= k < |r| ==> IsDull(r[k]))
    requires forall k :: 0 <= k < |t| ==> IsCapital(t[k])
    ensures CypherToGql(t) == Ok(r)
  {
    ReachesThird(t);
    DullIsKept(r);
    assert RewriteOptional(t) == RewriteOptional(r);
    Composed(t, t, t, r, r, r);
  }

  lemma {:induction false} OptionalGoes(t: Text)
    requires t == "OPTIONAL MATCH N"
    ensures CypherToGql(t) == Ok(t[9..])
  {
    assert IsOptionalSample(t);
    RestIsDull(t);
    NoQuotesNoMask(t);
    OptionalIsFirst(t);
    OptionalIsDropped(t, t[9..]);
  }

  // ── REMOVE ────────────────────────────────────────────────────────────

  /** `REMOVE A`, unit by unit. */
  predicate IsRemoveSample(t: Text) {
    && |t| == 8 && t[0] == 'R' && t[1] == 'E' && t[2] == 'M' && t[3] == 'O' && t[4] == 'V'
    && t[5] == 'E' && t[6] == ' ' && t[7] == 'A'
  }

  /** What becomes of the list ` A`. */
  lemma {:induction false} OnlyName(list: Text)
    requires |list| == 2 && list[0] == ' ' && list[1] == 'A'
    ensures PropertyListEnd(list, list) == 2 && Trim(list) == ['A']
  {
    ListToTheEnd(list);
    assert TrimForward(list, 1) == 1 && TrimBack(list, 2) == 2;
  }

  lemma {:induction false} NullName(name: Text)
    requires name == ['A']
    ensures NullAssignments(name) == name + " = null"
  {
    NullFirst(name, []);
    assert TrimForward(name, 0) == 0 && TrimBack(name, 1) == 1;
  }

  lemma {:induction false} RemoveIsSet(t: Text)
    requires IsRemoveSample(t) && UpperMask(t) == t
    ensures Remove(t) == Ok("SET " + (['A'] + " = null"))
  {
    var (rest, nulled) := (t[6..], ['A'] + " = null");
    FirstAtStart(t);
    OnlyName(rest);
    NullName(['A']);
    assert rest + [] == rest;
    RemoveFrom(t, rest, rest, [], ['A'], nulled);
    assert "SET " + nulled + [] == "SET " + nulled;
  }

  lemma {:induction false} SetIsDull(r: Text)
    requires r == "SET " + (['A'] + " = null")
    ensures forall k :: 0 <= k < |r| ==> IsDull(r[k])
  {
  }

  lemma {:induction false} SetIsLeft(t: Text, r: Text)
    requires Remove(t) == Ok(r) && (forall k :: 0 <= k < |r| ==> IsDull(r[k]))
    requires (forall k :: 0 <= k < |t| ==> IsCapital(t[k])) && UpperMask(t) == t && FirstWord(t, OPTIONAL).None?
    ensures CypherToGql(t) == Ok(r)
  {
    ReachesThird(t);
    NoOptionalNoChange(t);
    DullIsKept(r);
    Composed(t, t, t, t, r, r);
  }

  lemma {:induction false} RemoveUnits(t: Text)
    requires IsRemoveSample(t)
    ensures forall k :: 0 <= k < |t| ==> IsCapital(t[k]) && t[k] != 'P'
  {
  }

  lemma {:induction false} ShownAsIs(t: Text)
    requires forall k :: 0 <= k < |t| ==> t[k] == '*' || IsCapital(t[k])
    ensures UpperMask(t) == t
  {
    NoQuotesNoMask(t);
  }

  lemma {:induction false} NoOptionalIn(t: Text)
    requires forall k :: 0 <= k < |t| ==> t[k] != 'P'
    ensures FirstWord(t, OPTIONAL).None?
  {
    AlienWord(t, OPTIONAL, 1);
  }

  lemma {:induction false} RemoveBecomesSet()
    ensures CypherToGql("REMOVE A") == Ok("SET " + (['A'] + " = null"))
  {
    var (t, r) := ("REMOVE A", "SET " + (['A'] + " = null"));
    assert IsRemoveSample(t);
    RemoveUnits(t);
    ShownAsIs(t);
    NoOptionalIn(t);
    RemoveIsSet(t);
    SetIsDull(r);
    SetIsLeft(t, r);
  }

  // ── WITH * ────────────────────────────────────────────────────────────

  /** `MATCH N WITH * RETURN N`, as far as it matters. */
  predicate IsStarSample(t: Text) {
    && |t| == 23 && (forall k :: 0 <= k < |t| ==> t[k] == '*' || IsCapital(t[k]))
    && (forall k :: 0 <= k < |t| && k != 8 ==> t[k] != 'W')
    && (forall k :: 0 <= k < |t| ==> t[k] != 'O' && t[k] != 'V')
    && t[6] == 'N' && t[7] == ' ' && t[8] == 'W' && t[9] == 'I' && t[10] == 'T' && t[11] == 'H'
    && t[12] == ' ' && t[13] == '*' && t[14] == ' '
    && forall k :: 0 <= k < |t| && k != 13 ==> t[k] != '*'
  }

  lemma {:induction false} SampleSpan(t: Text)
    requires IsStarSample(t)
    ensures IsStarSpan(t, 8, 14)
  {
    assert BlankTo(t, 8) == 1 && BlankTo(t, 7) == 0;
    assert TrimBack(t, 7) == 7 && TrimBack(t, 8) == 7;
    NotEndsIn(t, "STARTS", 7);
    NotEndsIn(t, "ENDS", 7);
    assert BlankFrom(t, 12) == 1 && BlankFrom(t, 13) == 0;
    assert TrimForward(t, 13) == 13 && TrimForward(t, 12) == 13;
  }

  lemma {:induction false} EndsIn(t: Text, w: Text, j: nat)
    requires |w| > 0 && OccursBefore(t, w, j)
    ensures t[j - 1] == w[|w| - 1]
  {
    assert t[(j - |w|) + (|w| - 1)] == w[|w| - 1];
  }

  lemma {:induction false} NotEndsIn(t: Text, w: Text, j: nat)
    requires 0 < j <= |t| && |w| > 0 && t[j - 1] != w[|w| - 1]
    ensures !OccursBefore(t, w, j)
  {
    if OccursBefore(t, w, j) {
      EndsIn(t, w, j);
    }
  }

  lemma {:induction false} OnlySpan(t: Text, k: nat)
    requires IsStarSample(t) && k < |t|
    ensures InStarSpan(t, k) <==> 8 <= k < 14
  {
    SampleSpan(t);
    if InStarSpan(t, k) {
      var p: nat, e: nat :| p <= k < e && IsStarSpan(t, p, e);
      assert t[p + 0] == WITH[0];
    }
  }

  lemma {:induction false} SampleIsBlanked(t: Text, r: Text)
    requires IsStarSample(t) && UpperMask(t) == t && r == t[..8] + Spaces(6) + t[14..]
    ensures RewriteStar(t) == r
  {
    forall k | 0 <= k < |t| ensures RewriteStar(t)[k] == r[k] {
      BlankedExactly(t, k);
      OnlySpan(t, k);
    }
  }

  lemma {:induction false} BeforeStar(t: Text)
    requires (forall k :: 0 <= k < |t| ==> t[k] == '*' || IsCapital(t[k])) && UpperMask(t) == t
    requires forall k :: 0 <= k < |t| ==> t[k] != 'O' && t[k] != 'V'
    ensures Comments.Strip(t) == Some(t) && Backticks(t, 0) == Ok(t) && RewriteOptional(t) == t && Remove(t) == Ok(t)
  {
    ReachesThird(t);
    AlienWord(t, OPTIONAL, 0);
    NoOptionalNoChange(t);
    AlienWord(t, REMOVE, 4);
  }

  lemma {:induction false} BlankedIsDull(t: Text, r: Text)
    requires IsStarSample(t) && r == t[..8] + Spaces(6) + t[14..]
    ensures forall k :: 0 <= k < |r| ==> IsDull(r[k])
  {
    forall k | 0 <= k < |r| ensures IsDull(r[k]) {
      assert r[k] == if 8 <= k < 14 then ' ' else t[k];
    }
  }

  lemma {:induction false} SampleGoesThrough(t: Text, r: Text)
    requires IsStarSample(t) && r == t[..8] + Spaces(6) + t[14..]
    ensures CypherToGql(t) == Ok(r)
  {
    NoQuotesNoMask(t);
    BeforeStar(t);
    SampleIsBlanked(t, r);
    BlankedIsDull(t, r);
    DullHasNoConstructs(r);
    Composed(t, t, t, t, t, r);
  }

  /** `MATCH N WITH * RETURN N`, unit by unit. */
  predicate IsMatchSample(t: Text) {
    && |t| == 23 && t[0] == 'M' && t[1] == 'A' && t[2] == 'T' && t[3] == 'C' && t[4] == 'H'
    && t[5] == ' ' && t[6] == 'N' && t[7] == ' ' && t[8] == 'W' && t[9] == 'I' && t[10] == 'T'
    && t[11] == 'H' && t[12] == ' ' && t[13] == '*' && t[14] == ' ' && t[15] == 'R' && t[16] == 'E'
    && t[17] == 'T' && t[18] == 'U' && t[19] == 'R' && t[20] == 'N' && t[21] == ' ' && t[22] == 'N'
  }

  lemma {:induction false} MatchIsStarSample(t: Text)
    requires IsMatchSample(t)
    ensures IsStarSample(t)
  {
  }

  lemma {:induction false} BlankedSample(t: Text)
    requires IsMatchSample(t)
    ensures t[..8] + Spaces(6) + t[14..] == "MATCH N        RETURN N"
  {
  }

  lemma {:induction false} StarGoes()
    ensures CypherToGql("MATCH N WITH * RETURN N") == Ok("MATCH N        RETURN N")
  {
    var t := "MATCH N WITH * RETURN N";
    assert IsMatchSample(t);
    MatchIsStarSample(t);
    BlankedSample(t);
    SampleGoesThrough(t, t[..8] + Spaces(6) + t[14..]);
  }

  // ── The order of the passes ───────────────────────────────────────────

  lemma {:induction false} ScanOfTick(t: Text)
    requires |t| == 5 && t[0] == '/' && t[1] == '*' && t[2] == '`' && t[3] == '*' && t[4] == '/'
    ensures Comments.ScanAt(t, 5).Lexing? && forall k :: 0 <= k < 5 ==> Comments.InComment(t, k)
  {
    assert Comments.ScanAt(t, 1) == Comments.Opening;
    assert Comments.ScanAt(t, 2) == Comments.Commented;
    assert Comments.ScanAt(t, 3) == Comments.Commented;
    assert Comments.ScanAt(t, 4) == Comments.Shutting;
  }

  /** Comments go before identifiers are looked for. */
  lemma {:induction false} TickInComment()
    ensures CypherToGql("/*`*/") == Ok(Spaces(5))
  {
    var t := "/*`*/";
    ScanOfTick(t);
    assert Comments.StripUpTo(t, 5) == Spaces(5);
    DullIsKept(Spaces(5));
  }

  /** `REMOVE A WITH *`, unit by unit. */
  predicate IsRemoveStar(t: Text) {
    && |t| == 15 && (forall k :: 0 <= k < |t| ==> t[k] == '*' || (IsCapital(t[k]) && t[k] != 'P'))
    && t[0] == 'R' && t[1] == 'E' && t[2] == 'M' && t[3] == 'O' && t[4] == 'V' && t[5] == 'E'
    && t[6] == ' ' && t[7] == 'A' && t[8] == ' ' && t[9] == 'W' && t[10] == 'I' && t[11] == 'T' && t[12] == 'H'
    && t[13] == ' ' && t[14] == '*'
  }

  lemma {:induction false} WithEndsList(rest: Text)
    requires |rest| == 9 && rest[0] == ' ' && rest[1] == 'A' && rest[2] == ' ' && rest[3] == 'W' && rest[4] == 'I'
    requires rest[5] == 'T' && rest[6] == 'H' && rest[7] == ' ' && rest[8] == '*'
    ensures PropertyListEnd(rest, rest) == 3
  {
    NoUnit(rest, ';');
    FirstWithOfRest(rest);
    ListEndAtWith(rest, 0);
  }

  lemma {:induction false} FirstWithOfRest(rest: Text)
    requires |rest| == 9 && rest[3] == 'W' && rest[4] == 'I' && rest[5] == 'T' && rest[6] == 'H' && rest[7] == ' '
    requires rest[0] == ' ' && rest[1] == 'A' && rest[2] == ' '
    ensures FirstWord(rest, WITH) == Some(3)
  {
    assert WordIn(rest, 0, |rest|, WITH, 3);
    forall j: nat | j < 3 ensures !WordIn(rest, 0, |rest|, WITH, j) {
      assert rest[j + 0] != WITH[0];
    }
    FirstWordIs(rest, 0, |rest|, WITH, 3);
  }

  /** No clause but WITH is found. */
  lemma {:induction false} OnlyWith(rest: Text, i: nat)
    requires i < |CLAUSES| && i != 10
    requires forall k :: 0 <= k < |rest| ==> rest[k] in {' ', 'A', 'W', 'I', 'T', 'H', '*'}
    ensures CLAUSES[i] != [] && FirstWord(rest, CLAUSES[i]).None?
  {
    var alien := [0, 0, 0, 0, 0, 0, 0, 2, 0, 0, 0, 0, 0];
    assert CLAUSES[i][alien[i]] !in {' ', 'A', 'W', 'I', 'T', 'H', '*'};
    AlienWord(rest, CLAUSES[i], alien[i]);
  }

  lemma {:induction false} ListEndAtWith(rest: Text, i: nat)
    requires i <= 10 && FirstWord(rest, WITH) == Some(3) && |rest| == 9
    requires forall k :: 0 <= k < |rest| ==> rest[k] in {' ', 'A', 'W', 'I', 'T', 'H', '*'}
    ensures ListEnd(rest, rest, 9, CLAUSES[i..]) == 3
    decreases 10 - i
  {
    var kws := CLAUSES[i..];
    assert kws[0] == CLAUSES[i] && kws[1..] == CLAUSES[i + 1..];
    if i == 10 {
      assert CLAUSES[10] == WITH;
      assert CLAUSES[11..] == [CLAUSES[11], CLAUSES[12]];
      OnlyWith(rest, 11);
      OnlyWith(rest, 12);
      NoClauseInList(rest, rest, 3, CLAUSES[11..]);
    } else {
      OnlyWith(rest, i);
      ListEndAtWith(rest, i + 1);
    }
  }

  /** The clause is glued to what comes out, so that there is no WITH any more. */
  lemma {:induction false} GluedIsNoWith(r: Text, front: Text, tail: Text)
    requires |front| == 12 && r == front + tail && UpperChar(front[11]) == 'L'
    requires forall k :: 0 <= k < 12 ==> IsDull(front[k]) && !IsQuote(front[k])
    requires forall k :: 0 <= k < |tail| ==> !IsQuote(tail[k]) && (k > 0 ==> UpperChar(tail[k]) != 'W')
    ensures RewriteStar(r) == r && !HasProjection(r)
  {
    QuoteFreeRun(r, 0, |r|);
    var u := UpperMask(r);
    assert forall k :: 0 <= k < |r| ==> u[k] == UpperChar(r[k]);
    forall p: nat ensures !WordAt(u, WITH, p) {
      if OccursAt(u, WITH, p) {
        assert u[p + 0] == WITH[0];
        assert p == 12;
      }
    }
    NoStarNoChange(r, u, 0);
  }

  lemma {:induction false} OnlyTrimmed(list: Text)
    requires |list| == 3 && list[0] == ' ' && list[1] == 'A' && list[2] == ' '
    ensures Trim(list) == ['A']
  {
    assert TrimForward(list, 1) == 1 && TrimForward(list, 0) == 1;
    assert TrimBack(list, 2) == 2 && TrimBack(list, 3) == 2;
  }

  lemma {:induction false} RestOfRemoveStar(t: Text, rest: Text)
    requires IsRemoveStar(t) && rest == t[6..]
    ensures PropertyListEnd(rest, rest) == 3 && rest == t[6..9] + t[9..] && Trim(t[6..9]) == ['A']
  {
    WithEndsList(rest);
    OnlyTrimmed(t[6..9]);
  }

  lemma {:induction false} RemovesBeforeStar(t: Text, nulled: Text)
    requires IsRemoveStar(t) && UpperMask(t) == t && WordAt(t, REMOVE, 0) && nulled == ['A'] + " = null"
    ensures Remove(t) == Ok("SET " + nulled + t[9..])
  {
    FirstAtStart(t);
    RestOfRemoveStar(t, t[6..]);
    NullName(['A']);
    RemoveFrom(t, t[6..], t[6..9], t[9..], ['A'], nulled);
  }

  lemma {:induction false} SetFront(front: Text)
    requires front == "SET " + (['A'] + " = null")
    ensures |front| == 12 && front[11] == 'l' && forall k :: 0 <= k < 12 ==> IsDull(front[k]) && !IsQuote(front[k])
  {
  }

  lemma {:induction false} BeforeRemove(t: Text)
    requires IsRemoveStar(t)
    ensures Comments.Strip(t) == Some(t) && Backticks(t, 0) == Ok(t) && RewriteOptional(t) == t && UpperMask(t) == t
  {
    ReachesThird(t);
    ShownAsIs(t);
    NoOptionalIn(t);
    NoOptionalNoChange(t);
  }

  lemma {:induction false} TailUnits(t: Text, tail: Text)
    requires IsRemoveStar(t) && tail == t[9..]
    ensures forall k :: 0 <= k < |tail| ==> !IsQuote(tail[k]) && (k > 0 ==> UpperChar(tail[k]) != 'W')
  {
  }

  lemma {:induction false} AfterRemove(t: Text, front: Text, r: Text)
    requires IsRemoveStar(t) && front == "SET " + (['A'] + " = null") && r == front + t[9..]
    ensures RewriteStar(r) == r && !HasProjection(r)
  {
    SetFront(front);
    TailUnits(t, t[9..]);
    GluedIsNoWith(r, front, t[9..]);
  }

  lemma {:induction false} RemoveIsWord(t: Text)
    requires IsRemoveStar(t)
    ensures WordAt(t, REMOVE, 0)
  {
    Spelled(t, 0);
  }

  lemma {:induction false} RemoveStarGoes(t: Text, nulled: Text, r: Text)
    requires IsRemoveStar(t) && nulled == ['A'] + " = null" && r == "SET " + nulled + t[9..]
    ensures CypherToGql(t) == Ok(r)
  {
    BeforeRemove(t);
    RemoveIsWord(t);
    RemovesBeforeStar(t, nulled);
    AfterRemove(t, "SET " + nulled, r);
    Composed(t, t, t, t, r, r);
  }

  /** REMOVE is rewritten before WITH * is blanked, and glues it. */
  lemma {:induction false} RemoveHidesStar(t: Text)
    requires t == "REMOVE A WITH *"
    ensures CypherToGql(t) == Ok("SET " + (['A'] + " = null") + t[9..])
  {
    assert IsRemoveStar(t);
    RemoveStarGoes(t, ['A'] + " = null", "SET " + (['A'] + " = null") + t[9..]);
  }
}
