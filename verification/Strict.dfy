/** The scan of strict GQL mode (`reject_cypher_constructs`), and what it lets through. */
module Strict {
  import opened Texts
  import opened Lexer
  import opened Clauses
  import opened Preprocessor
  import opened Removal
  import Comments

  const STARTS := "STARTS"
  const ENDS := "ENDS"
  const CONTAINS := "CONTAINS"
  const UNWIND := "UNWIND"
  const IN := "IN"
  const FUNCTIONS: seq<Text> := ["ID(", "TYPE(", "LABELS("]

  // ── What is looked for ────────────────────────────────────────────────

  /** `IN` as a word, blanks, and a bracket. */
  predicate InListAt(u: Text, p: nat) {
    && WordAt(u, IN, p)
    && var g := SkipBlanks(u, p + |IN|); g < |u| && u[g] == '['
  }

  /** The pattern, with no letter or digit before it. */
  predicate FunctionAt(u: Text, pattern: Text, p: nat) {
    OccursAt(u, pattern, p) && (p == 0 || !IsAlnum(u[p - 1]))
  }

  ghost predicate HasInList(u: Text) {
    exists p: nat :: InListAt(u, p)
  }

  ghost predicate HasFunction(u: Text, pattern: Text) {
    exists p: nat :: FunctionAt(u, pattern, p)
  }

  ghost predicate HasTick(s: Text) {
    exists k :: 0 <= k < |s| && Mask(s)[k] == '`'
  }

  predicate HasOperator(u: Text, first: Text)
    requires |first| > 0
  {
    FirstOperator(u, first, WITH, 0).Some?
  }

  ghost predicate Rejects(s: Text) {
    var u := UpperMask(s);
    || !Comments.IsCommentFree(s) || HasTick(s)
    || HasOperator(u, STARTS) || HasOperator(u, ENDS) || FirstWord(u, CONTAINS).Some?
    || HasInList(u)
    || HasFunction(u, FUNCTIONS[0]) || HasFunction(u, FUNCTIONS[1]) || HasFunction(u, FUNCTIONS[2])
    || FirstWord(u, REMOVE).Some? || FirstOptional(s).Some? || HasProjection(s) || FirstWord(u, UNWIND).Some?
  }

  // ── The source's loops ────────────────────────────────────────────────

  method PastBlanks(u: Text, after: nat) returns (cursor: nat)
    requires after <= |u|
    ensures cursor == SkipBlanks(u, after)
  {
    cursor := after;
    while cursor < |u| && IsAsciiBlank(u[cursor])
      invariant after <= cursor <= |u|
      invariant SkipBlanks(u, cursor) == SkipBlanks(u, after)
    {
      cursor := cursor + 1;
    }
  }

  /** `find_in_list_operator` */
  method FindInList(u: Text) returns (yes: bool)
    ensures yes <==> HasInList(u)
  {
    var searchFrom: nat := 0;
    while true
      invariant searchFrom <= |u|
      invariant forall p: nat :: p < searchFrom ==> !InListAt(u, p)
      decreases |u| - searchFrom
    {
      var hit := Find(u, IN, searchFrom);
      if hit.None? {
        assert forall p: nat :: searchFrom <= p ==> !OccursAt(u, IN, p);
        return false;
      }
      var at := hit.value;
      assert forall p: nat :: searchFrom <= p < at ==> !OccursAt(u, IN, p);
      var after := at + |IN|;
      if (at == 0 || !IsAlnum(u[at - 1])) && (after >= |u| || !IsAlnum(u[after])) {
        var cursor := PastBlanks(u, after);
        if cursor < |u| && u[cursor] == '[' {
          assert InListAt(u, at);
          return true;
        }
      }
      assert !InListAt(u, at);
      searchFrom := at + 1;
    }
  }

  /** `find_function_call` */
  method FindFunction(u: Text, pattern: Text) returns (yes: bool)
    requires |pattern| > 0
    ensures yes <==> HasFunction(u, pattern)
  {
    var searchFrom: nat := 0;
    while true
      invariant searchFrom <= |u|
      invariant forall p: nat :: p < searchFrom ==> !FunctionAt(u, pattern, p)
      decreases |u| - searchFrom
    {
      var hit := Find(u, pattern, searchFrom);
      if hit.None? {
        assert forall p: nat :: searchFrom <= p ==> !OccursAt(u, pattern, p);
        return false;
      }
      var at := hit.value;
      assert forall p: nat :: searchFrom <= p < at ==> !OccursAt(u, pattern, p);
      if at == 0 || !IsAlnum(u[at - 1]) {
        assert FunctionAt(u, pattern, at);
        return true;
      }
      searchFrom := at + 1;
    }
  }

  method FindOperators(u: Text) returns (yes: bool)
    ensures yes <==> HasOperator(u, STARTS) || HasOperator(u, ENDS) || FirstWord(u, CONTAINS).Some?
  {
    var starts := FindCypherOperator(u, STARTS, WITH);
    if starts.Some? {
      return true;
    }
    var ends := FindCypherOperator(u, ENDS, WITH);
    if ends.Some? {
      return true;
    }
    var contains := FindWord(u, 0, |u|, CONTAINS);
    return contains.Some?;
  }

  method FindFunctions(u: Text) returns (yes: bool)
    ensures yes <==> HasFunction(u, FUNCTIONS[0]) || HasFunction(u, FUNCTIONS[1]) || HasFunction(u, FUNCTIONS[2])
  {
    for i := 0 to |FUNCTIONS|
      invariant forall k :: 0 <= k < i ==> !HasFunction(u, FUNCTIONS[k])
    {
      var found := FindFunction(u, FUNCTIONS[i]);
      if found {
        return true;
      }
    }
    return false;
  }

  method FindClauses(s: Text, u: Text) returns (yes: bool)
    requires u == UpperMask(s)
    ensures yes <==>
      FirstWord(u, REMOVE).Some? || FirstOptional(s).Some? || HasProjection(s) || FirstWord(u, UNWIND).Some?
  {
    var remove := FindWord(u, 0, |u|, REMOVE);
    if remove.Some? {
      return true;
    }
    var optional := FindCypherOperator(u, OPTIONAL, MATCH);
    if optional.Some? {
      return true;
    }
    var with := FindWord(u, 0, |u|, WITH);
    if with.Some? && IsStandaloneWith(u, with.value) {
      return true;
    }
    var unwind := FindWord(u, 0, |u|, UNWIND);
    return unwind.Some?;
  }

  /** `reject_cypher_constructs` */
  method RejectCypherConstructs(s: Text) returns (yes: bool)
    ensures yes <==> Rejects(s)
  {
    var masked := BlankStringLiterals(s);
    TickFound(masked);
    CommentMarkFound(masked);
    if Find(masked, "/*", 0).Some? || Find(masked, "`", 0).Some? {
      return true;
    }
    var upper := Upper(masked);
    var operators := FindOperators(upper);
    if operators {
      return true;
    }
    var list := FindInList(upper);
    if list {
      return true;
    }
    var functions := FindFunctions(upper);
    if functions {
      return true;
    }
    yes := FindClauses(s, upper);
  }

  // ── What it lets through ──────────────────────────────────────────────

  /** A starred WITH that the scan does not see: the first WITH of the text, before it,
      passes for the end of STARTS WITH or ENDS WITH, and is not. */
  ghost predicate IsHiddenStar(u: Text, p: nat) {
    && HasStarAt(u, p)
    && var first := FirstWord(u, WITH);
    && first.Some? && first.value < p && !IsStandaloneWith(u, first.value)
    && !HasOperator(u, STARTS) && !HasOperator(u, ENDS)
  }

  /** Of the texts with Cypher constructs strict mode lets through those with an OPTIONAL
      before no MATCH, those with a hidden star, and no others. */
  lemma {:induction false} LetThroughExactly(s: Text)
    requires !Rejects(s)
    ensures HasCypherConstructs(s) <==>
      FirstWord(UpperMask(s), OPTIONAL).Some? || exists p: nat :: IsHiddenStar(UpperMask(s), p)
  {
    var u := UpperMask(s);
    forall p: nat | HasStarAt(u, p) ensures IsHiddenStar(u, p) {
      FirstWithIsBefore(u, p);
    }
    if p: nat :| HasStarAt(u, p) && p < |s| {
      assert IsHiddenStar(u, p);
    }
    if p: nat :| IsHiddenStar(u, p) {
      assert p < |s| && HasStarAt(u, p);
    }
  }

  /** The first WITH comes no later than a starred one, and is standalone if it is that. */
  lemma {:induction false} FirstWithIsBefore(u: Text, p: nat)
    requires HasStarAt(u, p)
    ensures var first := FirstWord(u, WITH);
      first.Some? && first.value <= p && (first.value == p ==> IsStandaloneWith(u, p))
  {
    assert WordAt(u, WITH, p);
  }

  /** A word and WITH behind it, with ASCII whitespace between. */
  predicate IsNear(u: Text, word: Text, at: nat, q: nat) {
    && OccursAt(u, word, at) && at + |word| <= q <= |u| && (at == 0 || !IsAlnum(u[at - 1]))
    && forall k :: at + |word| <= k < q ==> IsAsciiBlank(u[k])
  }

  lemma {:induction false} NearIsOperator(u: Text, word: Text, at: nat, q: nat)
    requires (word == STARTS || word == ENDS) && IsNear(u, word, at, q) && WordAt(u, WITH, q)
    ensures OperatorAt(u, word, WITH, at)
  {
    WordsAreApart(u, word, at, q);
    GapEnds(u, at + |word|, q);
  }

  lemma {:induction false} WordsAreApart(u: Text, word: Text, at: nat, q: nat)
    requires (word == STARTS || word == ENDS) && OccursAt(u, word, at) && at + |word| <= q && WordAt(u, WITH, q)
    ensures at + |word| < q && u[q] == 'W'
  {
    assert u[at + (|word| - 1)] == word[|word| - 1] == 'S';
    assert u[q + 0] == WITH[0];
  }

  /** And then the word before it merely ends in STARTS or ENDS, or stands apart from it by
      a blank that is not ASCII whitespace. */
  lemma {:induction false} HiddenBehind(u: Text, p: nat, word: Text, at: nat)
    requires IsHiddenStar(u, p) && (word == STARTS || word == ENDS)
    requires OccursBefore(u, word, TrimBack(u, FirstWord(u, WITH).value))
    requires at == TrimBack(u, FirstWord(u, WITH).value) - |word|
    ensures var q := FirstWord(u, WITH).value;
      (at > 0 && IsAlnum(u[at - 1])) || exists k :: at + |word| <= k < q && !IsAsciiBlank(u[k])
  {
    if IsNear(u, word, at, FirstWord(u, WITH).value) {
      NearIsOperator(u, word, at, FirstWord(u, WITH).value);
    }
  }

  lemma {:induction false} GapEnds(u: Text, e: nat, q: nat)
    requires e <= q < |u| && (forall k :: e <= k < q ==> IsAsciiBlank(u[k])) && !IsAsciiBlank(u[q])
    ensures SkipBlanks(u, e) == q
    decreases q - e
  {
    if e < q {
      GapEnds(u, e + 1, q);
    }
  }

  // ── Texts that show it ────────────────────────────────────────────────

  lemma {:induction false} NoUnitNoFunction(u: Text)
    requires forall k :: 0 <= k < |u| ==> u[k] != '('
    ensures forall i :: 0 <= i < |FUNCTIONS| ==> !HasFunction(u, FUNCTIONS[i])
  {
    forall i, p: nat | 0 <= i < |FUNCTIONS| ensures !FunctionAt(u, FUNCTIONS[i], p) {
      var n := |FUNCTIONS[i]| - 1;
      assert FUNCTIONS[i][n] == '(';
      assert p + |FUNCTIONS[i]| <= |u| ==> u[p + n] != FUNCTIONS[i][n];
    }
  }

  lemma {:induction false} NoUnitNoInList(u: Text)
    requires forall k :: 0 <= k < |u| ==> u[k] != '['
    ensures !HasInList(u)
  {
  }

  /** A letter that the text does not have keeps a word out of it. */
  predicate IsAlien(u: Text, w: Text, k: nat) {
    k < |w| && forall i :: 0 <= i < |u| ==> u[i] != w[k]
  }

  lemma {:induction false} AlienOperator(u: Text, first: Text, second: Text, k: nat)
    requires |first| > 0 && (IsAlien(u, first, k) || IsAlien(u, second, k))
    ensures FirstOperator(u, first, second, 0).None?
  {
    var w := if IsAlien(u, first, k) then first else second;
    forall p: nat ensures !OccursAt(u, w, p) {
      assert p + |w| <= |u| ==> u[p + k] != w[k];
    }
  }

  lemma {:induction false} PlainText(t: Text)
    requires forall k :: 0 <= k < |t| ==> t[k] == ' ' || t[k] == '*' || IsUpperLetter(t[k])
    ensures Mask(t) == t && UpperMask(t) == t && !HasTick(t) && Comments.IsCommentFree(t)
  {
    QuoteFreeRun(t, 0, |t|);
    assert forall k :: 0 <= k < |t| ==> Mask(t)[k] == t[k];
    assert forall k :: 0 <= k < |t| ==> UpperMask(t)[k] == t[k];
  }

  /** None of the operators, words and clauses is in the text. */
  ghost predicate IsClear(u: Text) {
    && !HasOperator(u, STARTS) && !HasOperator(u, ENDS) && FirstOperator(u, OPTIONAL, MATCH, 0).None?
    && FirstWord(u, CONTAINS).None? && FirstWord(u, REMOVE).None? && FirstWord(u, UNWIND).None?
    && (FirstWord(u, WITH).Some? ==> !IsStandaloneWith(u, FirstWord(u, WITH).value))
  }

  lemma {:induction false} ClearIsNotRejected(t: Text, u: Text)
    requires UpperMask(t) == u && Comments.IsCommentFree(t) && !HasTick(t) && IsClear(u) && !HasInList(u)
    requires forall i :: 0 <= i < |FUNCTIONS| ==> !HasFunction(u, FUNCTIONS[i])
    ensures !Rejects(t)
  {
  }

  lemma {:induction false} NotRejected(t: Text)
    requires forall k :: 0 <= k < |t| ==> t[k] == ' ' || t[k] == '*' || IsUpperLetter(t[k])
    requires IsClear(t)
    ensures UpperMask(t) == t && !Rejects(t)
  {
    PlainText(t);
    NoUnitNoFunction(t);
    NoUnitNoInList(t);
    ClearIsNotRejected(t, t);
  }

  lemma {:induction false} PlainOptional(t: Text)
    requires forall k :: 0 <= k < |t| ==> t[k] in {'O', 'P', 'T', 'I', 'N', 'A', 'L'}
    ensures UpperMask(t) == t && !Rejects(t)
  {
    AlienOperator(t, STARTS, WITH, 0);
    AlienOperator(t, ENDS, WITH, 0);
    AlienOperator(t, OPTIONAL, MATCH, 0);
    AlienWord(t, CONTAINS, 0);
    AlienWord(t, REMOVE, 0);
    AlienWord(t, UNWIND, 0);
    AlienWord(t, WITH, 0);
    NotRejected(t);
  }

  /** OPTIONAL alone is a construct for one scan and none for the other. */
  lemma {:induction false} OptionalIsLetThrough()
    ensures HasCypherConstructs("OPTIONAL") && !Rejects("OPTIONAL")
  {
    var t := "OPTIONAL";
    PlainOptional(t);
    assert WordAt(t, OPTIONAL, 0);
  }

  /** `XSTARTS WITH A WITH *`, unit by unit. */
  predicate IsSample(t: Text) {
    && |t| == 21 && t[0] == 'X' && t[1] == 'S' && t[2] == 'T' && t[3] == 'A' && t[4] == 'R' && t[5] == 'T'
    && t[6] == 'S' && t[7] == ' ' && t[8] == 'W' && t[9] == 'I' && t[10] == 'T' && t[11] == 'H'
    && t[12] == ' ' && t[13] == 'A' && t[14] == ' ' && t[15] == 'W' && t[16] == 'I' && t[17] == 'T'
    && t[18] == 'H' && t[19] == ' ' && t[20] == '*'
  }

  lemma {:induction false} SampleWords(t: Text)
    requires IsSample(t)
    ensures OccursAt(t, STARTS, 1) && WordAt(t, WITH, 8) && WordAt(t, WITH, 15)
  {
  }

  lemma {:induction false} BehindXStarts(t: Text)
    requires |t| == 21 && t[0] == 'X' && forall k :: 0 <= k < |t| && k != 1 ==> !OccursAt(t, STARTS, k)
    ensures FirstOperator(t, STARTS, WITH, 0).None?
  {
    forall p: nat ensures !OperatorAt(t, STARTS, WITH, p) {
      assert p != 1 ==> !OccursAt(t, STARTS, p);
    }
  }

  /** The only S at which STARTS could begin are the first two. */
  lemma {:induction false} OnlyStarts(t: Text)
    requires |t| == 21 && forall k :: 0 <= k < |t| && k != 1 && k != 6 ==> t[k] != 'S'
    requires t[7] == ' '
    ensures forall k :: 0 <= k < |t| && k != 1 ==> !OccursAt(t, STARTS, k)
  {
    forall k | 0 <= k < |t| && k != 1 ensures !OccursAt(t, STARTS, k) {
      if k + 6 <= |t| {
        assert STARTS[0] == 'S' && STARTS[1] == 'T';
        assert k == 6 ==> t[6 + 1] != STARTS[1];
        assert k != 6 ==> t[k + 0] != STARTS[0];
      }
    }
  }

  /** The first WITH of such a text is not standalone. */
  lemma {:induction false} WithBehindStarts(t: Text)
    requires |t| == 21 && OccursAt(t, STARTS, 1) && t[7] == ' ' && WordAt(t, WITH, 8)
    requires forall k :: 0 <= k < 8 ==> t[k] != 'W'
    ensures FirstWord(t, WITH) == Some(8) && !IsStandaloneWith(t, 8)
  {
    forall j: nat | j < 8 ensures !WordIn(t, 0, |t|, WITH, j) {
      assert t[j + 0] != WITH[0];
    }
    FirstWordIs(t, 0, |t|, WITH, 8);
    assert t[1 + 5] == STARTS[5];
    assert BlankTo(t, 8) == 1 && BlankTo(t, 7) == 0;
    assert TrimBack(t, 7) == 7 && TrimBack(t, 8) == 7;
    assert OccursBefore(t, STARTS, 7);
  }

  /** The second one is, and has a star. */
  lemma {:induction false} StarIsThere(t: Text)
    requires |t| == 21 && WordAt(t, WITH, 15) && t[13] == 'A' && t[14] == ' ' && t[19] == ' ' && t[20] == '*'
    ensures HasStarAt(t, 15)
  {
    assert BlankTo(t, 15) == 1 && BlankTo(t, 14) == 0;
    assert TrimBack(t, 14) == 14 && TrimBack(t, 15) == 14;
    assert !OccursBefore(t, STARTS, 14) by {
      assert STARTS[5] == 'S' && t[8 + 5] == 'A';
    }
    assert !OccursBefore(t, ENDS, 14) by {
      assert ENDS[3] == 'S' && t[10 + 3] == 'A';
    }
    assert BlankFrom(t, 19) == 1 && BlankFrom(t, 20) == 0;
    assert TrimForward(t, 20) == 20 && TrimForward(t, 19) == 20;
  }

  lemma {:induction false} PlainStar(t: Text)
    requires forall k :: 0 <= k < |t| ==> t[k] in {'X', 'S', 'T', 'A', 'R', 'W', 'I', 'H', ' ', '*'}
    requires FirstOperator(t, STARTS, WITH, 0).None? && FirstWord(t, WITH) == Some(8) && !IsStandaloneWith(t, 8)
    ensures UpperMask(t) == t && !Rejects(t)
  {
    AlienOperator(t, ENDS, WITH, 0);
    AlienOperator(t, OPTIONAL, MATCH, 0);
    AlienWord(t, CONTAINS, 0);
    AlienWord(t, REMOVE, 1);
    AlienWord(t, UNWIND, 0);
    NotRejected(t);
  }

  lemma {:induction false} SampleIsLetThrough(t: Text)
    requires IsSample(t)
    ensures HasCypherConstructs(t) && !Rejects(t)
  {
    SampleWords(t);
    OnlyStarts(t);
    BehindXStarts(t);
    WithBehindStarts(t);
    StarIsThere(t);
    PlainStar(t);
  }

  /** `WITH *` behind a word that ends in STARTS and a WITH goes unnoticed. */
  lemma {:induction false} StarIsLetThrough()
    ensures HasCypherConstructs("XSTARTS WITH A WITH *") && !Rejects("XSTARTS WITH A WITH *")
  {
    SampleIsLetThrough("XSTARTS WITH A WITH *");
  }
}
