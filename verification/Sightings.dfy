/** What strict mode sees, told of the text itself: which words and signs stand in its
    code, without the mask. */
module Sightings {
  import opened Texts
  import opened Lexer
  import opened Clauses
  import opened Preprocessor
  import opened Strict
  import Comments

  // ── Code, unit by unit ────────────────────────────────────────────────

  /** Unit `k` is code and is `c`, in either case. */
  predicate IsCodeUnit(s: Text, k: nat, c: char) {
    k < |s| && IsCodeAt(s, k) && UpperChar(s[k]) == c
  }

  predicate IsCodeAlnum(s: Text, k: nat) {
    k < |s| && IsCodeAt(s, k) && IsAlnum(s[k])
  }

  predicate IsCodeBlank(s: Text, k: nat) {
    k < |s| && IsCodeAt(s, k) && IsAsciiBlank(s[k])
  }

  /** `w` stands in the code at `p`. */
  predicate IsCodeText(s: Text, w: Text, p: nat) {
    p + |w| <= |s| && forall k :: 0 <= k < |w| ==> IsCodeUnit(s, p + k, w[k])
  }

  predicate IsFreeBefore(s: Text, p: nat) {
    p == 0 || !IsCodeAlnum(s, p - 1)
  }

  /** … as a word. */
  predicate IsCodeWord(s: Text, w: Text, p: nat) {
    IsCodeText(s, w, p) && IsFreeBefore(s, p) && !IsCodeAlnum(s, p + |w|)
  }

  ghost predicate IsCodeGap(s: Text, e: nat, q: nat) {
    forall k :: e <= k < q ==> IsCodeBlank(s, k)
  }

  /** Two words with blanks between them, if any. */
  ghost predicate IsCodePair(s: Text, first: Text, second: Text, p: nat, q: nat) {
    && IsCodeText(s, first, p) && IsFreeBefore(s, p) && !IsCodeAlnum(s, p + |first|)
    && p + |first| <= q && IsCodeGap(s, p + |first|, q)
    && IsCodeText(s, second, q) && !IsCodeAlnum(s, q + |second|)
  }

  /** A word, blanks, and a bracket. */
  ghost predicate IsCodeList(s: Text, p: nat, q: nat) {
    IsCodeWord(s, IN, p) && p + |IN| <= q && IsCodeUnit(s, q, '[') && IsCodeGap(s, p + |IN|, q)
  }

  ghost predicate HasPairAt(s: Text, first: Text, second: Text, p: nat) {
    exists q: nat :: IsCodePair(s, first, second, p, q)
  }

  ghost predicate HasListAt(s: Text, p: nat) {
    exists q: nat :: IsCodeList(s, p, q)
  }

  predicate HasFunctionAt(s: Text, w: Text, p: nat) {
    IsCodeText(s, w, p) && IsFreeBefore(s, p)
  }

  // ── … is what the mask shows ──────────────────────────────────────────

  lemma {:induction false} ShownExactly(s: Text, k: nat, c: char)
    requires k < |s| && c != ' ' && !IsQuote(c)
    ensures UpperMask(s)[k] == c <==> IsCodeUnit(s, k, c)
  {
    assert UpperMask(s)[k] == UpperChar(Mask(s)[k]) && Mask(s)[k] == MaskAt(s, k);
    CodeIsShown(s, k);
  }

  lemma {:induction false} CodeIsShown(s: Text, k: nat)
    requires k < |s|
    ensures if IsCodeAt(s, k) then Mask(s)[k] == s[k] else Mask(s)[k] == ' ' || IsQuote(Mask(s)[k])
  {
    MaskIsIsomorphic(s);
  }

  lemma {:induction false} AlnumIsShown(s: Text, k: nat)
    requires k < |s|
    ensures IsAlnum(UpperMask(s)[k]) <==> IsCodeAlnum(s, k)
  {
    assert UpperMask(s)[k] == UpperChar(Mask(s)[k]);
    CodeIsShown(s, k);
  }

  /** Letters, and the bracket of a function. */
  predicate IsPlainWord(w: Text) {
    |w| > 0 && forall k :: 0 <= k < |w| ==> w[k] != ' ' && !IsQuote(w[k])
  }

  lemma {:induction false} TextIsShown(s: Text, w: Text, p: nat)
    requires IsPlainWord(w)
    ensures OccursAt(UpperMask(s), w, p) <==> IsCodeText(s, w, p)
  {
    if p + |w| <= |s| {
      forall k | 0 <= k < |w| ensures UpperMask(s)[p + k] == w[k] <==> IsCodeUnit(s, p + k, w[k]) {
        ShownExactly(s, p + k, w[k]);
      }
    }
  }

  lemma {:induction false} BordersAreShown(s: Text, p: nat, e: nat)
    requires p <= e <= |s|
    ensures (p == 0 || !IsAlnum(UpperMask(s)[p - 1])) <==> IsFreeBefore(s, p)
    ensures (e == |s| || !IsAlnum(UpperMask(s)[e])) <==> !IsCodeAlnum(s, e)
  {
    if p > 0 {
      AlnumIsShown(s, p - 1);
    }
    if e < |s| {
      AlnumIsShown(s, e);
    }
  }

  lemma {:induction false} WordIsShown(s: Text, w: Text, p: nat)
    requires IsPlainWord(w)
    ensures WordAt(UpperMask(s), w, p) <==> IsCodeWord(s, w, p)
  {
    TextIsShown(s, w, p);
    if p + |w| <= |s| {
      BordersAreShown(s, p, p + |w|);
    }
  }

  lemma {:induction false} WordExactly(s: Text, w: Text)
    requires IsPlainWord(w)
    ensures FirstWord(UpperMask(s), w).Some? <==> exists p: nat :: IsCodeWord(s, w, p)
  {
    var hit := FirstWord(UpperMask(s), w);
    if hit.Some? {
      WordIsShown(s, w, hit.value);
    }
    if p: nat :| IsCodeWord(s, w, p) {
      WordIsShown(s, w, p);
    }
  }

  // ── Gaps ──────────────────────────────────────────────────────────────

  lemma {:induction false} BlankIsShown(s: Text, k: nat)
    requires IsCodeBlank(s, k)
    ensures IsAsciiBlank(UpperMask(s)[k])
  {
    assert UpperMask(s)[k] == UpperChar(Mask(s)[k]);
    CodeIsShown(s, k);
  }

  lemma {:induction false} GapIs(u: Text, e: nat, q: nat)
    requires e <= q < |u| && (forall k :: e <= k < q ==> IsAsciiBlank(u[k])) && !IsAsciiBlank(u[q])
    ensures SkipBlanks(u, e) == q
    decreases q - e
  {
    if e < q {
      GapIs(u, e + 1, q);
    }
  }

  /** From code to code over blanks there is only code. */
  lemma {:induction false} GapIsCode(s: Text, p: nat, e: nat, q: nat)
    requires p < e <= q < |s| && (forall k :: p <= k < e ==> IsCodeAt(s, k) && s[k] != ' ')
    requires forall k :: e <= k < q ==> IsAsciiBlank(UpperMask(s)[k])
    ensures forall k :: e <= k < q ==> IsCodeBlank(s, k)
  {
    if e < q {
      forall k | p <= k < q ensures !IsQuote(Mask(s)[k]) {
        CodeIsShown(s, k);
        assert UpperMask(s)[k] == UpperChar(Mask(s)[k]);
      }
      CodeIsShown(s, p);
      VisibleRun(s, p, q);
      assert forall k :: e <= k < q ==> UpperMask(s)[k] == UpperChar(Mask(s)[k]);
    }
  }

  /** The sign `c` stands behind the blanks from `e` on, in the mask and in the code. */
  lemma {:induction false} GapIsShown(s: Text, p: nat, e: nat, c: char)
    requires p < e <= |s| && (forall k :: p <= k < e ==> IsCodeAt(s, k) && s[k] != ' ')
    requires c != ' ' && !IsQuote(c) && !IsAsciiBlank(c)
    ensures var g := SkipBlanks(UpperMask(s), e);
      && (g < |s| && UpperMask(s)[g] == c ==>
            IsCodeUnit(s, g, c) && forall k :: e <= k < g ==> IsCodeBlank(s, k))
      && forall q :: e <= q && IsCodeUnit(s, q, c) && (forall k :: e <= k < q ==> IsCodeBlank(s, k)) ==> q == g
  {
    var g := SkipBlanks(UpperMask(s), e);
    if g < |s| && UpperMask(s)[g] == c {
      ShownExactly(s, g, c);
      GapIsCode(s, p, e, g);
    }
    forall q | e <= q && IsCodeUnit(s, q, c) && forall k :: e <= k < q ==> IsCodeBlank(s, k) ensures q == g {
      ShownExactly(s, q, c);
      forall k | e <= k < q ensures IsAsciiBlank(UpperMask(s)[k]) {
        BlankIsShown(s, k);
      }
      GapIs(UpperMask(s), e, q);
    }
  }

  lemma {:induction false} CodeTextIsCode(s: Text, w: Text, p: nat)
    requires IsPlainWord(w) && IsCodeText(s, w, p)
    ensures forall k :: p <= k < p + |w| ==> IsCodeAt(s, k) && s[k] != ' '
  {
    forall k | p <= k < p + |w| ensures IsCodeAt(s, k) && s[k] != ' ' {
      assert IsCodeUnit(s, p + (k - p), w[k - p]);
    }
  }

  lemma {:induction false} FirstUnit(s: Text, w: Text, q: nat)
    requires IsPlainWord(w) && IsCodeText(s, w, q)
    ensures IsCodeUnit(s, q, w[0])
  {
    assert IsCodeUnit(s, q + 0, w[0]);
  }

  predicate AreWords(first: Text, second: Text) {
    IsPlainWord(first) && IsPlainWord(second) && !IsAsciiBlank(second[0])
  }

  /** With the first word where it is, the second is behind the gap or nowhere. */
  lemma {:induction false} SecondIsShown(s: Text, first: Text, second: Text, p: nat, e: nat, g: nat)
    requires AreWords(first, second) && IsCodeText(s, first, p) && e == p + |first|
    requires g == SkipBlanks(UpperMask(s), e) && OccursAt(UpperMask(s), second, g)
    ensures IsCodeText(s, second, g) && IsCodeGap(s, e, g)
  {
    CodeTextIsCode(s, first, p);
    GapIsShown(s, p, e, second[0]);
    TextIsShown(s, second, g);
    assert UpperMask(s)[g + 0] == second[0];
  }

  lemma {:induction false} SecondIsUnique(s: Text, first: Text, second: Text, p: nat, e: nat, q: nat)
    requires AreWords(first, second) && IsCodeText(s, first, p) && e == p + |first|
    requires e <= q && IsCodeText(s, second, q) && IsCodeGap(s, e, q)
    ensures e < |s| && q == SkipBlanks(UpperMask(s), e) && OccursAt(UpperMask(s), second, q)
  {
    CodeTextIsCode(s, first, p);
    GapIsShown(s, p, e, second[0]);
    FirstUnit(s, second, q);
    TextIsShown(s, second, q);
  }

  lemma {:induction false} EndIsShown(s: Text, w: Text, g: nat)
    requires IsCodeText(s, w, g)
    ensures (g + |w| >= |s| || !IsAlnum(UpperMask(s)[g + |w|])) <==> !IsCodeAlnum(s, g + |w|)
  {
    BordersAreShown(s, g, g + |w|);
  }

  lemma {:induction false} FirstIsShown(s: Text, first: Text, p: nat, e: nat)
    requires IsPlainWord(first) && OccursAt(UpperMask(s), first, p) && e == p + |first|
    requires (p == 0 || !IsAlnum(UpperMask(s)[p - 1])) && (e >= |s| || !IsAlnum(UpperMask(s)[e]))
    ensures IsCodeText(s, first, p) && IsFreeBefore(s, p) && !IsCodeAlnum(s, e)
  {
    TextIsShown(s, first, p);
    BordersAreShown(s, p, e);
  }

  lemma {:induction false} OperatorIsPair(s: Text, first: Text, second: Text, p: nat)
    requires AreWords(first, second) && OperatorAt(UpperMask(s), first, second, p)
    ensures HasPairAt(s, first, second, p)
  {
    var e := p + |first|;
    var g := SkipBlanks(UpperMask(s), e);
    FirstIsShown(s, first, p, e);
    SecondIsShown(s, first, second, p, e, g);
    EndIsShown(s, second, g);
    assert IsCodePair(s, first, second, p, g);
  }

  lemma {:induction false} FirstIsIn(s: Text, first: Text, p: nat, e: nat)
    requires IsPlainWord(first) && IsCodeText(s, first, p) && IsFreeBefore(s, p) && e == p + |first|
    requires !IsCodeAlnum(s, e)
    ensures OccursAt(UpperMask(s), first, p)
    ensures (p == 0 || !IsAlnum(UpperMask(s)[p - 1])) && (e >= |s| || !IsAlnum(UpperMask(s)[e]))
  {
    TextIsShown(s, first, p);
    BordersAreShown(s, p, e);
  }

  lemma {:induction false} PairIsOperator(s: Text, first: Text, second: Text, p: nat, q: nat)
    requires AreWords(first, second) && IsCodePair(s, first, second, p, q)
    ensures OperatorAt(UpperMask(s), first, second, p)
  {
    var e := p + |first|;
    FirstIsIn(s, first, p, e);
    SecondIsUnique(s, first, second, p, e, q);
    EndIsShown(s, second, q);
  }

  lemma {:induction false} PairExactly(s: Text, first: Text, second: Text)
    requires AreWords(first, second)
    ensures FirstOperator(UpperMask(s), first, second, 0).Some? <==> exists p: nat :: HasPairAt(s, first, second, p)
  {
    var hit := FirstOperator(UpperMask(s), first, second, 0);
    if hit.Some? {
      OperatorIsPair(s, first, second, hit.value);
    }
    if p: nat :| HasPairAt(s, first, second, p) {
      var q: nat :| IsCodePair(s, first, second, p, q);
      PairIsOperator(s, first, second, p, q);
    }
  }

  lemma {:induction false} ListIsShown(s: Text, p: nat)
    ensures InListAt(UpperMask(s), p) <==> HasListAt(s, p)
  {
    var u := UpperMask(s);
    WordIsShown(s, IN, p);
    if WordAt(u, IN, p) {
      var g := SkipBlanks(u, p + |IN|);
      CodeTextIsCode(s, IN, p);
      GapIsShown(s, p, p + |IN|, '[');
      if InListAt(u, p) {
        assert IsCodeList(s, p, g);
      }
      if HasListAt(s, p) {
        var q: nat :| IsCodeList(s, p, q);
        ShownExactly(s, q, '[');
      }
    }
  }

  lemma {:induction false} ListExactly(s: Text)
    ensures HasInList(UpperMask(s)) <==> exists p: nat :: HasListAt(s, p)
  {
    if p: nat :| InListAt(UpperMask(s), p) {
      ListIsShown(s, p);
    }
    if p: nat :| HasListAt(s, p) {
      ListIsShown(s, p);
    }
  }

  lemma {:induction false} FunctionIsShown(s: Text, w: Text, p: nat)
    requires IsPlainWord(w)
    ensures FunctionAt(UpperMask(s), w, p) <==> HasFunctionAt(s, w, p)
  {
    TextIsShown(s, w, p);
    if p <= |s| {
      BordersAreShown(s, p, p);
    }
  }

  lemma {:induction false} FunctionExactly(s: Text, w: Text)
    requires IsPlainWord(w)
    ensures HasFunction(UpperMask(s), w) <==> exists p: nat :: HasFunctionAt(s, w, p)
  {
    if p: nat :| FunctionAt(UpperMask(s), w, p) {
      FunctionIsShown(s, w, p);
    }
    if p: nat :| HasFunctionAt(s, w, p) {
      FunctionIsShown(s, w, p);
    }
  }

  lemma {:induction false} SignsExactly(s: Text)
    ensures HasTick(s) <==> exists k: nat :: IsCodeUnit(s, k, '`')
    ensures !Comments.IsCommentFree(s) <==> exists k: nat :: IsCodeUnit(s, k, '/') && IsCodeUnit(s, k + 1, '*')
  {
    forall k: nat | k < |s| ensures Mask(s)[k] == '`' <==> IsCodeUnit(s, k, '`') {
      CodeIsShown(s, k);
    }
    forall k: nat | k < |s|
      ensures Mask(s)[k] == '/' <==> IsCodeUnit(s, k, '/')
      ensures Mask(s)[k] == '*' <==> IsCodeUnit(s, k, '*')
    {
      CodeIsShown(s, k);
    }
  }

  // ── The whole scan ────────────────────────────────────────────────────

  /** The constructs that strict mode refuses. */
  datatype Construct = Comment | Tick | StartsWith | EndsWith | Contains | InList | Function(name: Text)
                     | RemoveClause | OptionalMatch | Projection | Unwind

  ghost predicate Sees(s: Text, c: Construct) {
    match c
    case Comment => exists k: nat :: IsCodeUnit(s, k, '/') && IsCodeUnit(s, k + 1, '*')
    case Tick => exists k: nat :: IsCodeUnit(s, k, '`')
    case StartsWith => exists p: nat :: HasPairAt(s, "STARTS", "WITH", p)
    case EndsWith => exists p: nat :: HasPairAt(s, "ENDS", "WITH", p)
    case Contains => exists p: nat :: IsCodeWord(s, "CONTAINS", p)
    case InList => exists p: nat :: HasListAt(s, p)
    case Function(name) =>
      (name == "ID(" || name == "TYPE(" || name == "LABELS(")
      && exists p: nat :: HasFunctionAt(s, name, p)
    case RemoveClause => exists p: nat :: IsCodeWord(s, "REMOVE", p)
    case OptionalMatch => exists p: nat :: HasPairAt(s, "OPTIONAL", "MATCH", p)
    case Projection => exists p: nat :: IsFirstCodeWith(s, p) && IsStandaloneWith(UpperMask(s), p)
    case Unwind => exists p: nat :: IsCodeWord(s, "UNWIND", p)
  }

  ghost predicate IsFirstCodeWith(s: Text, p: nat) {
    IsCodeWord(s, "WITH", p) && p <= |s| && forall j: nat :: j < p ==> !IsCodeWord(s, "WITH", j)
  }

  lemma {:induction false} ProjectionExactly(s: Text)
    ensures HasProjection(s) <==> Sees(s, Projection)
  {
    var u := UpperMask(s);
    forall p: nat ensures WordAt(u, WITH, p) <==> IsCodeWord(s, "WITH", p) {
      WordIsShown(s, WITH, p);
    }
    var hit := FirstWord(u, WITH);
    if hit.Some? {
      assert IsFirstCodeWith(s, hit.value);
    }
  }

  lemma {:induction false} FunctionsExactly(s: Text)
    ensures HasFunction(UpperMask(s), FUNCTIONS[0]) <==> Sees(s, Function("ID("))
    ensures HasFunction(UpperMask(s), FUNCTIONS[1]) <==> Sees(s, Function("TYPE("))
    ensures HasFunction(UpperMask(s), FUNCTIONS[2]) <==> Sees(s, Function("LABELS("))
  {
    FunctionExactly(s, FUNCTIONS[0]);
    FunctionExactly(s, FUNCTIONS[1]);
    FunctionExactly(s, FUNCTIONS[2]);
  }

  lemma {:induction false} ContainsExactly(s: Text)
    ensures FirstWord(UpperMask(s), CONTAINS).Some? <==> Sees(s, Contains)
  {
    WordExactly(s, CONTAINS);
  }

  lemma {:induction false} RemoveExactly(s: Text)
    ensures FirstWord(UpperMask(s), REMOVE).Some? <==> Sees(s, RemoveClause)
  {
    WordExactly(s, REMOVE);
  }

  lemma {:induction false} UnwindExactly(s: Text)
    ensures FirstWord(UpperMask(s), UNWIND).Some? <==> Sees(s, Unwind)
  {
    WordExactly(s, UNWIND);
  }

  lemma {:induction false} TheseAreWords()
    ensures AreWords(STARTS, WITH) && AreWords(ENDS, WITH) && AreWords(OPTIONAL, MATCH)
  {
  }

  lemma {:induction false} StartsExactly(s: Text)
    ensures HasOperator(UpperMask(s), STARTS) <==> Sees(s, StartsWith)
  {
    TheseAreWords();
    PairExactly(s, STARTS, WITH);
  }

  lemma {:induction false} EndsExactly(s: Text)
    ensures HasOperator(UpperMask(s), ENDS) <==> Sees(s, EndsWith)
  {
    TheseAreWords();
    PairExactly(s, ENDS, WITH);
  }

  lemma {:induction false} OptionalExactly(s: Text)
    ensures FirstOptional(s).Some? <==> Sees(s, OptionalMatch)
  {
    TheseAreWords();
    PairExactly(s, OPTIONAL, MATCH);
  }

  /** One of the constructs that have no parameter is seen, or one of the functions. */
  ghost predicate SeesAny(s: Text) {
    || Sees(s, Comment) || Sees(s, Tick) || Sees(s, StartsWith) || Sees(s, EndsWith) || Sees(s, Contains)
    || Sees(s, InList) || Sees(s, Function("ID(")) || Sees(s, Function("TYPE(")) || Sees(s, Function("LABELS("))
    || Sees(s, RemoveClause) || Sees(s, OptionalMatch) || Sees(s, Projection) || Sees(s, Unwind)
  }

  lemma {:induction false} AnyIsOne(s: Text, c: Construct)
    requires Sees(s, c)
    ensures SeesAny(s)
  {
    match c
    case Function(name) =>
      assert c == Function("ID(") || c == Function("TYPE(") || c == Function("LABELS(");
    case _ =>
  }

  lemma {:induction false} RejectsAny(s: Text)
    ensures Rejects(s) <==> SeesAny(s)
  {
    SignsExactly(s);
    StartsExactly(s);
    EndsExactly(s);
    OptionalExactly(s);
    ContainsExactly(s);
    RemoveExactly(s);
    UnwindExactly(s);
    ListExactly(s);
    FunctionsExactly(s);
    ProjectionExactly(s);
  }

  /** Strict mode refuses a text if and only if one of the constructs stands in its code. */
  lemma {:induction false} RefusesExactly(s: Text)
    ensures Rejects(s) <==> exists c: Construct :: Sees(s, c)
  {
    RejectsAny(s);
    if c: Construct :| Sees(s, c) {
      AnyIsOne(s, c);
    }
  }
}
