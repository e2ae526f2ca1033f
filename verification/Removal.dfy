/** What the REMOVE pass leaves behind: exactly one REMOVE goes, all others stay, and
    the clause that follows the rewritten one is no longer a word of its own. */
module Removal {
  import opened Texts
  import opened Lexer
  import opened Preprocessor

  // ── A reader that counts REMOVE ───────────────────────────────────────

  /** A scan that looks for REMOVE as a whole word outside literals. `word` is 0 at the
      edge of a word, `k` after the first `k` letters of REMOVE, -1 inside any other
      word; `hits` are the words completed. */
  datatype Reader = Reader(lex: Lex, word: int, hits: nat)

  const BEGIN := Reader(Code, 0, 0)

  /** The letter or digit that the mask shows for a unit, upper-cased; else a blank. */
  function Letter(lex: Lex, c: char): char {
    if (lex.Code? || (lex.Closing? && c != lex.q)) && IsAlnum(c) then UpperChar(c) else ' '
  }

  function NextWord(k: int, a: char): int {
    if !IsAlnum(a) then 0 else if 0 <= k < 6 && a == REMOVE[k] then k + 1 else -1
  }

  function ReadUnit(r: Reader, c: char): Reader {
    var a := Letter(r.lex, c);
    Reader(Next(r.lex, c), NextWord(r.word, a), r.hits + if r.word == 6 && !IsAlnum(a) then 1 else 0)
  }

  predicate IsSound(r: Reader) {
    r.lex.Code? || IsQuote(r.lex.q)
  }

  function ReadTo(r: Reader, s: Text, i: nat): (n: Reader)
    requires i <= |s|
    ensures IsSound(r) ==> IsSound(n)
  {
    if i == 0 then r else ReadUnit(ReadTo(r, s, i - 1), s[i - 1])
  }

  function Read(r: Reader, s: Text): Reader {
    ReadTo(r, s, |s|)
  }

  /** At the end of a text. */
  function Total(r: Reader): nat {
    r.hits + if r.word == 6 then 1 else 0
  }

  lemma {:induction false} ReadPrefix(r: Reader, a: Text, b: Text, i: nat)
    requires i <= |a| && i <= |b| && forall k :: 0 <= k < i ==> a[k] == b[k]
    ensures ReadTo(r, a, i) == ReadTo(r, b, i)
  {
    if i > 0 {
      ReadPrefix(r, a, b, i - 1);
    }
  }

  lemma {:induction false} ReadConcatTo(r: Reader, a: Text, b: Text, i: nat)
    requires i <= |b|
    ensures ReadTo(r, a + b, |a| + i) == ReadTo(Read(r, a), b, i)
  {
    if i == 0 {
      ReadPrefix(r, a + b, a, |a|);
    } else {
      ReadConcatTo(r, a, b, i - 1);
      assert (a + b)[|a| + i - 1] == b[i - 1];
    }
  }

  lemma {:induction false} ReadConcat(r: Reader, a: Text, b: Text)
    ensures Read(r, a + b) == Read(Read(r, a), b)
  {
    ReadConcatTo(r, a, b, |b|);
  }

  lemma {:induction false} ReadSplit(r: Reader, s: Text, n: nat, j: nat)
    requires n + j <= |s|
    ensures ReadTo(r, s, n + j) == ReadTo(ReadTo(r, s, n), s[n..], j)
  {
    if j > 0 {
      ReadSplit(r, s, n, j - 1);
    }
  }

  /** Counting starts anywhere. */
  lemma {:induction false} HitsAdd(r: Reader, s: Text, i: nat, n: nat)
    requires i <= |s|
    ensures ReadTo(r.(hits := r.hits + n), s, i) == ReadTo(r, s, i).(hits := ReadTo(r, s, i).hits + n)
  {
    if i > 0 {
      HitsAdd(r, s, i - 1, n);
    }
  }

  // ── The reader counts whole words of the mask ─────────────────────────

  predicate IsEdge(u: Text, i: nat)
    requires i <= |u|
  {
    i == 0 || !IsAlnum(u[i - 1])
  }

  /** The last `m` units before `i` begin a word and are the first `m` of REMOVE. */
  predicate Ends(u: Text, i: nat, m: nat)
    requires i <= |u| && m <= 6
  {
    m <= i && IsEdge(u, i - m) && forall k :: 0 <= k < m ==> u[i - m + k] == REMOVE[k]
  }

  ghost predicate WordIs(u: Text, i: nat, k: int)
    requires i <= |u|
  {
    && -1 <= k <= 6
    && (k == 0 <==> IsEdge(u, i))
    && forall m :: 1 <= m <= 6 ==> (Ends(u, i, m) <==> k == m)
  }

  /** How many REMOVEs start before `n`. */
  function CountUpTo(u: Text, n: nat): nat {
    if n == 0 then 0 else CountUpTo(u, n - 1) + if WordAt(u, REMOVE, n - 1) then 1 else 0
  }

  function Count(s: Text): nat {
    CountUpTo(UpperMask(s), |s|)
  }

  lemma {:induction false} LetterOfMask(s: Text, i: nat)
    requires i < |s|
    ensures var (a, c) := (Letter(StateAt(s, i), s[i]), UpperMask(s)[i]);
      (IsAlnum(a) <==> IsAlnum(c)) && (IsAlnum(a) ==> a == c)
  {
    assert Mask(s)[i] == MaskAt(s, i);
  }

  lemma {:induction false} EndsMore(u: Text, i: nat, m: nat)
    requires i < |u| && 1 <= m <= 6
    ensures Ends(u, i + 1, m) <==> Ends(u, i, m - 1) && u[i] == REMOVE[m - 1]
  {
    if Ends(u, i + 1, m) {
      assert u[i + 1 - m + (m - 1)] == REMOVE[m - 1];
      forall k | 0 <= k < m - 1 ensures u[i - (m - 1) + k] == REMOVE[k] {
        assert u[i + 1 - m + k] == REMOVE[k];
      }
    }
  }

  lemma {:induction false} WordStep(u: Text, i: nat, k: int)
    requires i < |u| && WordIs(u, i, k)
    ensures WordIs(u, i + 1, NextWord(k, u[i]))
  {
    var (n, next) := (i + 1, NextWord(k, u[i]));
    forall m | 1 <= m <= 6 ensures Ends(u, n, m) <==> next == m {
      EndsMore(u, i, m);
      if m > 1 {
        assert Ends(u, i, m - 1) <==> k == m - 1;
      }
      assert IsAlnum(REMOVE[m - 1]);
    }
  }

  lemma {:induction false} WordAtIs(u: Text, j: nat)
    requires j + 6 <= |u|
    ensures WordAt(u, REMOVE, j) <==> Ends(u, j + 6, 6) && (j + 6 == |u| || !IsAlnum(u[j + 6]))
  {
    assert OccursAt(u, REMOVE, j) <==> forall k :: 0 <= k < 6 ==> u[j + 6 - 6 + k] == REMOVE[k];
  }

  function Before(i: nat): nat {
    if i < 6 then 0 else i - 6
  }

  /** The reader's letter for unit `i` is the mask's. */
  lemma {:induction false} ReaderStep(s: Text, i: nat, r: Reader)
    requires i < |s| && r.lex == StateAt(s, i)
    ensures var c := UpperMask(s)[i];
      ReadUnit(r, s[i]) ==
      Reader(StateAt(s, i + 1), NextWord(r.word, c), r.hits + if r.word == 6 && !IsAlnum(c) then 1 else 0)
  {
    LetterOfMask(s, i);
  }

  lemma {:induction false} CountMore(u: Text, i: nat, k: int)
    requires i < |u| && WordIs(u, i, k)
    ensures CountUpTo(u, Before(i + 1)) == CountUpTo(u, Before(i)) + if k == 6 && !IsAlnum(u[i]) then 1 else 0
  {
    assert Ends(u, i, 6) <==> k == 6;
    if i >= 6 {
      WordAtIs(u, i - 6);
    }
  }

  lemma {:induction false} ReaderCounts(s: Text, i: nat)
    requires i <= |s|
    ensures var (r, u) := (ReadTo(BEGIN, s, i), UpperMask(s));
      r.lex == StateAt(s, i) && WordIs(u, i, r.word) && r.hits == CountUpTo(u, Before(i))
  {
    var u := UpperMask(s);
    if i == 0 {
      assert forall m :: 1 <= m <= 6 ==> !Ends(u, 0, m);
    } else {
      var r := ReadTo(BEGIN, s, i - 1);
      ReaderCounts(s, i - 1);
      ReaderStep(s, i - 1, r);
      WordStep(u, i - 1, r.word);
      CountMore(u, i - 1, r.word);
    }
  }

  lemma {:induction false} NoneAtTheEnd(u: Text, n: nat)
    requires Before(|u|) + 1 <= n <= |u| && |u| >= 6
    ensures CountUpTo(u, n) == CountUpTo(u, Before(|u|) + 1)
    decreases n
  {
    if n > Before(|u|) + 1 {
      NoneAtTheEnd(u, n - 1);
    }
  }

  lemma {:induction false} NoneInShort(u: Text, n: nat)
    requires |u| < 6
    ensures CountUpTo(u, n) == 0
  {
    if n > 0 {
      NoneInShort(u, n - 1);
    }
  }

  /** Reading a text counts the REMOVEs outside its literals. */
  lemma {:induction false} TotalIsCount(s: Text)
    ensures Total(Read(BEGIN, s)) == Count(s)
  {
    var (u, r) := (UpperMask(s), Read(BEGIN, s));
    ReaderCounts(s, |s|);
    if |s| < 6 {
      NoneInShort(u, |s|);
      NoneInShort(u, Before(|s|));
      assert !Ends(u, |u|, 6);
    } else {
      NoneAtTheEnd(u, |u|);
      WordAtIs(u, |u| - 6);
      assert Ends(u, |u|, 6) <==> r.word == 6;
    }
  }

  // ── Units that no literal minds ───────────────────────────────────────

  predicate IsNeutral(c: char) {
    !IsQuote(c) && c != '\\'
  }

  /** The state behind any such unit. */
  function Calm(lex: Lex): Lex {
    match lex
    case Escaped(q) => Inside(q)
    case Closing(_) => Code
    case _ => lex
  }

  /** Where a word may begin, and a blank or comma changes nothing. */
  predicate IsSettled(r: Reader) {
    IsSound(r) && r.lex == Calm(r.lex) && r.word == 0
  }

  /** Behind blanks and commas. */
  function Settled(r: Reader): Reader {
    Reader(Calm(r.lex), 0, Total(r))
  }

  predicate IsFiller(c: char) {
    IsNeutral(c) && !IsAlnum(c)
  }

  lemma {:induction false} FillerSettles(r: Reader, x: Text, i: nat)
    requires IsSound(r) && i <= |x| && forall k :: 0 <= k < i ==> IsFiller(x[k])
    ensures i > 0 ==> ReadTo(r, x, i) == Settled(r)
    ensures IsSettled(r) ==> ReadTo(r, x, i) == r
  {
    if i > 0 {
      FillerSettles(r, x, i - 1);
    }
  }

  /** Behind ` = null`. */
  function Nulled(r: Reader): Reader {
    Settled(r).(word := if Calm(r.lex).Code? then -1 else 0)
  }

  lemma {:induction false} NullReads(r: Reader)
    requires IsSound(r)
    ensures Read(r, " = null") == Nulled(r)
    ensures Read(r, " = null, ") == Settled(r)
  {
    var t := " = null, ";
    var st := Settled(r);
    FillerSettles(r, " = null, ", 3);
    assert ReadTo(r, t, 3) == st;
    assert ReadTo(r, t, 4) == ReadUnit(st, 'n') == Nulled(r);
    assert ReadTo(r, t, 5) == ReadUnit(Nulled(r), 'u') == Nulled(r);
    assert ReadTo(r, t, 6) == ReadUnit(Nulled(r), 'l') == Nulled(r);
    assert ReadTo(r, t, 7) == ReadUnit(Nulled(r), 'l') == Nulled(r);
    assert ReadTo(r, t, 8) == ReadUnit(Nulled(r), ',') == st;
    assert ReadTo(r, t, 9) == ReadUnit(st, ' ') == st;
    ReadPrefix(r, t, " = null", 7);
  }

  // ── Trimming and nulling lose no word ─────────────────────────────────

  /** `s` is blanks, its trimmed text, and blanks. */
  lemma {:induction false} TrimParts(s: Text) returns (lead: Text, trail: Text)
    ensures s == lead + Trim(s) + trail
    ensures forall k :: 0 <= k < |lead| ==> IsFiller(lead[k])
    ensures forall k :: 0 <= k < |trail| ==> IsFiller(trail[k])
  {
    var (from, to) := (TrimForward(s, 0), TrimBack(s, |s|));
    BlanksAreFiller(s);
    if from < to {
      lead, trail := s[..from], s[to..];
    } else {
      lead, trail := s, [];
    }
  }

  lemma {:induction false} BlanksAreFiller(s: Text)
    ensures forall k :: 0 <= k < TrimForward(s, 0) ==> IsFiller(s[k])
    ensures forall k :: TrimBack(s, |s|) <= k < |s| ==> IsFiller(s[k])
  {
    TrimForwardSkipsBlanks(s, 0);
    TrimBackSkipsBlanks(s, |s|);
  }

  /** From a settled reader, a piece and the comma behind it. */
  lemma {:induction false} PieceReads(r: Reader, h: Text)
    requires IsSettled(r)
    ensures Read(r, h + ",") == Settled(Read(r, Trim(h)))
    ensures Settled(Read(r, h)) == Settled(Read(r, Trim(h)))
    ensures h == Trim(h) || Read(r, h) == Read(r, Trim(h)) || Read(r, h) == Settled(Read(r, Trim(h)))
  {
    var lead, trail := TrimParts(h);
    var t := Trim(h);
    FillerSettles(r, lead, |lead|);
    ReadConcat(r, lead, t);
    ReadConcat(r, lead + t, trail);
    FillerSettles(Read(r, t), trail, |trail|);
    ReadConcat(r, h, ",");
    FillerSettles(Read(r, h), ",", 1);
  }

  lemma {:induction false} NullingReads(r: Reader, props: Text)
    requires IsSettled(r)
    ensures Read(r, NullAssignments(props)) == Nulled(Read(r, props))
    decreases |props|
  {
    var comma := Find(props, ",", 0);
    if comma.None? {
      PieceReads(r, props);
      ReadConcat(r, Trim(props), " = null");
      NullReads(Read(r, Trim(props)));
    } else {
      var (h, more) := (props[..comma.value], props[comma.value + 1..]);
      assert props[comma.value + 0] == ","[0];
      assert props == h + "," + more;
      var x := Settled(Read(r, Trim(h)));
      PieceReads(r, h);
      ReadConcat(r, h + ",", more);
      NullReads(Read(r, Trim(h)));
      ReadConcat(r, Trim(h), " = null, ");
      ReadConcat(r, Trim(h) + " = null, ", NullAssignments(more));
      NullingReads(x, more);
    }
  }

  // ── Where the property list ends ──────────────────────────────────────

  /** At the end of the text, at a semicolon, or at a clause that the mask shows. */
  ghost predicate IsListEnd(rest: Text, upper: Text, kws: seq<Text>, e: nat) {
    && e <= |rest|
    && (|| e == |rest|
        || rest[e] == ';'
        || exists i :: 0 <= i < |kws| && WordAt(upper, kws[i], e))
  }

  lemma {:induction false} ListEndIs(rest: Text, upper: Text, end: nat, kws: seq<Text>, n: nat)
    requires n <= |kws| && IsListEnd(rest, upper, kws, end)
    ensures IsListEnd(rest, upper, kws, ListEnd(rest, upper, end, kws[n..]))
    decreases |kws| - n
  {
    if n < |kws| {
      assert kws[n..][0] == kws[n] && kws[n..][1..] == kws[n + 1..];
      var hit := if kws[n] == [] then None else FirstWord(upper, kws[n]);
      ListEndIs(rest, upper, if hit.Some? && hit.value < end then hit.value else end, kws, n + 1);
    }
  }

  lemma {:induction false} PropertyListEndIs(rest: Text, upper: Text)
    ensures IsListEnd(rest, upper, CLAUSES, PropertyListEnd(rest, upper))
  {
    var semi := Find(rest, ";", 0);
    if semi.Some? {
      assert rest[semi.value + 0] == ";"[0];
    }
    ListEndIs(rest, upper, if semi.Some? then semi.value else |rest|, CLAUSES, 0);
    assert CLAUSES[0..] == CLAUSES;
  }

  // ── What follows the list ─────────────────────────────────────────────

  lemma {:induction false} ReadFirst(r: Reader, s: Text)
    requires s != []
    ensures Read(r, s) == Read(ReadUnit(r, s[0]), s[1..])
  {
    assert s == s[..1] + s[1..];
    assert ReadTo(r, s[..1], 1) == ReadUnit(ReadTo(r, s[..1], 0), s[0]);
    ReadConcat(r, s[..1], s[1..]);
  }

  /** A word shown outside literals. */
  predicate IsWordOf(t: Text, w: Text) {
    && 0 < |w| <= |t|
    && (forall k :: 0 <= k < |w| ==> IsAlnum(t[k]) && UpperChar(t[k]) == w[k])
    && (|w| < |t| ==> !IsAlnum(Letter(Code, t[|w|])))
  }

  lemma {:induction false} ReadWord(r: Reader, t: Text, w: Text, n: nat)
    requires (r.lex.Code? || (r.lex.Closing? && IsSound(r))) && IsWordOf(t, w) && n <= |w|
    requires r.word == 0 || r.word == -1
    ensures ReadTo(r, t, n).hits == r.hits
    ensures n > 0 ==> ReadTo(r, t, n).lex == Code
    ensures n > 0 && r.word == -1 ==> ReadTo(r, t, n).word == -1
    ensures n > 0 && r.word == 0 ==> (ReadTo(r, t, n).word == -1 || ReadTo(r, t, n).word == n)
    ensures r.word == 0 && ReadTo(r, t, n).word == n ==> forall k :: 0 <= k < n ==> k < 6 && w[k] == REMOVE[k]
  {
    if n > 0 {
      ReadWord(r, t, w, n - 1);
      assert IsAlnum(t[n - 1]) && !IsQuote(t[n - 1]);
      assert Letter(ReadTo(r, t, n - 1).lex, t[n - 1]) == w[n - 1];
    }
  }

  /** Read from `x`, from `x` and some blanks, or from `x` and ` = null`, a list end and
      what follows it hold the same words. */
  predicate IsBehind(x: Reader, z: Reader, g: Reader) {
    IsSound(x) && (z == x || z == Settled(x)) && g == Nulled(x)
  }

  lemma {:induction false} FillerAgrees(x: Reader, z: Reader, g: Reader, t: Text)
    requires IsBehind(x, z, g) && t != [] && IsFiller(t[0])
    ensures Read(z, t) == Read(g, t)
  {
    ReadFirst(z, t);
    ReadFirst(g, t);
  }

  lemma {:induction false} WordAgrees(x: Reader, z: Reader, g: Reader, t: Text, w: Text)
    requires IsBehind(x, z, g) && IsWordOf(t, w) && w != REMOVE
    requires z.word == 0 && (z.lex.Code? || z.lex.Closing?)
    ensures Total(Read(z, t)) == Total(Read(g, t))
  {
    var n := |w|;
    ReadWord(z, t, w, n);
    ReadWord(g, t, w, n);
    var (a, b) := (ReadTo(z, t, n), ReadTo(g, t, n));
    assert a.word == 6 ==> w == REMOVE;
    if n < |t| {
      assert ReadUnit(a, t[n]) == ReadUnit(b, t[n]);
      assert t == t[..n] + t[n..];
      ReadPrefix(z, t, t[..n], n);
      ReadPrefix(g, t, t[..n], n);
      ReadConcat(z, t[..n], t[n..]);
      ReadConcat(g, t[..n], t[n..]);
      ReadFirst(a, t[n..]);
      ReadFirst(b, t[n..]);
    }
  }

  // ── The pass ──────────────────────────────────────────────────────────

  /** The parts of a text whose first REMOVE is rewritten. */
  datatype Parts = Parts(front: Text, rest: Text, list: Text, tail: Text)

  function PartsOf(s: Text, idx: nat): Parts
    requires idx + 6 <= |s|
  {
    var rest := s[idx + 6..];
    var end := PropertyListEnd(rest, UpperMask(s)[idx + 6..]);
    Parts(s[..idx], rest, rest[..end], rest[end..])
  }

  lemma {:induction false} RemoveOfParts(s: Text, idx: nat)
    requires idx + 6 <= |s| && RemoveAt(s, idx).Ok?
    ensures var p := PartsOf(s, idx);
      && Trim(p.list) != []
      && RemoveAt(s, idx).text == p.front + "SET " + NullAssignments(Trim(p.list)) + p.tail
  {
    assert |REMOVE| == 6;
  }

  /** Behind the front and SET the reader is where it was behind REMOVE, one hit short. */
  lemma {:induction false} SetReads(r: Reader)
    requires IsSound(r) && (r.lex.Code? || r.lex.Closing?) && r.word == 0
    ensures Read(r, "SET ") == Reader(Code, 0, r.hits)
  {
    var t := "SET ";
    assert ReadTo(r, t, 1) == ReadUnit(ReadTo(r, t, 0), 'S') == Reader(Code, -1, r.hits);
    assert ReadTo(r, t, 2) == ReadUnit(ReadTo(r, t, 1), 'E') == Reader(Code, -1, r.hits);
    assert ReadTo(r, t, 3) == ReadUnit(ReadTo(r, t, 2), 'T') == Reader(Code, -1, r.hits);
    assert ReadTo(r, t, 4) == ReadUnit(ReadTo(r, t, 3), ' ');
  }

  lemma {:induction false} BeforeRemove(s: Text, idx: nat)
    requires WordAt(UpperMask(s), REMOVE, idx)
    ensures var r := Read(BEGIN, s[..idx]);
      && r == ReadTo(BEGIN, s, idx)
      && IsSound(r) && (r.lex.Code? || r.lex.Closing?) && r.word == 0
  {
    ReadPrefix(BEGIN, s[..idx], s, idx);
    ReaderCounts(s, idx);
    LetterOfMask(s, idx);
    assert UpperMask(s)[idx + 0] == REMOVE[0];
  }

  lemma {:induction false} LettersAddNothing(s: Text, i: nat, j: nat)
    requires i <= j <= |s| && forall k :: i <= k < j ==> IsAlnum(UpperMask(s)[k])
    ensures ReadTo(BEGIN, s, j).hits == ReadTo(BEGIN, s, i).hits
    decreases j
  {
    if i < j {
      LettersAddNothing(s, i, j - 1);
      ReaderCounts(s, j - 1);
      LetterOfMask(s, j - 1);
      assert IsAlnum(UpperMask(s)[j - 1]);
    }
  }

  lemma {:induction false} BehindRemove(s: Text, idx: nat)
    requires WordAt(UpperMask(s), REMOVE, idx)
    ensures ReadTo(BEGIN, s, idx + 6) == Reader(Code, 6, ReadTo(BEGIN, s, idx).hits)
    ensures idx + 6 < |s| ==> !IsAlnum(Letter(Code, s[idx + 6]))
  {
    var u := UpperMask(s);
    KeywordIsCode(s, REMOVE, idx);
    ReaderCounts(s, idx + 6);
    WordAtIs(u, idx);
    forall k | idx <= k < idx + 6 ensures IsAlnum(u[k]) {
      assert u[idx + (k - idx)] == REMOVE[k - idx];
    }
    LettersAddNothing(s, idx, idx + 6);
    if idx + 6 < |s| {
      LetterOfMask(s, idx + 6);
    }
  }

  /** The hit of REMOVE itself is booked with the unit behind it. */
  lemma {:induction false} BookRemove(h: nat, c: char)
    requires !IsAlnum(Letter(Code, c))
    ensures var r := ReadUnit(Reader(Code, 0, h), c);
      ReadUnit(Reader(Code, 6, h), c) == r.(hits := r.hits + 1)
  {
  }

  /** Read from where SET leaves it, the rest has one REMOVE less than the text. */
  lemma {:induction false} RestReads(s: Text, idx: nat, rest: Text, j: nat)
    requires WordAt(UpperMask(s), REMOVE, idx) && rest == s[idx + 6..] && 0 < j <= |rest|
    ensures var r := ReadTo(Reader(Code, 0, ReadTo(BEGIN, s, idx).hits), rest, j);
      ReadTo(BEGIN, s, idx + 6 + j) == r.(hits := r.hits + 1)
  {
    var h := ReadTo(BEGIN, s, idx).hits;
    BehindRemove(s, idx);
    BookRemove(h, rest[0]);
    ReadSplit(BEGIN, s, idx + 6, j);
    RebookFirst(Reader(Code, 6, h), Reader(Code, 0, h), rest, j);
  }

  lemma {:induction false} RebookFirst(a: Reader, b: Reader, t: Text, j: nat)
    requires 0 < j <= |t|
    requires var r := ReadUnit(b, t[0]); ReadUnit(a, t[0]) == r.(hits := r.hits + 1)
    ensures var r := ReadTo(b, t, j); ReadTo(a, t, j) == r.(hits := r.hits + 1)
  {
    if j == 1 {
      assert ReadTo(a, t, 0) == a && ReadTo(b, t, 0) == b;
    } else {
      RebookFirst(a, b, t, j - 1);
    }
  }

  /** The parts as the reader sees them, from where SET leaves it. */
  lemma {:induction false} ListReads(o: Reader, list: Text)
    requires IsSettled(o)
    ensures IsBehind(Read(o, Trim(list)), Read(o, list), Read(o, NullAssignments(Trim(list))))
  {
    PieceReads(o, list);
    NullingReads(o, Trim(list));
  }

  lemma {:induction false} SliceWord(u: Text, b: nat, w: Text, e: nat)
    requires b <= |u| && e > 0 && WordAt(u[b..], w, e)
    ensures OccursAt(u, w, b + e) && !IsAlnum(u[b + e - 1])
    ensures b + e + |w| == |u| || !IsAlnum(u[b + e + |w|])
  {
    var v := u[b..];
    forall k | 0 <= k < |w| ensures u[b + e + k] == w[k] {
      assert v[e + k] == w[k];
    }
    assert v[e - 1] == u[b + e - 1];
    assert e + |w| < |v| ==> v[e + |w|] == u[b + e + |w|];
  }

  /** `w` stands in the mask at `at` as a whole word, with something before it. */
  ghost predicate StandsAt(u: Text, w: Text, at: nat) {
    && 0 < |w| && 0 < at && at + |w| <= |u|
    && (forall k :: 0 <= k < |w| ==> IsAlnum(w[k]) && u[at + k] == w[k])
    && !IsAlnum(u[at - 1])
    && (at + |w| == |u| || !IsAlnum(u[at + |w|]))
  }

  lemma {:induction false} SliceStands(u: Text, b: nat, w: Text, e: nat, at: nat)
    requires b <= |u| && e > 0 && 0 < |w| && WordAt(u[b..], w, e) && at == b + e
    requires forall k :: 0 <= k < |w| ==> IsAlnum(w[k])
    ensures StandsAt(u, w, at)
  {
    SliceWord(u, b, w, e);
  }

  lemma {:induction false} ShownLetter(s: Text, i: nat, c: char)
    requires i < |s| && IsAlnum(c) && UpperMask(s)[i] == c
    ensures IsAlnum(s[i]) && UpperChar(s[i]) == c && StateAt(s, i + 1) == Code
  {
    LetterOfMask(s, i);
  }

  lemma {:induction false} StandUnit(s: Text, at: nat, w: Text, k: nat)
    requires StandsAt(UpperMask(s), w, at) && k < |w|
    ensures IsAlnum(s[at + k]) && UpperChar(s[at + k]) == w[k] && StateAt(s, at + k + 1) == Code
  {
    assert UpperMask(s)[at + k] == w[k];
    ShownLetter(s, at + k, w[k]);
  }

  /** The clause that ends a list, as the reader meets it. */
  lemma {:induction false} ClauseIsWord(s: Text, at: nat, w: Text)
    requires StandsAt(UpperMask(s), w, at)
    ensures IsWordOf(s[at..], w)
  {
    var t := s[at..];
    forall k | 0 <= k < |w| ensures IsAlnum(t[k]) && UpperChar(t[k]) == w[k] {
      StandUnit(s, at, w, k);
    }
    StandUnit(s, at, w, |w| - 1);
    if at + |w| < |s| {
      LetterOfMask(s, at + |w|);
    }
  }

  lemma {:induction false} ReaderAtWord(s: Text, at: nat)
    requires 0 < at < |s| && IsAlnum(UpperMask(s)[at]) && !IsAlnum(UpperMask(s)[at - 1])
    ensures var z := ReadTo(BEGIN, s, at); z.word == 0 && (z.lex.Code? || z.lex.Closing?)
  {
    ReaderCounts(s, at);
    LetterOfMask(s, at);
  }

  lemma {:induction false} ClausesAreWords(i: nat)
    requires i < |CLAUSES|
    ensures CLAUSES[i] != REMOVE && 0 < |CLAUSES[i]| && forall k :: 0 <= k < |CLAUSES[i]| ==> IsAlnum(CLAUSES[i][k])
  {
  }

  /** A clause behind the list. */
  lemma {:induction false} ClauseAgrees(list: Text, tail: Text, w: Text, o: Reader)
    requires IsSettled(o) && IsWordOf(tail, w) && w != REMOVE
    requires var z := Read(o, list); z.word == 0 && (z.lex.Code? || z.lex.Closing?)
    ensures Total(Read(Read(o, list), tail)) == Total(Read(Read(o, NullAssignments(Trim(list))), tail))
  {
    ListReads(o, list);
    WordAgrees(Read(o, Trim(list)), Read(o, list), Read(o, NullAssignments(Trim(list))), tail, w);
  }

  lemma {:induction false} ClauseBehindList(s: Text, n: nat, list: Text, tail: Text, w: Text)
    requires n <= |s| && s[n..] == list + tail && StandsAt(UpperMask(s), w, n + |list|)
    ensures IsWordOf(tail, w)
  {
    ClauseIsWord(s, n + |list|, w);
    assert s[n + |list|..] == s[n..][|list|..] == tail;
  }

  /** Behind the list the reader of the text is where it is when SET came first. */
  lemma {:induction false} ListIsRead(s: Text, idx: nat, list: Text, tail: Text, o: Reader, at: nat)
    requires WordAt(UpperMask(s), REMOVE, idx) && list + tail == s[idx + 6..] && list != []
    requires o == Reader(Code, 0, ReadTo(BEGIN, s, idx).hits) && at == idx + 6 + |list|
    ensures at <= |s| && ReadTo(BEGIN, s, at) == Read(o, list).(hits := Read(o, list).hits + 1)
  {
    RestReads(s, idx, list + tail, |list|);
    ReadPrefix(o, list + tail, list, |list|);
  }

  lemma {:induction false} StandsFacts(u: Text, w: Text, at: nat)
    requires StandsAt(u, w, at)
    ensures 0 < at < |u| && IsAlnum(u[at]) && !IsAlnum(u[at - 1])
  {
    assert u[at + 0] == w[0];
  }

  /** A semicolon behind it, or nothing. */
  lemma {:induction false} EndAgrees(list: Text, tail: Text, o: Reader)
    requires IsSettled(o) && (tail == [] || tail[0] == ';')
    ensures Total(Read(Read(o, list), tail)) == Total(Read(Read(o, NullAssignments(Trim(list))), tail))
  {
    ListReads(o, list);
    if tail != [] {
      FillerAgrees(Read(o, Trim(list)), Read(o, list), Read(o, NullAssignments(Trim(list))), tail);
    }
  }

  lemma {:induction false} ReaderAtStand(s: Text, at: nat, w: Text, z: Reader)
    requires StandsAt(UpperMask(s), w, at) && ReadTo(BEGIN, s, at) == z.(hits := z.hits + 1)
    ensures z.word == 0 && (z.lex.Code? || z.lex.Closing?)
  {
    StandsFacts(UpperMask(s), w, at);
    ReaderAtWord(s, at);
  }

  /** The list of a text, from unit `n` on, and a clause behind it. */
  lemma {:induction false} ClauseCase(s: Text, n: nat, at: nat, list: Text, tail: Text, o: Reader, w: Text)
    requires n <= |s| && s[n..] == list + tail && at == n + |list| && IsSettled(o) && w != REMOVE
    requires StandsAt(UpperMask(s), w, at)
    requires ReadTo(BEGIN, s, at) == Read(o, list).(hits := Read(o, list).hits + 1)
    ensures Total(Read(Read(o, list), tail)) == Total(Read(Read(o, NullAssignments(Trim(list))), tail))
  {
    ReaderAtStand(s, at, w, Read(o, list));
    ClauseBehindList(s, n, list, tail, w);
    ClauseAgrees(list, tail, w, o);
  }

  /** From where SET leaves the reader, the rewritten tail has the words of the rest. */
  lemma {:induction false} TailAgrees(s: Text, n: nat, at: nat, list: Text, tail: Text, o: Reader, upper: Text)
    requires n <= |s| && s[n..] == list + tail && list != [] && IsSettled(o) && at == n + |list|
    requires ReadTo(BEGIN, s, at) == Read(o, list).(hits := Read(o, list).hits + 1)
    requires upper == UpperMask(s)[n..] && IsListEnd(list + tail, upper, CLAUSES, |list|)
    ensures Total(Read(Read(o, list), tail)) == Total(Read(Read(o, NullAssignments(Trim(list))), tail))
  {
    assert tail != [] ==> (list + tail)[|list|] == tail[0];
    if tail == [] || tail[0] == ';' {
      EndAgrees(list, tail, o);
    } else {
      var i :| 0 <= i < |CLAUSES| && WordAt(upper, CLAUSES[i], |list|);
      var w := CLAUSES[i];
      ClausesAreWords(i);
      SliceStands(UpperMask(s), n, w, |list|, at);
      ClauseCase(s, n, at, list, tail, o, w);
    }
  }

  lemma {:induction false} TrimmedIsNotEmpty(s: Text)
    requires Trim(s) != []
    ensures s != []
  {
  }

  lemma {:induction false} ResultReads(front: Text, list: Text, tail: Text, r: Reader)
    requires r == Read(BEGIN, front) && IsSound(r) && (r.lex.Code? || r.lex.Closing?) && r.word == 0
    ensures Read(BEGIN, front + "SET " + list + tail) == Read(Read(Reader(Code, 0, r.hits), list), tail)
  {
    SetReads(r);
    ReadConcat(BEGIN, front, "SET ");
    ReadConcat(BEGIN, front + "SET ", list);
    ReadConcat(BEGIN, front + "SET " + list, tail);
  }

  lemma {:induction false} SourceReads(s: Text, idx: nat, list: Text, tail: Text, o: Reader)
    requires WordAt(UpperMask(s), REMOVE, idx) && list + tail == s[idx + 6..] && list != []
    requires o == Reader(Code, 0, ReadTo(BEGIN, s, idx).hits)
    ensures Total(Read(BEGIN, s)) == Total(Read(Read(o, list), tail)) + 1
  {
    RestReads(s, idx, list + tail, |list + tail|);
    ReadConcat(o, list, tail);
  }

  lemma {:induction false} HalvesJoin(s: Text, k: nat)
    requires k <= |s|
    ensures s == s[..k] + s[k..]
  {
  }

  lemma {:induction false} PartsJoin(s: Text, idx: nat)
    requires idx + 6 <= |s|
    ensures var p := PartsOf(s, idx); p.rest == s[idx + 6..] && p.rest == p.list + p.tail
  {
    HalvesJoin(PartsOf(s, idx).rest, |PartsOf(s, idx).list|);
  }

  lemma {:induction false} PartsFit(s: Text, idx: nat, p: Parts, upper: Text)
    requires idx + 6 <= |s| && RemoveAt(s, idx).Ok? && p == PartsOf(s, idx) && upper == UpperMask(s)[idx + 6..]
    ensures s[idx + 6..] == p.list + p.tail && p.list != []
    ensures IsListEnd(p.list + p.tail, upper, CLAUSES, |p.list|)
  {
    PartsJoin(s, idx);
    RemoveOfParts(s, idx);
    TrimmedIsNotEmpty(p.list);
    PropertyListEndIs(p.list + p.tail, upper);
  }

  lemma {:induction false} PartsAgree(s: Text, idx: nat, list: Text, tail: Text, o: Reader, upper: Text)
    requires WordAt(UpperMask(s), REMOVE, idx) && s[idx + 6..] == list + tail && list != []
    requires upper == UpperMask(s)[idx + 6..] && IsListEnd(list + tail, upper, CLAUSES, |list|)
    requires o == Reader(Code, 0, ReadTo(BEGIN, s, idx).hits)
    ensures Total(Read(Read(o, list), tail)) == Total(Read(Read(o, NullAssignments(Trim(list))), tail))
  {
    var at := idx + 6 + |list|;
    ListIsRead(s, idx, list, tail, o, at);
    TailAgrees(s, idx + 6, at, list, tail, o, upper);
  }

  lemma {:induction false} ResultOfRemove(s: Text, idx: nat, p: Parts, o: Reader)
    requires WordAt(UpperMask(s), REMOVE, idx) && RemoveAt(s, idx).Ok? && p == PartsOf(s, idx)
    requires o == Reader(Code, 0, ReadTo(BEGIN, s, idx).hits)
    ensures Read(BEGIN, RemoveAt(s, idx).text) == Read(Read(o, NullAssignments(Trim(p.list))), p.tail)
  {
    RemoveOfParts(s, idx);
    BeforeRemove(s, idx);
    ResultReads(p.front, NullAssignments(Trim(p.list)), p.tail, Read(BEGIN, p.front));
  }

  /** The REMOVE pass takes one REMOVE out of the text and leaves every other in it. */
  lemma {:induction false} RemoveTakesOne(s: Text)
    requires FirstWord(UpperMask(s), REMOVE).Some? && Remove(s).Ok?
    ensures Count(s) == Count(Remove(s).text) + 1
  {
    var idx := FirstWord(UpperMask(s), REMOVE).value;
    var o := Reader(Code, 0, ReadTo(BEGIN, s, idx).hits);
    var (p, upper) := (PartsOf(s, idx), UpperMask(s)[idx + 6..]);
    PartsFit(s, idx, p, upper);
    PartsAgree(s, idx, p.list, p.tail, o, upper);
    SourceReads(s, idx, p.list, p.tail, o);
    ResultOfRemove(s, idx, p, o);
    TotalIsCount(Remove(s).text);
    TotalIsCount(s);
  }

  // ── Is every REMOVE rewritten? ────────────────────────────────────────

  lemma {:induction false} CountNone(u: Text, n: nat)
    ensures CountUpTo(u, n) == 0 <==> forall j: nat :: j < n ==> !WordAt(u, REMOVE, j)
  {
    if n > 0 {
      CountNone(u, n - 1);
    }
  }

  lemma {:induction false} CountOne(u: Text, first: nat, n: nat)
    requires WordAt(u, REMOVE, first) && first < n && forall j: nat :: j < first ==> !WordAt(u, REMOVE, j)
    ensures CountUpTo(u, n) >= 1
    ensures CountUpTo(u, n) == 1 <==> forall j: nat :: first < j < n ==> !WordAt(u, REMOVE, j)
    decreases n
  {
    if n == first + 1 {
      CountNone(u, first);
    } else {
      CountOne(u, first, n - 1);
    }
  }

  /** Two REMOVEs outside literals. */
  ghost predicate HasTwo(u: Text) {
    exists i: nat, j: nat :: i < j && WordAt(u, REMOVE, i) && WordAt(u, REMOVE, j)
  }

  /** The pass leaves no REMOVE outside literals if and only if there was at most one. */
  lemma {:induction false} EveryRemoveIsRewrittenExactly(s: Text)
    requires Remove(s).Ok?
    ensures FirstWord(UpperMask(Remove(s).text), REMOVE).None? <==> !HasTwo(UpperMask(s))
  {
    var (u, first) := (UpperMask(s), FirstWord(UpperMask(s), REMOVE));
    if first.Some? {
      var v := UpperMask(Remove(s).text);
      RemoveTakesOne(s);
      CountOne(u, first.value, |u|);
      CountNone(v, |v|);
      assert FirstWord(v, REMOVE).None? <==> CountUpTo(v, |v|) == 0;
      if j: nat :| first.value < j < |u| && WordAt(u, REMOVE, j) {
        assert HasTwo(u);
      }
    }
  }

  // ── The clause behind the rewritten one ───────────────────────────────

  ghost predicate StartsWithClause(t: Text, kws: seq<Text>) {
    exists i :: 0 <= i < |kws| && IsWordOf(t, kws[i])
  }

  lemma {:induction false} ListEndsAtClause(s: Text, n: nat, at: nat, list: Text, tail: Text, upper: Text)
    requires n <= |s| && s[n..] == list + tail && list != [] && at == n + |list|
    requires upper == UpperMask(s)[n..] && IsListEnd(list + tail, upper, CLAUSES, |list|)
    requires tail != [] && tail[0] != ';'
    ensures at < |s| && IsAlnum(UpperMask(s)[at]) && !IsAlnum(UpperMask(s)[at - 1])
    ensures StartsWithClause(tail, CLAUSES)
  {
    assert (list + tail)[|list|] == tail[0];
    var i :| 0 <= i < |CLAUSES| && WordAt(upper, CLAUSES[i], |list|);
    var w := CLAUSES[i];
    ClausesAreWords(i);
    SliceStands(UpperMask(s), n, w, |list|, at);
    StandsFacts(UpperMask(s), w, at);
    ClauseBehindList(s, n, list, tail, w);
  }

  lemma {:induction false} ReadHead(s: Text, idx: nat, front: Text, list: Text, o: Reader, head: Text)
    requires WordAt(UpperMask(s), REMOVE, idx) && front == s[..idx] && head == front + "SET " + list
    requires o == Reader(Code, 0, ReadTo(BEGIN, s, idx).hits)
    ensures Read(BEGIN, head) == Read(o, list)
  {
    BeforeRemove(s, idx);
    SetReads(Read(BEGIN, front));
    ReadConcat(BEGIN, front, "SET ");
    ReadConcat(BEGIN, front + "SET ", list);
  }

  /** Behind a list that a clause follows, and ` = null`, the reader is inside a word. */
  lemma {:induction false} ReaderInNull(s: Text, idx: nat, list: Text, tail: Text, o: Reader, at: nat)
    requires WordAt(UpperMask(s), REMOVE, idx) && list + tail == s[idx + 6..] && list != []
    requires o == Reader(Code, 0, ReadTo(BEGIN, s, idx).hits) && at == idx + 6 + |list| < |s|
    requires IsAlnum(UpperMask(s)[at]) && !IsAlnum(UpperMask(s)[at - 1])
    ensures Read(o, NullAssignments(Trim(list))).word == -1
  {
    ListIsRead(s, idx, list, tail, o, at);
    ReaderAtWord(s, at);
    ListReads(o, list);
  }

  lemma {:induction false} InWordIsNoEdge(t: Text, head: Text, tail: Text, at: nat)
    requires t == head + tail && at == |head| && Read(BEGIN, head).word == -1
    ensures at > 0 && IsAlnum(UpperMask(t)[at - 1])
  {
    ReadPrefix(BEGIN, t, head, at);
    ReaderCounts(t, at);
  }

  lemma {:induction false} HeadEndsInWord(s: Text, idx: nat, list: Text, tail: Text, upper: Text, head: Text)
    requires WordAt(UpperMask(s), REMOVE, idx) && s[idx + 6..] == list + tail && list != []
    requires upper == UpperMask(s)[idx + 6..] && IsListEnd(list + tail, upper, CLAUSES, |list|)
    requires tail != [] && tail[0] != ';' && head == s[..idx] + "SET " + NullAssignments(Trim(list))
    ensures StartsWithClause(tail, CLAUSES)
    ensures Read(BEGIN, head).word == -1
  {
    var (o, at) := (Reader(Code, 0, ReadTo(BEGIN, s, idx).hits), idx + 6 + |list|);
    ListEndsAtClause(s, idx + 6, at, list, tail, upper);
    ReaderInNull(s, idx, list, tail, o, at);
    ReadHead(s, idx, s[..idx], NullAssignments(Trim(list)), o, head);
  }

  /** The first REMOVE of `s`, at `idx`, its list, and what follows, rewritten to `head`
      and `tail`. */
  ghost predicate IsRemoval(s: Text, idx: nat, list: Text, tail: Text, head: Text) {
    && idx + 6 <= |s| && WordAt(UpperMask(s), REMOVE, idx)
    && s[idx + 6..] == list + tail && list != []
    && IsListEnd(list + tail, UpperMask(s)[idx + 6..], CLAUSES, |list|)
    && head == s[..idx] + "SET " + NullAssignments(Trim(list))
  }

  lemma {:induction false} RemovalOf(s: Text, idx: nat) returns (list: Text, tail: Text, head: Text)
    requires FirstWord(UpperMask(s), REMOVE) == Some(idx) && Remove(s).Ok?
    ensures IsRemoval(s, idx, list, tail, head) && Remove(s).text == head + tail
  {
    var p := PartsOf(s, idx);
    RemoveOfParts(s, idx);
    PartsFit(s, idx, p, UpperMask(s)[idx + 6..]);
    list, tail := p.list, p.tail;
    head := s[..idx] + "SET " + NullAssignments(Trim(list));
  }

  /** In `head + tail`, `tail` does not begin a word. */
  predicate IsGlued(head: Text, tail: Text) {
    head != [] && IsAlnum(UpperMask(head + tail)[|head| - 1])
  }

  lemma {:induction false} InWordIsGlued(head: Text, tail: Text)
    requires Read(BEGIN, head).word == -1
    ensures IsGlued(head, tail)
  {
    InWordIsNoEdge(head + tail, head, tail, |head|);
  }

  lemma {:induction false} RemovalGlues(s: Text, idx: nat, list: Text, tail: Text, head: Text)
    requires IsRemoval(s, idx, list, tail, head) && tail != [] && tail[0] != ';'
    ensures StartsWithClause(tail, CLAUSES) && IsGlued(head, tail)
  {
    HeadEndsInWord(s, idx, list, tail, UpperMask(s)[idx + 6..], head);
    InWordIsGlued(head, tail);
  }

  /** Unless a semicolon or the end follows the list, a clause does, and it is no longer
      a word of its own: the blank in front of it has been trimmed away, and it stands
      right behind `null`. */
  lemma {:induction false} NextClauseIsGlued(s: Text, idx: nat) returns (list: Text, tail: Text, head: Text)
    requires FirstWord(UpperMask(s), REMOVE) == Some(idx) && Remove(s).Ok?
    ensures IsRemoval(s, idx, list, tail, head) && Remove(s).text == head + tail
    ensures tail == [] || tail[0] == ';' || (StartsWithClause(tail, CLAUSES) && IsGlued(head, tail))
  {
    list, tail, head := RemovalOf(s, idx);
    if tail != [] && tail[0] != ';' {
      RemovalGlues(s, idx, list, tail, head);
    }
  }

  // ── A REMOVE that survives ────────────────────────────────────────────

  lemma {:induction false} NoQuotesNoMask(t: Text)
    requires forall i :: 0 <= i < |t| ==> !IsQuote(t[i]) && UpperChar(t[i]) == t[i]
    ensures UpperMask(t) == t
  {
    QuoteFreeRun(t, 0, |t|);
    assert forall i :: 0 <= i < |t| ==> UpperMask(t)[i] == t[i];
  }

  /** A word with a letter that a text does not have is not in it. */
  lemma {:induction false} AlienWord(u: Text, w: Text, k: nat)
    requires k < |w| && forall i :: 0 <= i < |u| ==> u[i] != w[k]
    ensures FirstWord(u, w).None?
  {
    forall j: nat ensures !WordAt(u, w, j) {
      if j + |w| <= |u| {
        assert u[j + k] != w[k];
      }
    }
  }

  lemma {:induction false} NoClauseInList(rest: Text, upper: Text, end: nat, kws: seq<Text>)
    requires end <= |rest| && forall i :: 0 <= i < |kws| ==> kws[i] != [] && FirstWord(upper, kws[i]).None?
    ensures ListEnd(rest, upper, end, kws) == end
  {
    if kws != [] {
      NoClauseInList(rest, upper, end, kws[1..]);
    }
  }

  predicate IsLetterHere(c: char) {
    c == ' ' || c == 'A' || c == 'B' || c == 'E' || c == 'M' || c == 'O' || c == 'R' || c == 'V'
  }

  lemma {:induction false} NoClauseHere(u: Text, i: nat)
    requires i < |CLAUSES| && forall k :: 0 <= k < |u| ==> IsLetterHere(u[k])
    ensures CLAUSES[i] != [] && FirstWord(u, CLAUSES[i]).None?
  {
    // the first letter of each clause that is none of those
    var alien := [2, 2, 0, 0, 0, 0, 3, 0, 2, 0, 0, 0, 0];
    assert !IsLetterHere(CLAUSES[i][alien[i]]);
    AlienWord(u, CLAUSES[i], alien[i]);
  }

  lemma {:induction false} NoUnit(t: Text, c: char)
    requires forall i :: 0 <= i < |t| ==> t[i] != c
    ensures Find(t, [c], 0).None?
  {
    forall j: nat ensures !OccursAt(t, [c], j) {
      assert j < |t| ==> t[j + 0] != [c][0];
    }
  }

  lemma {:induction false} NotBlank(s: Text, i: nat)
    requires i < |s| && !IsBlankUnit(s[i])
    ensures Trim(s) != []
  {
    TrimForwardSkipsBlanks(s, 0);
    TrimBackSkipsBlanks(s, |s|);
  }

  lemma {:induction false} Spelled(t: Text, j: nat)
    requires j + 6 <= |t| && t[j] == 'R' && t[j + 1] == 'E' && t[j + 2] == 'M'
    requires t[j + 3] == 'O' && t[j + 4] == 'V' && t[j + 5] == 'E'
    ensures OccursAt(t, REMOVE, j)
  {
  }

  lemma {:induction false} ListToTheEnd(rest: Text)
    requires forall k :: 0 <= k < |rest| ==> IsLetterHere(rest[k])
    ensures PropertyListEnd(rest, rest) == |rest|
  {
    NoUnit(rest, ';');
    forall i | 0 <= i < |CLAUSES| ensures CLAUSES[i] != [] && FirstWord(rest, CLAUSES[i]).None? {
      NoClauseHere(rest, i);
    }
    NoClauseInList(rest, rest, |rest|, CLAUSES);
  }

  lemma {:induction false} TwoRemoves(u: Text, j: nat)
    requires 0 < j && WordAt(u, REMOVE, 0) && WordAt(u, REMOVE, j)
    ensures HasTwo(u)
  {
  }

  lemma {:induction false} FirstAtStart(u: Text)
    requires WordAt(u, REMOVE, 0)
    ensures FirstWord(u, REMOVE) == Some(0)
  {
    FirstWordIs(u, 0, |u|, REMOVE, 0);
  }

  lemma {:induction false} ListOfLetters(t: Text, rest: Text, i: nat)
    requires (forall k :: 0 <= k < |t| ==> IsLetterHere(t[k])) && UpperMask(t) == t
    requires 6 <= i < |t| && t[i] != ' ' && rest == t[6..]
    ensures RemoveAt(t, 0).Ok?
  {
    ListToTheEnd(rest);
    assert rest[..|rest|] == rest && rest[i - 6] == t[i];
    NotBlank(rest, i - 6);
  }

  /** A text of these letters with two REMOVEs, one at the start. */
  lemma {:induction false} OneOfTwoSurvives(t: Text, j: nat)
    requires (forall k :: 0 <= k < |t| ==> IsLetterHere(t[k])) && 6 < j < |t| && t[j] == 'R'
    requires WordAt(t, REMOVE, 0) && WordAt(t, REMOVE, j)
    ensures Remove(t).Ok? && FirstWord(UpperMask(Remove(t).text), REMOVE).Some?
  {
    NoQuotesNoMask(t);
    TwoRemoves(t, j);
    RemoveIsOk(t, j);
    EveryRemoveIsRewrittenExactly(t);
  }

  lemma {:induction false} RemoveIsOk(t: Text, j: nat)
    requires (forall k :: 0 <= k < |t| ==> IsLetterHere(t[k])) && 6 < j < |t| && t[j] == 'R'
    requires WordAt(t, REMOVE, 0) && UpperMask(t) == t
    ensures Remove(t).Ok?
  {
    FirstAtStart(t);
    ListOfLetters(t, t[6..], j);
  }

  /** Two clauses, one rewritten. */
  lemma {:induction false} SecondRemoveSurvives()
    ensures var t := "REMOVE A REMOVE B";
      Remove(t).Ok? && FirstWord(UpperMask(Remove(t).text), REMOVE).Some?
  {
    var t := "REMOVE A REMOVE B";
    Spelled(t, 0);
    Spelled(t, 9);
    OneOfTwoSurvives(t, 9);
  }

  // ── A clause that is glued ────────────────────────────────────────────

  lemma {:induction false} ReturnIsThere(rest: Text)
    requires rest == " A RETURN B"
    ensures FirstWord(rest, "RETURN") == Some(3)
  {
    assert WordIn(rest, 0, |rest|, "RETURN", 3);
    forall j: nat | j < 3 ensures !WordIn(rest, 0, |rest|, "RETURN", j) {
      assert rest[j + 0] != "RETURN"[0];
    }
    FirstWordIs(rest, 0, |rest|, "RETURN", 3);
  }

  lemma {:induction false} NoOtherClause(rest: Text, i: nat)
    requires 0 < i < |CLAUSES| && forall k :: 0 <= k < |rest| ==> rest[k] in {' ', 'A', 'B', 'E', 'N', 'R', 'T', 'U'}
    ensures CLAUSES[i] != [] && FirstWord(rest, CLAUSES[i]).None?
  {
    AlienWord(rest, CLAUSES[i], if i == 12 then 2 else 0);
  }

  lemma {:induction false} ReturnEndsList(rest: Text)
    requires rest == " A RETURN B"
    ensures PropertyListEnd(rest, rest) == 3
  {
    NoUnit(rest, ';');
    ReturnIsThere(rest);
    var others := CLAUSES[1..];
    forall i | 0 <= i < |others| ensures others[i] != [] && FirstWord(rest, others[i]).None? {
      NoOtherClause(rest, i + 1);
    }
    NoClauseInList(rest, rest, 3, others);
  }

  lemma {:induction false} OnePropertyNulled(list: Text)
    requires list == " A "
    ensures Trim(list) == "A" && NullAssignments("A") == "A = null"
  {
    assert TrimForward(list, 1) == 1 && TrimBack(list, 2) == 2;
    NullFirst("A", []);
    assert TrimForward("A", 0) == 0 && TrimBack("A", 1) == 1;
  }

  lemma {:induction false} RemoveFrom(t: Text, rest: Text, list: Text, tail: Text, props: Text, nulled: Text)
    requires |t| >= 6 && t[6..] == rest && UpperMask(t)[6..] == rest && rest == list + tail
    requires PropertyListEnd(rest, rest) == |list| && Trim(list) == props != [] && NullAssignments(props) == nulled
    ensures RemoveAt(t, 0) == Ok("SET " + nulled + tail)
  {
    assert rest[..|list|] == list && rest[|list|..] == tail;
    assert t[..0] + "SET " == "SET ";
  }

  predicate IsLetterThere(c: char) {
    c == ' ' || IsUpperLetter(c)
  }

  lemma {:induction false} FirstOfLetters(t: Text)
    requires (forall k :: 0 <= k < |t| ==> IsLetterThere(t[k])) && WordAt(t, REMOVE, 0)
    ensures UpperMask(t) == t && FirstWord(t, REMOVE) == Some(0)
  {
    NoQuotesNoMask(t);
    FirstAtStart(t);
  }

  lemma {:induction false} RestGlued(t: Text, rest: Text, list: Text)
    requires |t| >= 6 && t[6..] == rest && UpperMask(t)[6..] == rest && rest == list + "RETURN B"
    requires |list| == 3 == PropertyListEnd(rest, rest) && list == " A "
    ensures RemoveAt(t, 0) == Ok("SET " + "A = null" + "RETURN B")
  {
    OnePropertyNulled(list);
    RemoveFrom(t, rest, list, "RETURN B", "A", "A = null");
  }

  lemma {:induction false} GluedIn(t: Text, rest: Text)
    requires (forall k :: 0 <= k < |t| ==> IsLetterThere(t[k])) && WordAt(t, REMOVE, 0)
    requires t[6..] == rest && rest == " A RETURN B" && rest == " A " + "RETURN B"
    ensures Remove(t) == Ok("SET " + "A = null" + "RETURN B")
  {
    FirstOfLetters(t);
    ReturnEndsList(rest);
    RestGlued(t, rest, " A ");
  }

  /** RETURN is no longer a word. */
  lemma {:induction false} ReturnIsGlued()
    ensures Remove("REMOVE A RETURN B") == Ok("SET " + "A = null" + "RETURN B")
  {
    var t := "REMOVE A RETURN B";
    Spelled(t, 0);
    assert " A " + "RETURN B" == " A RETURN B";
    GluedIn(t, " A RETURN B");
  }
}
