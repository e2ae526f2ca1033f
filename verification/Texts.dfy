/** Query texts as the Rust code sees them: strings addressed by byte offset.

    A `Text` is a sequence of UTF-8 code units; an ASCII unit is written as the
    character it stands for, and a unit of a multi-byte character is the `char`
    with that unit's value. Nothing below restricts the units any further, so
    every result holds for every byte string, well formed or not, unless it
    asks for `WellFormed`. */
module Texts {

  datatype Option<+T> = None | Some(value: T)

  type Text = seq<char>

  // ── Characters ────────────────────────────────────────────────────────

  /** A unit that continues a multi-byte character. */
  predicate IsContinuation(c: char) {
    0x80 <= c as int < 0xC0
  }

  /** The test behind `str::is_char_boundary`. */
  predicate IsBoundary(s: Text, i: nat)
    requires i <= |s|
  {
    i == 0 || i == |s| || !IsContinuation(s[i])
  }

  /** How many units the character has that begins with the unit `c`. */
  function UnitsOf(c: char): (n: nat) {
    var u := c as int;
    if u < 0xC0 then 1 else if u < 0xE0 then 2 else if u < 0xF0 then 3 else 4
  }

  /** The character that begins at `i`, if one does, is all there and no longer. */
  ghost predicate IsWhole(s: Text, i: nat)
    requires i < |s|
  {
    var e := i + UnitsOf(s[i]);
    IsContinuation(s[i])
    || (e <= |s| && IsBoundary(s, e) && forall k :: i < k < e ==> IsContinuation(s[k]))
  }

  /** What slicing needs from UTF-8 validity: whole characters, one after the other. */
  ghost predicate WellFormed(s: Text) {
    && (s != [] ==> !IsContinuation(s[0]))
    && forall i :: 0 <= i < |s| ==> IsWhole(s, i)
  }

  /** Offset just after the character that starts at `i`. */
  function CharEnd(s: Text, i: nat): (e: nat)
    requires i < |s|
    ensures i < e <= |s|
    ensures forall k :: i < k < e ==> IsContinuation(s[k])
    ensures e < |s| ==> !IsContinuation(s[e])
    decreases |s| - i
  {
    if i + 1 < |s| && IsContinuation(s[i + 1]) then CharEnd(s, i + 1) else i + 1
  }

  predicate IsQuote(c: char) {
    c == '\'' || c == '"'
  }

  predicate IsUpperLetter(c: char) {
    'A' <= c <= 'Z'
  }

  /** `u8::is_ascii_alphanumeric` */
  predicate IsAlnum(c: char) {
    'a' <= c <= 'z' || 'A' <= c <= 'Z' || '0' <= c <= '9'
  }

  /** `u8::is_ascii_whitespace`: no vertical tab. */
  predicate IsAsciiBlank(c: char) {
    c == ' ' || c == '\t' || c == '\n' || c == '\r' || c as int == 0x0C
  }

  /** `u8::to_ascii_uppercase` */
  function UpperChar(c: char): (u: char)
    ensures IsQuote(u) <==> IsQuote(c)
    ensures !('a' <= c <= 'z') ==> u == c
  {
    if 'a' <= c <= 'z' then c - 32 as char else c
  }

  /** `u8::to_ascii_lowercase` */
  function LowerChar(c: char): char {
    if 'A' <= c <= 'Z' then c + 32 as char else c
  }

  function Lower(s: Text): (u: Text)
    ensures |u| == |s|
    ensures forall i :: 0 <= i < |s| ==> u[i] == LowerChar(s[i])
  {
    seq(|s|, i requires 0 <= i < |s| => LowerChar(s[i]))
  }

  function Upper(s: Text): (u: Text)
    ensures |u| == |s|
    ensures forall i :: 0 <= i < |s| ==> u[i] == UpperChar(s[i])
  {
    seq(|s|, i requires 0 <= i < |s| => UpperChar(s[i]))
  }

  function Spaces(n: nat): (r: Text)
    ensures |r| == n && forall i :: 0 <= i < n ==> r[i] == ' '
  {
    seq(n, _ => ' ')
  }

  // ── Trimming ──────────────────────────────────────────────────────────

  /** Unicode `White_Space` in one unit: U+0009..U+000D and U+0020. */
  predicate IsBlank1(a: char) {
    0x09 <= a as int <= 0x0D || a == ' '
  }

  /** In two units: U+0085 and U+00A0. */
  predicate IsBlank2(a: char, b: char) {
    a as int == 0xC2 && (b as int == 0x85 || b as int == 0xA0)
  }

  /** In three units: U+1680, U+2000..U+200A, U+2028, U+2029, U+202F, U+205F
      and U+3000. */
  predicate IsBlank3(a: char, b: char, c: char) {
    var (x, y, z) := (a as int, b as int, c as int);
    || (x == 0xE1 && y == 0x9A && z == 0x80)
    || (x == 0xE2 && y == 0x80 && (0x80 <= z <= 0x8A || z == 0xA8 || z == 0xA9 || z == 0xAF))
    || (x == 0xE2 && y == 0x81 && z == 0x9F)
    || (x == 0xE3 && y == 0x80 && z == 0x80)
  }

  /** A unit that can occur in a whitespace character. */
  predicate IsBlankUnit(c: char) {
    IsBlank1(c) || c as int >= 0x80
  }

  /** Length of the whitespace character that starts at `i`, 0 if none does. */
  function BlankFrom(s: Text, i: nat): (k: nat)
    requires i <= |s|
    ensures i + k <= |s|
  {
    if i + 1 <= |s| && IsBlank1(s[i]) then 1
    else if i + 2 <= |s| && IsBlank2(s[i], s[i + 1]) then 2
    else if i + 3 <= |s| && IsBlank3(s[i], s[i + 1], s[i + 2]) then 3
    else 0
  }

  /** Length of the whitespace character that ends at `i`, 0 if none does. */
  function BlankTo(s: Text, i: nat): (k: nat)
    requires i <= |s|
    ensures k <= i
  {
    if i >= 1 && IsBlank1(s[i - 1]) then 1
    else if i >= 2 && IsBlank2(s[i - 2], s[i - 1]) then 2
    else if i >= 3 && IsBlank3(s[i - 3], s[i - 2], s[i - 1]) then 3
    else 0
  }

  /** Where `s[i..].trim_start()` begins. */
  function TrimForward(s: Text, i: nat): (r: nat)
    requires i <= |s|
    ensures i <= r <= |s|
    decreases |s| - i
  {
    var k := BlankFrom(s, i);
    if k == 0 then i else TrimForward(s, i + k)
  }

  /** Where `s[..i].trim_end()` ends. */
  function TrimBack(s: Text, i: nat): (r: nat)
    requires i <= |s|
    ensures r <= i
    decreases i
  {
    var k := BlankTo(s, i);
    if k == 0 then i else TrimBack(s, i - k)
  }

  lemma {:induction false} TrimForwardSkipsBlanks(s: Text, i: nat)
    requires i <= |s|
    ensures forall j :: i <= j < TrimForward(s, i) ==> IsBlankUnit(s[j])
    ensures BlankFrom(s, TrimForward(s, i)) == 0
    decreases |s| - i
  {
    var k := BlankFrom(s, i);
    if k > 0 {
      TrimForwardSkipsBlanks(s, i + k);
    }
  }

  lemma {:induction false} TrimBackSkipsBlanks(s: Text, i: nat)
    requires i <= |s|
    ensures forall j :: TrimBack(s, i) <= j < i ==> IsBlankUnit(s[j])
    ensures BlankTo(s, TrimBack(s, i)) == 0
    decreases i
  {
    var k := BlankTo(s, i);
    if k > 0 {
      TrimBackSkipsBlanks(s, i - k);
    }
  }

  /** `str::trim_end` */
  function TrimEnd(s: Text): Text {
    s[..TrimBack(s, |s|)]
  }

  /** `str::trim` */
  function Trim(s: Text): Text {
    var from := TrimForward(s, 0);
    var to := TrimBack(s, |s|);
    if from < to then s[from..to] else []
  }

  // ── Searching ─────────────────────────────────────────────────────────

  /** `p` occurs in `s` at offset `i`. */
  predicate OccursAt(s: Text, p: Text, i: nat) {
    i + |p| <= |s| && forall k :: 0 <= k < |p| ==> s[i + k] == p[k]
  }

  /** `p` occurs in `s` just before offset `i`. */
  predicate OccursBefore(s: Text, p: Text, i: nat) {
    |p| <= i <= |s| && OccursAt(s, p, i - |p|)
  }

  /** `s[from..].find(p)`, as an offset into `s`. */
  function Find(s: Text, p: Text, from: nat): (r: Option<nat>)
    requires from <= |s|
    ensures r.Some? ==> from <= r.value && OccursAt(s, p, r.value)
    ensures r.Some? ==> forall j :: from <= j < r.value ==> !OccursAt(s, p, j)
    ensures r.None? ==> forall j :: from <= j ==> !OccursAt(s, p, j)
    decreases |s| - from
  {
    if from + |p| > |s| then None
    else if OccursAt(s, p, from) then Some(from)
    else Find(s, p, from + 1)
  }

  /** `w` occurs at `i` as a whole word of the slice `u[lo..hi]`. */
  predicate WordIn(u: Text, lo: nat, hi: nat, w: Text, i: nat)
    requires hi <= |u|
  {
    && lo <= i && i + |w| <= hi
    && OccursAt(u, w, i)
    && (i == lo || !IsAlnum(u[i - 1]))
    && (i + |w| == hi || !IsAlnum(u[i + |w|]))
  }

  predicate WordAt(u: Text, w: Text, i: nat) {
    WordIn(u, 0, |u|, w, i)
  }

  /** The first whole word `w` of `u[lo..hi]` at or after `from`. */
  function FirstWordIn(u: Text, lo: nat, hi: nat, w: Text, from: nat): (r: Option<nat>)
    requires lo <= from <= hi <= |u| && |w| > 0
    ensures r.Some? ==> from <= r.value && WordIn(u, lo, hi, w, r.value)
    ensures r.Some? ==> forall j :: from <= j < r.value ==> !WordIn(u, lo, hi, w, j)
    ensures r.None? ==> forall j :: from <= j ==> !WordIn(u, lo, hi, w, j)
    decreases hi - from
  {
    if from + |w| > hi then None
    else if WordIn(u, lo, hi, w, from) then Some(from)
    else FirstWordIn(u, lo, hi, w, from + 1)
  }

  function FirstWord(u: Text, w: Text): (r: Option<nat>)
    requires |w| > 0
    ensures r.Some? ==> WordAt(u, w, r.value)
    ensures r.None? ==> forall j: nat :: !WordAt(u, w, j)
  {
    FirstWordIn(u, 0, |u|, w, 0)
  }

  lemma {:induction false} FirstWordIs(u: Text, lo: nat, hi: nat, w: Text, at: nat)
    requires lo <= hi <= |u| && |w| > 0 && WordIn(u, lo, hi, w, at)
    requires forall j :: lo <= j < at ==> !WordIn(u, lo, hi, w, j)
    ensures FirstWordIn(u, lo, hi, w, lo) == Some(at)
  {
    var r := FirstWordIn(u, lo, hi, w, lo);
    assert r.Some?;
  }

  /** `find_word` on the slice `u[lo..hi]`, as an offset into `u`: hop from
      occurrence to occurrence, testing both borders. */
  method FindWord(u: Text, lo: nat, hi: nat, w: Text) returns (r: Option<nat>)
    requires lo <= hi <= |u| && |w| > 0
    ensures r == FirstWordIn(u, lo, hi, w, lo)
  {
    var searchFrom := lo;
    while true
      invariant lo <= searchFrom <= hi
      invariant forall j :: lo <= j < searchFrom ==> !WordIn(u, lo, hi, w, j)
      decreases hi - searchFrom
    {
      var hit := Find(u, w, searchFrom);
      if hit.None? || hit.value + |w| > hi {
        forall j | searchFrom <= j
          ensures !WordIn(u, lo, hi, w, j)
        {
          assert j + |w| <= hi ==> !OccursAt(u, w, j);
        }
        return None;
      }
      var at := hit.value;
      forall j | searchFrom <= j < at
        ensures !WordIn(u, lo, hi, w, j)
      {
        assert !OccursAt(u, w, j);
      }
      var beforeOk := at == lo || !IsAlnum(u[at - 1]);
      var afterOk := at + |w| == hi || !IsAlnum(u[at + |w|]);
      if beforeOk && afterOk {
        FirstWordIs(u, lo, hi, w, at);
        return Some(at);
      }
      searchFrom := at + 1;
    }
  }

  /** Offset of the first unit at or after `i` that is not ASCII whitespace. */
  function SkipBlanks(u: Text, i: nat): (g: nat)
    requires i <= |u|
    ensures i <= g <= |u|
    ensures forall k :: i <= k < g ==> IsAsciiBlank(u[k])
    ensures g < |u| ==> !IsAsciiBlank(u[g])
    decreases |u| - i
  {
    if i < |u| && IsAsciiBlank(u[i]) then SkipBlanks(u, i + 1) else i
  }

  /** The two words occur at `i`, whole and separated by ASCII whitespace. */
  predicate OperatorAt(u: Text, first: Text, second: Text, i: nat) {
    && OccursAt(u, first, i)
    && (i == 0 || !IsAlnum(u[i - 1]))
    && i + |first| < |u|
    && !IsAlnum(u[i + |first|])
    && var gap := SkipBlanks(u, i + |first|);
    && OccursAt(u, second, gap)
    && (gap + |second| >= |u| || !IsAlnum(u[gap + |second|]))
  }

  function FirstOperator(u: Text, first: Text, second: Text, from: nat): (r: Option<nat>)
    requires from <= |u| && |first| > 0
    ensures r.Some? ==> from <= r.value && OperatorAt(u, first, second, r.value)
    ensures r.Some? ==> forall j :: from <= j < r.value ==> !OperatorAt(u, first, second, j)
    ensures r.None? ==> forall j :: from <= j ==> !OperatorAt(u, first, second, j)
    decreases |u| - from
  {
    if from + |first| > |u| then None
    else if OperatorAt(u, first, second, from) then Some(from)
    else FirstOperator(u, first, second, from + 1)
  }

  lemma {:induction false} FirstOperatorIs(u: Text, first: Text, second: Text, at: nat)
    requires |first| > 0 && OperatorAt(u, first, second, at)
    requires forall j :: 0 <= j < at ==> !OperatorAt(u, first, second, j)
    ensures FirstOperator(u, first, second, 0) == Some(at)
  {
    var r := FirstOperator(u, first, second, 0);
    assert r.Some?;
  }

  /** The tests the search makes at an occurrence of `first`. */
  method IsOperatorHere(u: Text, first: Text, second: Text, at: nat) returns (yes: bool)
    requires OccursAt(u, first, at)
    ensures yes == OperatorAt(u, first, second, at)
  {
    var afterFirst := at + |first|;
    if at > 0 && IsAlnum(u[at - 1]) {
      return false;
    }
    if afterFirst >= |u| || IsAlnum(u[afterFirst]) {
      return false;
    }
    var gap := afterFirst;
    while gap < |u| && IsAsciiBlank(u[gap])
      invariant afterFirst <= gap <= |u|
      invariant SkipBlanks(u, gap) == SkipBlanks(u, afterFirst)
    {
      gap := gap + 1;
    }
    var afterSecond := gap + |second|;
    return OccursAt(u, second, gap) && (afterSecond >= |u| || !IsAlnum(u[afterSecond]));
  }

  /** `find_cypher_operator`, given the two words of the operator. */
  method FindCypherOperator(u: Text, first: Text, second: Text) returns (r: Option<nat>)
    requires |first| > 0
    ensures r == FirstOperator(u, first, second, 0)
  {
    var searchFrom := 0;
    while true
      invariant searchFrom <= |u|
      invariant forall j :: 0 <= j < searchFrom ==> !OperatorAt(u, first, second, j)
      decreases |u| - searchFrom
    {
      var hit := Find(u, first, searchFrom);
      if hit.None? {
        return None;
      }
      var at := hit.value;
      forall j | searchFrom <= j < at
        ensures !OperatorAt(u, first, second, j)
      {
        assert !OccursAt(u, first, j);
      }
      var yes := IsOperatorHere(u, first, second, at);
      if yes {
        FirstOperatorIs(u, first, second, at);
        return Some(at);
      }
      searchFrom := at + 1;
    }
  }
}
