/** Literals across modules: the importer writes strings, and the preprocessor
    identifiers, by doubling quotes; the administrative parser reads strings back; and
    two scanners, which also know backslash escapes, must find where they end. */
module Quoting {
  import opened Texts
  import opened Lexer
  import opened Splitter

  // ── Writing ───────────────────────────────────────────────────────────

  /** A unit inside a literal delimited by `q`. */
  function Doubled(c: char, q: char): Text {
    if c == q then [q, q] else [c]
  }

  function DoubledUpTo(s: Text, i: nat, q: char): Text
    requires i <= |s|
  {
    if i == 0 then [] else DoubledUpTo(s, i - 1, q) + Doubled(s[i - 1], q)
  }

  /** `s` as a literal delimited by `q`. */
  function Delimited(s: Text, q: char): Text {
    [q] + DoubledUpTo(s, |s|, q) + [q]
  }

  /** `s` as the importer writes it. */
  function Quoted(s: Text): Text {
    Delimited(s, '\'')
  }

  /** The string case of `write_json_value_to_buf`. */
  method WriteString(buf: Text, s: Text) returns (r: Text)
    ensures r == buf + Quoted(s)
  {
    r := buf + "'";
    for i := 0 to |s|
      invariant r == buf + "'" + DoubledUpTo(s, i, '\'')
    {
      if s[i] == '\'' {
        r := r + "''";
      } else {
        r := r + [s[i]];
      }
    }
    r := r + "'";
  }

  // ── Where the units of a literal stand ────────────────────────────────

  /** Offset in `Delimited(s, q)` of unit `i` of `s`, and of the closing quote. */
  function Pos(s: Text, i: nat, q: char): (p: nat)
    requires i <= |s|
    ensures p > 0
  {
    if i == 0 then 1 else Pos(s, i - 1, q) + |Doubled(s[i - 1], q)|
  }

  lemma {:induction false} PosIsLength(s: Text, i: nat, q: char)
    requires i <= |s|
    ensures |DoubledUpTo(s, i, q)| + 1 == Pos(s, i, q)
  {
    if i > 0 {
      PosIsLength(s, i - 1, q);
    }
  }

  lemma {:induction false} PosGrows(s: Text, i: nat, n: nat, q: char)
    requires i <= n <= |s|
    ensures Pos(s, i, q) + (n - i) <= Pos(s, n, q)
    decreases n
  {
    if i < n {
      PosGrows(s, i, n - 1, q);
    }
  }

  predicate UnitIs(text: Text, o: nat, s: Text, i: nat, q: char)
    requires i < |s|
  {
    var p := o + Pos(s, i, q);
    && p + 1 < |text|
    && text[p] == s[i]
    && (s[i] == q ==> text[p + 1] == q)
  }

  /** `Delimited(s, q)` stands in `text` at `o`. */
  ghost predicate IsQuotedAt(text: Text, o: nat, s: Text, q: char) {
    && o + Pos(s, |s|, q) < |text|
    && text[o] == q && text[o + Pos(s, |s|, q)] == q
    && forall i :: 0 <= i < |s| ==> UnitIs(text, o, s, i, q)
  }

  lemma {:induction false} UnitOfDoubled(s: Text, i: nat, n: nat, q: char)
    requires i < n <= |s|
    ensures var d := DoubledUpTo(s, n, q);
      && Pos(s, i, q) <= |d| && d[Pos(s, i, q) - 1] == s[i]
      && (s[i] == q ==> Pos(s, i, q) < |d| && d[Pos(s, i, q)] == q)
    decreases n
  {
    PosIsLength(s, n - 1, q);
    if i < n - 1 {
      UnitOfDoubled(s, i, n - 1, q);
    }
  }

  lemma {:induction false} QuotedIsQuoted(a: Text, s: Text, rest: Text, q: char)
    ensures IsQuotedAt(a + Delimited(s, q) + rest, |a|, s, q) && |Delimited(s, q)| == Pos(s, |s|, q) + 1
  {
    var (text, lit, d) := (a + Delimited(s, q) + rest, Delimited(s, q), DoubledUpTo(s, |s|, q));
    PosIsLength(s, |s|, q);
    assert forall k :: 0 <= k < |lit| ==> text[|a| + k] == lit[k];
    assert forall k :: 0 <= k < |d| ==> lit[k + 1] == d[k];
    forall i | 0 <= i < |s| ensures UnitIs(text, |a|, s, i, q) {
      UnitOfDoubled(s, i, |s|, q);
      PosGrows(s, i, |s|, q);
    }
  }

  lemma {:induction false} DoubledPrefix(a: Text, b: Text, i: nat, q: char)
    requires i <= |a| && i <= |b| && a[..i] == b[..i]
    ensures DoubledUpTo(a, i, q) == DoubledUpTo(b, i, q)
  {
    if i > 0 {
      assert a[..i][i - 1] == b[..i][i - 1];
      assert a[..i - 1] == a[..i][..i - 1] && b[..i - 1] == b[..i][..i - 1];
      DoubledPrefix(a, b, i - 1, q);
    }
  }

  lemma {:induction false} DoubledSnoc(out: Text, c: char, q: char)
    ensures DoubledUpTo(out + [c], |out| + 1, q) == DoubledUpTo(out, |out|, q) + Doubled(c, q)
  {
    assert (out + [c])[..|out|] == out[..|out|];
    DoubledPrefix(out + [c], out, |out|, q);
  }

  // ── Reading back ──────────────────────────────────────────────────────

  datatype Taken = Taken(value: Text) | NoLiteral | Unterminated | TokensAfter

  /** The literal from unit `i` on, `out` being what came before. */
  function TakeFrom(text: Text, i: nat, out: Text): Taken
    requires i <= |text|
    decreases |text| - i
  {
    if i == |text| then Unterminated
    else if text[i] != '\'' then TakeFrom(text, i + 1, out + [text[i]])
    else if i + 1 < |text| && text[i + 1] == '\'' then TakeFrom(text, i + 2, out + "'")
    else if Trim(text[i + 1..]) == [] then Taken(out) else TokensAfter
  }

  function Take(text: Text): Taken {
    if text == [] || text[0] != '\'' then NoLiteral else TakeFrom(text, 1, [])
  }

  /** `take_string_literal` */
  method TakeStringLiteral(text: Text) returns (r: Taken)
    ensures r == Take(text)
  {
    if text == [] || text[0] != '\'' {
      return NoLiteral;
    }
    var out := [];
    var i: nat := 1;
    while i < |text|
      invariant 1 <= i <= |text|
      invariant TakeFrom(text, i, out) == Take(text)
    {
      if text[i] == '\'' {
        if i + 1 < |text| && text[i + 1] == '\'' {
          out := out + "'";
          i := i + 2;
          continue;
        }
        if Trim(text[i + 1..]) != [] {
          return TokensAfter;
        }
        return Taken(out);
      }
      out := out + [text[i]];
      i := i + 1;
    }
    return Unterminated;
  }

  /** Text that may follow a literal: nothing that would continue it. */
  predicate Follows(tail: Text) {
    tail == [] || tail[0] != '\''
  }

  lemma {:induction false} TakeUnit(text: Text, p: nat, c: char, out: Text)
    requires p < |text| && text[p] == c
    requires c == '\'' ==> p + 1 < |text| && text[p + 1] == '\''
    ensures p + |Doubled(c, '\'')| <= |text|
    ensures TakeFrom(text, p, out) == TakeFrom(text, p + |Doubled(c, '\'')|, out + [c])
  {
    if c == '\'' {
      assert out + "'" == out + [c];
    }
  }

  lemma {:induction false} TakeStep(text: Text, s: Text, i: nat)
    requires IsQuotedAt(text, 0, s, '\'') && i < |s|
    ensures Pos(s, i, '\'') < Pos(s, i + 1, '\'') < |text|
    ensures TakeFrom(text, Pos(s, i, '\''), s[..i]) == TakeFrom(text, Pos(s, i + 1, '\''), s[..i + 1])
  {
    PosGrows(s, i + 1, |s|, '\'');
    assert UnitIs(text, 0, s, i, '\'');
    TakeUnit(text, Pos(s, i, '\''), s[i], s[..i]);
    assert s[..i + 1] == s[..i] + [s[i]];
  }

  lemma {:induction false} TakeFromQuoted(text: Text, s: Text, i: nat)
    requires IsQuotedAt(text, 0, s, '\'') && i <= |s|
    ensures Pos(s, i, '\'') < |text|
    ensures TakeFrom(text, Pos(s, i, '\''), s[..i]) == TakeFrom(text, Pos(s, |s|, '\''), s)
    decreases |s| - i
  {
    if i == |s| {
      assert s[..i] == s;
    } else {
      TakeStep(text, s, i);
      TakeFromQuoted(text, s, i + 1);
    }
  }

  /** Every string is read back as it was written, blanks after the literal allowed
      and anything else refused. */
  lemma {:induction false} TakeUndoesQuote(s: Text, tail: Text)
    requires Follows(tail)
    ensures Take(Quoted(s) + tail) == if Trim(tail) == [] then Taken(s) else TokensAfter
  {
    var text := Quoted(s) + tail;
    QuotedIsQuoted([], s, tail, '\'');
    assert [] + Quoted(s) + tail == text;
    assert text[Pos(s, |s|, '\'') + 1..] == tail;
    TakeFromQuoted(text, s, 0);
    assert s[..0] == [];
  }

  lemma {:induction false} TakeUndoesQuoteAlone(s: Text)
    ensures Take(Quoted(s)) == Taken(s)
  {
    TakeUndoesQuote(s, []);
    assert Quoted(s) + [] == Quoted(s);
    assert Trim([]) == [];
  }

  /** `text[..i]` is the beginning of a literal for `out`. */
  predicate Begins(text: Text, i: nat, out: Text) {
    1 <= i <= |text| && text[..i] == "'" + DoubledUpTo(out, |out|, '\'')
  }

  lemma {:induction false} BeginsMore(text: Text, i: nat, out: Text, c: char)
    requires Begins(text, i, out) && i + |Doubled(c, '\'')| <= |text|
    requires text[i..i + |Doubled(c, '\'')|] == Doubled(c, '\'')
    ensures Begins(text, i + |Doubled(c, '\'')|, out + [c])
  {
    var j := i + |Doubled(c, '\'')|;
    DoubledSnoc(out, c, '\'');
    assert text[..j] == text[..i] + text[i..j];
  }

  ghost predicate IsLiteralOf(text: Text, v: Text) {
    |Quoted(v)| <= |text| && text[..|Quoted(v)|] == Quoted(v) && Trim(text[|Quoted(v)|..]) == []
  }

  lemma {:induction false} BeginsAndEnds(text: Text, i: nat, out: Text)
    requires Begins(text, i, out) && i < |text| && text[i] == '\'' && Trim(text[i + 1..]) == []
    ensures IsLiteralOf(text, out)
  {
    assert text[..i + 1] == text[..i] + "'";
  }

  lemma {:induction false} TakeFromIsQuote(text: Text, i: nat, out: Text)
    requires Begins(text, i, out) && TakeFrom(text, i, out).Taken?
    ensures IsLiteralOf(text, TakeFrom(text, i, out).value)
    decreases |text| - i
  {
    if text[i] != '\'' {
      BeginsMore(text, i, out, text[i]);
      TakeFromIsQuote(text, i + 1, out + [text[i]]);
    } else if i + 1 < |text| && text[i + 1] == '\'' {
      BeginsMore(text, i, out, '\'');
      TakeFromIsQuote(text, i + 2, out + "'");
    } else {
      BeginsAndEnds(text, i, out);
    }
  }

  /** And nothing else is read: what is taken is the literal of its value. */
  lemma {:induction false} TakenWasQuoted(text: Text)
    requires Take(text).Taken?
    ensures IsLiteralOf(text, Take(text).value)
  {
    assert text[..1] == "'" + DoubledUpTo([], 0, '\'');
    TakeFromIsQuote(text, 1, []);
  }

  // ── Scanning past a literal ───────────────────────────────────────────

  /** Reading `s` from `i` on, no backslash stands before a quote or at the end. An
      escaped backslash escapes nothing. */
  predicate SafeFrom(s: Text, i: nat, q: char)
    requires i <= |s|
    decreases |s| - i
  {
    if i == |s| then true
    else if s[i] != '\\' then SafeFrom(s, i + 1, q)
    else i + 1 < |s| && s[i + 1] != q && SafeFrom(s, i + 2, q)
  }

  predicate IsSafe(s: Text, q: char) {
    SafeFrom(s, 0, q)
  }

  lemma {:induction false} NoBackslashIsSafe(s: Text, i: nat, q: char)
    requires i <= |s| && forall k :: i <= k < |s| ==> s[k] != '\\'
    ensures SafeFrom(s, i, q)
    decreases |s| - i
  {
    if i < |s| {
      NoBackslashIsSafe(s, i + 1, q);
    }
  }

  /** The scan stands before unit `i` of `s` and has not left the literal. */
  ghost predicate IsAt(text: Text, o: nat, s: Text, i: nat, q: char)
    requires i <= |s|
  {
    var p := o + Pos(s, i, q);
    && p < |text|
    && StateFrom(text, o, p) == Inside(q)
    && forall k :: o < k < p ==> InLiteral(text, o, k)
  }

  /** Where the scan goes from a unit that is not a backslash. */
  lemma {:induction false} PlainStep(text: Text, o: nat, s: Text, i: nat, q: char)
    requires IsQuotedAt(text, o, s, q) && i < |s| && s[i] != '\\' && IsAt(text, o, s, i, q)
    ensures IsAt(text, o, s, i + 1, q)
  {
    assert UnitIs(text, o, s, i, q);
    PosGrows(s, i + 1, |s|, q);
    var p := o + Pos(s, i, q);
    assert InLiteral(text, o, p);
    if s[i] == q {
      assert StateFrom(text, o, p + 1) == Closing(q);
      assert InLiteral(text, o, p + 1);
    }
  }

  /** And from a backslash in front of something other than a quote. */
  lemma {:induction false} EscapeStep(text: Text, o: nat, s: Text, i: nat, q: char)
    requires IsQuotedAt(text, o, s, q) && i + 1 < |s| && s[i] == '\\' && s[i + 1] != q && IsAt(text, o, s, i, q)
    ensures IsAt(text, o, s, i + 2, q)
  {
    assert UnitIs(text, o, s, i, q) && UnitIs(text, o, s, i + 1, q);
    PosGrows(s, i + 2, |s|, q);
    var p := o + Pos(s, i, q);
    assert Pos(s, i + 1, q) == Pos(s, i, q) + 1 && Pos(s, i + 2, q) == Pos(s, i, q) + 2;
    assert StateFrom(text, o, p + 1) == Escaped(q);
    assert InLiteral(text, o, p) && InLiteral(text, o, p + 1);
  }

  /** Not inside a literal that `q` opened. */
  predicate IsOff(st: Lex, q: char) {
    st.Code? || st.Closing? || st.q != q
  }

  lemma {:induction false} OffStaysOff(st: Lex, c: char, q: char)
    requires IsQuote(q) && IsOff(st, q)
    ensures c != q ==> IsOff(Next(st, c), q)
    ensures IsOff(Next(Next(st, q), q), q)
    ensures Next(st, q) != Closing(q)
  {
  }

  /** Where the scan stands once it has gone over unit `i` of `s`. */
  lemma {:induction false} OverUnit(text: Text, o: nat, s: Text, i: nat, q: char)
    requires IsQuotedAt(text, o, s, q) && i < |s| && o + Pos(s, i, q) < |text|
    ensures var (p, n) := (o + Pos(s, i, q), o + Pos(s, i + 1, q));
      && n < |text|
      && (s[i] != q ==> StateFrom(text, o, n) == Next(StateFrom(text, o, p), s[i]))
      && (s[i] == q ==> StateFrom(text, o, n) == Next(Next(StateFrom(text, o, p), q), q))
  {
    assert UnitIs(text, o, s, i, q);
    PosGrows(s, i + 1, |s|, q);
    var p := o + Pos(s, i, q);
    assert StateFrom(text, o, p + 1) == Next(StateFrom(text, o, p), text[p]);
    if s[i] == q {
      assert StateFrom(text, o, p + 2) == Next(StateFrom(text, o, p + 1), text[p + 1]);
    }
  }

  /** A scan that has lost its way never closes where the literal does. */
  lemma {:induction false} OutOfPhase(text: Text, o: nat, s: Text, i: nat, q: char)
    requires IsQuote(q) && IsQuotedAt(text, o, s, q) && i <= |s| && o + Pos(s, i, q) < |text|
    requires IsOff(StateFrom(text, o, o + Pos(s, i, q)), q)
    ensures EndOf(o, s, q) <= |text| && StateFrom(text, o, EndOf(o, s, q)) != Closing(q)
    decreases |s| - i
  {
    var st := StateFrom(text, o, o + Pos(s, i, q));
    if i == |s| {
      OffStaysOff(st, q, q);
    } else {
      OverUnit(text, o, s, i, q);
      OffStaysOff(st, s[i], q);
      OutOfPhase(text, o, s, i + 1, q);
    }
  }

  /** Just after the literal of `s` at `o`. */
  function EndOf(o: nat, s: Text, q: char): nat {
    o + Pos(s, |s|, q) + 1
  }

  lemma {:induction false} BackslashAtEnd(text: Text, o: nat, s: Text, q: char)
    requires IsQuotedAt(text, o, s, q) && s != [] && s[|s| - 1] == '\\' && q != '\\'
    requires o + Pos(s, |s| - 1, q) < |text| && StateFrom(text, o, o + Pos(s, |s| - 1, q)) == Inside(q)
    ensures EndOf(o, s, q) <= |text| && StateFrom(text, o, EndOf(o, s, q)) == Inside(q)
  {
    OverUnit(text, o, s, |s| - 1, q);
  }

  lemma {:induction false} BackslashBeforeQuote(text: Text, o: nat, s: Text, i: nat, q: char)
    requires IsQuote(q) && IsQuotedAt(text, o, s, q) && i + 1 < |s| && s[i] == '\\' && s[i + 1] == q
    requires o + Pos(s, i, q) < |text| && StateFrom(text, o, o + Pos(s, i, q)) == Inside(q)
    ensures EndOf(o, s, q) <= |text| && StateFrom(text, o, EndOf(o, s, q)) != Closing(q)
  {
    OverUnit(text, o, s, i, q);
    OverUnit(text, o, s, i + 1, q);
    OutOfPhase(text, o, s, i + 2, q);
  }

  /** `[o, n)` is a literal, and closed. */
  ghost predicate IsClosedSpan(text: Text, o: nat, n: nat) {
    IsLiteralSpan(text, o, n) && StateFrom(text, o, n) == Closing(text[o])
  }

  lemma {:induction false} InPhaseCloses(text: Text, o: nat, s: Text, q: char)
    requires IsQuotedAt(text, o, s, q) && IsAt(text, o, s, |s|, q) && IsQuote(q) && text[o] == q
    requires EndOf(o, s, q) == |text| || text[EndOf(o, s, q)] != q
    ensures IsClosedSpan(text, o, EndOf(o, s, q))
  {
    assert InLiteral(text, o, o + Pos(s, |s|, q));
    assert StateFrom(text, o, EndOf(o, s, q)) == Closing(q);
  }

  lemma {:induction false} ScanFrom(text: Text, o: nat, s: Text, i: nat, q: char)
    requires IsQuote(q) && IsQuotedAt(text, o, s, q) && i <= |s| && IsAt(text, o, s, i, q) && text[o] == q
    requires EndOf(o, s, q) <= |text| && (EndOf(o, s, q) == |text| || text[EndOf(o, s, q)] != q)
    ensures IsClosedSpan(text, o, EndOf(o, s, q)) <==> SafeFrom(s, i, q)
    decreases |s| - i
  {
    if i == |s| {
      InPhaseCloses(text, o, s, q);
    } else if s[i] != '\\' {
      PlainStep(text, o, s, i, q);
      ScanFrom(text, o, s, i + 1, q);
    } else if i + 1 < |s| && s[i + 1] != q {
      EscapeStep(text, o, s, i, q);
      ScanFrom(text, o, s, i + 2, q);
    } else if i + 1 == |s| {
      BackslashAtEnd(text, o, s, q);
    } else {
      BackslashBeforeQuote(text, o, s, i, q);
    }
  }

  /** `scan_string_literal` takes exactly the literal that was written, wherever it
      stands and whatever follows it, if and only if its contents are safe. */
  lemma {:induction false} ScanFindsLiteralExactly(a: Text, s: Text, rest: Text, q: char)
    requires IsQuote(q) && (rest == [] || rest[0] != q)
    ensures IsClosedSpan(a + Delimited(s, q) + rest, |a|, |a| + |Delimited(s, q)|) <==> IsSafe(s, q)
  {
    var text := a + Delimited(s, q) + rest;
    QuotedIsQuoted(a, s, rest, q);
    assert rest != [] ==> text[|a| + |Delimited(s, q)|] == rest[0];
    assert StateFrom(text, |a|, |a|) == Code;
    assert IsAt(text, |a|, s, 0, q);
    ScanFrom(text, |a|, s, 0, q);
  }

  /** Followed by more, the span tells by itself. */
  lemma {:induction false} SpanIsClosed(text: Text, o: nat, n: nat)
    requires n < |text|
    ensures IsClosedSpan(text, o, n) <==> IsLiteralSpan(text, o, n)
  {
  }

  // ── The importer's own scanner ────────────────────────────────────────

  predicate IsOutside(st: Scan) {
    st == Outside || st == Closed
  }

  /** A scan that has left the literal before its end leaves it open: from then on it
      takes the outside for the inside, up to and including the closing quote. */
  lemma {:induction false} OutOfPhaseEndsOpen(q: Text, s: Text, i: nat)
    requires IsQuotedAt(q, 0, s, '\'') && |q| == Pos(s, |s|, '\'') + 1 && i <= |s|
    requires Pos(s, i, '\'') < |q| && IsOutside(ScanTo(Outside, q, Pos(s, i, '\'')))
    ensures Open(q)
    decreases |s| - i
  {
    var p := Pos(s, i, '\'');
    if i < |s| {
      assert UnitIs(q, 0, s, i, '\'');
      PosGrows(s, i + 1, |s|, '\'');
      if s[i] == '\'' {
        assert ScanTo(Outside, q, p + 1) == Within;
        assert ScanTo(Outside, q, p + 2) == Closed;
      }
      OutOfPhaseEndsOpen(q, s, i + 1);
    } else {
      assert ScanTo(Outside, q, p + 1) == Within;
    }
  }

  /** From a unit that is not a backslash the scan stays in phase. */
  lemma {:induction false} InPhaseStep(q: Text, s: Text, i: nat)
    requires IsQuotedAt(q, 0, s, '\'') && i < |s| && s[i] != '\\'
    requires Pos(s, i, '\'') < |q| && ScanTo(Outside, q, Pos(s, i, '\'')) == Within
    ensures Pos(s, i + 1, '\'') < |q| && ScanTo(Outside, q, Pos(s, i + 1, '\'')) == Within
  {
    var p := Pos(s, i, '\'');
    assert UnitIs(q, 0, s, i, '\'');
    PosGrows(s, i + 1, |s|, '\'');
    if s[i] == '\'' {
      assert ScanTo(Outside, q, p + 1) == Closed;
    }
  }

  /** Behind a backslash and one more unit. */
  lemma {:induction false} AfterEscape(q: Text, s: Text, i: nat)
    requires IsQuotedAt(q, 0, s, '\'') && |q| == Pos(s, |s|, '\'') + 1 && i < |s| && s[i] == '\\'
    requires Pos(s, i, '\'') < |q| && ScanTo(Outside, q, Pos(s, i, '\'')) == Within
    ensures var p := Pos(s, i, '\'');
      && p + 2 <= |q| && ScanTo(Outside, q, p + 2) == Within
      && (i + 1 == |s| ==> p + 2 == |q|)
      && (i + 1 < |s| && s[i + 1] != '\'' ==> Pos(s, i + 2, '\'') == p + 2 < |q|)
      && (i + 1 < |s| && s[i + 1] == '\'' ==>
            Pos(s, i + 2, '\'') == p + 3 < |q| && ScanTo(Outside, q, p + 3) == Closed)
  {
    var p := Pos(s, i, '\'');
    assert UnitIs(q, 0, s, i, '\'');
    assert Pos(s, i + 1, '\'') == p + 1;
    assert ScanTo(Outside, q, p + 1) == Escaping;
    if i + 1 < |s| {
      assert UnitIs(q, 0, s, i + 1, '\'');
      PosGrows(s, i + 2, |s|, '\'');
    }
  }

  lemma {:induction false} InPhaseEnds(q: Text, s: Text, i: nat)
    requires IsQuotedAt(q, 0, s, '\'') && |q| == Pos(s, |s|, '\'') + 1 && i <= |s|
    requires Pos(s, i, '\'') < |q| && ScanTo(Outside, q, Pos(s, i, '\'')) == Within
    ensures Open(q) <==> !SafeFrom(s, i, '\'')
    decreases |s| - i
  {
    if i == |s| {
      assert ScanTo(Outside, q, Pos(s, i, '\'') + 1) == Closed;
    } else if s[i] != '\\' {
      InPhaseStep(q, s, i);
      InPhaseEnds(q, s, i + 1);
    } else {
      AfterEscape(q, s, i);
      if i + 1 < |s| && s[i + 1] != '\'' {
        InPhaseEnds(q, s, i + 2);
      } else if i + 1 < |s| {
        OutOfPhaseEndsOpen(q, s, i + 2);
      }
    }
  }

  /** The importer's scanner is closed after the literal of a string if and only if the
      string is safe: for no other one does it close by accident. */
  lemma {:induction false} ImporterSeesEndExactly(s: Text)
    ensures Open(Quoted(s)) <==> !IsSafe(s, '\'')
  {
    var q := Quoted(s);
    QuotedIsQuoted([], s, [], '\'');
    assert [] + Delimited(s, '\'') + [] == q;
    assert ScanTo(Outside, q, 1) == Advance(ScanTo(Outside, q, 0), q[0]);
    InPhaseEnds(q, s, 0);
  }

  /** So a string that ends in a backslash is written as a literal that, to the
      importer, does not end. */
  lemma {:induction false} BackslashLeavesOpen()
    ensures Open(Quoted("\\")) && Open(Quoted("\\'"))
  {
    ImporterSeesEndExactly("\\");
    ImporterSeesEndExactly("\\'");
  }
}
