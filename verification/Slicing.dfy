/** Slicing at character boundaries: which offsets `&s[i..j]` accepts, and that the
    pieces are well formed again. Slicing anywhere else makes Rust panic. */
module Slicing {
  import opened Texts

  predicate IsAscii(c: char) {
    c as int < 0x80
  }

  lemma {:induction false} AtAscii(s: Text, i: nat)
    requires i < |s| && IsAscii(s[i])
    ensures IsBoundary(s, i)
  {
  }

  lemma {:induction false} AfterAscii(s: Text, i: nat)
    requires WellFormed(s) && i < |s| && IsAscii(s[i])
    ensures IsBoundary(s, i + 1)
  {
    assert IsWhole(s, i);
  }

  lemma {:induction false} AsciiIsWellFormed(s: Text)
    requires forall i :: 0 <= i < |s| ==> IsAscii(s[i])
    ensures WellFormed(s)
  {
  }

  lemma {:induction false} SliceIsWhole(s: Text, i: nat, j: nat, t: Text, k: nat)
    requires WellFormed(s) && i <= j <= |s| && IsBoundary(s, j) && t == s[i..j] && k < |t|
    ensures IsWhole(t, k)
  {
    var (at, n) := (i + k, UnitsOf(t[k]));
    assert t[k] == s[at] && IsWhole(s, at);
    if !IsContinuation(t[k]) {
      assert j == |s| || !IsContinuation(s[j]);
      forall m | k < m < k + n ensures IsContinuation(t[m]) {
        assert t[m] == s[i + m];
      }
      if k + n < |t| {
        assert t[k + n] == s[at + n];
      }
    }
  }

  /** A slice between boundaries is well formed. */
  lemma {:induction false} SliceIsWellFormed(s: Text, i: nat, j: nat, t: Text)
    requires WellFormed(s) && i <= j <= |s| && IsBoundary(s, i) && IsBoundary(s, j) && t == s[i..j]
    ensures WellFormed(t)
  {
    forall k | 0 <= k < |t| ensures IsWhole(t, k) {
      SliceIsWhole(s, i, j, t, k);
    }
  }

  lemma {:induction false} ConcatIsWhole(a: Text, b: Text, t: Text, k: nat)
    requires WellFormed(a) && WellFormed(b) && t == a + b && k < |t|
    ensures IsWhole(t, k)
  {
    var n := UnitsOf(t[k]);
    if !IsContinuation(t[k]) {
      if k < |a| {
        assert t[k] == a[k] && IsWhole(a, k);
        forall m | k < m < k + n ensures IsContinuation(t[m]) {
          assert t[m] == a[m];
        }
        if k + n < |t| {
          assert t[k + n] == if k + n < |a| then a[k + n] else b[0];
        }
      } else {
        var o := k - |a|;
        assert t[k] == b[o] && IsWhole(b, o);
        forall m | k < m < k + n ensures IsContinuation(t[m]) {
          assert t[m] == b[m - |a|];
        }
        if k + n < |t| {
          assert t[k + n] == b[o + n];
        }
      }
    }
  }

  /** So is what is put together from well-formed pieces. */
  lemma {:induction false} ConcatIsWellFormed(a: Text, b: Text, t: Text)
    requires WellFormed(a) && WellFormed(b) && t == a + b
    ensures WellFormed(t)
  {
    forall k | 0 <= k < |t| ensures IsWhole(t, k) {
      ConcatIsWhole(a, b, t, k);
    }
    if t != [] {
      assert t[0] == if a != [] then a[0] else b[0];
    }
  }

  lemma {:induction false} BlankEndsChar(s: Text, i: nat, k: nat)
    requires WellFormed(s) && i <= |s| && k == BlankFrom(s, i) && k > 0
    ensures IsBoundary(s, i + k)
  {
    assert IsWhole(s, i);
  }

  /** Trimming from the front stops at a boundary. */
  lemma {:induction false} TrimForwardStops(s: Text, i: nat)
    requires WellFormed(s) && i <= |s| && IsBoundary(s, i)
    ensures IsBoundary(s, TrimForward(s, i))
    decreases |s| - i
  {
    var k := BlankFrom(s, i);
    if k > 0 {
      BlankEndsChar(s, i, k);
      TrimForwardStops(s, i + k);
    }
  }

  /** And so does trimming from the back. */
  lemma {:induction false} TrimBackStops(s: Text, i: nat)
    requires i <= |s| && IsBoundary(s, i)
    ensures IsBoundary(s, TrimBack(s, i))
    decreases i
  {
    var k := BlankTo(s, i);
    if k > 0 {
      TrimBackStops(s, i - k);
    }
  }

  lemma {:induction false} TrimIsWellFormed(s: Text)
    requires WellFormed(s)
    ensures WellFormed(Trim(s))
  {
    var (from, to) := (TrimForward(s, 0), TrimBack(s, |s|));
    TrimForwardStops(s, 0);
    TrimBackStops(s, |s|);
    if from < to {
      SliceIsWellFormed(s, from, to, s[from..to]);
    }
  }
}
