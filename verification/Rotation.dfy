/** The rotating audit log (`audit.rs`): lines go to `base` through a buffer; a line
    that would make the file too long moves `base` to `base.1`, `base.1` to `base.2` and
    so on, and drops the oldest. Input and output are taken to succeed. */
module Rotation {
  import opened Texts

  /** `base`, or `base.n`. */
  datatype Name = Base | Suffix(n: nat)

  // ── What a rotation does to the directory ─────────────────────────────

  /** How many rotated files a setting keeps: with 0 one is kept all the same. */
  function Kept(keep: nat): nat {
    if keep == 0 then 1 else keep
  }

  /** The file that ends up under `n`. */
  function Origin(n: Name, keep: nat): Option<Name> {
    match n
    case Base => None
    case Suffix(i) =>
      if i == 0 then (if keep == 0 then None else Some(n))
      else if i == 1 then Some(Base)
      else if i <= keep then Some(Suffix(i - 1))
      else Some(n)
  }

  ghost predicate IsMoved<V>(m: map<Name, V>, r: map<Name, V>, keep: nat, n: Name) {
    var o := Origin(n, keep);
    && (n in r <==> o.Some? && o.value in m)
    && (n in r ==> r[n] == m[o.value])
  }

  ghost predicate IsRotated<V>(m: map<Name, V>, r: map<Name, V>, keep: nat, blank: V) {
    && Base in r && r[Base] == blank
    && forall n: Name :: n != Base ==> IsMoved(m, r, keep, n)
  }

  function Renamed<V>(m: map<Name, V>, from: Name, to: Name): map<Name, V>
    requires from in m
  {
    (m - {from})[to := m[from]]
  }

  /** After the renames of `base.i` to `base.(i+1)` for `i` above `k`. */
  ghost predicate IsShifted<V>(m: map<Name, V>, r: map<Name, V>, keep: nat, k: nat, n: Name) {
    match n
    case Base => (n in r <==> n in m) && (n in r ==> r[n] == m[n])
    case Suffix(i) =>
      if i == keep && k >= keep then n !in r
      else if i == k + 1 && k < keep then n !in r
      else if k + 1 < i <= keep then (n in r <==> Suffix(i - 1) in m) && (n in r ==> r[n] == m[Suffix(i - 1)])
      else (n in r <==> n in m) && (n in r ==> r[n] == m[n])
  }

  ghost predicate AllShifted<V>(m: map<Name, V>, r: map<Name, V>, keep: nat, k: nat) {
    forall n: Name :: IsShifted(m, r, keep, k, n)
  }

  function RenamedIfThere<V>(m: map<Name, V>, from: Name, to: Name): map<Name, V> {
    if from in m then Renamed(m, from, to) else m
  }

  lemma {:induction false} ShiftOne<V>(m: map<Name, V>, r: map<Name, V>, keep: nat, k: nat)
    requires 0 < k < keep && AllShifted(m, r, keep, k)
    ensures AllShifted(m, RenamedIfThere(r, Suffix(k), Suffix(k + 1)), keep, k - 1)
  {
    var (next, j) := (RenamedIfThere(r, Suffix(k), Suffix(k + 1)), k - 1);
    assert IsShifted(m, r, keep, k, Suffix(k)) && IsShifted(m, r, keep, k, Suffix(k + 1));
    forall n: Name ensures IsShifted(m, next, keep, j, n) {
      assert IsShifted(m, r, keep, k, n);
    }
  }

  lemma {:induction false} ShiftBase<V>(m: map<Name, V>, r: map<Name, V>, keep: nat, blank: V)
    requires Base in m && AllShifted(m, r, keep, 0)
    ensures IsRotated(m, RenamedIfThere(r, Base, Suffix(1))[Base := blank], keep, blank)
  {
    var next := RenamedIfThere(r, Base, Suffix(1))[Base := blank];
    assert IsShifted(m, r, keep, 0, Base) && IsShifted(m, r, keep, 0, Suffix(1));
    forall n: Name | n != Base ensures IsMoved(m, next, keep, n) {
      assert IsShifted(m, r, keep, 0, n);
    }
  }

  /** `rotate`, seen from the directory. */
  method RotateFiles(m: map<Name, Text>, keep: nat) returns (r: map<Name, Text>)
    requires Base in m
    ensures IsRotated(m, r, keep, [])
  {
    r := m - {Suffix(keep)};
    var i: nat := if keep > 0 then keep - 1 else 0;
    while i > 0
      invariant i == 0 || i < keep
      invariant AllShifted(m, r, keep, i)
      decreases i
    {
      ShiftOne(m, r, keep, i);
      if Suffix(i) in r {
        r := Renamed(r, Suffix(i), Suffix(i + 1));
      }
      i := i - 1;
    }
    ShiftBase(m, r, keep, []);
    if Base in r {
      r := Renamed(r, Base, Suffix(1));
    }
    r := r[Base := []];
  }

  // ── What is kept ──────────────────────────────────────────────────────

  function At(m: map<Name, Text>, n: Name): Text {
    if n in m then m[n] else []
  }

  /** From the oldest of `n` rotated files to `base`, in the order they were written. */
  function Chain(m: map<Name, Text>, n: nat): Text {
    if n == 0 then At(m, Base) else At(m, Suffix(n)) + Chain(m, n - 1)
  }

  ghost predicate IsSuffix(s: Text, t: Text) {
    |s| <= |t| && t[|t| - |s|..] == s
  }

  lemma {:induction false} ChainShifts(m: map<Name, Text>, r: map<Name, Text>, keep: nat, n: nat)
    requires IsRotated(m, r, keep, []) && 1 <= n <= Kept(keep) && Base in m
    ensures Chain(r, n) == Chain(m, n - 1)
  {
    assert IsMoved(m, r, keep, Suffix(n));
    if n == 1 {
      assert Chain(r, 0) == [];
    } else {
      ChainShifts(m, r, keep, n - 1);
    }
  }

  /** A rotation loses the oldest file and nothing else. */
  lemma {:induction false} RotationDropsOldest(m: map<Name, Text>, r: map<Name, Text>, keep: nat)
    requires IsRotated(m, r, keep, []) && Base in m
    ensures Chain(m, Kept(keep)) == At(m, Suffix(Kept(keep))) + Chain(r, Kept(keep))
  {
    ChainShifts(m, r, keep, Kept(keep));
  }

  lemma {:induction false} ChainAppends(m: map<Name, Text>, n: nat, x: Text)
    requires Base in m
    ensures Chain(m[Base := m[Base] + x], n) == Chain(m, n) + x
  {
    if n > 0 {
      ChainAppends(m, n - 1, x);
      assert At(m, Suffix(n)) + (Chain(m, n - 1) + x) == At(m, Suffix(n)) + Chain(m, n - 1) + x;
    }
  }

  // ── What the files hold ───────────────────────────────────────────────

  /** A file by origin: what the process found in it, and the lines it wrote. */
  datatype Log = Log(inherited: Text, lines: seq<Text>)

  function Terminated(line: Text): Text {
    line + "\n"
  }

  function Joined(lines: seq<Text>): Text {
    if lines == [] then [] else Joined(lines[..|lines| - 1]) + Terminated(lines[|lines| - 1])
  }

  function Bytes(l: Log): Text {
    l.inherited + Joined(l.lines)
  }

  const U64_MAX: nat := 0xFFFF_FFFF_FFFF_FFFF

  function SaturatingAdd(a: nat, b: nat): nat {
    if a + b > U64_MAX then U64_MAX else a + b
  }

  /** `would_exceed` */
  predicate WouldExceed(written: nat, max: nat, incoming: nat) {
    SaturatingAdd(written, incoming) > max
  }

  /** A file the process began is longer than allowed only if it is a single line. */
  predicate IsFit(l: Log, max: nat) {
    max < U64_MAX && l.inherited == [] && |Bytes(l)| > max ==> |l.lines| == 1
  }

  /** The files hold whole lines, after what was there before. */
  ghost predicate Tracks(files: map<Name, Text>, logs: map<Name, Log>, max: nat) {
    && files.Keys == logs.Keys
    && forall n :: n in logs ==> files[n] == Bytes(logs[n]) && IsFit(logs[n], max)
  }

  lemma {:induction false} RotationTracks(m: map<Name, Text>, r: map<Name, Text>, l: map<Name, Log>,
                                          k: map<Name, Log>, keep: nat, max: nat)
    requires Tracks(m, l, max) && IsRotated(m, r, keep, []) && IsRotated(l, k, keep, Log([], []))
    ensures Tracks(r, k, max)
  {
    forall n: Name | n != Base
      ensures n in r <==> n in k
      ensures n in k ==> r[n] == Bytes(k[n]) && IsFit(k[n], max)
    {
      assert IsMoved(m, r, keep, n) && IsMoved(l, k, keep, n);
    }
  }

  lemma {:induction false} AppendTracks(m: map<Name, Text>, l: map<Name, Log>, line: Text, max: nat)
    requires Tracks(m, l, max) && Base in m
    requires l[Base] == Log([], []) || !WouldExceed(|m[Base]|, max, |line| + 1)
    ensures Tracks(m[Base := m[Base] + Terminated(line)],
                   l[Base := Log(l[Base].inherited, l[Base].lines + [line])], max)
  {
    var grown := Log(l[Base].inherited, l[Base].lines + [line]);
    assert grown.lines[..|l[Base].lines|] == l[Base].lines;
    assert Bytes(grown) == Bytes(l[Base]) + Terminated(line);
  }

  function Successor(n: Name, keep: nat): Name {
    match n
    case Base => Suffix(1)
    case Suffix(i) => if 1 <= i < keep then Suffix(i + 1) else n
  }

  /** A rotation as a value. */
  ghost function Rotated<V>(m: map<Name, V>, keep: nat, blank: V): map<Name, V> {
    var there := m.Keys + set n | n in m :: Successor(n, keep);
    (map n | n in there && Origin(n, keep).Some? && Origin(n, keep).value in m :: m[Origin(n, keep).value])
    [Base := blank]
  }

  lemma {:induction false} RotatedIsRotated<V>(m: map<Name, V>, keep: nat, blank: V)
    ensures IsRotated(m, Rotated(m, keep, blank), keep, blank)
  {
    var r := Rotated(m, keep, blank);
    forall n: Name | n != Base ensures IsMoved(m, r, keep, n) {
      var o := Origin(n, keep);
      if o.Some? && o.value in m {
        assert Successor(o.value, keep) == n || o.value == n;
      }
    }
  }

  // ── The log ───────────────────────────────────────────────────────────

  lemma {:induction false} SuffixAppends(s: Text, t: Text, x: Text)
    requires IsSuffix(s, t)
    ensures IsSuffix(s + x, t + x)
  {
    var d := |t| - |s|;
    assert t == t[..d] + s;
    assert (t + x)[d..] == s + x;
  }

  lemma {:induction false} SuffixDrops(a: Text, s: Text, t: Text)
    requires IsSuffix(a + s, t)
    ensures IsSuffix(s, t)
  {
    var d := |t| - |a + s|;
    assert t[d..][|a|..] == t[d + |a|..];
  }

  /** Rotated files the process may leave: `1 ..= Kept(keep)`, and strangers it found. */
  ghost predicate AreKnown(files: map<Name, Text>, keep: nat, found: set<Name>) {
    forall n :: n in files ==> n == Base || (n.Suffix? && 1 <= n.n <= Kept(keep)) || n in found
  }

  lemma {:induction false} RotationIsKnown(m: map<Name, Text>, r: map<Name, Text>, keep: nat, found: set<Name>)
    requires IsRotated(m, r, keep, []) && AreKnown(m, keep, found)
    ensures AreKnown(r, keep, found)
  {
    forall n | n in r && n != Base
      ensures (n.Suffix? && 1 <= n.n <= Kept(keep)) || n in found
    {
      assert IsMoved(m, r, keep, n);
    }
  }

  /** The settings, the names found at the start, the files as they will be once the
      buffer is flushed, where their bytes come from, what was there at first, all lines
      written and the rotations made since. */
  datatype Book = Book(max: nat, keep: nat, found: set<Name>,
                       files: map<Name, Text>, logs: map<Name, Log>, before: Text, lines: seq<Text>, rotations: nat)

  /** Everything that was ever there. */
  function History(b: Book): Text {
    b.before + Joined(b.lines)
  }

  predicate IsKept(b: Book) {
    Base in b.files && Base in b.logs
  }

  /** What a log has to show for itself: whole lines, a suffix of all that was ever
      there, and no more files than agreed. */
  ghost predicate IsSound(b: Book) {
    && IsKept(b)
    && Tracks(b.files, b.logs, b.max)
    && IsSuffix(Chain(b.files, Kept(b.keep)), History(b))
    && AreKnown(b.files, b.keep, b.found)
  }

  ghost function Moved(b: Book, rotated: map<Name, Text>): Book {
    b.(files := rotated, logs := Rotated(b.logs, b.keep, Log([], [])), rotations := b.rotations + 1)
  }

  ghost function Grown(b: Book, line: Text): Book
    requires IsKept(b)
  {
    b.(files := b.files[Base := b.files[Base] + Terminated(line)],
       logs := b.logs[Base := Log(b.logs[Base].inherited, b.logs[Base].lines + [line])],
       lines := b.lines + [line])
  }

  lemma {:induction false} RotationIsSound(b: Book, rotated: map<Name, Text>)
    requires IsSound(b) && IsRotated(b.files, rotated, b.keep, [])
    ensures IsSound(Moved(b, rotated)) && Moved(b, rotated).logs[Base] == Log([], [])
  {
    var logs := Rotated(b.logs, b.keep, Log([], []));
    RotatedIsRotated(b.logs, b.keep, Log([], []));
    RotationTracks(b.files, rotated, b.logs, logs, b.keep, b.max);
    RotationDropsOldest(b.files, rotated, b.keep);
    SuffixDrops(At(b.files, Suffix(Kept(b.keep))), Chain(rotated, Kept(b.keep)), History(b));
    RotationIsKnown(b.files, rotated, b.keep, b.found);
  }

  /** There is room for the line, or the file is new. */
  predicate HasRoom(b: Book, line: Text)
    requires IsKept(b)
  {
    b.logs[Base] == Log([], []) || !WouldExceed(|b.files[Base]|, b.max, |line| + 1)
  }

  lemma {:induction false} JoinedSnoc(lines: seq<Text>, line: Text)
    ensures Joined(lines + [line]) == Joined(lines) + Terminated(line)
  {
    assert (lines + [line])[..|lines|] == lines;
  }

  lemma {:induction false} HistoryGrows(before: Text, lines: seq<Text>, line: Text)
    ensures before + Joined(lines + [line]) == before + Joined(lines) + Terminated(line)
  {
    JoinedSnoc(lines, line);
  }

  lemma {:induction false} AppendIsSound(b: Book, line: Text)
    requires IsSound(b) && HasRoom(b, line)
    ensures IsSound(Grown(b, line))
  {
    AppendTracks(b.files, b.logs, line, b.max);
    ChainAppends(b.files, Kept(b.keep), Terminated(line));
    SuffixAppends(Chain(b.files, Kept(b.keep)), History(b), Terminated(line));
    HistoryGrows(b.before, b.lines, line);
  }

  /** The book once there is room: rotated if the line would make the file too long, and
      as it was if not. */
  ghost predicate MakesRoom(b: Book, line: Text, mid: Book)
    requires IsKept(b)
  {
    if WouldExceed(|b.files[Base]|, b.max, |line| + 1) then
      IsRotated(b.files, mid.files, b.keep, []) && mid == Moved(b, mid.files)
    else mid == b
  }

  ghost predicate IsHandled(b: Book, mid: Book, line: Text, after: Book)
    requires IsKept(b)
  {
    MakesRoom(b, line, mid) && IsKept(mid) && HasRoom(mid, line) && after == Grown(mid, line)
  }

  /** What is seen of it in the directory: with room the line goes behind what is in
      `base`, and every other file stays as it was; without, it is alone in a new `base`,
      and every file has moved up by one. */
  ghost predicate IsSeen(files: map<Name, Text>, line: Text, after: map<Name, Text>, max: nat, keep: nat)
    requires Base in files
  {
    if !WouldExceed(|files[Base]|, max, |line| + 1) then after == files[Base := files[Base] + Terminated(line)]
    else
      && Base in after && after[Base] == Terminated(line)
      && forall n: Name :: n != Base ==> IsMoved(files, after, keep, n)
  }

  lemma {:induction false} HandledIsSeen(b: Book, mid: Book, line: Text, after: Book)
    requires IsKept(b) && IsHandled(b, mid, line, after)
    ensures IsSeen(b.files, line, after.files, b.max, b.keep)
  {
    if WouldExceed(|b.files[Base]|, b.max, |line| + 1) {
      assert [] + Terminated(line) == Terminated(line);
      forall n: Name | n != Base ensures IsMoved(b.files, after.files, b.keep, n) {
        assert IsMoved(b.files, mid.files, b.keep, n);
      }
    }
  }

  // ── No rotation before it is due ──────────────────────────────────────

  /** The file that was begun when `base.i` was left. */
  function Newer(i: nat): Name {
    if i <= 1 then Base else Suffix(i - 1)
  }

  /** `base.i` was full: it had no room for the first line of the next file. */
  predicate WasFull(logs: map<Name, Log>, max: nat, i: nat) {
    && Suffix(i) in logs && Newer(i) in logs
    && (logs[Newer(i)].lines != [] ==>
          WouldExceed(|Bytes(logs[Suffix(i)])|, max, |logs[Newer(i)].lines[0]| + 1))
  }

  /** So was every kept file that the process has moved. */
  ghost predicate IsPacked(b: Book) {
    forall i :: 1 <= i <= b.rotations && i <= Kept(b.keep) ==> WasFull(b.logs, b.max, i)
  }

  lemma {:induction false} AppendKeepsPacked(b: Book, line: Text)
    requires IsKept(b) && IsPacked(b) && b.logs[Base].lines != []
    ensures IsPacked(Grown(b, line))
  {
    forall i | 1 <= i <= b.rotations && i <= Kept(b.keep) ensures WasFull(Grown(b, line).logs, b.max, i) {
      assert WasFull(b.logs, b.max, i);
    }
  }

  /** A first line begins `base`, which no rotation has. */
  lemma {:induction false} BeginKeepsPacked(b: Book, line: Text)
    requires IsKept(b) && IsPacked(b) && (b.rotations > 0 ==> WasFull(Grown(b, line).logs, b.max, 1))
    ensures IsPacked(Grown(b, line))
  {
    forall i | 1 <= i <= b.rotations && i <= Kept(b.keep) ensures WasFull(Grown(b, line).logs, b.max, i) {
      assert WasFull(b.logs, b.max, i);
    }
  }

  /** The pairs move up with the files. */
  lemma {:induction false} PairMoves(b: Book, logs: map<Name, Log>, i: nat)
    requires IsRotated(b.logs, logs, b.keep, Log([], [])) && IsPacked(b) && IsKept(b)
    requires 1 <= i <= b.rotations + 1 && i <= Kept(b.keep)
    ensures WasFull(logs, b.max, i)
    ensures i == 1 ==> logs[Suffix(1)] == b.logs[Base]
  {
    assert IsMoved(b.logs, logs, b.keep, Suffix(i));
    if i > 1 {
      assert IsMoved(b.logs, logs, b.keep, Suffix(i - 1));
      assert WasFull(b.logs, b.max, i - 1);
    }
  }

  lemma {:induction false} RotationKeepsPacked(b: Book, files: map<Name, Text>)
    requires IsKept(b) && IsPacked(b)
    ensures IsPacked(Moved(b, files)) && Moved(b, files).logs[Suffix(1)] == b.logs[Base]
  {
    var logs := Rotated(b.logs, b.keep, Log([], []));
    RotatedIsRotated(b.logs, b.keep, Log([], []));
    forall i | 1 <= i <= b.rotations + 1 && i <= Kept(b.keep) ensures WasFull(logs, b.max, i) {
      PairMoves(b, logs, i);
    }
    PairMoves(b, logs, 1);
  }

  /** A rotation happens only where the old file is full, over every sequence of lines. */
  lemma {:induction false} HandledIsPacked(b: Book, mid: Book, line: Text, after: Book)
    requires IsSound(b) && IsPacked(b) && IsHandled(b, mid, line, after)
    requires b.rotations > 0 ==> b.logs[Base].lines != []
    ensures IsPacked(after) && after.logs[Base].lines != []
  {
    if WouldExceed(|b.files[Base]|, b.max, |line| + 1) {
      RotationKeepsPacked(b, mid.files);
      RotationIsSound(b, mid.files);
      assert b.files[Base] == Bytes(b.logs[Base]);
      assert ([] + [line])[0] == line;
      BeginKeepsPacked(mid, line);
    } else if b.rotations > 0 {
      AppendKeepsPacked(b, line);
    }
  }

  /** One line handled, in a book that makes room and grows. */
  lemma {:induction false} HandledIsSound(b: Book, mid: Book, line: Text, after: Book)
    requires IsSound(b) && IsHandled(b, mid, line, after)
    ensures IsSound(after) && after.before == b.before && after.lines == b.lines + [line]
    ensures after.logs[Base].lines != [] && after.logs[Base].lines[|after.logs[Base].lines| - 1] == line
  {
    if WouldExceed(|b.files[Base]|, b.max, |line| + 1) {
      RotationIsSound(b, mid.files);
    }
    AppendIsSound(mid, line);
  }

  /** The book on opening. */
  function Opening(there: map<Name, Text>, present: map<Name, Text>, max: nat, keep: nat): Book {
    Book(max, keep, there.Keys, present, map n | n in present :: Log(present[n], []), Chain(there, Kept(keep)), [], 0)
  }

  lemma {:induction false} OpensSound(there: map<Name, Text>, present: map<Name, Text>, max: nat, keep: nat)
    requires present == if Base in there then there else there[Base := []]
    ensures IsSound(Opening(there, present, max, keep))
  {
    SameChain(there, present, Kept(keep));
    assert Chain(there, Kept(keep)) + [] == Chain(there, Kept(keep));
    assert forall n :: n in present ==> Bytes(Log(present[n], [])) == present[n];
  }

  /** The files with the buffer flushed are `held`. */
  ghost predicate IsBuffered(files: map<Name, Text>, buffer: Text, written: nat, held: map<Name, Text>) {
    && Base in files
    && held == files[Base := files[Base] + buffer]
    && written == |files[Base]| + |buffer|
  }

  lemma {:induction false} BufferMore(files: map<Name, Text>, buffer: Text, written: nat, b: Book, line: Text)
    requires IsBuffered(files, buffer, written, b.files) && Base in b.logs
    ensures IsBuffered(files, buffer + Terminated(line), written + |line| + 1, Grown(b, line).files)
  {
    assert b.files[Base] == files[Base] + buffer;
    assert files[Base] + buffer + Terminated(line) == files[Base] + (buffer + Terminated(line));
  }

  lemma {:induction false} SameChain(a: map<Name, Text>, b: map<Name, Text>, n: nat)
    requires forall k: Name :: At(a, k) == At(b, k)
    ensures Chain(a, n) == Chain(b, n)
  {
    if n > 0 {
      SameChain(a, b, n - 1);
    }
  }

  lemma {:induction false} RotatedBuffers(b: Book, rotated: map<Name, Text>)
    requires IsKept(b) && IsRotated(b.files, rotated, b.keep, [])
    ensures IsKept(Moved(b, rotated)) && Moved(b, rotated).logs[Base] == Log([], [])
    ensures IsBuffered(rotated, [], 0, rotated)
  {
    assert rotated[Base] + [] == [];
  }

  /** Bytes of the lines from `from` up to `to`. */
  function Owed(lines: seq<Text>, from: nat, to: nat): nat
    requires to <= |lines|
  {
    if to <= from then 0 else Owed(lines, from, to - 1) + |lines[to - 1]| + 1
  }

  lemma {:induction false} OwedOfPrefix(lines: seq<Text>, line: Text, from: nat, to: nat)
    requires to <= |lines|
    ensures Owed(lines + [line], from, to) == Owed(lines, from, to)
  {
    if to > from {
      OwedOfPrefix(lines, line, from, to - 1);
    }
  }

  lemma {:induction false} OwedMore(buffer: Text, lines: seq<Text>, from: nat, since: nat, line: Text)
    requires IsOwed(buffer, lines, from, since)
    ensures IsOwed(buffer + Terminated(line), lines + [line], from, since + 1)
  {
    OwedOfPrefix(lines, line, from, |lines|);
    assert (lines + [line])[|lines|] == line;
  }

  lemma {:induction false} JoinedSplits(lines: seq<Text>, from: nat, to: nat)
    requires from <= to <= |lines|
    ensures Joined(lines[..to]) == Joined(lines[..from]) + Joined(lines[from..to])
  {
    if from == to {
      assert lines[from..to] == [];
    } else {
      var (k, last) := (to - 1, lines[to - 1]);
      JoinedSplits(lines, from, k);
      assert lines[..to] == lines[..k] + [last];
      assert lines[from..to] == lines[from..k] + [last];
      JoinedSnoc(lines[..k], last);
      JoinedSnoc(lines[from..k], last);
      Regroup(Joined(lines[..from]), Joined(lines[from..k]), Terminated(last), Joined(lines[..k]),
              Joined(lines[from..to]));
    }
  }

  lemma {:induction false} JoinedIsOwed(lines: seq<Text>, from: nat, to: nat)
    requires from <= to <= |lines|
    ensures |Joined(lines[from..to])| == Owed(lines, from, to)
  {
    if from < to {
      JoinedIsOwed(lines, from, to - 1);
      assert lines[from..to] == lines[from..to - 1] + [lines[to - 1]];
      JoinedSnoc(lines[from..to - 1], lines[to - 1]);
    }
  }

  lemma {:induction false} Regroup(a: Text, b: Text, c: Text, ab: Text, bc: Text)
    requires ab == a + b && bc == b + c
    ensures ab + c == a + bc
  {
  }

  lemma {:induction false} LateIsSuffix(before: Text, lines: seq<Text>, from: nat, late: Text)
    requires from <= |lines| && late == Joined(lines[from..])
    ensures IsSuffix(late, before + Joined(lines)) && |late| == Owed(lines, from, |lines|)
  {
    JoinedSplits(lines, from, |lines|);
    JoinedIsOwed(lines, from, |lines|);
    assert lines[..|lines|] == lines && lines[from..|lines|] == lines[from..];
    TailIsSuffix(before, Joined(lines[..from]), late);
  }

  lemma {:induction false} TailIsSuffix(a: Text, b: Text, c: Text)
    ensures IsSuffix(c, a + (b + c))
  {
    assert (a + (b + c))[|a| + |b|..] == c;
  }

  lemma {:induction false} ShorterSuffix(s: Text, t: Text, all: Text)
    requires IsSuffix(s, all) && IsSuffix(t, all) && |s| <= |t|
    ensures IsSuffix(s, t)
  {
    assert t[|t| - |s|..] == all[|all| - |s|..];
  }

  lemma {:induction false} BufferIsLast(files: map<Name, Text>, buffer: Text, written: nat, held: map<Name, Text>,
                                        n: nat)
    requires IsBuffered(files, buffer, written, held)
    ensures IsSuffix(buffer, Chain(held, n))
  {
    if n == 0 {
      assert held[Base][|files[Base]|..] == buffer;
    } else {
      BufferIsLast(files, buffer, written, held, n - 1);
      var (oldest, rest) := (At(held, Suffix(n)), Chain(held, n - 1));
      var d := |rest| - |buffer|;
      assert (oldest + rest)[|oldest| + d..] == rest[d..];
    }
  }

  lemma {:induction false} SuffixOfSuffix(s: Text, t: Text, all: Text)
    requires IsSuffix(s, t) && IsSuffix(t, all)
    ensures IsSuffix(s, all)
  {
    assert all[|all| - |t|..][|t| - |s|..] == all[|all| - |s|..];
  }

  lemma {:induction false} NoneYet(was: seq<Text>, lines: seq<Text>)
    ensures was + lines[..0] == was
  {
  }

  lemma {:induction false} OneMore(was: seq<Text>, lines: seq<Text>, i: nat)
    requires i < |lines|
    ensures was + lines[..i] + [lines[i]] == was + lines[..i + 1]
  {
  }

  lemma {:induction false} NoneLeft(lines: seq<Text>)
    ensures lines[..|lines|] == lines
  {
  }

  /** The buffer is no longer than the lines that are not safe, and these are counted. */
  predicate IsOwed(buffer: Text, lines: seq<Text>, durable: nat, since: nat) {
    durable <= |lines| <= durable + since && |buffer| <= Owed(lines, durable, |lines|)
  }

  class AuditFile {
    const maxBytes: nat
    const keep: nat
    const fsyncEvery: nat
    var files: map<Name, Text>
    /** Written to the file, not yet to the disk. */
    var buffer: Text
    var written: nat
    var sinceSync: nat

    ghost var book: Book
    /** How many of the lines written are safe on the disk. */
    ghost var durable: nat

    /** Files, buffer and counters agree with the book. */
    ghost predicate Agrees()
      reads this
    {
      && book.max == maxBytes && book.keep == keep && IsKept(book)
      && IsBuffered(files, buffer, written, book.files)
      && IsOwed(buffer, book.lines, durable, sinceSync)
    }

    ghost predicate Valid()
      reads this
    {
      && Agrees() && IsSound(book) && IsPacked(book)
      && (book.rotations > 0 ==> book.logs[Base].lines != [])
      && (fsyncEvery > 0 ==> sinceSync < fsyncEvery)
    }

    /** `FileState::open`, on whatever is there. */
    constructor (there: map<Name, Text>, maxBytes: nat, keep: nat, fsyncEvery: nat)
      ensures Valid() && this.maxBytes == maxBytes && this.keep == keep && this.fsyncEvery == fsyncEvery
      ensures book.found == there.Keys && book.before == Chain(there, Kept(keep)) && book.lines == []
    {
      this.maxBytes, this.keep, this.fsyncEvery := maxBytes, keep, fsyncEvery;
      var present := if Base in there then there else there[Base := []];
      files, buffer, written, sinceSync := present, [], |present[Base]|, 0;
      OpensSound(there, present, maxBytes, keep);
      book, durable := Opening(there, present, maxBytes, keep), 0;
    }

    /** The buffered writer may write through at any time, and stop anywhere. */
    method Spill(k: nat)
      requires Agrees() && k <= |buffer|
      modifies `files, `buffer
      ensures Agrees() && |buffer| == old(|buffer|) - k
    {
      assert files[Base] + buffer == (files[Base] + buffer[..k]) + buffer[k..];
      files, buffer := files[Base := files[Base] + buffer[..k]], buffer[k..];
    }

    /** `flush_and_sync` */
    method FlushAndSync()
      requires Agrees()
      modifies `files, `buffer, `durable
      ensures Agrees() && buffer == [] && files == book.files && durable == |book.lines|
    {
      Spill(|buffer|);
      assert files[Base] + [] == files[Base];
      durable := |book.lines|;
    }

    /** `rotate` */
    method Rotate()
      requires Agrees()
      modifies `files, `buffer, `written, `book, `durable
      ensures Agrees() && book == Moved(old(book), files) && book.logs[Base] == Log([], [])
      ensures IsRotated(old(book).files, files, keep, []) && buffer == [] && durable == |book.lines|
    {
      FlushAndSync();
      var rotated := RotateFiles(files, keep);
      RotatedBuffers(book, rotated);
      book, files, written := Moved(book, rotated), rotated, 0;
    }

    /** The first half of `handle_one`. */
    method MakeRoom(line: Text)
      requires Agrees()
      modifies `files, `buffer, `written, `book, `durable
      ensures Agrees() && MakesRoom(old(book), line, book) && HasRoom(book, line)
      ensures !WouldExceed(old(written), maxBytes, |line| + 1) ==> durable == old(durable)
    {
      if WouldExceed(written, maxBytes, |line| + 1) {
        Rotate();
      }
    }

    method Append(line: Text)
      requires Agrees()
      modifies `buffer, `written, `book, `sinceSync
      ensures Agrees() && book == Grown(old(book), line) && sinceSync == old(sinceSync) + 1
    {
      BufferMore(files, buffer, written, book, line);
      OwedMore(buffer, book.lines, durable, sinceSync, line);
      book, buffer := Grown(book, line), buffer + Terminated(line);
      written, sinceSync := written + |line| + 1, sinceSync + 1;
    }

    method SyncIfDue()
      requires Agrees() && (fsyncEvery > 0 ==> sinceSync <= fsyncEvery)
      modifies `files, `buffer, `sinceSync, `durable
      ensures Agrees() && (fsyncEvery > 0 ==> sinceSync < fsyncEvery)
      ensures if fsyncEvery > 0 && old(sinceSync) >= fsyncEvery then durable == |book.lines| && sinceSync == 0
              else durable == old(durable) && sinceSync == old(sinceSync)
    {
      if fsyncEvery > 0 && sinceSync >= fsyncEvery {
        FlushAndSync();
        sinceSync := 0;
      }
    }

    /** The line makes the log sync: it begins a file, or is the `fsyncEvery`-th. */
    predicate IsSyncDue(length: nat, since: nat, line: Text) {
      WouldExceed(length, maxBytes, |line| + 1) || (fsyncEvery > 0 && since + 1 >= fsyncEvery)
    }

    method Handle(line: Text) returns (ghost mid: Book)
      requires Agrees() && (fsyncEvery > 0 ==> sinceSync < fsyncEvery)
      modifies this
      ensures Agrees() && (fsyncEvery > 0 ==> sinceSync < fsyncEvery) && IsHandled(old(book), mid, line, book)
      ensures !IsSyncDue(old(written), old(sinceSync), line) ==> durable == old(durable)
    {
      MakeRoom(line);
      mid := book;
      Append(line);
      SyncIfDue();
    }

    /** `handle_one`: the line ends up last in the newest file, whole. A new file is begun
        for it if and only if it would make the old one too long, and otherwise no other
        file is touched. Fewer than `fsyncEvery` lines are at risk, unless that is 0. */
    method HandleOne(line: Text)
      requires Valid()
      modifies this
      ensures Valid() && book.before == old(book).before && book.lines == old(book).lines + [line]
      ensures IsSeen(old(book).files, line, book.files, maxBytes, keep)
      ensures var lines := book.logs[Base].lines; lines != [] && lines[|lines| - 1] == line
      ensures fsyncEvery > 0 ==> |book.lines| - durable < fsyncEvery
      ensures !IsSyncDue(old(written), old(sinceSync), line) ==> durable == old(durable)
    {
      ghost var mid := Handle(line);
      HandledIsSound(old(book), mid, line, book);
      HandledIsPacked(old(book), mid, line, book);
      HandledIsSeen(old(book), mid, line, book);
    }

    method WriteLines(lines: seq<Text>)
      requires Valid()
      modifies this
      ensures Valid() && book.before == old(book).before && book.lines == old(book).lines + lines
    {
      ghost var was := book.lines;
      NoneYet(was, lines);
      for i := 0 to |lines|
        invariant Valid() && book.before == old(book).before && book.lines == was + lines[..i]
      {
        OneMore(was, lines, i);
        HandleOne(lines[i]);
      }
      NoneLeft(lines);
    }

    /** `file_writer_task`: its loop, and the sync that ends it. */
    method WriteAll(lines: seq<Text>)
      requires Valid()
      modifies this
      ensures Valid() && book.before == old(book).before && book.lines == old(book).lines + lines
      ensures files == book.files && durable == |book.lines| && IsPacked(book)
    {
      WriteLines(lines);
      FlushAndSync();
    }

    /** What is buffered is the end of the lines at risk. */
    lemma {:induction false} BufferIsAtRisk()
      requires Valid()
      ensures IsSuffix(buffer, Joined(book.lines[durable..]))
    {
      var (n, late) := (Kept(keep), Joined(book.lines[durable..]));
      BufferIsLast(files, buffer, written, book.files, n);
      SuffixOfSuffix(buffer, Chain(book.files, n), History(book));
      LateIsSuffix(book.before, book.lines, durable, late);
      ShorterSuffix(buffer, late, History(book));
    }
  }
}
