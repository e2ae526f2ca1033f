/** The slow-query gate of a connection (`audit.rs`): at most `cap` events per window
    of a minute, and an account of those it turns away. Times are in milliseconds and
    do not decrease. */
module SlowGate {
  import opened Texts

  const WINDOW: nat := 60_000

  // ── The gate as a value ───────────────────────────────────────────────

  datatype Gate = Gate(cap: nat, windowStart: Option<nat>, count: nat, drops: nat)

  predicate IsCurrent(g: Gate, now: nat) {
    g.windowStart.Some? && now - g.windowStart.value < WINDOW
  }

  function Allowed(g: Gate, now: nat): bool {
    g.cap == 0 || !IsCurrent(g, now) || g.count < g.cap
  }

  function AfterAllow(g: Gate, now: nat): Gate {
    if g.cap == 0 then g
    else if !IsCurrent(g, now) then Gate(g.cap, Some(now), 1, 0)
    else if g.count < g.cap then g.(count := g.count + 1)
    else g.(drops := g.drops + 1)
  }

  /** Drops of a window that has closed, not yet reported. */
  function Due(g: Gate, now: nat): nat {
    if g.windowStart.Some? && !IsCurrent(g, now) then g.drops else 0
  }

  function AfterPoll(g: Gate, now: nat): Gate {
    if Due(g, now) > 0 then g.(drops := 0) else g
  }

  class SlowQueryGate {
    var cap: nat
    var windowStart: Option<nat>
    var count: nat
    var dropsInWindow: nat

    ghost function Value(): Gate
      reads this
    {
      Gate(cap, windowStart, count, dropsInWindow)
    }

    constructor (cap: nat)
      ensures Value() == Gate(cap, None, 0, 0)
    {
      this.cap := cap;
      windowStart, count, dropsInWindow := None, 0, 0;
    }

    /** `allow` */
    method Allow(now: nat) returns (r: bool)
      modifies this
      ensures r == Allowed(old(Value()), now) && Value() == AfterAllow(old(Value()), now)
    {
      if cap == 0 {
        return true;
      }
      if windowStart.Some? && now - windowStart.value < WINDOW {
        if count < cap {
          count := count + 1;
          return true;
        }
        dropsInWindow := dropsInWindow + 1;
        return false;
      }
      windowStart, count, dropsInWindow := Some(now), 1, 0;
      return true;
    }

    /** `closed_window_drops` */
    method ClosedWindowDrops(now: nat) returns (r: Option<nat>)
      modifies this
      ensures Value() == AfterPoll(old(Value()), now)
      ensures r == if Due(old(Value()), now) > 0 then Some(Due(old(Value()), now)) else None
    {
      if windowStart.Some? && now - windowStart.value >= WINDOW && dropsInWindow > 0 {
        r := Some(dropsInWindow);
        dropsInWindow := 0;
        return;
      }
      return None;
    }

    /** What `handle_run` does with the gate for one statement: poll, then ask if the
        statement was slow (`emit_query_pair`). `warned` is the count in the warning. */
    method AuditStatement(threshold: nat, duration: nat, now: nat)
      returns (emitted: bool, warned: Option<nat>)
      modifies this
      ensures var slow := IsSlow(threshold, duration);
        var polled := AfterPoll(old(Value()), now);
        && emitted == (slow && Allowed(polled, now))
        && Value() == (if slow then AfterAllow(polled, now) else polled)
      ensures warned == if Due(old(Value()), now) > 0 then Some(Due(old(Value()), now)) else None
    {
      warned := ClosedWindowDrops(now);
      emitted := false;
      if threshold > 0 && duration >= threshold {
        emitted := Allow(now);
      }
    }
  }

  predicate IsSlow(threshold: nat, duration: nat) {
    threshold > 0 && duration >= threshold
  }

  /** A statement as slow as the threshold is slow, so is every slower one, and no other;
      without a threshold none is. */
  lemma {:induction false} SlowFrom(threshold: nat, duration: nat)
    ensures IsSlow(threshold, duration) ==> IsSlow(threshold, duration + 1)
    ensures threshold > 0 ==> IsSlow(threshold, threshold) && !IsSlow(threshold, threshold - 1)
    ensures !IsSlow(0, duration)
  {
  }

  // ── Runs ──────────────────────────────────────────────────────────────

  /** A connection so far: its gate, when events passed, when windows opened, how many
      events were refused, and how many refusals were reported. */
  datatype Log = Log(gate: Gate, passed: seq<nat>, windows: seq<nat>, refused: nat, reported: nat, last: nat)

  datatype Statement = Statement(now: nat, slow: bool)

  function Fresh(cap: nat): Log {
    Log(Gate(cap, None, 0, 0), [], [], 0, 0, 0)
  }

  /** An event is let pass. */
  function Pass(l: Log, now: nat): Log {
    l.(gate := AfterAllow(l.gate, now), passed := l.passed + [now], last := now,
       windows := if IsCurrent(l.gate, now) then l.windows else l.windows + [now])
  }

  function Polled(l: Log, now: nat): Log {
    l.(gate := AfterPoll(l.gate, now), reported := l.reported + Due(l.gate, now), last := now)
  }

  function Turn(l: Log, e: Statement): Log {
    var p := Polled(l, e.now);
    if !e.slow then p
    else if Allowed(p.gate, e.now) then Pass(p, e.now)
    else p.(gate := AfterAllow(p.gate, e.now), refused := p.refused + 1)
  }

  function RunUpTo(cap: nat, run: seq<Statement>, i: nat): Log
    requires i <= |run|
  {
    if i == 0 then Fresh(cap) else Turn(RunUpTo(cap, run, i - 1), run[i - 1])
  }

  ghost predicate InOrder(run: seq<Statement>) {
    forall i, j :: 0 <= i < j < |run| ==> run[i].now <= run[j].now
  }

  /** How many of the events passed in the half-open interval `[a, b)`. */
  function PassedIn(passed: seq<nat>, a: nat, b: nat): nat {
    if passed == [] then 0
    else
      var k := |passed| - 1;
      PassedIn(passed[..k], a, b) + if a <= passed[k] < b then 1 else 0
  }

  lemma {:induction false} PassedSnoc(passed: seq<nat>, t: nat, a: nat, b: nat)
    ensures PassedIn(passed + [t], a, b) == PassedIn(passed, a, b) + if a <= t < b then 1 else 0
  {
    assert (passed + [t])[..|passed|] == passed;
  }

  lemma {:induction false} NonePassedAfter(passed: seq<nat>, a: nat, b: nat)
    requires forall i :: 0 <= i < |passed| ==> passed[i] < a
    ensures PassedIn(passed, a, b) == 0
  {
    if passed != [] {
      NonePassedAfter(passed[..|passed| - 1], a, b);
    }
  }

  // ── At most cap per window, 2 cap - 1 per minute ──────────────────────

  /** How many events a minute from `a` on can hold, `w` and `c` being the start and the
      count of the current window. */
  function Limit(cap: nat, w: nat, c: nat, a: nat): int {
    if a + WINDOW <= w then 2 * cap - 1
    else if a <= w then cap - 1 + c
    else c - 1
  }

  predicate IsWithin(l: Log, a: nat) {
    l.gate.windowStart.Some? ==>
      PassedIn(l.passed, a, a + WINDOW) <= Limit(l.gate.cap, l.gate.windowStart.value, l.gate.count, a)
  }

  predicate WindowIsFull(l: Log, k: nat)
    requires k < |l.windows|
  {
    PassedIn(l.passed, l.windows[k], l.windows[k] + WINDOW) > l.gate.cap
  }

  ghost predicate Inv(l: Log) {
    && l.gate.cap > 0
    && (l.gate.windowStart.None? ==> l.passed == [] && l.windows == [] && l.gate.count == 0 && l.gate.drops == 0)
    && (l.gate.windowStart.Some? ==> IsOpen(l, l.gate.windowStart.value))
    && AllBy(l.passed, l.last)
    && (forall a: nat :: IsWithin(l, a))
    && (forall k :: 0 <= k < |l.windows| ==> !WindowIsFull(l, k))
  }

  /** The current window opened at `w`, and `count` is what has passed since. */
  ghost predicate IsOpen(l: Log, w: nat) {
    && w <= l.last
    && 1 <= l.gate.count <= l.gate.cap
    && AllBefore(l.passed, w + WINDOW)
    && PassedIn(l.passed, w, w + WINDOW) == l.gate.count
    && l.windows != [] && l.windows[|l.windows| - 1] == w
    && (forall k :: 0 <= k < |l.windows| - 1 ==> l.windows[k] + WINDOW <= w)
  }

  /** Whether an event at `t` falls into the minute from `a` on. */
  function Hit(t: nat, a: nat): nat {
    if a <= t < a + WINDOW then 1 else 0
  }

  lemma {:induction false} LimitGrows(cap: nat, w: nat, c: nat, a: nat, p: nat, now: nat)
    requires w <= now < w + WINDOW && p <= Limit(cap, w, c, a)
    ensures p + Hit(now, a) <= Limit(cap, w, c + 1, a)
  {
  }

  lemma {:induction false} LimitReopens(cap: nat, w: nat, c: nat, a: nat, p: nat, now: nat)
    requires w + WINDOW <= now && 1 <= c <= cap && p <= Limit(cap, w, c, a) && (now < a ==> p == 0)
    ensures p + Hit(now, a) <= Limit(cap, now, 1, a)
  {
  }

  /** What passed by `last` is not after it. */
  ghost predicate AllBy(passed: seq<nat>, last: nat) {
    forall i :: 0 <= i < |passed| ==> passed[i] <= last
  }

  lemma {:induction false} NonePassedYet(passed: seq<nat>, last: nat, a: nat, b: nat)
    requires AllBy(passed, last) && last < a
    ensures PassedIn(passed, a, b) == 0
  {
    NonePassedAfter(passed, a, b);
  }

  lemma {:induction false} LimitOpens(cap: nat, a: nat, now: nat)
    requires cap > 0
    ensures Hit(now, a) <= Limit(cap, now, 1, a)
  {
  }

  lemma {:induction false} HitSnoc(passed: seq<nat>, now: nat, a: nat)
    ensures PassedIn(passed + [now], a, a + WINDOW) == PassedIn(passed, a, a + WINDOW) + Hit(now, a)
  {
    PassedSnoc(passed, now, a, a + WINDOW);
  }

  /** What an event at `now` does to the limit of a minute that has seen `p` events. */
  lemma {:induction false} LimitAfter(g: Gate, now: nat, a: nat, p: nat)
    requires g.cap > 0 && Allowed(g, now) && (now < a ==> p == 0)
    requires if g.windowStart.None? then p == 0
             else g.windowStart.value <= now && 1 <= g.count <= g.cap
                  && p <= Limit(g.cap, g.windowStart.value, g.count, a)
    ensures var h := AfterAllow(g, now);
      h.windowStart.Some? && h.cap == g.cap && p + Hit(now, a) <= Limit(h.cap, h.windowStart.value, h.count, a)
  {
    if g.windowStart.None? {
      LimitOpens(g.cap, a, now);
    } else if IsCurrent(g, now) {
      LimitGrows(g.cap, g.windowStart.value, g.count, a, p, now);
    } else {
      LimitReopens(g.cap, g.windowStart.value, g.count, a, p, now);
    }
  }

  lemma {:induction false} PassKeepsWithin(l: Log, now: nat, a: nat)
    requires l.gate.cap > 0 && IsWithin(l, a) && AllBy(l.passed, l.last) && l.last <= now && Allowed(l.gate, now)
    requires if l.gate.windowStart.None? then l.passed == []
             else l.gate.windowStart.value <= now && 1 <= l.gate.count <= l.gate.cap
    ensures IsWithin(Pass(l, now), a)
  {
    HitSnoc(l.passed, now, a);
    if now < a {
      NonePassedYet(l.passed, l.last, a, a + WINDOW);
    }
    LimitAfter(l.gate, now, a, PassedIn(l.passed, a, a + WINDOW));
  }

  lemma {:induction false} CurrentStaysOpen(l: Log, now: nat, w: nat)
    requires IsOpen(l, w) && l.last <= now < w + WINDOW && l.gate.windowStart == Some(w) && l.gate.count < l.gate.cap
    ensures IsOpen(Pass(l, now), w)
  {
    PassedSnoc(l.passed, now, w, w + WINDOW);
  }

  lemma {:induction false} NewIsOpen(l: Log, now: nat)
    requires l.gate.cap > 0 && !IsCurrent(l.gate, now) && AllBefore(l.passed, now)
    requires forall k :: 0 <= k < |l.windows| ==> l.windows[k] + WINDOW <= now
    ensures IsOpen(Pass(l, now), now)
  {
    NonePassedAfter(l.passed, now, now + WINDOW);
    PassedSnoc(l.passed, now, now, now + WINDOW);
  }

  ghost predicate AllBefore(passed: seq<nat>, t: nat) {
    forall i :: 0 <= i < |passed| ==> passed[i] < t
  }

  lemma {:induction false} PassKeepsOpen(l: Log, now: nat)
    requires Inv(l) && l.last <= now && Allowed(l.gate, now)
    ensures IsOpen(Pass(l, now), Pass(l, now).gate.windowStart.value)
  {
    if IsCurrent(l.gate, now) {
      CurrentStaysOpen(l, now, l.gate.windowStart.value);
    } else {
      NewIsOpen(l, now);
    }
  }

  lemma {:induction false} PassKeepsWindows(l: Log, now: nat, k: nat)
    requires Inv(l) && l.last <= now && Allowed(l.gate, now) && k < |Pass(l, now).windows|
    ensures !WindowIsFull(Pass(l, now), k)
  {
    PassKeepsOpen(l, now);
    var w := Pass(l, now).windows[k];
    if k < |Pass(l, now).windows| - 1 {
      assert !WindowIsFull(l, k);
      PassedSnoc(l.passed, now, w, w + WINDOW);
    }
  }

  lemma {:induction false} PassKeepsInv(l: Log, now: nat)
    requires Inv(l) && l.last <= now && Allowed(l.gate, now)
    ensures Inv(Pass(l, now))
  {
    forall a: nat ensures IsWithin(Pass(l, now), a) {
      PassKeepsWithin(l, now, a);
    }
    forall k | 0 <= k < |Pass(l, now).windows| ensures !WindowIsFull(Pass(l, now), k) {
      PassKeepsWindows(l, now, k);
    }
    PassKeepsOpen(l, now);
  }

  /** Polling and refusing let nothing pass. */
  lemma {:induction false} OthersKeepInv(l: Log, drops: nat, refused: nat, reported: nat, now: nat)
    requires Inv(l) && l.last <= now && (l.gate.windowStart.None? ==> drops == 0)
    ensures Inv(l.(gate := l.gate.(drops := drops), refused := refused, reported := reported, last := now))
  {
    var m := l.(gate := l.gate.(drops := drops), refused := refused, reported := reported, last := now);
    forall a: nat ensures IsWithin(m, a) {
      assert IsWithin(l, a);
    }
    forall k | 0 <= k < |m.windows| ensures !WindowIsFull(m, k) {
      assert !WindowIsFull(l, k);
    }
  }

  lemma {:induction false} TurnKeepsInv(l: Log, e: Statement)
    requires Inv(l) && l.last <= e.now
    ensures Inv(Turn(l, e))
  {
    var p := Polled(l, e.now);
    OthersKeepInv(l, p.gate.drops, p.refused, p.reported, e.now);
    if e.slow {
      if Allowed(p.gate, e.now) {
        PassKeepsInv(p, e.now);
      } else {
        OthersKeepInv(p, p.gate.drops + 1, p.refused + 1, p.reported, e.now);
      }
    }
  }

  lemma {:induction false} RunKeepsInv(cap: nat, run: seq<Statement>, i: nat)
    requires cap > 0 && InOrder(run) && i <= |run|
    ensures Inv(RunUpTo(cap, run, i)) && RunUpTo(cap, run, i).gate.cap == cap
    ensures RunUpTo(cap, run, i).last == if i == 0 then 0 else run[i - 1].now
  {
    if i > 0 {
      RunKeepsInv(cap, run, i - 1);
      TurnKeepsInv(RunUpTo(cap, run, i - 1), run[i - 1]);
    }
  }

  lemma {:induction false} InvBounds(l: Log, a: nat, k: nat)
    requires Inv(l)
    ensures PassedIn(l.passed, a, a + WINDOW) <= 2 * l.gate.cap - 1
    ensures k < |l.windows| ==> PassedIn(l.passed, l.windows[k], l.windows[k] + WINDOW) <= l.gate.cap
  {
    assert IsWithin(l, a);
    assert k < |l.windows| ==> !WindowIsFull(l, k);
  }

  /** Over every run, no window lets more than `cap` events pass. */
  lemma {:induction false} AtMostCapPerWindow(cap: nat, run: seq<Statement>, k: nat)
    requires cap > 0 && InOrder(run) && k < |RunUpTo(cap, run, |run|).windows|
    ensures var l := RunUpTo(cap, run, |run|);
      PassedIn(l.passed, l.windows[k], l.windows[k] + WINDOW) <= cap
  {
    RunKeepsInv(cap, run, |run|);
    InvBounds(RunUpTo(cap, run, |run|), 0, k);
  }

  /** And no minute, wherever it starts, more than `2 cap - 1`. */
  lemma {:induction false} AtMostTwiceTheCap(cap: nat, run: seq<Statement>, a: nat)
    requires cap > 0 && InOrder(run)
    ensures PassedIn(RunUpTo(cap, run, |run|).passed, a, a + WINDOW) <= 2 * cap - 1
  {
    RunKeepsInv(cap, run, |run|);
    InvBounds(RunUpTo(cap, run, |run|), a, 0);
  }

  function BurstTime(cap: nat, i: nat): nat {
    if i == 0 then 0 else if i < cap then WINDOW - 1 else WINDOW
  }

  /** One slow statement, `cap - 1` just before the window ends, `cap` just after. */
  function Burst(cap: nat): (run: seq<Statement>)
    requires cap > 0
    ensures |run| == 2 * cap && InOrder(run)
    ensures forall i :: 0 <= i < 2 * cap ==> run[i] == Statement(BurstTime(cap, i), true)
  {
    seq(2 * cap, i requires 0 <= i => Statement(BurstTime(cap, i), true))
  }

  /** The gate before statement `i` of the burst. */
  function BurstGate(cap: nat, i: nat): Gate {
    if i == 0 then Gate(cap, None, 0, 0)
    else if i <= cap then Gate(cap, Some(0), i, 0)
    else Gate(cap, Some(WINDOW), i - cap, 0)
  }

  lemma {:induction false} BurstTurn(cap: nat, l: Log, i: nat)
    requires cap > 0 && i < 2 * cap && l.gate == BurstGate(cap, i)
    ensures var next := Turn(l, Statement(BurstTime(cap, i), true));
      next.gate == BurstGate(cap, i + 1) && next.passed == l.passed + [BurstTime(cap, i)]
  {
  }

  lemma {:induction false} BurstPasses(cap: nat, i: nat, a: nat)
    requires cap > 0 && i <= 2 * cap && a + 1 == WINDOW
    ensures var l := RunUpTo(cap, Burst(cap), i);
      l.gate == BurstGate(cap, i) && PassedIn(l.passed, a, a + WINDOW) == if i == 0 then 0 else i - 1
  {
    if i > 0 {
      var before := RunUpTo(cap, Burst(cap), i - 1);
      BurstPasses(cap, i - 1, a);
      BurstTurn(cap, before, i - 1);
      PassedSnoc(before.passed, BurstTime(cap, i - 1), a, a + WINDOW);
    }
  }

  /** The bound is reached, for every cap. */
  lemma {:induction false} BoundIsTight(cap: nat, a: nat)
    requires cap > 0 && a + 1 == WINDOW
    ensures PassedIn(RunUpTo(cap, Burst(cap), |Burst(cap)|).passed, a, a + WINDOW) == 2 * cap - 1
  {
    BurstPasses(cap, 2 * cap, a);
  }

  // ── Every refusal is reported ─────────────────────────────────────────

  /** Because each statement polls before it asks, what is refused has been reported or
      is still held, and a window is held only once it has opened. */
  lemma {:induction false} RefusalsAreHeld(cap: nat, run: seq<Statement>, i: nat)
    requires InOrder(run) && i <= |run|
    ensures var l := RunUpTo(cap, run, i);
      && l.refused == l.reported + l.gate.drops
      && (l.gate.windowStart.None? ==> l.gate.drops == 0)
      && (l.gate.windowStart.Some? ==> l.gate.windowStart.value <= l.last)
      && l.last == if i == 0 then 0 else run[i - 1].now
  {
    if i > 0 {
      RefusalsAreHeld(cap, run, i - 1);
    }
  }

  /** The poll when the connection goes, dated 61 seconds ahead, reports the rest. */
  lemma {:induction false} NothingStaysUnreported(cap: nat, run: seq<Statement>, end: nat)
    requires InOrder(run) && RunUpTo(cap, run, |run|).last <= end
    ensures var l := Polled(RunUpTo(cap, run, |run|), end + 61_000);
      l.reported == l.refused && l.gate.drops == 0
  {
    RefusalsAreHeld(cap, run, |run|);
  }

  /** Without a cap nothing is refused. */
  lemma {:induction false} NoCapNoRefusal(run: seq<Statement>, i: nat)
    requires i <= |run|
    ensures RunUpTo(0, run, i).refused == 0 && RunUpTo(0, run, i).gate == Gate(0, None, 0, 0)
  {
    if i > 0 {
      NoCapNoRefusal(run, i - 1);
    }
  }

  /** An event is refused only when `cap` have passed in its window. */
  lemma {:induction false} RefusedWhenFull(cap: nat, run: seq<Statement>, i: nat)
    requires cap > 0 && InOrder(run) && i < |run| && run[i].slow
    requires RunUpTo(cap, run, i + 1).refused > RunUpTo(cap, run, i).refused
    ensures var g := RunUpTo(cap, run, i).gate;
      && g.windowStart.Some? && run[i].now < g.windowStart.value + WINDOW
      && PassedIn(RunUpTo(cap, run, i).passed, g.windowStart.value, g.windowStart.value + WINDOW) == cap
  {
    RunKeepsInv(cap, run, i);
  }

  // ── … once, and when its window has closed ────────────────────────────

  /** A warning about dropped events: their window, the time, and how many. */
  datatype Report = Report(window: nat, at: nat, drops: nat)

  /** The warnings up to statement `i`. */
  function Reports(cap: nat, run: seq<Statement>, i: nat): seq<Report>
    requires i <= |run|
  {
    if i == 0 then []
    else
      var (before, g, now) := (Reports(cap, run, i - 1), RunUpTo(cap, run, i - 1).gate, run[i - 1].now);
      if Due(g, now) > 0 && g.windowStart.Some? then before + [Report(g.windowStart.value, now, Due(g, now))]
      else before
  }

  /** Each is made when its window has closed, one for a window. */
  ghost predicate AreTimely(reports: seq<Report>) {
    && (forall k :: 0 <= k < |reports| ==> reports[k].at >= reports[k].window + WINDOW && reports[k].drops > 0)
    && forall j, k :: 0 <= j < k < |reports| ==> reports[j].window < reports[k].window
  }

  /** The last one was for an earlier window than the current, or for this one, closed. */
  predicate IsBehind(reports: seq<Report>, l: Log) {
    && (l.gate.windowStart.Some? ==> l.gate.windowStart.value <= l.last)
    && (l.gate.windowStart.None? ==> l.gate.drops == 0)
    && (reports != [] ==>
          var w := reports[|reports| - 1].window;
          && l.gate.windowStart.Some? && w <= l.gate.windowStart.value
          && (w == l.gate.windowStart.value ==> l.gate.drops == 0 && l.last >= w + WINDOW))
  }

  lemma {:induction false} OneMoreReport(reports: seq<Report>, r: Report)
    requires AreTimely(reports) && r.at >= r.window + WINDOW && r.drops > 0
    requires reports != [] ==> reports[|reports| - 1].window < r.window
    ensures AreTimely(reports + [r])
  {
  }

  lemma {:induction false} TurnIsBehind(before: seq<Report>, l: Log, e: Statement, after: seq<Report>)
    requires IsBehind(before, l) && l.last <= e.now
    requires after == if Due(l.gate, e.now) > 0 && l.gate.windowStart.Some? then
                        before + [Report(l.gate.windowStart.value, e.now, Due(l.gate, e.now))] else before
    ensures IsBehind(after, Turn(l, e))
  {
  }

  /** Over every run each closed window with refusals is reported once, and none before
      it has closed. */
  lemma {:induction false} ReportsAreTimely(cap: nat, run: seq<Statement>, i: nat)
    requires InOrder(run) && i <= |run|
    ensures AreTimely(Reports(cap, run, i)) && IsBehind(Reports(cap, run, i), RunUpTo(cap, run, i))
  {
    if i > 0 {
      var (before, l, e) := (Reports(cap, run, i - 1), RunUpTo(cap, run, i - 1), run[i - 1]);
      ReportsAreTimely(cap, run, i - 1);
      RefusalsAreHeld(cap, run, i - 1);
      TurnIsBehind(before, l, e, Reports(cap, run, i));
      if Due(l.gate, e.now) > 0 {
        OneMoreReport(before, Report(l.gate.windowStart.value, e.now, Due(l.gate, e.now)));
      }
    }
  }

  function DropsIn(reports: seq<Report>): nat {
    if reports == [] then 0 else DropsIn(reports[..|reports| - 1]) + reports[|reports| - 1].drops
  }

  lemma {:induction false} DropsSnoc(reports: seq<Report>, r: Report)
    ensures DropsIn(reports + [r]) == DropsIn(reports) + r.drops
  {
    assert (reports + [r])[..|reports|] == reports;
  }

  lemma {:induction false} TurnAddsUp(before: seq<Report>, g: Gate, now: nat, after: seq<Report>)
    requires after == if Due(g, now) > 0 && g.windowStart.Some? then
                        before + [Report(g.windowStart.value, now, Due(g, now))] else before
    ensures DropsIn(after) == DropsIn(before) + Due(g, now)
  {
    if Due(g, now) > 0 {
      DropsSnoc(before, Report(g.windowStart.value, now, Due(g, now)));
    }
  }

  /** Together they tell of what has been reported in all. */
  lemma {:induction false} ReportsAddUp(cap: nat, run: seq<Statement>, i: nat)
    requires i <= |run|
    ensures DropsIn(Reports(cap, run, i)) == RunUpTo(cap, run, i).reported
  {
    if i > 0 {
      ReportsAddUp(cap, run, i - 1);
      TurnAddsUp(Reports(cap, run, i - 1), RunUpTo(cap, run, i - 1).gate, run[i - 1].now, Reports(cap, run, i));
    }
  }
}
