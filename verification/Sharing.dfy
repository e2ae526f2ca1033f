/** Sessions that share a database share its batch depth. Their calls reach the engine in
    any interleaving. */
module Sharing {
  import opened Texts
  import opened Statements
  import opened BoltSession
  import opened Batching
  import opened Flushing

  // ── Interleavings ─────────────────────────────────────────────────────

  /** How many of the first `p` turns session `i` has had. */
  function Taken(turns: seq<nat>, p: nat, i: nat): nat
    requires p <= |turns|
  {
    if p == 0 then 0 else Taken(turns, p - 1, i) + if turns[p - 1] == i then 1 else 0
  }

  predicate IsTurn(traces: seq<seq<Call>>, turns: seq<nat>, p: nat)
    requires p < |turns|
  {
    turns[p] < |traces| && Taken(turns, p, turns[p]) < |traces[turns[p]]|
  }

  /** `turns` says whose next call is made. */
  ghost predicate IsSchedule(traces: seq<seq<Call>>, turns: seq<nat>) {
    forall p :: 0 <= p < |turns| ==> IsTurn(traces, turns, p)
  }

  /** The call made in turn `p`. */
  ghost function Made(traces: seq<seq<Call>>, turns: seq<nat>, p: nat): Call
    requires IsSchedule(traces, turns) && p < |turns|
  {
    assert IsTurn(traces, turns, p);
    traces[turns[p]][Taken(turns, p, turns[p])]
  }

  /** The first `p` calls as the engine sees them. */
  ghost function Merged(traces: seq<seq<Call>>, turns: seq<nat>, p: nat): (m: seq<Call>)
    requires IsSchedule(traces, turns) && p <= |turns|
    ensures |m| == p
  {
    if p == 0 then [] else Merged(traces, turns, p - 1) + [Made(traces, turns, p - 1)]
  }

  // ── The depth is the sum of what each session holds ───────────────────

  ghost predicate AllNested(traces: seq<seq<Call>>, db: DbName) {
    forall i :: 0 <= i < |traces| ==> IsNested(0, traces[i], db)
  }

  lemma {:induction false} TakenIsWithin(traces: seq<seq<Call>>, turns: seq<nat>, p: nat, i: nat)
    requires IsSchedule(traces, turns) && p <= |turns| && i < |traces|
    ensures Taken(turns, p, i) <= |traces[i]|
  {
    if p > 0 {
      TakenIsWithin(traces, turns, p - 1, i);
      assert IsTurn(traces, turns, p - 1);
    }
  }

  /** The batches that session `i` has begun and not ended by then. */
  ghost function Share(traces: seq<seq<Call>>, turns: seq<nat>, p: nat, i: nat): int
    requires IsSchedule(traces, turns) && p <= |turns| && i < |traces|
  {
    TakenIsWithin(traces, turns, p, i);
    BalanceUpTo(traces[i], Taken(turns, p, i))
  }

  ghost function Total(traces: seq<seq<Call>>, turns: seq<nat>, p: nat, n: nat): int
    requires IsSchedule(traces, turns) && p <= |turns| && n <= |traces|
  {
    if n == 0 then 0 else Total(traces, turns, p, n - 1) + Share(traces, turns, p, n - 1)
  }

  lemma {:induction false} NestedIsPositive(d: nat, calls: seq<Call>, db: DbName, i: nat)
    requires IsNested(d, calls, db) && i <= |calls|
    ensures d + BalanceUpTo(calls, i) >= 0
  {
    DepthIsBalance(d, calls, db, i);
  }

  lemma {:induction false} ShareIsPositive(traces: seq<seq<Call>>, turns: seq<nat>, db: DbName, p: nat, i: nat)
    requires IsSchedule(traces, turns) && AllNested(traces, db) && p <= |turns| && i < |traces|
    ensures Share(traces, turns, p, i) >= 0
  {
    TakenIsWithin(traces, turns, p, i);
    NestedIsPositive(0, traces[i], db, Taken(turns, p, i));
  }

  lemma {:induction false} TotalCovers(traces: seq<seq<Call>>, turns: seq<nat>, db: DbName, p: nat, n: nat, i: nat)
    requires IsSchedule(traces, turns) && AllNested(traces, db) && p <= |turns| && i < n <= |traces|
    ensures Total(traces, turns, p, n) >= Share(traces, turns, p, i)
    ensures Total(traces, turns, p, n - 1) >= 0
  {
    ShareIsPositive(traces, turns, db, p, n - 1);
    if n > 1 {
      TotalCovers(traces, turns, db, p, n - 1, if i < n - 1 then i else 0);
      ShareIsPositive(traces, turns, db, p, if i < n - 1 then i else 0);
      if i == n - 1 {
        ShareIsPositive(traces, turns, db, p, n - 2);
      }
    }
  }

  lemma {:induction false} ShareStep(traces: seq<seq<Call>>, turns: seq<nat>, p: nat, i: nat)
    requires IsSchedule(traces, turns) && p < |turns| && i < |traces|
    ensures Share(traces, turns, p + 1, i) ==
            Share(traces, turns, p, i) + if turns[p] == i then Delta(Made(traces, turns, p)) else 0
  {
    assert IsTurn(traces, turns, p);
  }

  lemma {:induction false} TotalStep(traces: seq<seq<Call>>, turns: seq<nat>, p: nat, n: nat)
    requires IsSchedule(traces, turns) && p < |turns| && n <= |traces|
    ensures Total(traces, turns, p + 1, n) ==
            Total(traces, turns, p, n) + if turns[p] < n then Delta(Made(traces, turns, p)) else 0
  {
    if n > 0 {
      TotalStep(traces, turns, p, n - 1);
      ShareStep(traces, turns, p, n - 1);
    }
  }

  lemma {:induction false} TotalAtStart(traces: seq<seq<Call>>, turns: seq<nat>, n: nat)
    requires IsSchedule(traces, turns) && n <= |traces|
    ensures Total(traces, turns, 0, n) == 0
  {
    if n > 0 {
      TotalAtStart(traces, turns, n - 1);
    }
  }

  lemma {:induction false} DepthSnoc(calls: seq<Call>, call: Call, db: DbName, i: nat)
    requires i <= |calls|
    ensures DepthAfter(0, calls + [call], db, i) == DepthAfter(0, calls, db, i)
  {
    if i > 0 {
      DepthSnoc(calls, call, db, i - 1);
    }
  }

  /** A call of a session fits what the session itself has open. */
  lemma {:induction false} MadeFits(traces: seq<seq<Call>>, turns: seq<nat>, db: DbName, p: nat)
    requires IsSchedule(traces, turns) && AllNested(traces, db) && p < |turns|
    ensures IsTurn(traces, turns, p)
    ensures Fits(Share(traces, turns, p, turns[p]), Made(traces, turns, p), db)
  {
    assert IsTurn(traces, turns, p);
    var i := turns[p];
    assert FitsAt(0, traces[i], db, Taken(turns, p, i));
  }

  /** However the calls interleave, the engine's depth is the sum of the sessions'
      balances, none of which is negative. */
  lemma {:induction false} SharedDepth(traces: seq<seq<Call>>, turns: seq<nat>, db: DbName, p: nat)
    requires IsSchedule(traces, turns) && AllNested(traces, db) && p <= |turns|
    ensures DepthAfter(0, Merged(traces, turns, p), db, p) == Total(traces, turns, p, |traces|)
  {
    if p == 0 {
      TotalAtStart(traces, turns, |traces|);
    } else {
      var q := p - 1;
      var (before, call) := (Merged(traces, turns, q), Made(traces, turns, q));
      SharedDepth(traces, turns, db, q);
      DepthSnoc(before, call, db, q);
      MadeFits(traces, turns, db, q);
      TotalStep(traces, turns, q, |traces|);
      TotalCovers(traces, turns, db, q, |traces|, turns[q]);
      assert (before + [call])[q] == call;
    }
  }

  // ── Sessions ──────────────────────────────────────────────────────────

  ghost predicate IsRunOn(events: seq<Event>, db: DbName) {
    AllClassified(events) && StaysOn(events, db)
  }

  /** Each session makes the calls of its run, on `db` and without BEGIN. */
  ghost predicate AreRunsOn(runs: seq<seq<Event>>, traces: seq<seq<Call>>, db: DbName) {
    && |traces| == |runs|
    && forall i :: 0 <= i < |runs| ==> IsRunOn(runs[i], db) && traces[i] == RunAll(FRESH, runs[i]).calls
  }

  lemma {:induction false} RunsAreAllNested(runs: seq<seq<Event>>, traces: seq<seq<Call>>, db: DbName)
    requires AreRunsOn(runs, traces, db)
    ensures AllNested(traces, db)
  {
    forall i | 0 <= i < |traces| ensures IsNested(0, traces[i], db) {
      assert IsRunOn(runs[i], db);
      RunsAreNested(FRESH, runs[i], db, 0);
    }
  }

  lemma {:induction false} TotalIsZeroExactly(traces: seq<seq<Call>>, turns: seq<nat>, db: DbName, p: nat, n: nat)
    requires IsSchedule(traces, turns) && AllNested(traces, db) && p <= |turns| && n <= |traces|
    ensures Total(traces, turns, p, n) >= 0
    ensures Total(traces, turns, p, n) == 0 <==> forall i :: 0 <= i < n ==> Share(traces, turns, p, i) == 0
  {
    if n > 0 {
      TotalIsZeroExactly(traces, turns, db, p, n - 1);
      ShareIsPositive(traces, turns, db, p, n - 1);
    }
  }

  /** A flush syncs the log if and only if it leaves no session with anything open. */
  lemma {:induction false} SharedFlushSyncsExactly(runs: seq<seq<Event>>, traces: seq<seq<Call>>, turns: seq<nat>,
                                                   db: DbName, p: nat)
    requires AreRunsOn(runs, traces, db) && IsSchedule(traces, turns) && p <= |turns|
    ensures DepthAfter(0, Merged(traces, turns, p), db, p) == 0 <==>
            forall i :: 0 <= i < |traces| ==> Share(traces, turns, p, i) == 0
  {
    RunsAreAllNested(runs, traces, db);
    SharedDepth(traces, turns, db, p);
    TotalIsZeroExactly(traces, turns, db, p, |traces|);
  }

  /** What has slipped in a run stays open in every continuation of it, at every call. */
  lemma {:induction false} SlipsStayOpen(a: seq<Event>, b: seq<Event>, db: DbName, n: nat)
    requires AllClassified(a) && AllClassified(b) && AllClassified(a + b) && StaysOn(a + b, db)
    requires RunAll(FRESH, a).exit.Continue?
    requires |RunAll(FRESH, a).calls| <= n <= |RunAll(FRESH, a + b).calls|
    ensures BalanceUpTo(RunAll(FRESH, a + b).calls, n) >= Slips(RunLedger(FRESH, a))
  {
    var (x, slips) := (RunAll(FRESH, a), Slips(RunLedger(FRESH, a)));
    FrontStaysOn(a, b, db);
    BooksOfRun(a, db, x, slips);
    RunConcat(FRESH, a, b);
    var y := RunAll(x.final, b).calls;
    RunsAreNested(x.final, b, db, Open(x.final));
    NeverBelow(x.calls, y, x.calls + y, db, Open(x.final), slips, n);
  }

  lemma {:induction false} NeverBelow(x: seq<Call>, y: seq<Call>, both: seq<Call>, db: DbName, d: nat, slips: nat,
                                      n: nat)
    requires both == x + y && |x| <= n <= |both| && Balance(x) == d + slips && IsNested(d, y, db)
    ensures BalanceUpTo(both, n) >= slips
  {
    NestedIsPositive(d, y, db, n - |x|);
    BalanceConcatUpTo(x, y, n - |x|);
  }

  lemma {:induction false} FrontStaysOn(a: seq<Event>, b: seq<Event>, db: DbName)
    requires StaysOn(a + b, db)
    ensures StaysOn(a, db) && StaysOn(b, db)
  {
    forall i | 0 <= i < |a| ensures EventIsOn(a[i], db) {
      assert (a + b)[i] == a[i] && EventIsOn((a + b)[i], db);
    }
    forall i | 0 <= i < |b| ensures EventIsOn(b[i], db) {
      assert (a + b)[|a| + i] == b[i] && EventIsOn((a + b)[|a| + i], db);
    }
  }

  /** After one session's slip no flush of any session syncs. */
  lemma {:induction false} NoSessionSyncsAfterSlip(runs: seq<seq<Event>>, traces: seq<seq<Call>>, turns: seq<nat>,
                                                   db: DbName, p: nat, j: nat, a: seq<Event>, b: seq<Event>)
    requires AreRunsOn(runs, traces, db) && IsSchedule(traces, turns) && p <= |turns|
    requires j < |runs| && runs[j] == a + b && AllClassified(a) && AllClassified(b)
    requires RunAll(FRESH, a).exit.Continue? && Slips(RunLedger(FRESH, a)) > 0
    requires Taken(turns, p, j) >= |RunAll(FRESH, a).calls|
    ensures DepthAfter(0, Merged(traces, turns, p), db, p) > 0
  {
    RunsAreAllNested(runs, traces, db);
    SharedDepth(traces, turns, db, p);
    TakenIsWithin(traces, turns, p, j);
    assert IsRunOn(runs[j], db);
    SlipsStayOpen(a, b, db, Taken(turns, p, j));
    TotalCovers(traces, turns, db, p, |traces|, j);
  }
}
