/** What the implicit batches mean for the databases a session moves between, for every
    single flush, and for sessions that share a database. */
module Flushing {
  import opened Texts
  import opened Statements
  import opened BoltSession
  import opened Batching
  import opened Traces
  import opened OwnWrites

  // ── Database by database ──────────────────────────────────────────────

  function DeltaOn(call: Call, db: DbName): int {
    if !call.DispatchAdmin? && call.db == db then Delta(call) else 0
  }

  function BalanceOnUpTo(calls: seq<Call>, db: DbName, i: nat): int
    requires i <= |calls|
  {
    if i == 0 then 0 else BalanceOnUpTo(calls, db, i - 1) + DeltaOn(calls[i - 1], db)
  }

  /** `begin_batch` less `end_batch` calls on `db`. */
  function BalanceOn(calls: seq<Call>, db: DbName): int {
    BalanceOnUpTo(calls, db, |calls|)
  }

  lemma {:induction false} BalanceOnPrefix(a: seq<Call>, b: seq<Call>, db: DbName, i: nat)
    requires i <= |a| && i <= |b| && forall k :: 0 <= k < i ==> a[k] == b[k]
    ensures BalanceOnUpTo(a, db, i) == BalanceOnUpTo(b, db, i)
  {
    if i > 0 {
      BalanceOnPrefix(a, b, db, i - 1);
    }
  }

  lemma {:induction false} BalanceOnConcatUpTo(a: seq<Call>, b: seq<Call>, db: DbName, i: nat)
    requires i <= |b|
    ensures BalanceOnUpTo(a + b, db, |a| + i) == BalanceOn(a, db) + BalanceOnUpTo(b, db, i)
  {
    if i == 0 {
      BalanceOnPrefix(a + b, a, db, |a|);
    } else {
      BalanceOnConcatUpTo(a, b, db, i - 1);
      assert (a + b)[|a| + i - 1] == b[i - 1];
    }
  }

  lemma {:induction false} BalanceOnConcat(a: seq<Call>, b: seq<Call>, db: DbName)
    ensures BalanceOn(a + b, db) == BalanceOn(a, db) + BalanceOn(b, db)
  {
    BalanceOnConcatUpTo(a, b, db, |b|);
  }

  /** Calls on one database count there and nowhere else. */
  lemma {:induction false} OneDatabase(calls: seq<Call>, accessor: Option<DbName>, db: DbName, i: nat)
    requires AreOn(calls, accessor) && i <= |calls|
    ensures BalanceOnUpTo(calls, db, i) == if accessor == Some(db) then BalanceUpTo(calls, i) else 0
  {
    if i > 0 {
      OneDatabase(calls, accessor, db, i - 1);
      assert calls[i - 1].DispatchAdmin? || Some(calls[i - 1].db) == accessor;
    }
  }

  /** One for a dirty batch that the session holds on `db`. */
  function OpenOn(s: Session, db: DbName): nat {
    if s.accessor == Some(db) then Open(s) else 0
  }

  /** A dirty batch that changes hands: left open on one database, and counted on another
      on which it was never opened. */
  function MovedOn(s: Session, next: Session, db: DbName): int {
    if s.accessor == next.accessor then 0
    else if s.accessor == Some(db) then Open(s)
    else if next.accessor == Some(db) then 0 - Open(s)
    else 0
  }

  /** What a step adds to the books of `db`. */
  function LeakOn(s: Session, req: Request, w: World, db: DbName): int
    requires CursorOk(s)
  {
    var next := Dispatch(s, req, w).next;
    MovedOn(s, next, db) + if next.accessor == Some(db) then Leak(StepLedger(s, req, w)) else 0
  }

  lemma {:induction false} SumsOn(s: Session, step: Step, l: Ledger, db: DbName, balance: int)
    requires Balances(s, step, l)
    requires balance == if step.next.accessor == Some(db) then Balance(step.calls) else 0
    ensures balance == OpenOn(step.next, db) - OpenOn(s, db) + MovedOn(s, step.next, db)
                       + if step.next.accessor == Some(db) then Leak(l) else 0
  {
  }

  lemma {:induction false} StepBalancesOn(s: Session, req: Request, w: World, db: DbName)
    requires Inv(s)
    ensures var step := Dispatch(s, req, w);
      BalanceOn(step.calls, db) == OpenOn(step.next, db) - OpenOn(s, db) + LeakOn(s, req, w, db)
  {
    var step := Dispatch(s, req, w);
    StepBalances(s, req, w);
    CallsStayOnDatabase(s, req, w);
    OneDatabase(step.calls, step.next.accessor, db, |step.calls|);
    SumsOn(s, step, StepLedger(s, req, w), db, BalanceOn(step.calls, db));
  }

  ghost function RunLeakOn(s: Session, events: seq<Event>, db: DbName): int
    requires Inv(s) && AllClassified(events)
    decreases |events|
  {
    if events == [] then 0
    else
      var e := events[0];
      LeakOn(s, e.req, e.w, db)
      + if Dispatch(s, e.req, e.w).exit.Continue? then RunLeakOn(AfterEvent(s, e), events[1..], db) else 0
  }

  /** Exact accounting for each database of a session that moves between several. */
  lemma {:induction false} RunsBalanceOn(s: Session, events: seq<Event>, db: DbName)
    requires Inv(s) && AllClassified(events)
    ensures var r := RunAll(s, events);
      BalanceOn(r.calls, db) == OpenOn(r.final, db) - OpenOn(s, db) + RunLeakOn(s, events, db)
    decreases |events|
  {
    if events != [] {
      var e := events[0];
      var step := Dispatch(s, e.req, e.w);
      StepBalancesOn(s, e.req, e.w, db);
      if step.exit.Continue? {
        RunsBalanceOn(AfterEvent(s, e), events[1..], db);
        BalanceOnConcat(step.calls, RunAll(AfterEvent(s, e), events[1..]).calls, db);
      }
    }
  }

  /** A step that moves away leaves the batch of the old database open by one, and books
      one too few where it arrives. */
  lemma {:induction false} MovingLeaks(s: Session, req: Request, w: World, a: DbName)
    requires Inv(s) && MovesAway(s, req, w) && s.accessor == Some(a)
    ensures LeakOn(s, req, w, a) == 1 && OpenOn(Dispatch(s, req, w).next, a) == 0
  {
    BindKeepsHolder(s, req, w);
    AccessorAfterRun(s, req, w);
  }

  /** How many `end_batch` calls on `db` have found nothing to end. */
  function Missed(calls: seq<Call>, db: DbName, i: nat): nat
    requires i <= |calls|
  {
    if i == 0 then 0
    else
      Missed(calls, db, i - 1)
      + if calls[i - 1] == EndBatch(db) && DepthAfter(0, calls, db, i - 1) == 0 then 1 else 0
  }

  lemma {:induction false} DepthIsBalanceOn(calls: seq<Call>, db: DbName, i: nat)
    requires i <= |calls|
    ensures DepthAfter(0, calls, db, i) == BalanceOnUpTo(calls, db, i) + Missed(calls, db, i)
  {
    if i > 0 {
      DepthIsBalanceOn(calls, db, i - 1);
    }
  }

  /** The balance has been at `-n` and never lower, or never below zero. */
  ghost predicate IsLowest(calls: seq<Call>, db: DbName, i: nat, n: nat)
    requires i <= |calls|
  {
    && (forall k :: 0 <= k <= i ==> BalanceOnUpTo(calls, db, k) >= 0 - n)
    && (n == 0 || exists k :: 0 <= k <= i && BalanceOnUpTo(calls, db, k) == 0 - n)
  }

  /** As many as the balance of the calls has ever been in the red: the depth is a
      function of the balances alone. */
  lemma {:induction false} MissedIsLowest(calls: seq<Call>, db: DbName, i: nat)
    requires i <= |calls|
    ensures IsLowest(calls, db, i, Missed(calls, db, i))
  {
    if i > 0 {
      MissedIsLowest(calls, db, i - 1);
      DepthIsBalanceOn(calls, db, i - 1);
      DepthIsBalanceOn(calls, db, i);
      assert BalanceOnUpTo(calls, db, i) >= 0 - Missed(calls, db, i);
    }
  }

  /** The depth of every database over every run, wherever the session moves: what the
      session holds there, what it has left there, and the flushes that came for nothing. */
  lemma {:induction false} DepthOnRuns(events: seq<Event>, db: DbName)
    requires AllClassified(events)
    ensures var r := RunAll(FRESH, events);
      && DepthAfter(0, r.calls, db, |r.calls|) ==
         OpenOn(r.final, db) + RunLeakOn(FRESH, events, db) + Missed(r.calls, db, |r.calls|)
      && IsLowest(r.calls, db, |r.calls|, Missed(r.calls, db, |r.calls|))
  {
    var calls := RunAll(FRESH, events).calls;
    RunsBalanceOn(FRESH, events, db);
    DepthIsBalanceOn(calls, db, |calls|);
    MissedIsLowest(calls, db, |calls|);
  }

  /** Write to `a`, read from `b`: the flush finds nothing on `b` and `a` stays open. */
  lemma {:induction false} MovedFlushIsMissed()
    ensures var events := [HELLO] + ([WRITE_A] + ([READ_B] + []));
      && AllClassified(events)
      && var calls := RunAll(FRESH, events).calls;
      && |calls| == 4
      && DepthAfter(0, calls, "a", 4) == 1 && DepthAfter(0, calls, "b", 4) == 0 && Missed(calls, "b", 4) == 1
  {
    HelloGreets(Good("a"));
    FirstWrite();
    ReadElsewhere();
    RunFirst(On("a", Some(1), Batch(1, Some(0))), READ_B, []);
    RunFirst(GREETED, WRITE_A, [READ_B] + []);
    RunFirst(FRESH, HELLO, [WRITE_A] + ([READ_B] + []));
    MovedCalls(RunAll(FRESH, [HELLO] + ([WRITE_A] + ([READ_B] + []))).calls);
  }

  lemma {:induction false} MovedCalls(calls: seq<Call>)
    requires calls == [BeginBatch("a"), Execute("a", Batched(true)), EndBatch("b"), Execute("b", Direct(true))]
    ensures DepthAfter(0, calls, "a", 4) == 1 && DepthAfter(0, calls, "b", 4) == 0 && Missed(calls, "b", 4) == 1
  {
    assert DepthAfter(0, calls, "a", 2) == DepthAfter(0, calls, "a", 1) == 1;
    assert DepthAfter(0, calls, "b", 2) == DepthAfter(0, calls, "b", 1) == 0;
    assert Missed(calls, "b", 2) == Missed(calls, "b", 1) == 0;
  }

  // ── Flush by flush ────────────────────────────────────────────────────

  /** Batches of this session that stay open for good. */
  function Slips(l: Ledger): nat {
    l[FailedFirst] + l[AutoFlush]
  }

  /** One run after another. */
  function Then(x: Run, y: Run): Run {
    Done(y.final, x.replies + y.replies, x.calls + y.calls, y.exit)
  }

  lemma {:induction false} ThenAssoc(x: Run, y: Run, z: Run)
    ensures Then(Then(x, y), z) == Then(x, Then(y, z))
  {
    assert x.replies + y.replies + z.replies == x.replies + (y.replies + z.replies);
    assert x.calls + y.calls + z.calls == x.calls + (y.calls + z.calls);
  }

  function StepRun(s: Session, e: Event): Run
    requires CursorOk(s)
  {
    var step := Dispatch(s, e.req, e.w);
    Done(step.next, step.replies, step.calls, step.exit)
  }

  lemma {:induction false} RunOfCons(s: Session, e: Event, rest: seq<Event>)
    requires Inv(s) && IsClassified(e.req) && AllClassified(rest) && Dispatch(s, e.req, e.w).exit.Continue?
    ensures AllClassified([e] + rest)
    ensures RunAll(s, [e] + rest) == Then(StepRun(s, e), RunAll(AfterEvent(s, e), rest))
    ensures RunLedger(s, [e] + rest) == StepLedger(s, e.req, e.w) + RunLedger(AfterEvent(s, e), rest)
  {
    ConsIsClassified(e, rest);
    assert ([e] + rest)[0] == e && ([e] + rest)[1..] == rest;
  }

  lemma {:induction false} RunConcat(s: Session, a: seq<Event>, b: seq<Event>)
    requires Inv(s) && AllClassified(a) && AllClassified(b) && RunAll(s, a).exit.Continue?
    ensures AllClassified(a + b)
    ensures RunAll(s, a + b) == Then(RunAll(s, a), RunAll(RunAll(s, a).final, b))
    ensures RunLedger(s, a + b) == RunLedger(s, a) + RunLedger(RunAll(s, a).final, b)
    decreases |a|
  {
    if a == [] {
      assert a + b == b;
      ThenNothing(s, RunAll(s, b));
    } else {
      var (e, more, next) := (a[0], a[1..], AfterEvent(s, a[0]));
      assert a == [e] + more && a + b == [e] + (more + b);
      RunOfCons(s, e, more);
      RunConcat(next, more, b);
      RunOfCons(s, e, more + b);
      ConcatOfRuns(StepRun(s, e), RunAll(next, more), RunAll(RunAll(next, more).final, b), RunAll(next, more + b));
    }
  }

  lemma {:induction false} ConcatOfRuns(x: Run, y: Run, z: Run, both: Run)
    requires both == Then(y, z)
    ensures Then(x, both) == Then(Then(x, y), z)
  {
    ThenAssoc(x, y, z);
  }

  lemma {:induction false} ThenNothing(s: Session, y: Run)
    ensures Then(Done(s, [], [], Continue), y) == y
  {
    assert [] + y.replies == y.replies && [] + y.calls == y.calls;
  }

  /** What is on the books stays there. */
  lemma {:induction false} LedgerGrows(s: Session, a: seq<Event>, b: seq<Event>)
    requires Inv(s) && AllClassified(a) && AllClassified(b) && RunAll(s, a).exit.Continue?
    ensures AllClassified(a + b) && RunLedger(s, a) <= RunLedger(s, a + b)
  {
    RunConcat(s, a, b);
  }

  lemma {:induction false} EndInWrite(s: Session, db: DbName, w: World, k: nat)
    requires IsTidy(s.batch) && k < |Write(s, db, w).calls| && Write(s, db, w).calls[k].EndBatch?
    ensures Open(s) == 1 && BalanceUpTo(Write(s, db, w).calls, k + 1) == -1
  {
    var calls := Write(s, db, w).calls;
    DirtiedIsTidy(s, w);
    assert s.batch.dirty > 0;
    assert calls == [Executor(s, db, Batched(w.executed.Some?)), EndBatch(db), BeginBatch(db)];
    assert BalanceUpTo(calls, 1) == BalanceUpTo(calls, 0) + Delta(calls[0]);
  }

  lemma {:induction false} EndInRead(s: Session, stmt: Statement, db: DbName, w: World, k: nat)
    requires var calls := Read(s, stmt, db, w).calls; k < |calls| && calls[k].EndBatch?
    ensures Open(s) == 1 && BalanceUpTo(Read(s, stmt, db, w).calls, k + 1) == -1
  {
    var calls := Read(s, stmt, db, w).calls;
    assert s.batch.dirty > 0;
    assert calls == [EndBatch(db), Executor(s, db, Direct(w.executed.Some?))];
    assert BalanceUpTo(calls, 0) == 0;
  }

  lemma {:induction false} EndInPerform(s: Session, stmt: Statement, w: World, k: nat)
    requires IsTidy(s.batch)
    requires var calls := Perform(s, stmt, w).calls; k < |calls| && calls[k].EndBatch?
    ensures Open(s) == 1 && BalanceUpTo(Perform(s, stmt, w).calls, k + 1) == -1
  {
    var step := Perform(s, stmt, w);
    if Writes(s, stmt) {
      assert step == Write(s, s.accessor.value, w);
      EndInWrite(s, s.accessor.value, w, k);
    } else {
      assert step == Read(s, stmt, s.accessor.value, w);
      EndInRead(s, stmt, s.accessor.value, w, k);
    }
  }

  lemma {:induction false} EndInReset(s: Session, k: nat)
    requires k < |OnReset(s).calls| && OnReset(s).calls[k].EndBatch?
    ensures Open(s) == 1 && BalanceUpTo(OnReset(s).calls, k + 1) == -1
  {
    var calls := OnReset(s).calls;
    assert BalanceUpTo(calls, 0) == 0;
    assert k == 1 ==> BalanceUpTo(calls, 1) == BalanceUpTo(calls, 0) + Delta(calls[0]);
  }

  /** An `end_batch` ends the batch that was dirty when the request came. */
  lemma {:induction false} EndInStep(s: Session, req: Request, w: World, k: nat)
    requires Inv(s)
    requires var calls := Dispatch(s, req, w).calls; k < |calls| && calls[k].EndBatch?
    ensures Open(s) == 1 && BalanceUpTo(Dispatch(s, req, w).calls, k + 1) == -1
  {
    if req.Run? && !s.failed && s.authenticated {
      RunIs(s, req, w);
      var b := if req.exempt then Bound(s) else Bind(s, req.target, w);
      assert Submit(b.next, req.parsed, w) == Perform(b.next, req.parsed.value, w);
      EndInPerform(b.next, req.parsed.value, w, k);
    } else {
      assert Dispatch(s, req, w) == OnReset(s);
      EndInReset(s, k);
    }
  }

  lemma {:induction false} RunStaysOn(s: Session, events: seq<Event>, db: DbName)
    requires Inv(s) && AllClassified(events) && IsOn(s, db) && StaysOn(events, db)
    ensures IsOn(RunAll(s, events).final, db)
    decreases |events|
  {
    if events != [] {
      assert EventIsOn(events[0], db);
      StaysOnStep(s, events[0].req, events[0].w, db);
      if Dispatch(s, events[0].req, events[0].w).exit.Continue? {
        RunStaysOn(AfterEvent(s, events[0]), events[1..], db);
      }
    }
  }

  lemma {:induction false} DepthOfEnd(x: seq<Call>, y: seq<Call>, both: seq<Call>, db: DbName, k: nat, d: nat, n: nat)
    requires IsNested(0, x, db) && IsNested(d, y, db) && k < |y| && n == |x| + k + 1 && both == x + y
    requires Balance(x) == d && BalanceUpTo(y, k + 1) == -1
    ensures DepthAfter(0, both, db, n) == d - 1
  {
    NestedConcat(0, x, y, both, db, d);
    DepthIsBalance(0, both, db, n);
    BalanceConcatUpTo(x, y, k + 1);
  }

  /** The books of a run on one database. */
  lemma {:induction false} BooksOfRun(a: seq<Event>, db: DbName, r: Run, slips: nat)
    requires AllClassified(a) && StaysOn(a, db) && r == RunAll(FRESH, a) && slips == Slips(RunLedger(FRESH, a))
    ensures IsNested(0, r.calls, db) && Balance(r.calls) == Open(r.final) + slips && IsOn(r.final, db)
  {
    RunsAreNested(FRESH, a, db, 0);
    NothingUnopened(FRESH, a, db);
    RunsBalance(FRESH, a);
    RunStaysOn(FRESH, a, db);
  }

  lemma {:induction false} EndFacts(s: Session, e: Event, db: DbName, calls: seq<Call>, k: nat, d: nat)
    requires Inv(s) && IsOn(s, db) && EventIsOn(e, db) && d >= Open(s)
    requires calls == Dispatch(s, e.req, e.w).calls && k < |calls| && calls[k].EndBatch?
    ensures Open(s) == 1 && BalanceUpTo(calls, k + 1) == -1 && IsNested(d, calls, db)
  {
    EndInStep(s, e.req, e.w, k);
    StepIsNested(s, e.req, e.w, db, d);
  }

  /** The calls of the request `e` after the run `a` from a fresh connection. */
  ghost function CallsNext(a: seq<Event>, e: Event): seq<Call>
    requires AllClassified(a) && RunAll(FRESH, a).exit.Continue?
  {
    Dispatch(RunAll(FRESH, a).final, e.req, e.w).calls
  }

  /** The depth that call `k` of `calls` leaves, `before` having been made before them. */
  function DepthAt(before: seq<Call>, calls: seq<Call>, db: DbName, k: nat): nat
    requires k < |calls|
  {
    DepthAfter(0, before + calls, db, |before| + k + 1)
  }

  /** The depth at which each single `end_batch` of a run on one database leaves the
      engine is the number of slips on the books before: it reaches zero, and the log is
      synced, if and only if no mutation has failed first and no auto-flush has fired.
      Here it is call `k` of the request `e` that follows the run `a`. */
  lemma {:induction false} EveryFlushExactly(a: seq<Event>, e: Event, db: DbName, k: nat)
    requires AllClassified(a) && IsClassified(e.req) && StaysOn(a, db) && EventIsOn(e, db)
    requires RunAll(FRESH, a).exit.Continue? && k < |CallsNext(a, e)| && CallsNext(a, e)[k].EndBatch?
    ensures DepthAt(RunAll(FRESH, a).calls, CallsNext(a, e), db, k) == Slips(RunLedger(FRESH, a))
  {
    var (r, calls, slips) := (RunAll(FRESH, a), CallsNext(a, e), Slips(RunLedger(FRESH, a)));
    BooksOfRun(a, db, r, slips);
    EndOfBooks(e, db, r, calls, k, slips);
  }

  lemma {:induction false} EndIsDepth(x: seq<Call>, y: seq<Call>, db: DbName, k: nat, d: nat)
    requires IsNested(0, x, db) && IsNested(d, y, db) && k < |y|
    requires Balance(x) == d && BalanceUpTo(y, k + 1) == -1
    ensures DepthAt(x, y, db, k) == d - 1
  {
    DepthOfEnd(x, y, x + y, db, k, d, |x| + k + 1);
  }

  lemma {:induction false} EndOfBooks(e: Event, db: DbName, r: Run, calls: seq<Call>, k: nat, slips: nat)
    requires Inv(r.final) && IsOn(r.final, db) && EventIsOn(e, db)
    requires IsNested(0, r.calls, db) && Balance(r.calls) == Open(r.final) + slips
    requires calls == Dispatch(r.final, e.req, e.w).calls && k < |calls| && calls[k].EndBatch?
    ensures DepthAt(r.calls, calls, db, k) == slips
  {
    var d: nat := slips + 1;
    EndFacts(r.final, e, db, calls, k, d);
    EndIsDepth(r.calls, calls, db, k, d);
  }

  lemma {:induction false} SlipsGrow(l: Ledger, m: Ledger)
    requires l <= m
    ensures Slips(l) <= Slips(m)
  {
  }

  /** So once something has slipped, no later flush of the session syncs. */
  lemma {:induction false} NoFlushSyncsAfterSlip(a: seq<Event>, b: seq<Event>, e: Event, db: DbName, k: nat)
    requires AllClassified(a) && AllClassified(b) && AllClassified(a + b) && IsClassified(e.req)
    requires StaysOn(a + b, db) && EventIsOn(e, db)
    requires RunAll(FRESH, a).exit.Continue? && RunAll(FRESH, a + b).exit.Continue?
    requires Slips(RunLedger(FRESH, a)) > 0
    requires k < |CallsNext(a + b, e)| && CallsNext(a + b, e)[k].EndBatch?
    ensures DepthAt(RunAll(FRESH, a + b).calls, CallsNext(a + b, e), db, k) > 0
  {
    EveryFlushExactly(a + b, e, db, k);
    LedgerGrows(FRESH, a, b);
    SlipsGrow(RunLedger(FRESH, a), RunLedger(FRESH, a + b));
  }

  // ── A run that leaks ──────────────────────────────────────────────────

  const FAILED_ON_A := Session(true, true, Some("u"), Some(DbHandle("a", ReadWrite)), Some("a"), None, None, CLEAN)

  const FAILS_A := Event(WRITE_A.req, Good("a").(executed := None))

  lemma {:induction false} FailedWrite()
    ensures Dispatch(GREETED, FAILS_A.req, FAILS_A.w) ==
            Step(FAILED_ON_A, [Failure(ExecutionFailed)], [BeginBatch("a"), Execute("a", Batched(false))], Continue)
  {
    NamesAreValid();
    var w := FAILS_A.w;
    var b := GREETED.(db := Some(DbHandle("a", ReadWrite)), accessor := Some("a"));
    assert Bind(GREETED, Some("a"), w) == Bound(b);
    assert Write(b, "a", w).calls == [BeginBatch("a")] + [Execute("a", Batched(false))] + [];
  }

  lemma {:induction false} WriteAgain()
    ensures Dispatch(FAILED_ON_A.(failed := false), WRITE_A.req, Good("a")) ==
            Answer(On("a", Some(1), Batch(1, Some(0))), OK, [BeginBatch("a"), Execute("a", Batched(true))])
  {
    var s := FAILED_ON_A.(failed := false);
    assert Bind(s, Some("a"), Good("a")) == Bound(s);
    assert Write(s, "a", Good("a")).calls == [BeginBatch("a")] + [Execute("a", Batched(true))] + [];
  }

  lemma {:induction false} LeakyCalls()
    ensures var calls := [BeginBatch("a"), Execute("a", Batched(false)), BeginBatch("a"),
                          Execute("a", Batched(true)), EndBatch("a")];
      DepthAfter(0, calls, "a", 5) == 1
  {
    var calls := [BeginBatch("a"), Execute("a", Batched(false)), BeginBatch("a"),
                  Execute("a", Batched(true)), EndBatch("a")];
    assert DepthAfter(0, calls, "a", 2) == DepthAfter(0, calls, "a", 1) == 1;
    assert DepthAfter(0, calls, "a", 4) == DepthAfter(0, calls, "a", 3) == 2;
  }

  /** A mutation that fails, RESET, and one that does not: two batches begun, one ended at
      the close, which leaves the engine at depth one. */
  lemma {:induction false} LeakHappens()
    ensures var events := [HELLO] + ([FAILS_A] + ([RESETS] + ([WRITE_A] + [])));
      && AllClassified(events)
      && var r := RunAll(FRESH, events);
      var calls := r.calls + Close(r.final).calls;
      && calls == [BeginBatch("a"), Execute("a", Batched(false)), BeginBatch("a"), Execute("a", Batched(true)),
                   EndBatch("a")]
      && DepthAfter(0, calls, "a", 5) == 1
  {
    HelloGreets(Good("a"));
    FailedWrite();
    WriteAgain();
    LeakyCalls();
    var s3 := FAILED_ON_A.(failed := false);
    assert Dispatch(FAILED_ON_A, Reset, Good("a")) == Answer(s3, OK, []);
    RunFirst(s3, WRITE_A, []);
    RunFirst(FAILED_ON_A, RESETS, [WRITE_A] + []);
    RunFirst(GREETED, FAILS_A, [RESETS] + ([WRITE_A] + []));
    RunFirst(FRESH, HELLO, [FAILS_A] + ([RESETS] + ([WRITE_A] + [])));
  }
}
