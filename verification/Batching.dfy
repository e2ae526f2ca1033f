/** Implicit batches: the session wraps mutations in `begin_batch`/`end_batch` so
    that the engine syncs its log once per batch, when the batch depth returns to
    zero. This module balances the books over whole runs. */
module Batching {
  import opened Texts
  import opened Statements
  import opened BoltSession

  // ── The books ─────────────────────────────────────────────────────────

  function Delta(call: Call): int {
    match call
    case BeginBatch(_) => 1
    case EndBatch(_) => -1
    case _ => 0
  }

  function BalanceUpTo(calls: seq<Call>, i: nat): int
    requires i <= |calls|
  {
    if i == 0 then 0 else BalanceUpTo(calls, i - 1) + Delta(calls[i - 1])
  }

  /** `begin_batch` calls minus `end_batch` calls. */
  function Balance(calls: seq<Call>): int {
    BalanceUpTo(calls, |calls|)
  }

  lemma {:induction false} BalancePrefix(a: seq<Call>, b: seq<Call>, i: nat)
    requires i <= |a| && i <= |b| && forall k :: 0 <= k < i ==> a[k] == b[k]
    ensures BalanceUpTo(a, i) == BalanceUpTo(b, i)
  {
    if i > 0 {
      BalancePrefix(a, b, i - 1);
    }
  }

  lemma {:induction false} BalanceConcatUpTo(a: seq<Call>, b: seq<Call>, i: nat)
    requires i <= |b|
    ensures BalanceUpTo(a + b, |a| + i) == Balance(a) + BalanceUpTo(b, i)
  {
    if i == 0 {
      BalancePrefix(a + b, a, |a|);
    } else {
      BalanceConcatUpTo(a, b, i - 1);
      assert (a + b)[|a| + i - 1] == b[i - 1];
    }
  }

  lemma {:induction false} BalanceConcat(a: seq<Call>, b: seq<Call>)
    ensures Balance(a + b) == Balance(a) + Balance(b)
  {
    BalanceConcatUpTo(a, b, |b|);
  }

  lemma {:induction false} BalanceOne(call: Call)
    ensures Balance([call]) == Delta(call)
  {
    assert BalanceUpTo([call], 0) == 0;
  }

  /** The events that unbalance the books: an auto-committed mutation that fails
      while the batch is clean leaves the batch it opened open; an auto-flush opens
      a batch that the next mutation opens again; a mutation in an explicit
      transaction marks the batch dirty without opening it. */
  datatype Slip = FailedFirst | AutoFlush | Unopened

  type Ledger = multiset<Slip>

  const NOTHING: Ledger := multiset{}

  function Leak(l: Ledger): int {
    var left: int := l[FailedFirst] + l[AutoFlush];
    left - l[Unopened]
  }

  predicate Writes(s: Session, stmt: Statement) {
    stmt.Mutation? && s.accessor.Some? && !(s.db.Some? && s.db.value.access.ReadOnly?)
  }

  function Note(happens: bool, slip: Slip): Ledger {
    if happens then multiset{slip} else NOTHING
  }

  function WriteLedger(s: Session, w: World): Ledger {
    var first := s.batch.dirty == 0;
    Note(first && s.txn.None? && w.executed.None?, FailedFirst)
    + Note(ShouldAutoFlush(Dirtied(s, w), w.now) && w.endBatchOk, AutoFlush)
    + Note(first && s.txn.Some? && w.executed.Some?, Unopened)
  }

  function PerformLedger(s: Session, stmt: Statement, w: World): Ledger {
    if Writes(s, stmt) then WriteLedger(s, w) else NOTHING
  }

  function SubmitLedger(s: Session, parsed: Option<Statement>, w: World): Ledger {
    if w.tokenTaken && w.paramsOk && parsed.Some? && w.substituted then PerformLedger(s, parsed.value, w)
    else NOTHING
  }

  /** What the request adds to the books: only a mutation that is executed does. */
  function StepLedger(s: Session, req: Request, w: World): Ledger {
    if s.failed || !req.Run? || !s.authenticated then NOTHING
    else
      var b := if req.exempt then Bound(s) else Bind(s, req.target, w);
      if b.Bound? then SubmitLedger(b.next, req.parsed, w) else NOTHING
  }

  /** One for a batch that is open and dirty. */
  function Open(s: Session): nat {
    if s.batch.dirty > 0 then 1 else 0
  }

  // ── One step ──────────────────────────────────────────────────────────

  /** The calls of a step from `s` add up to what it opens plus what it leaks. */
  predicate Balances(s: Session, step: Step, l: Ledger) {
    Balance(step.calls) == Open(step.next) - Open(s) + Leak(l)
  }

  /** No counted call, and the batch as before. */
  lemma {:induction false} Uneventful(s: Session, step: Step)
    requires Balance(step.calls) == 0 && step.next.batch == s.batch
    ensures Balances(s, step, NOTHING)
  {
  }

  lemma {:induction false} Settled(s: Session, step: Step, l: Ledger, n: int)
    requires Balance(step.calls) == n && Open(step.next) == Open(s) - Leak(l) + n
    ensures Balances(s, step, l)
  {
  }

  lemma {:induction false} BalanceTwo(a: Call, b: Call)
    ensures Balance([a, b]) == Delta(a) + Delta(b)
  {
    assert [a, b] == [a] + [b];
    BalanceConcat([a], [b]);
    BalanceOne(a);
    BalanceOne(b);
  }

  /** Of the calls of a mutation only an opening `begin_batch` counts. */
  lemma {:induction false} WriteCalls(s: Session, db: DbName, w: World)
    ensures Balance(Write(s, db, w).calls) == if s.txn.None? && s.batch.dirty == 0 then 1 else 0
  {
    var e := [Executor(s, db, Batched(w.executed.Some?))];
    var open := if s.txn.None? && s.batch.dirty == 0 then [BeginBatch(db)] else [];
    var auto := if ShouldAutoFlush(Dirtied(s, w), w.now) then [EndBatch(db), BeginBatch(db)] else [];
    assert Write(s, db, w).calls == open + e + auto;
    BalanceConcat(open + e, auto);
    BalanceConcat(open, e);
    BalanceOne(e[0]);
    BalanceOne(BeginBatch(db));
    BalanceTwo(EndBatch(db), BeginBatch(db));
  }

  /** The first mutation of a batch never flushes it. */
  lemma {:induction false} DirtiedIsTidy(s: Session, w: World)
    requires IsTidy(s.batch)
    ensures IsTidy(Dirtied(s, w))
    ensures Dirtied(s, w).dirty == s.batch.dirty + if w.executed.Some? then 1 else 0
    ensures s.batch.dirty == 0 ==> !ShouldAutoFlush(Dirtied(s, w), w.now)
  {
  }

  lemma {:induction false} OpenAfterWrite(s: Session, db: DbName, w: World)
    requires IsTidy(s.batch)
    ensures Open(Write(s, db, w).next) ==
            if ShouldAutoFlush(Dirtied(s, w), w.now) && w.endBatchOk then 0
            else if w.executed.Some? then 1 else Open(s)
  {
    DirtiedIsTidy(s, w);
  }

  lemma {:induction false} WriteLeak(s: Session, w: World)
    requires IsTidy(s.batch)
    ensures Leak(WriteLedger(s, w)) ==
            if ShouldAutoFlush(Dirtied(s, w), w.now) && w.endBatchOk then 1
            else if s.batch.dirty > 0 then 0
            else if w.executed.Some? then (if s.txn.Some? then -1 else 0)
            else (if s.txn.None? then 1 else 0)
  {
    DirtiedIsTidy(s, w);
  }

  /** The sums behind `WriteBalances`. */
  lemma {:induction false} Reckon(s: Session, step: Step, l: Ledger, auto: bool, dirty: bool, ran: bool, inTxn: bool)
    requires Open(s) == if dirty then 1 else 0
    requires Open(step.next) == if auto then 0 else if ran then 1 else Open(s)
    requires auto ==> dirty
    requires Leak(l) ==
      if auto then 1 else if dirty then 0 else if ran then (if inTxn then -1 else 0) else if inTxn then 0 else 1
    requires Balance(step.calls) == if !inTxn && !dirty then 1 else 0
    ensures Balances(s, step, l)
  {
  }

  lemma {:induction false} WriteBalances(s: Session, db: DbName, w: World)
    requires IsTidy(s.batch)
    ensures Balances(s, Write(s, db, w), WriteLedger(s, w))
  {
    WriteCalls(s, db, w);
    WriteLeak(s, w);
    DirtiedIsTidy(s, w);
    OpenAfterWrite(s, db, w);
    Reckon(s, Write(s, db, w), WriteLedger(s, w), ShouldAutoFlush(Dirtied(s, w), w.now) && w.endBatchOk,
           s.batch.dirty > 0, w.executed.Some?, s.txn.Some?);
  }

  lemma {:induction false} ReadBalances(s: Session, stmt: Statement, db: DbName, w: World)
    ensures Balances(s, Read(s, stmt, db, w), NOTHING)
  {
    ReadCalls(s, stmt, db, w);
    assert Read(s, stmt, db, w).next.batch == if s.batch.dirty > 0 then CLEAN else s.batch;
    Settled(s, Read(s, stmt, db, w), NOTHING, 0 - Open(s));
  }

  lemma {:induction false} ReadCalls(s: Session, stmt: Statement, db: DbName, w: World)
    ensures Balance(Read(s, stmt, db, w).calls) == 0 - Open(s)
  {
    var flush := if s.batch.dirty > 0 then [EndBatch(db)] else [];
    BalanceConcat(flush, [Executor(s, db, Direct(w.executed.Some?))]);
    BalanceOne(Executor(s, db, Direct(w.executed.Some?)));
    BalanceOne(EndBatch(db));
  }

  lemma {:induction false} IntrospectBalances(s: Session, stmt: Statement, db: DbName, w: World)
    ensures Balances(s, Introspect(s, stmt, db, w), NOTHING)
  {
    BalanceOne(Reached(stmt, db, w.executed.Some?));
    Uneventful(s, Introspect(s, stmt, db, w));
  }

  lemma {:induction false} AdministerBalances(s: Session, w: World)
    ensures Balances(s, Administer(s, w), NOTHING)
  {
    BalanceOne(DispatchAdmin(w.executed.Some?));
    Uneventful(s, Administer(s, w));
  }

  lemma {:induction false} PerformBalances(s: Session, stmt: Statement, w: World)
    requires IsTidy(s.batch)
    ensures Balances(s, Perform(s, stmt, w), PerformLedger(s, stmt, w))
  {
    var (step, l) := (Perform(s, stmt, w), PerformLedger(s, stmt, w));
    if Writes(s, stmt) {
      var db := s.accessor.value;
      assert step == Write(s, db, w) && l == WriteLedger(s, w);
      WriteBalances(s, db, w);
    } else if step.calls == [] {
      Uneventful(s, step);
    } else if stmt.Admin? {
      assert step == Administer(s, w);
      AdministerBalances(s, w);
    } else if stmt.Ddl? || stmt.Call? {
      assert step == Introspect(s, stmt, s.accessor.value, w);
      IntrospectBalances(s, stmt, s.accessor.value, w);
    } else {
      assert step == Read(s, stmt, s.accessor.value, w);
      ReadBalances(s, stmt, s.accessor.value, w);
    }
  }

  lemma {:induction false} SubmitBalances(s: Session, parsed: Option<Statement>, w: World)
    requires IsTidy(s.batch)
    ensures Balances(s, Submit(s, parsed, w), SubmitLedger(s, parsed, w))
  {
    if w.tokenTaken && w.paramsOk && parsed.Some? && w.substituted {
      assert Submit(s, parsed, w) == Perform(s, parsed.value, w);
      PerformBalances(s, parsed.value, w);
    } else {
      Uneventful(s, Submit(s, parsed, w));
    }
  }

  /** Binding leaves batch and transaction alone. */
  lemma {:induction false} BindKeepsBatch(s: Session, target: Option<DbName>, w: World)
    ensures Bind(s, target, w).next.batch == s.batch && Bind(s, target, w).next.txn == s.txn
  {
  }

  lemma {:induction false} BalancesFrom(s: Session, t: Session, step: Step, l: Ledger)
    requires Balances(t, step, l) && t.batch == s.batch
    ensures Balances(s, step, l)
  {
  }

  /** Where a RUN ends up: refused, or submitted from a session with the same batch. */
  lemma {:induction false} RunIs(s: Session, req: Request, w: World)
    requires CursorOk(s) && req.Run? && !s.failed && s.authenticated
    ensures var b := if req.exempt then Bound(s) else Bind(s, req.target, w);
      && b.next.batch == s.batch
      && (b.Bound? ==> Dispatch(s, req, w) == Submit(b.next, req.parsed, w))
      && (b.Refused? ==> Dispatch(s, req, w) == Fail(b.next, b.code, []))
  {
    BindKeepsBatch(s, req.target, w);
    DispatchOfRun(s, req, w);
  }

  lemma {:induction false} RunBalances(s: Session, req: Request, w: World)
    requires Inv(s) && req.Run? && !s.failed && s.authenticated
    ensures Balances(s, Dispatch(s, req, w), StepLedger(s, req, w))
  {
    RunIs(s, req, w);
    var b := if req.exempt then Bound(s) else Bind(s, req.target, w);
    if b.Refused? {
      Uneventful(s, Dispatch(s, req, w));
    } else {
      SubmitBalances(b.next, req.parsed, w);
      BalancesFrom(s, b.next, Submit(b.next, req.parsed, w), SubmitLedger(b.next, req.parsed, w));
    }
  }

  lemma {:induction false} ResetBalances(s: Session)
    ensures Balances(s, OnReset(s), NOTHING)
  {
    var undo :=
      if s.txn.Some? && s.accessor.Some? then [RollbackTxn(s.accessor.value, s.txn.value)] else [];
    assert undo != [] ==> undo == [RollbackTxn(s.accessor.value, s.txn.value)];
    if undo != [] {
      BalanceOne(undo[0]);
    }
    assert Balance(undo) == 0;
    var flushes := s.batch.dirty > 0 && s.accessor.Some?;
    if flushes {
      BalanceConcat(undo, [EndBatch(s.accessor.value)]);
      BalanceOne(EndBatch(s.accessor.value));
      assert OnReset(s).calls == undo + [EndBatch(s.accessor.value)];
      assert OnReset(s).next.batch == CLEAN;
      Settled(s, OnReset(s), NOTHING, -1);
    } else {
      assert OnReset(s).calls == undo;
      Uneventful(s, OnReset(s));
    }
  }

  /** COMMIT and ROLLBACK touch no batch, nor does anything that is not a RUN or a
      RESET. */
  lemma {:induction false} OtherStepBalances(s: Session, req: Request, w: World)
    requires Inv(s) && !req.Run? && !req.Reset?
    ensures Balances(s, Dispatch(s, req, w), NOTHING)
  {
    var step := Dispatch(s, req, w);
    if step.calls != [] {
      BalanceOne(step.calls[0]);
      assert step.calls == [step.calls[0]];
    }
    Uneventful(s, step);
  }

  lemma {:induction false} StepBalances(s: Session, req: Request, w: World)
    requires Inv(s)
    ensures Balances(s, Dispatch(s, req, w), StepLedger(s, req, w))
  {
    if req.Run? && !s.failed && s.authenticated {
      RunBalances(s, req, w);
    } else if req.Run? {
      Uneventful(s, Dispatch(s, req, w));
    } else if req.Reset? {
      ResetBalances(s);
      assert Dispatch(s, req, w) == OnReset(s);
    } else {
      OtherStepBalances(s, req, w);
    }
  }

  // ── Whole runs ────────────────────────────────────────────────────────

  ghost function RunLedger(s: Session, events: seq<Event>): Ledger
    requires Inv(s) && AllClassified(events)
    decreases |events|
  {
    if events == [] then NOTHING
    else
      var (req, w) := (events[0].req, events[0].w);
      var step := Dispatch(s, req, w);
      if !step.exit.Continue? then StepLedger(s, req, w)
      else
        StepKeepsInv(s, req, w);
        StepLedger(s, req, w) + RunLedger(step.next, events[1..])
  }

  /** Exact accounting, for every run and every answer of the engine. */
  lemma {:induction false} RunsBalance(s: Session, events: seq<Event>)
    requires Inv(s) && AllClassified(events)
    ensures var r := RunAll(s, events);
      Balance(r.calls) == Open(r.final) - Open(s) + Leak(RunLedger(s, events))
    decreases |events|
  {
    if events == [] {
    } else {
      var (req, w) := (events[0].req, events[0].w);
      var step := Dispatch(s, req, w);
      StepBalances(s, req, w);
      if step.exit.Continue? {
        StepKeepsInv(s, req, w);
        RunsBalance(step.next, events[1..]);
        BalanceConcat(step.calls, RunAll(step.next, events[1..]).calls);
      }
    }
  }

  lemma {:induction false} PerformStaysSmall(s: Session, stmt: Statement, w: World)
    requires s.batch.dirty < AUTO_FLUSH_OPS && w.endBatchOk
    ensures Perform(s, stmt, w).next.batch.dirty < AUTO_FLUSH_OPS
  {
  }

  lemma {:induction false} RunStaysSmall(s: Session, req: Request, w: World)
    requires CursorOk(s) && req.Run? && !s.failed && s.authenticated
    requires s.batch.dirty < AUTO_FLUSH_OPS && w.endBatchOk
    ensures Dispatch(s, req, w).next.batch.dirty < AUTO_FLUSH_OPS
  {
    RunIs(s, req, w);
    var b := if req.exempt then Bound(s) else Bind(s, req.target, w);
    if b.Bound? && req.parsed.Some? {
      PerformStaysSmall(b.next, req.parsed.value, w);
    }
  }

  /** With succeeding flushes a batch stays below the auto-flush threshold. */
  lemma {:induction false} BatchesStaySmall(s: Session, events: seq<Event>)
    requires Inv(s) && AllClassified(events) && s.batch.dirty < AUTO_FLUSH_OPS
    requires forall i :: 0 <= i < |events| ==> events[i].w.endBatchOk
    ensures RunAll(s, events).final.batch.dirty < AUTO_FLUSH_OPS
    decreases |events|
  {
    if events != [] {
      var (req, w) := (events[0].req, events[0].w);
      var step := Dispatch(s, req, w);
      if req.Run? && !s.failed && s.authenticated {
        RunStaysSmall(s, req, w);
      } else {
        assert step.next.batch == s.batch || step.next.batch == CLEAN;
      }
      if step.exit.Continue? {
        StepKeepsInv(s, req, w);
        BatchesStaySmall(step.next, events[1..]);
      }
    }
  }

  // ── What it means for durability ──────────────────────────────────────

  /** The engine's batch depth on database `db` after `i` calls: `end_batch` at depth
      zero does nothing, and the log is synced when the depth returns to zero. */
  function DepthAfter(d: nat, calls: seq<Call>, db: DbName, i: nat): nat
    requires i <= |calls|
  {
    if i == 0 then d
    else
      var before := DepthAfter(d, calls, db, i - 1);
      match calls[i - 1]
      case BeginBatch(b) => if b == db then before + 1 else before
      case EndBatch(b) => if b == db && before > 0 then before - 1 else before
      case _ => before
  }

  predicate Fits(depth: int, call: Call, db: DbName) {
    match call
    case BeginBatch(b) => b == db
    case EndBatch(b) => b == db && depth > 0
    case _ => true
  }

  /** Every batch call is for `db` and no `end_batch` finds depth zero. */
  ghost predicate IsNested(d: int, calls: seq<Call>, db: DbName) {
    forall i :: 0 <= i < |calls| ==> FitsAt(d, calls, db, i)
  }

  predicate FitsAt(d: int, calls: seq<Call>, db: DbName, i: nat)
    requires i < |calls|
  {
    Fits(d + BalanceUpTo(calls, i), calls[i], db)
  }

  lemma {:induction false} DepthIsBalance(d: nat, calls: seq<Call>, db: DbName, i: nat)
    requires IsNested(d, calls, db) && i <= |calls|
    ensures DepthAfter(d, calls, db, i) == d + BalanceUpTo(calls, i)
  {
    if i > 0 {
      DepthIsBalance(d, calls, db, i - 1);
      assert FitsAt(d, calls, db, i - 1);
    }
  }

  lemma {:induction false} NestedFront(d: int, a: seq<Call>, b: seq<Call>, db: DbName, i: nat)
    requires IsNested(d, a, db) && i < |a|
    ensures FitsAt(d, a + b, db, i)
  {
    BalancePrefix(a + b, a, i);
    assert FitsAt(d, a, db, i);
  }

  lemma {:induction false} NestedBack(d: int, a: seq<Call>, b: seq<Call>, db: DbName, k: nat, i: nat)
    requires IsNested(d + Balance(a), b, db) && k < |b| && i == |a| + k
    ensures FitsAt(d, a + b, db, i)
  {
    BalanceConcatUpTo(a, b, k);
    assert FitsAt(d + Balance(a), b, db, k);
  }

  lemma {:induction false} NestedConcat(d: int, a: seq<Call>, b: seq<Call>, both: seq<Call>, db: DbName, e: int)
    requires IsNested(d, a, db) && IsNested(e, b, db) && both == a + b && e == d + Balance(a)
    ensures IsNested(d, both, db)
  {
    forall i | 0 <= i < |both| ensures FitsAt(d, both, db, i) {
      if i < |a| {
        NestedFront(d, a, b, db, i);
      } else {
        NestedBack(d, a, b, db, i - |a|, i);
      }
    }
  }

  lemma {:induction false} NestedOne(d: int, call: Call, db: DbName)
    requires Fits(d, call, db)
    ensures IsNested(d, [call], db) && Balance([call]) == Delta(call)
  {
    BalanceOne(call);
  }

  /** No transaction, and no database but `db`. */
  predicate IsOn(s: Session, db: DbName) {
    s.txn.None? && (s.accessor.Some? ==> s.accessor.value == db)
  }

  predicate EventIsOn(e: Event, db: DbName) {
    !e.req.Begin? && (e.w.acquired.Some? ==> e.w.acquired.value.name == db)
  }

  /** Every database the registry hands out is `db`, and there is no BEGIN. */
  ghost predicate StaysOn(events: seq<Event>, db: DbName) {
    forall i :: 0 <= i < |events| ==> EventIsOn(events[i], db)
  }

  lemma {:induction false} WriteIsNested(s: Session, db: DbName, w: World, d: nat)
    requires d >= Open(s) && s.txn.None?
    ensures IsNested(d, Write(s, db, w).calls, db)
  {
    var e := [Executor(s, db, Batched(w.executed.Some?))];
    var open := if s.batch.dirty == 0 then [BeginBatch(db)] else [];
    var auto := if ShouldAutoFlush(Dirtied(s, w), w.now) then [EndBatch(db), BeginBatch(db)] else [];
    NestedOne(d, BeginBatch(db), db);
    var d1 := d + Balance(open);
    assert d1 >= 1 && IsNested(d, open, db);
    NestedOne(d1, Executor(s, db, Batched(w.executed.Some?)), db);
    NestedConcat(d, open, e, open + e, db, d1);
    BalanceConcat(open, e);
    NestedOne(d1, EndBatch(db), db);
    NestedOne(d1 - 1, BeginBatch(db), db);
    NestedConcat(d1, [EndBatch(db)], [BeginBatch(db)], [EndBatch(db), BeginBatch(db)], db, d1 - 1);
    assert IsNested(d1, auto, db);
    NestedConcat(d, open + e, auto, Write(s, db, w).calls, db, d1);
  }

  lemma {:induction false} ReadIsNested(s: Session, stmt: Statement, db: DbName, w: World, d: nat)
    requires d >= Open(s)
    ensures IsNested(d, Read(s, stmt, db, w).calls, db)
  {
    var flush := if s.batch.dirty > 0 then [EndBatch(db)] else [];
    if s.batch.dirty > 0 {
      NestedOne(d, EndBatch(db), db);
    }
    NestedOne(d + Balance(flush), Executor(s, db, Direct(w.executed.Some?)), db);
    NestedConcat(d, flush, [Executor(s, db, Direct(w.executed.Some?))], Read(s, stmt, db, w).calls, db,
                 d + Balance(flush));
  }

  lemma {:induction false} PerformIsNested(s: Session, stmt: Statement, w: World, db: DbName, d: nat)
    requires IsOn(s, db) && d >= Open(s)
    ensures IsNested(d, Perform(s, stmt, w).calls, db)
  {
    var step := Perform(s, stmt, w);
    if Writes(s, stmt) {
      assert step == Write(s, db, w);
      WriteIsNested(s, db, w, d);
    } else if step.calls != [] && IsOutsideTxn(stmt) {
      assert step.calls == [step.calls[0]];
      NestedOne(d, step.calls[0], db);
    } else if step.calls != [] {
      assert step == Read(s, stmt, db, w);
      ReadIsNested(s, stmt, db, w, d);
    }
  }

  lemma {:induction false} RunIsNested(s: Session, req: Request, w: World, db: DbName, d: nat)
    requires CursorOk(s) && req.Run? && !s.failed && s.authenticated
    requires IsOn(s, db) && d >= Open(s) && EventIsOn(Event(req, w), db)
    ensures IsNested(d, Dispatch(s, req, w).calls, db)
  {
    RunIs(s, req, w);
    BindKeepsBatch(s, req.target, w);
    var b := if req.exempt then Bound(s) else Bind(s, req.target, w);
    if b.Bound? && req.parsed.Some? {
      PerformIsNested(b.next, req.parsed.value, w, db, d);
      assert Submit(b.next, req.parsed, w).calls == [] ||
             Submit(b.next, req.parsed, w) == Perform(b.next, req.parsed.value, w);
    }
  }

  lemma {:induction false} BindStaysOn(s: Session, target: Option<DbName>, w: World, db: DbName)
    requires IsOn(s, db) && (w.acquired.Some? ==> w.acquired.value.name == db)
    ensures IsOn(Bind(s, target, w).next, db)
  {
  }

  lemma {:induction false} PerformStaysOn(s: Session, stmt: Statement, w: World, db: DbName)
    requires IsOn(s, db)
    ensures IsOn(Perform(s, stmt, w).next, db)
  {
  }

  lemma {:induction false} StaysOnStep(s: Session, req: Request, w: World, db: DbName)
    requires CursorOk(s) && IsOn(s, db) && EventIsOn(Event(req, w), db)
    ensures IsOn(Dispatch(s, req, w).next, db)
  {
    if req.Run? && !s.failed && s.authenticated {
      RunIs(s, req, w);
      BindStaysOn(s, req.target, w, db);
      var b := if req.exempt then Bound(s) else Bind(s, req.target, w);
      if b.Bound? && req.parsed.Some? {
        PerformStaysOn(b.next, req.parsed.value, w, db);
      }
    }
  }

  lemma {:induction false} StepIsNested(s: Session, req: Request, w: World, db: DbName, d: nat)
    requires CursorOk(s) && IsOn(s, db) && d >= Open(s) && EventIsOn(Event(req, w), db)
    ensures IsNested(d, Dispatch(s, req, w).calls, db)
  {
    if req.Run? && !s.failed && s.authenticated {
      RunIsNested(s, req, w, db, d);
    } else if req.Reset? && s.batch.dirty > 0 && s.accessor.Some? {
      NestedOne(d, EndBatch(db), db);
      assert [] + [EndBatch(db)] == [EndBatch(db)];
    }
  }

  lemma {:induction false} NoTxnNothingUnopened(s: Session, req: Request, w: World, db: DbName)
    requires IsOn(s, db)
    ensures StepLedger(s, req, w)[Unopened] == 0
  {
    if req.Run? {
      BindKeepsBatch(s, req.target, w);
    }
  }

  /** The depth covers what the session holds open, before a request and after it. */
  lemma {:induction false} DepthCovers(s: Session, req: Request, w: World, db: DbName, d: nat, step: Step)
    requires Inv(s) && IsOn(s, db) && d >= Open(s) && step == Dispatch(s, req, w)
    ensures d + Balance(step.calls) >= Open(step.next)
  {
    StepBalances(s, req, w);
    NoTxnNothingUnopened(s, req, w, db);
  }

  lemma {:induction false} NothingUnopened(s: Session, events: seq<Event>, db: DbName)
    requires Inv(s) && AllClassified(events) && IsOn(s, db) && StaysOn(events, db)
    ensures RunLedger(s, events)[Unopened] == 0
    decreases |events|
  {
    if events != [] {
      var (req, w) := (events[0].req, events[0].w);
      assert EventIsOn(events[0], db);
      NoTxnNothingUnopened(s, req, w, db);
      if Dispatch(s, req, w).exit.Continue? {
        StepKeepsInv(s, req, w);
        StaysOnStep(s, req, w, db);
        NothingUnopened(Dispatch(s, req, w).next, events[1..], db);
      }
    }
  }

  lemma {:induction false} RunsAreNested(s: Session, events: seq<Event>, db: DbName, d: nat)
    requires Inv(s) && AllClassified(events) && IsOn(s, db) && StaysOn(events, db) && d >= Open(s)
    ensures IsNested(d, RunAll(s, events).calls, db)
    decreases |events|
  {
    if events != [] {
      var (req, w) := (events[0].req, events[0].w);
      assert EventIsOn(events[0], db);
      var step := Dispatch(s, req, w);
      StepIsNested(s, req, w, db, d);
      if step.exit.Continue? {
        StepKeepsInv(s, req, w);
        StaysOnStep(s, req, w, db);
        DepthCovers(s, req, w, db, d, step);
        var (e, rest) := (d + Balance(step.calls), RunAll(step.next, events[1..]).calls);
        RunsAreNested(step.next, events[1..], db, e);
        NestedConcat(d, step.calls, rest, RunAll(s, events).calls, db, e);
      }
    }
  }

  /** On one database and without BEGIN, the engine's depth after any run is one if
      the session's batch is dirty, plus one for every mutation that failed first
      and every auto-flush so far. */
  lemma {:induction false} DepthIsExact(events: seq<Event>, db: DbName)
    requires AllClassified(events) && StaysOn(events, db)
    ensures var (r, l) := (RunAll(FRESH, events), RunLedger(FRESH, events));
      DepthAfter(0, r.calls, db, |r.calls|) == Open(r.final) + l[FailedFirst] + l[AutoFlush]
  {
    var calls := RunAll(FRESH, events).calls;
    RunsAreNested(FRESH, events, db, 0);
    NothingUnopened(FRESH, events, db);
    DepthIsBalance(0, calls, db, |calls|);
    RunsBalance(FRESH, events);
  }

  /** The flush that ends a dirty run syncs the engine's log, by bringing the depth
      from one to zero, exactly if until then no mutation had failed first and no
      auto-flush had fired. After either, no flush of the session ever syncs. */
  lemma {:induction false} FlushSyncsExactly(events: seq<Event>, db: DbName)
    requires AllClassified(events) && StaysOn(events, db)
    requires var r := RunAll(FRESH, events); r.final.batch.dirty > 0 && r.final.accessor.Some?
    ensures var (r, l) := (RunAll(FRESH, events), RunLedger(FRESH, events));
      && Close(r.final).calls == [EndBatch(r.final.accessor.value)]
      && (DepthAfter(0, r.calls, db, |r.calls|) == 1 <==> l[FailedFirst] == 0 && l[AutoFlush] == 0)
  {
    DepthIsExact(events, db);
  }
}
