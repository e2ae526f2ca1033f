/** Traces of calls, read one call at a time, and runs put together from steps. */
module Traces {
  import opened Texts
  import opened Statements
  import opened BoltSession

  // ── Observers ─────────────────────────────────────────────────────────

  /** What an observer who started with `v` knows after `i` calls. */
  function FoldTo<S>(f: (S, Call) -> S, v: S, calls: seq<Call>, i: nat): S
    requires i <= |calls|
  {
    if i == 0 then v else f(FoldTo(f, v, calls, i - 1), calls[i - 1])
  }

  function Fold<S>(f: (S, Call) -> S, v: S, calls: seq<Call>): S {
    FoldTo(f, v, calls, |calls|)
  }

  lemma {:induction false} FoldPrefix<S>(f: (S, Call) -> S, v: S, a: seq<Call>, b: seq<Call>, i: nat)
    requires i <= |a| && i <= |b| && forall k :: 0 <= k < i ==> a[k] == b[k]
    ensures FoldTo(f, v, a, i) == FoldTo(f, v, b, i)
  {
    if i > 0 {
      FoldPrefix(f, v, a, b, i - 1);
    }
  }

  lemma {:induction false} FoldConcatTo<S>(f: (S, Call) -> S, v: S, a: seq<Call>, b: seq<Call>, i: nat)
    requires i <= |b|
    ensures FoldTo(f, v, a + b, |a| + i) == FoldTo(f, Fold(f, v, a), b, i)
  {
    if i == 0 {
      FoldPrefix(f, v, a + b, a, |a|);
    } else {
      FoldConcatTo(f, v, a, b, i - 1);
      assert (a + b)[|a| + i - 1] == b[i - 1];
    }
  }

  lemma {:induction false} FoldConcat<S>(f: (S, Call) -> S, v: S, a: seq<Call>, b: seq<Call>)
    ensures Fold(f, v, a + b) == Fold(f, Fold(f, v, a), b)
  {
    FoldConcatTo(f, v, a, b, |b|);
  }

  lemma {:induction false} FoldOne<S>(f: (S, Call) -> S, v: S, a: Call)
    ensures Fold(f, v, [a]) == f(v, a)
  {
    assert FoldTo(f, v, [a], 0) == v;
  }

  lemma {:induction false} FoldTwo<S>(f: (S, Call) -> S, v: S, a: Call, b: Call)
    ensures Fold(f, v, [a, b]) == f(f(v, a), b)
  {
    assert FoldTo(f, v, [a, b], 0) == v && FoldTo(f, v, [a, b], 1) == f(v, a);
  }

  /** A statement was executed, and succeeded. */
  predicate IsDone(call: Call) {
    || ((call.Execute? || call.ExecuteInTxn?) && call.kind.done)
    || ((call.ReachSchema? || call.ReadGraph? || call.DispatchAdmin?) && call.done)
  }

  function Counted(n: nat, call: Call): nat {
    if IsDone(call) then n + 1 else n
  }

  function Successes(calls: seq<Call>): nat {
    Fold(Counted, 0, calls)
  }

  lemma {:induction false} CountsOn(calls: seq<Call>, n: nat, i: nat)
    requires i <= |calls|
    ensures FoldTo(Counted, n, calls, i) == n + FoldTo(Counted, 0, calls, i)
  {
    if i > 0 {
      CountsOn(calls, n, i - 1);
    }
  }

  lemma {:induction false} SuccessesConcat(a: seq<Call>, b: seq<Call>)
    ensures Successes(a + b) == Successes(a) + Successes(b)
  {
    FoldConcat(Counted, 0, a, b);
    CountsOn(b, Successes(a), |b|);
  }

  // ── What the two executing steps show ─────────────────────────────────

  lemma {:induction false} FoldRead<S>(f: (S, Call) -> S, v: S, s: Session, stmt: Statement, db: DbName, w: World)
    ensures var run := Executor(s, db, Direct(w.executed.Some?));
      Fold(f, v, Read(s, stmt, db, w).calls) ==
      if s.batch.dirty > 0 then f(f(v, EndBatch(db)), run) else f(v, run)
  {
    var run := Executor(s, db, Direct(w.executed.Some?));
    if s.batch.dirty > 0 {
      assert Read(s, stmt, db, w).calls == [EndBatch(db), run];
      FoldTwo(f, v, EndBatch(db), run);
    } else {
      assert Read(s, stmt, db, w).calls == [run];
      FoldOne(f, v, run);
    }
  }

  /** A mutation opens a batch. */
  predicate OpensBatch(s: Session) {
    s.txn.None? && s.batch.dirty == 0
  }

  lemma {:induction false} FoldWrite<S>(f: (S, Call) -> S, v: S, s: Session, db: DbName, w: World)
    ensures var run := Executor(s, db, Batched(w.executed.Some?));
      var ran := f(if OpensBatch(s) then f(v, BeginBatch(db)) else v, run);
      Fold(f, v, Write(s, db, w).calls) ==
      if ShouldAutoFlush(Dirtied(s, w), w.now) then f(f(ran, EndBatch(db)), BeginBatch(db)) else ran
  {
    var run := Executor(s, db, Batched(w.executed.Some?));
    var open := if OpensBatch(s) then [BeginBatch(db)] else [];
    var auto := if ShouldAutoFlush(Dirtied(s, w), w.now) then [EndBatch(db), BeginBatch(db)] else [];
    assert Write(s, db, w).calls == open + [run] + auto;
    FoldConcat(f, v, open + [run], auto);
    FoldConcat(f, v, open, [run]);
    FoldOne(f, v, BeginBatch(db));
    FoldOne(f, Fold(f, v, open), run);
    FoldTwo(f, Fold(f, v, open + [run]), EndBatch(db), BeginBatch(db));
  }

  /** The session as the RUN finds it once a database is bound. */
  function BoundFor(s: Session, req: Request, w: World): Binding
    requires req.Run?
  {
    if req.exempt then Bound(s) else Bind(s, req.target, w)
  }

  /** The RUN gets as far as its statement. */
  predicate Performs(s: Session, req: Request, w: World) {
    && req.Run? && !s.failed && s.authenticated && BoundFor(s, req, w).Bound?
    && w.tokenTaken && w.paramsOk && req.parsed.Some? && w.substituted
  }

  lemma {:induction false} PerformsIs(s: Session, req: Request, w: World)
    requires CursorOk(s) && req.Run?
    ensures Performs(s, req, w) ==> Dispatch(s, req, w) == Perform(BoundFor(s, req, w).next, req.parsed.value, w)
    ensures !Performs(s, req, w) ==>
      Dispatch(s, req, w).calls == [] && Dispatch(s, req, w).next.batch == s.batch
  {
  }

  /** What performing a statement comes down to. */
  datatype Course = Writing | Reading | Looking | Nothing

  function CourseOf(s: Session, stmt: Statement): Course {
    if s.txn.Some? && IsOutsideTxn(stmt) then Nothing
    else if stmt.Admin? then if s.user.None? then Nothing else Looking
    else if stmt.Call? && stmt.registryScoped then Nothing
    else if s.accessor.None? then Nothing
    else if stmt.Ddl? || stmt.Call? then Looking
    else if s.db.Some? && s.db.value.access.ReadOnly? && IsMutating(stmt) then Nothing
    else if stmt.Mutation? then Writing
    else Reading
  }

  function Look(s: Session, stmt: Statement, w: World): Call {
    if stmt.Admin? || s.accessor.None? then DispatchAdmin(w.executed.Some?)
    else Reached(stmt, s.accessor.value, w.executed.Some?)
  }

  lemma {:induction false} PerformIs(s: Session, stmt: Statement, w: World)
    ensures var step := Perform(s, stmt, w);
      && (CourseOf(s, stmt).Writing? ==> s.accessor.Some? && step == Write(s, s.accessor.value, w))
      && (CourseOf(s, stmt).Reading? ==> s.accessor.Some? && step == Read(s, stmt, s.accessor.value, w))
      && (CourseOf(s, stmt).Looking? ==> step.calls == [Look(s, stmt, w)] && step.next.batch == s.batch)
      && (CourseOf(s, stmt).Nothing? ==> step.calls == [] && step.next.batch == s.batch)
  {
  }

  lemma {:induction false} FoldReset<S>(f: (S, Call) -> S, v: S, s: Session)
    ensures var undone :=
        if s.txn.Some? && s.accessor.Some? then f(v, RollbackTxn(s.accessor.value, s.txn.value)) else v;
      Fold(f, v, OnReset(s).calls) ==
      if s.batch.dirty > 0 && s.accessor.Some? then f(undone, EndBatch(s.accessor.value)) else undone
  {
    if s.accessor.Some? {
      var db := s.accessor.value;
      if s.txn.Some? {
        var undo := RollbackTxn(db, s.txn.value);
        FoldOne(f, v, undo);
        FoldTwo(f, v, undo, EndBatch(db));
        assert s.batch.dirty > 0 ==> OnReset(s).calls == [undo, EndBatch(db)];
      } else {
        FoldOne(f, v, EndBatch(db));
        assert s.batch.dirty > 0 ==> OnReset(s).calls == [EndBatch(db)];
      }
    }
  }

  /** Transaction control, the only other requests with calls. */
  predicate IsControl(call: Call) {
    call.BeginTxn? || call.CommitTxn? || call.RollbackTxn?
  }

  lemma {:induction false} OthersDoLittle(s: Session, req: Request, w: World)
    requires CursorOk(s) && !req.Run? && !req.Reset?
    ensures var step := Dispatch(s, req, w);
      && step.next.batch == s.batch && step.next.accessor == s.accessor
      && (step.calls == [] || (step.calls == [step.calls[0]] && IsControl(step.calls[0])))
  {
  }

  // ── Statements done ───────────────────────────────────────────────────

  lemma {:induction false} PerformSucceedsOnce(s: Session, stmt: Statement, w: World)
    requires !s.failed && Perform(s, stmt, w).exit.Continue?
    ensures Successes(Perform(s, stmt, w).calls) == if Perform(s, stmt, w).next.failed then 0 else 1
  {
    PerformIs(s, stmt, w);
    match CourseOf(s, stmt)
    case Writing => FoldWrite(Counted, 0, s, s.accessor.value, w);
    case Reading => FoldRead(Counted, 0, s, stmt, s.accessor.value, w);
    case Looking => FoldOne(Counted, 0, Look(s, stmt, w));
    case Nothing =>
  }

  /** A RUN executes one statement, or it fails. */
  lemma {:induction false} RunSucceedsOnce(s: Session, req: Request, w: World)
    requires Inv(s) && !s.failed && req.Run? && IsClassified(req)
    ensures Successes(Dispatch(s, req, w).calls) == if Dispatch(s, req, w).next.failed then 0 else 1
  {
    PerformsIs(s, req, w);
    PanicsExactly(s, req, w);
    if Performs(s, req, w) {
      BoundIsNotFailed(s, req, w);
      PerformSucceedsOnce(BoundFor(s, req, w).next, req.parsed.value, w);
    } else {
      IdleFails(s, req, w);
    }
  }

  lemma {:induction false} BoundIsNotFailed(s: Session, req: Request, w: World)
    requires !s.failed && req.Run?
    ensures !BoundFor(s, req, w).next.failed
  {
  }

  lemma {:induction false} IdleFails(s: Session, req: Request, w: World)
    requires CursorOk(s) && req.Run? && !s.failed && !Performs(s, req, w)
    ensures Dispatch(s, req, w).next.failed
  {
  }

  // ── Runs ──────────────────────────────────────────────────────────────

  lemma {:induction false} ConsIsClassified(e: Event, rest: seq<Event>)
    requires IsClassified(e.req) && AllClassified(rest)
    ensures AllClassified([e] + rest)
  {
    forall i | 0 <= i < |[e] + rest| ensures IsClassified(([e] + rest)[i].req) {
      assert i > 0 ==> ([e] + rest)[i] == rest[i - 1];
    }
  }

  lemma {:induction false} RunFirst(s: Session, e: Event, rest: seq<Event>)
    requires Inv(s) && IsClassified(e.req) && AllClassified(rest) && Dispatch(s, e.req, e.w).exit.Continue?
    ensures AllClassified([e] + rest) && Inv(Dispatch(s, e.req, e.w).next)
    ensures var (step, r) := (Dispatch(s, e.req, e.w), RunAll(AfterEvent(s, e), rest));
      RunAll(s, [e] + rest) == Done(r.final, step.replies + r.replies, step.calls + r.calls, r.exit)
  {
    ConsIsClassified(e, rest);
    assert ([e] + rest)[0] == e && ([e] + rest)[1..] == rest;
    StepKeepsInv(s, e.req, e.w);
  }

  /** The run after its first request. */
  lemma {:induction false} RunTail(s: Session, events: seq<Event>)
    requires Inv(s) && AllClassified(events) && events != []
    ensures var (e, step) := (events[0], Dispatch(s, events[0].req, events[0].w));
      if step.exit.Continue? then
        && AllClassified(events[1..])
        && RunAll(s, events).calls == step.calls + RunAll(AfterEvent(s, e), events[1..]).calls
        && RunAll(s, events).final == RunAll(AfterEvent(s, e), events[1..]).final
      else RunAll(s, events).calls == step.calls && RunAll(s, events).final == step.next
  {
  }

  // ── Small runs ────────────────────────────────────────────────────────

  /** A world in which everything succeeds, on database `db`, and nothing is found. */
  function Good(db: DbName): World {
    World(false, true, Some(DbHandle(db, ReadWrite)), true, true, true, Some(Executed([], 1)), None, true, true, 0)
  }

  /** A session in good order on `db`. */
  function On(db: DbName, stats: Option<Stats>, batch: Batch): Session {
    Session(false, true, Some("u"), Some(DbHandle(db, ReadWrite)), Some(db), None, Some(Pending([], 0, stats)), batch)
  }

  const GREETED := FRESH.(authenticated := true, user := Some("u"))

  const HELLO := Event(Hello("u"), Good("a"))
  const WRITE_A := Event(Run(false, Some(Mutation(0)), Some("a")), Good("a"))
  const READ_A := Event(Run(false, Some(Query(0)), Some("a")), Good("a"))
  const READ_B := Event(Run(false, Some(Query(0)), Some("b")), Good("b"))
  const CALL_A := Event(Run(false, Some(Statements.Call(0, false)), Some("a")), Good("a"))

  lemma {:induction false} HelloGreets(w: World)
    requires !w.authBlocked && w.authOk
    ensures Dispatch(FRESH, Hello("u"), w) == Answer(GREETED, OK, [])
  {
    assert Trim("u") == "u";
    assert Lower("u") == "u";
  }

  lemma {:induction false} NamesAreValid()
    ensures IsValidDatabaseName("a") && IsValidDatabaseName("b")
  {
  }

  lemma {:induction false} FirstWrite()
    ensures Dispatch(GREETED, WRITE_A.req, Good("a")) ==
            Answer(On("a", Some(1), Batch(1, Some(0))), OK, [BeginBatch("a"), Execute("a", Batched(true))])
  {
    NamesAreValid();
    var b := GREETED.(db := Some(DbHandle("a", ReadWrite)), accessor := Some("a"));
    assert Bind(GREETED, Some("a"), Good("a")) == Bound(b);
    assert Write(b, "a", Good("a")).calls == [BeginBatch("a")] + [Execute("a", Batched(true))] + [];
  }

  lemma {:induction false} ReadElsewhere()
    ensures Dispatch(On("a", Some(1), Batch(1, Some(0))), READ_B.req, Good("b")) ==
            Answer(On("b", None, CLEAN), OK, [EndBatch("b"), Execute("b", Direct(true))])
  {
    NamesAreValid();
    var s := On("a", Some(1), Batch(1, Some(0)));
    var b := s.(db := Some(DbHandle("b", ReadWrite)), accessor := Some("b"));
    assert Bind(s, Some("b"), Good("b")) == Bound(b);
    assert Read(b, Query(0), "b", Good("b")).calls == [EndBatch("b")] + [Execute("b", Direct(true))];
  }

  lemma {:induction false} ReadBack()
    ensures Dispatch(On("b", None, CLEAN), READ_A.req, Good("a")) ==
            Answer(On("a", None, CLEAN), OK, [Execute("a", Direct(true))])
  {
    NamesAreValid();
    var s := On("b", None, CLEAN);
    var b := s.(db := Some(DbHandle("a", ReadWrite)), accessor := Some("a"));
    assert Bind(s, Some("a"), Good("a")) == Bound(b);
    assert Read(b, Query(0), "a", Good("a")).calls == [] + [Execute("a", Direct(true))];
  }

  lemma {:induction false} CallHere()
    ensures Dispatch(On("a", Some(1), Batch(1, Some(0))), CALL_A.req, Good("a")) ==
            Answer(On("a", None, Batch(1, Some(0))), OK, [ReadGraph("a", true)])
  {
    var s := On("a", Some(1), Batch(1, Some(0)));
    assert Bind(s, Some("a"), Good("a")) == Bound(s);
  }

  // ── A run that strands its batch ──────────────────────────────────────

  const LOST_B := Event(READ_B.req, Good("b").(acquired := None))
  const RESETS := Event(Reset, Good("a"))
  /** Let go of `a`, turned away by `b`, and a mutation to flush. */
  const STRANDED :=
    Session(true, true, Some("u"), None, None, None, Some(Pending([], 0, Some(1))), Batch(1, Some(0)))

  lemma {:induction false} LosesB()
    ensures Dispatch(On("a", Some(1), Batch(1, Some(0))), LOST_B.req, LOST_B.w) ==
            Step(STRANDED, [Failure(RegistryRefused)], [], Continue)
  {
    NamesAreValid();
    var s := On("a", Some(1), Batch(1, Some(0)));
    assert Bind(s, Some("b"), LOST_B.w) == Refused(s.(db := None, accessor := None), RegistryRefused);
  }

  lemma {:induction false} StrandedPanics()
    ensures AllClassified([RESETS] + []) && RunAll(STRANDED, [RESETS] + []).exit.Panic?
  {
    assert ([RESETS] + [])[0] == RESETS;
  }

  /** It does happen: authenticate, write to one database, name another that cannot
      be had, and RESET as the protocol asks. */
  lemma {:induction false} StrandingHappens()
    ensures var events := [HELLO] + ([WRITE_A] + ([LOST_B] + ([RESETS] + [])));
      AllClassified(events) && RunAll(FRESH, events).exit.Panic?
  {
    HelloGreets(Good("a"));
    FirstWrite();
    LosesB();
    StrandedPanics();
    RunFirst(On("a", Some(1), Batch(1, Some(0))), LOST_B, [RESETS] + []);
    RunFirst(GREETED, WRITE_A, [LOST_B] + ([RESETS] + []));
    RunFirst(FRESH, HELLO, [WRITE_A] + ([LOST_B] + ([RESETS] + [])));
  }
}
