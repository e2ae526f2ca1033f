/** One Bolt session (`handler.rs`): what each request does to the session, what
    the client is told, and which calls reach the graph accessor.

    A step is a function of the session, the request and `World`, the answers the
    rest of the server gives while the request is served. Reaching for an accessor
    that is not bound makes the handler panic; the model keeps that outcome. */
module BoltSession {
  import opened Texts
  import opened Statements

  // ── Vocabulary ────────────────────────────────────────────────────────

  type Row = nat
  type Stats = nat
  type TxnId = nat
  type DbName = Text

  datatype Access = ReadOnly | ReadWrite

  datatype DbHandle = DbHandle(name: DbName, access: Access)

  /** `PendingResult` */
  datatype Pending = Pending(rows: seq<Row>, cursor: nat, stats: Option<Stats>)

  /** `BatchState` */
  datatype Batch = Batch(dirty: nat, firstAt: Option<nat>)

  const CLEAN := Batch(0, None)
  const AUTO_FLUSH_OPS: nat := 500
  const AUTO_FLUSH_WINDOW: nat := 5_000

  datatype Session = Session(
    failed: bool,
    authenticated: bool,
    user: Option<Text>,
    db: Option<DbHandle>,
    accessor: Option<DbName>,
    txn: Option<TxnId>,
    pending: Option<Pending>,
    batch: Batch)

  const FRESH := Session(false, false, None, None, None, None, None, CLEAN)

  /** A RUN carries its text already classified: `exempt` is the admin test made
      before binding, `parsed` the full parse (see `RunOf`). */
  datatype Request =
    | Undecodable
    | Hello(principal: Text)
    | Logon
    | Run(exempt: bool, parsed: Option<Statement>, target: Option<DbName>)
    | Pull(n: Option<int>)
    | Discard(n: Option<int>)
    | Reset
    | Goodbye
    | Begin
    | Commit
    | Rollback

  /** What the executor returned for a statement. */
  datatype Executed = Executed(rows: seq<Row>, stats: Stats)

  datatype World = World(
    authBlocked: bool,
    authOk: bool,
    acquired: Option<DbHandle>,
    tokenTaken: bool,
    paramsOk: bool,
    substituted: bool,
    executed: Option<Executed>,
    begun: Option<TxnId>,
    finished: bool,
    endBatchOk: bool,
    now: nat)

  datatype Code =
    | RequestInvalid | Unauthorized | AuthorizationExpired | DatabaseNotFound | RegistryRefused
    | TooManyRequests | TypeError | SyntaxError | ParameterError | NotSupported | Forbidden
    | ExecutionFailed | UnknownError

  datatype Reply =
    | Success(hasMore: Option<bool>, stats: Option<Stats>)
    | Failure(code: Code)
    | Ignored
    | Record(row: Row)

  /** How a statement is executed: a mutation inside the implicit batch, or anything
      else, for which the batch is flushed first. */
  datatype Kind = Batched(done: bool) | Direct(done: bool)

  /** Calls that leave the session, accessor calls tagged with the database; `done` is
      the outcome of a statement. */
  datatype Call =
    | BeginTxn(db: DbName, txn: TxnId)
    | CommitTxn(db: DbName, txn: TxnId)
    | RollbackTxn(db: DbName, txn: TxnId)
    | ExecuteInTxn(db: DbName, txn: TxnId, kind: Kind)
    | Execute(db: DbName, kind: Kind)
    | BeginBatch(db: DbName)
    | EndBatch(db: DbName)
    | ReachSchema(db: DbName, done: bool)
    | ReadGraph(db: DbName, done: bool)
    | DispatchAdmin(done: bool)

  datatype Exit = Continue | Leave | Panic

  datatype Step = Step(next: Session, replies: seq<Reply>, calls: seq<Call>, exit: Exit)

  function Answer(s: Session, reply: Reply, calls: seq<Call>): Step {
    Step(s, [reply], calls, Continue)
  }

  const OK := Success(None, None)

  function Fail(s: Session, code: Code, calls: seq<Call>): Step {
    Step(s.(failed := true), [Failure(code)], calls, Continue)
  }

  function Die(s: Session, calls: seq<Call>): Step {
    Step(s, [], calls, Panic)
  }

  // ── Binding a database ────────────────────────────────────────────────

  predicate IsNameUnit(c: char) {
    IsAlnum(c) || c == '_' || c == '-'
  }

  /** `is_valid_database_name` */
  predicate IsValidDatabaseName(name: DbName) {
    && name != "system" && name != "default"
    && 0 < |name| <= 63
    && (('a' <= name[0] <= 'z') || ('A' <= name[0] <= 'Z') || name[0] == '_')
    && forall i :: 1 <= i < |name| ==> IsNameUnit(name[i])
  }

  datatype Binding = Bound(next: Session) | Refused(next: Session, code: Code)

  /** `acquire_and_bind` */
  function Acquire(s: Session, name: DbName, w: World): Binding {
    if !IsValidDatabaseName(name) then Refused(s, DatabaseNotFound)
    else if w.acquired.Some? then
      Bound(s.(db := w.acquired, accessor := Some(w.acquired.value.name)))
    else Refused(s, RegistryRefused)
  }

  /** The RUN names a database other than the one that is bound. */
  predicate Rebinds(s: Session, target: Option<DbName>) {
    s.db.Some? && target.Some? && s.db.value.name != target.value
  }

  /** `try_bind_database`: a rebind lets go of the old database first. */
  function Bind(s: Session, target: Option<DbName>, w: World): Binding {
    if s.db.Some? then
      if !Rebinds(s, target) then Bound(s)
      else Acquire(s.(db := None, accessor := None), target.value, w)
    else if target.None? then Refused(s, DatabaseNotFound)
    else Acquire(s, target.value, w)
  }

  // ── Executing statements ──────────────────────────────────────────────

  /** `ast_is_mutating` */
  predicate IsMutating(stmt: Statement) {
    stmt.Mutation? || (stmt.Pipeline? && !stmt.readOnly)
  }

  predicate IsOutsideTxn(stmt: Statement) {
    stmt.Ddl? || stmt.Call? || stmt.Admin?
  }

  function MarkDirty(b: Batch, now: nat): Batch {
    Batch(b.dirty + 1, if b.firstAt.None? then Some(now) else b.firstAt)
  }

  predicate ShouldAutoFlush(b: Batch, now: nat) {
    || b.dirty >= AUTO_FLUSH_OPS
    || (b.firstAt.Some? && now - b.firstAt.value >= AUTO_FLUSH_WINDOW)
  }

  /** The executor call of the four `dispatch_*` routers. */
  function Executor(s: Session, db: DbName, kind: Kind): Call {
    if s.txn.Some? then ExecuteInTxn(db, s.txn.value, kind) else Execute(db, kind)
  }

  /** End of a RUN that reached an executor. */
  function Conclude(s: Session, executed: Option<Executed>, stats: Option<Stats>, calls: seq<Call>): Step {
    if executed.Some? then
      Answer(s.(pending := Some(Pending(executed.value.rows, 0, stats))), OK, calls)
    else Fail(s, ExecutionFailed, calls)
  }

  /** Query, pipeline and constant RETURN: flush the implicit batch, then read. */
  function Read(s: Session, stmt: Statement, db: DbName, w: World): Step {
    var flush := if s.batch.dirty > 0 then [EndBatch(db)] else [];
    var stats :=
      if stmt.Pipeline? && w.executed.Some? && w.executed.value.rows == [] then Some(w.executed.value.stats)
      else None;
    Conclude(if s.batch.dirty > 0 then s.(batch := CLEAN) else s,
             w.executed, stats, flush + [Executor(s, db, Direct(w.executed.Some?))])
  }

  /** The batch once a mutation has run, before any auto-flush. */
  function Dirtied(s: Session, w: World): Batch {
    if w.executed.Some? then MarkDirty(s.batch, w.now) else s.batch
  }

  /** A mutation: open a batch if none is, run, and flush a full or old batch. */
  function Write(s: Session, db: DbName, w: World): Step {
    var open := if s.txn.None? && s.batch.dirty == 0 then [BeginBatch(db)] else [];
    var dirtied := Dirtied(s, w);
    var flush := ShouldAutoFlush(dirtied, w.now);
    var batch := if flush && w.endBatchOk then CLEAN else dirtied;
    var stats := if w.executed.Some? then Some(w.executed.value.stats) else None;
    Conclude(s.(batch := batch), w.executed, stats,
             open + [Executor(s, db, Batched(w.executed.Some?))] + if flush then [EndBatch(db), BeginBatch(db)] else [])
  }

  /** `dispatch_ddl` and the read-only procedures of `dispatch_call`. */
  function Introspect(s: Session, stmt: Statement, db: DbName, w: World): Step {
    Conclude(s, w.executed, None, [Reached(stmt, db, w.executed.Some?)])
  }

  /** DDL reaches for the schema, a procedure reads the graph. */
  function Reached(stmt: Statement, db: DbName, done: bool): Call {
    if stmt.Call? then ReadGraph(db, done) else ReachSchema(db, done)
  }

  function Administer(s: Session, w: World): Step {
    if s.user.None? then Fail(s, Unauthorized, [])
    else Conclude(s, w.executed, None, [DispatchAdmin(w.executed.Some?)])
  }

  /** From a parsed statement on. */
  function Perform(s: Session, stmt: Statement, w: World): Step {
    if s.txn.Some? && IsOutsideTxn(stmt) then Fail(s, NotSupported, [])
    else if stmt.Admin? then Administer(s, w)
    else if stmt.Call? && stmt.registryScoped then Fail(s, UnknownError, [])
    else if s.accessor.None? then Die(s, [])
    else if stmt.Ddl? || stmt.Call? then Introspect(s, stmt, s.accessor.value, w)
    else if s.db.Some? && s.db.value.access.ReadOnly? && IsMutating(stmt) then Fail(s, Forbidden, [])
    else if stmt.Mutation? then Write(s, s.accessor.value, w)
    else Read(s, stmt, s.accessor.value, w)
  }

  /** From a bound session on. */
  function Submit(s: Session, parsed: Option<Statement>, w: World): Step {
    if !w.tokenTaken then Fail(s, TooManyRequests, [])
    else if !w.paramsOk then Fail(s, TypeError, [])
    else if parsed.None? then Fail(s, SyntaxError, [])
    else if !w.substituted then Fail(s, ParameterError, [])
    else Perform(s, parsed.value, w)
  }

  /** `handle_run` */
  function OnRun(s: Session, exempt: bool, parsed: Option<Statement>, target: Option<DbName>, w: World): Step {
    if !s.authenticated then Fail(s, RequestInvalid, [])
    else
      var b := if exempt then Bound(s) else Bind(s, target, w);
      if b.Refused? then Fail(b.next, b.code, []) else Submit(b.next, parsed, w)
  }

  // ── The other handlers ────────────────────────────────────────────────

  /** `handle_hello` */
  function OnHello(s: Session, principal: Text, w: World): Step {
    if w.authBlocked then Fail(s, AuthorizationExpired, [])
    else if !w.authOk then Fail(s, Unauthorized, [])
    else Answer(s.(authenticated := true, user := Some(Lower(Trim(principal)))), OK, [])
  }

  /** `read_n`: absent means all. */
  function ReadN(n: Option<int>): int {
    if n.Some? then n.value else -1
  }

  /** What a PULL or DISCARD of `n` takes from a pending result. */
  datatype Fetch = Fetch(pending: Option<Pending>, slice: seq<Row>, hasMore: bool, stats: Option<Stats>)

  function FetchRows(p: Pending, n: int): Fetch
    requires p.cursor <= |p.rows|
  {
    var remaining := |p.rows| - p.cursor;
    var take := if n < 0 || n > remaining then remaining else n;
    var end := p.cursor + take;
    var slice := p.rows[p.cursor..end];
    if end < |p.rows| then Fetch(Some(p.(cursor := end)), slice, true, None)
    else Fetch(None, slice, false, p.stats)
  }

  function Records(rows: seq<Row>): (r: seq<Reply>)
    ensures |r| == |rows| && forall i :: 0 <= i < |rows| ==> r[i] == Record(rows[i])
  {
    seq(|rows|, i requires 0 <= i < |rows| => Record(rows[i]))
  }

  /** `handle_pull` (`serve`) and `handle_discard`. */
  function OnFetch(s: Session, n: Option<int>, serve: bool, w: World): Step
    requires s.pending.Some? ==> s.pending.value.cursor <= |s.pending.value.rows|
  {
    if !w.tokenTaken then Fail(s, TooManyRequests, [])
    else if s.pending.None? then Answer(s, Success(Some(false), None), [])
    else
      var f := FetchRows(s.pending.value, ReadN(n));
      Step(s.(pending := f.pending),
           (if serve then Records(f.slice) else []) + [Success(Some(f.hasMore), f.stats)], [], Continue)
  }

  /** `flush_pending_batch` */
  function Flush(s: Session, calls: seq<Call>): Step {
    if s.batch.dirty == 0 then Step(s, [], calls, Continue)
    else if s.accessor.None? then Die(s, calls)
    else Step(s.(batch := CLEAN), [], calls + [EndBatch(s.accessor.value)], Continue)
  }

  /** `handle_reset` */
  function OnReset(s: Session): Step {
    var undo :=
      if s.txn.Some? && s.accessor.Some? then [RollbackTxn(s.accessor.value, s.txn.value)] else [];
    var f := Flush(s.(failed := false, pending := None, txn := None), undo);
    if f.exit.Panic? then f else f.(replies := [OK])
  }

  /** `handle_begin` */
  function OnBegin(s: Session, w: World): Step {
    if s.txn.Some? then Fail(s, RequestInvalid, [])
    else if s.accessor.None? then Fail(s, RequestInvalid, [])
    else if w.begun.None? then Fail(s, RequestInvalid, [])
    else Answer(s.(txn := w.begun), OK, [BeginTxn(s.accessor.value, w.begun.value)])
  }

  /** `finish_txn` */
  function OnFinish(s: Session, commit: bool, w: World): Step {
    if s.txn.None? then Fail(s, RequestInvalid, [])
    else
      var t := s.(txn := None);
      if s.accessor.None? then Die(t, [])
      else
        var (db, id) := (s.accessor.value, s.txn.value);
        var call := if commit then CommitTxn(db, id) else RollbackTxn(db, id);
        if w.finished then Answer(t, OK, [call]) else Fail(t, RequestInvalid, [call])
  }

  // ── Dispatch ──────────────────────────────────────────────────────────

  predicate CursorOk(s: Session) {
    s.pending.Some? ==> s.pending.value.cursor <= |s.pending.value.rows|
  }

  /** `dispatch` and `dispatch_request` */
  function Dispatch(s: Session, req: Request, w: World): Step
    requires CursorOk(s)
  {
    if req.Undecodable? then Fail(s, RequestInvalid, [])
    else if req.Goodbye? then Step(s, [], [], Leave)
    else if req.Reset? then OnReset(s)
    else if s.failed then Answer(s, Ignored, [])
    else
      match req
      case Hello(principal) => OnHello(s, principal, w)
      case Logon => Answer(s, OK, [])
      case Run(exempt, parsed, target) => OnRun(s, exempt, parsed, target, w)
      case Pull(n) => OnFetch(s, n, true, w)
      case Discard(n) => OnFetch(s, n, false, w)
      case Begin => OnBegin(s, w)
      case Commit => OnFinish(s, true, w)
      case Rollback => OnFinish(s, false, w)
  }

  lemma {:induction false} DispatchOfRun(s: Session, run: Request, w: World)
    requires CursorOk(s) && run.Run?
    ensures Dispatch(s, run, w) ==
            if s.failed then Answer(s, Ignored, []) else OnRun(s, run.exempt, run.parsed, run.target, w)
  {
  }

  /** What `run` does once the loop has ended. */
  function Close(s: Session): Step {
    Flush(s, [])
  }

  // ── Invariants ────────────────────────────────────────────────────────

  /** Exempt from binding means administrative. */
  predicate IsClassified(req: Request) {
    req.Run? && req.exempt ==> req.parsed.Some? && req.parsed.value.Admin?
  }

  /** The request of a RUN with this text. */
  ghost function RunOf(g: Grammar, query: Text, target: Option<DbName>): Request {
    Run(TryParseAdmin(g, query).Parsed?, ParseSpec(g, query, CypherCompat), target)
  }

  lemma {:induction false} RunsAreClassified(g: Grammar, query: Text, target: Option<DbName>)
    ensures IsClassified(RunOf(g, query, target))
  {
    if TryParseAdmin(g, query).Parsed? {
      AdminStaysAdmin(g, query, CypherCompat);
    }
  }

  /** Handle and accessor are bound together, to the same database, and only after
      authentication. */
  predicate IsBoundProperly(s: Session) {
    && (s.db.Some? <==> s.accessor.Some?)
    && (s.db.Some? ==> s.db.value.name == s.accessor.value)
    && (s.accessor.Some? ==> s.authenticated)
    && (s.authenticated <==> s.user.Some?)
  }

  /** A session that is not FAILED has an accessor for what it holds open. */
  predicate IsBacked(s: Session) {
    !s.failed && (s.txn.Some? || s.batch.dirty > 0) ==> s.accessor.Some?
  }

  predicate IsTidy(b: Batch) {
    b.dirty > 0 <==> b.firstAt.Some?
  }

  predicate Inv(s: Session) {
    && CursorOk(s)
    && IsBoundProperly(s)
    && IsBacked(s)
    && IsTidy(s.batch)
  }

  /** A batch that is dirty while no accessor is bound. */
  predicate IsStranded(s: Session) {
    s.batch.dirty > 0 && s.accessor.None?
  }

  /** The RUN lets go of the bound database and does not get another, with
      mutations still unflushed. */
  predicate Strands(s: Session, req: Request, w: World) {
    && !s.failed && req.Run? && s.authenticated && !req.exempt
    && Rebinds(s, req.target)
    && s.batch.dirty > 0
    && (!IsValidDatabaseName(req.target.value) || w.acquired.None?)
  }

  lemma {:induction false} BindKeepsInv(s: Session, target: Option<DbName>, w: World)
    requires Inv(s) && s.authenticated
    ensures var b := Bind(s, target, w);
      && (b.Bound? ==> Inv(b.next) && b.next.accessor.Some?)
      && (b.Refused? ==> Inv(b.next.(failed := true)))
      && b.next.authenticated
  {
  }

  lemma {:induction false} ExecutionKeepsInv(s: Session, stmt: Statement, db: DbName, w: World)
    requires Inv(s) && s.accessor == Some(db)
    ensures Inv(Read(s, stmt, db, w).next) && Inv(Write(s, db, w).next) && Inv(Introspect(s, stmt, db, w).next)
    ensures Read(s, stmt, db, w).exit.Continue? && Write(s, db, w).exit.Continue?
  {
  }

  lemma {:induction false} PerformKeepsInv(s: Session, stmt: Statement, w: World)
    requires Inv(s) && (s.accessor.None? ==> stmt.Admin?)
    ensures var step := Perform(s, stmt, w); step.exit.Continue? && Inv(step.next)
  {
    if s.accessor.Some? {
      ExecutionKeepsInv(s, stmt, s.accessor.value, w);
    }
  }

  lemma {:induction false} SubmitKeepsInv(s: Session, parsed: Option<Statement>, w: World)
    requires Inv(s) && (s.accessor.None? ==> parsed.Some? && parsed.value.Admin?)
    ensures var step := Submit(s, parsed, w); step.exit.Continue? && Inv(step.next)
  {
    if parsed.Some? {
      PerformKeepsInv(s, parsed.value, w);
    }
  }

  /** Every request the handler survives keeps the invariant. */
  lemma {:induction false} StepKeepsInv(s: Session, req: Request, w: World)
    requires Inv(s) && IsClassified(req) && !Dispatch(s, req, w).exit.Panic?
    ensures Inv(Dispatch(s, req, w).next)
  {
    if req.Run? {
      RunKeepsInv(s, req, w);
    } else if req.Pull? || req.Discard? {
      FetchKeepsInv(s, req.n, req.Pull?, w);
    } else if req.Reset? {
      ResetLeavesInv(s);
    }
  }

  lemma {:induction false} RunKeepsInv(s: Session, req: Request, w: World)
    requires Inv(s) && req.Run? && IsClassified(req)
    ensures Inv(Dispatch(s, req, w).next)
  {
    DispatchOfRun(s, req, w);
    if !s.failed && s.authenticated {
      BindKeepsInv(s, req.target, w);
      var b := if req.exempt then Bound(s) else Bind(s, req.target, w);
      if b.Bound? {
        SubmitKeepsInv(b.next, req.parsed, w);
      }
    }
  }

  lemma {:induction false} FetchKeepsInv(s: Session, n: Option<int>, serve: bool, w: World)
    requires Inv(s)
    ensures Inv(OnFetch(s, n, serve, w).next)
  {
  }

  lemma {:induction false} ResetLeavesInv(s: Session)
    requires Inv(s) && !OnReset(s).exit.Panic?
    ensures Inv(OnReset(s).next)
  {
  }

  /** The handler reaches for a missing accessor in one case only: RESET with a
      stranded batch. In particular no executor, COMMIT or ROLLBACK ever does. */
  lemma {:induction false} PanicsExactly(s: Session, req: Request, w: World)
    requires Inv(s) && IsClassified(req)
    ensures Dispatch(s, req, w).exit.Panic? <==> req.Reset? && IsStranded(s)
    ensures Close(s).exit.Panic? <==> IsStranded(s)
  {
    if req.Run? && !s.failed && s.authenticated {
      BindKeepsInv(s, req.target, w);
      var b := if req.exempt then Bound(s) else Bind(s, req.target, w);
      if b.Bound? {
        SubmitKeepsInv(b.next, req.parsed, w);
      }
    }
  }

  lemma {:induction false} PerformKeepsAccessor(s: Session, stmt: Statement, w: World)
    ensures var next := Perform(s, stmt, w).next;
      next.accessor == s.accessor && (s.accessor.None? ==> next.batch == s.batch)
  {
  }

  lemma {:induction false} SubmitStrandsNothing(s: Session, parsed: Option<Statement>, w: World)
    ensures IsStranded(Submit(s, parsed, w).next) <==> IsStranded(s)
  {
    if parsed.Some? {
      PerformKeepsAccessor(s, parsed.value, w);
    }
  }

  lemma {:induction false} BindStrandsExactly(s: Session, target: Option<DbName>, w: World)
    requires Inv(s) && !s.failed
    ensures IsStranded(Bind(s, target, w).next) <==>
            s.batch.dirty > 0 && Rebinds(s, target) && (!IsValidDatabaseName(target.value) || w.acquired.None?)
  {
  }

  /** And a batch is stranded in one way only. */
  lemma {:induction false} StrandsExactly(s: Session, req: Request, w: World)
    requires Inv(s) && IsClassified(req) && Dispatch(s, req, w).exit.Continue?
    ensures IsStranded(Dispatch(s, req, w).next) <==>
            Strands(s, req, w) || (IsStranded(s) && !req.Reset?)
  {
    if req.Run? && !s.failed && s.authenticated {
      DispatchOfRun(s, req, w);
      BindStrandsExactly(s, req.target, w);
      var b := if req.exempt then Bound(s) else Bind(s, req.target, w);
      if b.Bound? {
        SubmitStrandsNothing(b.next, req.parsed, w);
      }
    }
  }

  // ── Who is asked ──────────────────────────────────────────────────────

  /** Every call is for the database that is bound afterwards. */
  predicate AreOn(calls: seq<Call>, accessor: Option<DbName>) {
    forall i :: 0 <= i < |calls| ==> calls[i].DispatchAdmin? || Some(calls[i].db) == accessor
  }

  lemma {:induction false} PerformAsksBound(s: Session, stmt: Statement, w: World)
    ensures AreOn(Perform(s, stmt, w).calls, s.accessor)
    ensures Perform(s, stmt, w).next.accessor == s.accessor
  {
  }

  lemma {:induction false} RunAsksBound(s: Session, exempt: bool, parsed: Option<Statement>, target: Option<DbName>,
                                        w: World)
    ensures var step := OnRun(s, exempt, parsed, target, w);
      AreOn(step.calls, step.next.accessor) && (step.calls != [] ==> s.authenticated)
  {
    var b := if exempt then Bound(s) else Bind(s, target, w);
    if b.Bound? && parsed.Some? {
      PerformAsksBound(b.next, parsed.value, w);
    }
  }

  /** Nothing leaves the session before authentication, and nothing reaches a database
      other than the one the session is bound to. */
  lemma {:induction false} CallsStayOnDatabase(s: Session, req: Request, w: World)
    requires Inv(s)
    ensures var step := Dispatch(s, req, w);
      AreOn(step.calls, step.next.accessor) && (step.calls != [] ==> s.authenticated)
  {
    if req.Run? && !s.failed {
      DispatchOfRun(s, req, w);
      RunAsksBound(s, req.exempt, req.parsed, req.target, w);
    }
  }

  /** A read-only handle lets no mutation through, in a transaction or out of one. */
  lemma {:induction false} ReadOnlyRefusesWrites(s: Session, stmt: Statement, w: World)
    requires IsBoundProperly(s) && s.db.Some? && s.db.value.access.ReadOnly? && IsMutating(stmt)
    ensures var step := Submit(s, Some(stmt), w);
      step.calls == [] && step.next == s.(failed := true) && step.replies[0].Failure?
  {
  }

  // ── Reply discipline ──────────────────────────────────────────────────

  predicate IsSummary(r: Reply) {
    !r.Record?
  }

  /** Exactly one summary, last; records only in front of a PULL's SUCCESS. */
  predicate IsAnswered(req: Request, replies: seq<Reply>) {
    && |replies| > 0
    && IsSummary(replies[|replies| - 1])
    && (forall i :: 0 <= i < |replies| - 1 ==> replies[i].Record?)
    && (|replies| > 1 ==> req.Pull? && replies[|replies| - 1].Success?)
  }

  /** One SUCCESS or FAILURE, and the session FAILED just in the latter case. */
  predicate IsPlain(step: Step) {
    && |step.replies| == 1
    && (step.replies[0].Success? || step.replies[0].Failure?)
    && (step.replies[0].Failure? <==> step.next.failed)
  }

  lemma {:induction false} PerformIsPlain(s: Session, stmt: Statement, w: World)
    requires !s.failed
    ensures var step := Perform(s, stmt, w);
      if step.exit.Continue? then IsPlain(step) else step.exit.Panic? && step.replies == []
  {
  }

  lemma {:induction false} RunIsPlain(s: Session, exempt: bool, parsed: Option<Statement>, target: Option<DbName>,
                                      w: World)
    requires !s.failed
    ensures var step := OnRun(s, exempt, parsed, target, w);
      if step.exit.Continue? then IsPlain(step) else step.exit.Panic? && step.replies == []
  {
    var b := if exempt then Bound(s) else Bind(s, target, w);
    if b.Bound? && parsed.Some? {
      PerformIsPlain(b.next, parsed.value, w);
    }
  }

  lemma {:induction false} EveryRequestIsAnsweredOnce(s: Session, req: Request, w: World)
    requires Inv(s)
    ensures var step := Dispatch(s, req, w);
      match step.exit
      case Continue => IsAnswered(req, step.replies)
      case Leave => req.Goodbye? && step.replies == [] && step.next == s
      case Panic => step.replies == []
  {
    if req.Run? && !s.failed {
      RunIsPlain(s, req.exempt, req.parsed, req.target, w);
    }
  }

  /** FAILED is entered with a FAILURE and by nothing else, left by RESET and by
      nothing else, and an ignored request changes nothing. */
  predicate IsDisciplined(s: Session, req: Request, step: Step) {
    && |step.replies| > 0
    && var summary := step.replies[|step.replies| - 1];
    && (summary.Failure? ==> step.next.failed)
    && (!s.failed && step.next.failed ==> summary.Failure?)
    && (s.failed && !step.next.failed ==> req.Reset?)
    && (req.Reset? ==> !step.next.failed && summary == OK)
    && (summary.Ignored? <==> s.failed && !req.Reset? && !req.Undecodable?)
    && (summary.Ignored? ==> step.next == s && step.calls == [])
  }

  lemma {:induction false} FetchIsDisciplined(s: Session, n: Option<int>, serve: bool, w: World)
    requires CursorOk(s) && !s.failed
    ensures var step := OnFetch(s, n, serve, w);
      var summary := step.replies[|step.replies| - 1];
      && |step.replies| > 0
      && (summary.Success? || summary.Failure?)
      && (summary.Failure? <==> step.next.failed)
  {
  }

  lemma {:induction false} FailedStateDiscipline(s: Session, req: Request, w: World)
    requires Inv(s) && Dispatch(s, req, w).exit.Continue?
    ensures IsDisciplined(s, req, Dispatch(s, req, w))
  {
    if req.Run? && !s.failed {
      RunIsDisciplined(s, req, w);
    } else if (req.Pull? || req.Discard?) && !s.failed {
      FetchStepIsDisciplined(s, req, w);
    } else {
      OthersAreDisciplined(s, req, w);
    }
  }

  lemma {:induction false} PlainIsDisciplined(s: Session, req: Request, step: Step)
    requires !s.failed && req.Run? && IsPlain(step)
    ensures IsDisciplined(s, req, step)
  {
  }

  lemma {:induction false} RunIsDisciplined(s: Session, req: Request, w: World)
    requires Inv(s) && !s.failed && req.Run? && Dispatch(s, req, w).exit.Continue?
    ensures IsDisciplined(s, req, Dispatch(s, req, w))
  {
    var step := OnRun(s, req.exempt, req.parsed, req.target, w);
    DispatchOfRun(s, req, w);
    RunIsPlain(s, req.exempt, req.parsed, req.target, w);
    PlainIsDisciplined(s, req, step);
  }

  lemma {:induction false} FetchStepIsDisciplined(s: Session, req: Request, w: World)
    requires CursorOk(s) && !s.failed && (req.Pull? || req.Discard?)
    ensures IsDisciplined(s, req, Dispatch(s, req, w))
  {
    FetchIsDisciplined(s, req.n, req.Pull?, w);
    assert Dispatch(s, req, w) == OnFetch(s, req.n, req.Pull?, w);
  }

  lemma {:induction false} OthersAreDisciplined(s: Session, req: Request, w: World)
    requires CursorOk(s) && Dispatch(s, req, w).exit.Continue?
    requires s.failed || !(req.Run? || req.Pull? || req.Discard?)
    ensures IsDisciplined(s, req, Dispatch(s, req, w))
  {
  }

  // ── Whole runs ────────────────────────────────────────────────────────

  datatype Event = Event(req: Request, w: World)

  /** A session after a run; the run stops at GOODBYE or at a panic. */
  datatype Run = Done(final: Session, replies: seq<Reply>, calls: seq<Call>, exit: Exit)

  ghost predicate AllClassified(events: seq<Event>) {
    forall i :: 0 <= i < |events| ==> IsClassified(events[i].req)
  }

  /** The session after an event the handler survives. */
  ghost function AfterEvent(s: Session, e: Event): (t: Session)
    requires Inv(s) && IsClassified(e.req) && !Dispatch(s, e.req, e.w).exit.Panic?
    ensures t == Dispatch(s, e.req, e.w).next && Inv(t)
  {
    StepKeepsInv(s, e.req, e.w);
    Dispatch(s, e.req, e.w).next
  }

  ghost function RunAll(s: Session, events: seq<Event>): (r: Run)
    requires Inv(s) && AllClassified(events)
    ensures !r.exit.Panic? ==> Inv(r.final)
    decreases |events|
  {
    if events == [] then Done(s, [], [], Continue)
    else
      var step := Dispatch(s, events[0].req, events[0].w);
      if step.exit.Panic? then Done(step.next, step.replies, step.calls, Panic)
      else if step.exit.Leave? then Done(AfterEvent(s, events[0]), step.replies, step.calls, Leave)
      else
        var r := RunAll(AfterEvent(s, events[0]), events[1..]);
        Done(r.final, step.replies + r.replies, step.calls + r.calls, r.exit)
  }

  /** Replies that are not records. */
  function Summaries(replies: seq<Reply>): nat {
    if replies == [] then 0
    else
      var k := |replies| - 1;
      Summaries(replies[..k]) + if IsSummary(replies[k]) then 1 else 0
  }

  lemma {:induction false} SummariesConcat(a: seq<Reply>, b: seq<Reply>)
    ensures Summaries(a + b) == Summaries(a) + Summaries(b)
    decreases |b|
  {
    if b == [] {
      assert a + b == a;
    } else {
      var k := |b| - 1;
      assert (a + b)[..|a| + k] == a + b[..k];
      SummariesConcat(a, b[..k]);
    }
  }

  lemma {:induction false} OnlyRecords(replies: seq<Reply>)
    requires forall i :: 0 <= i < |replies| ==> replies[i].Record?
    ensures Summaries(replies) == 0
    decreases |replies|
  {
    if replies != [] {
      OnlyRecords(replies[..|replies| - 1]);
    }
  }

  lemma {:induction false} AnsweredOnce(req: Request, replies: seq<Reply>)
    requires IsAnswered(req, replies)
    ensures Summaries(replies) == 1
  {
    OnlyRecords(replies[..|replies| - 1]);
  }

  /** As many summaries are sent as requests are served. */
  lemma {:induction false} RunsAnswerEveryRequest(s: Session, events: seq<Event>)
    requires Inv(s) && AllClassified(events) && RunAll(s, events).exit.Continue?
    ensures Summaries(RunAll(s, events).replies) == |events|
    decreases |events|
  {
    if events != [] {
      var (req, w) := (events[0].req, events[0].w);
      var step := Dispatch(s, req, w);
      EveryRequestIsAnsweredOnce(s, req, w);
      AnsweredOnce(req, step.replies);
      StepKeepsInv(s, req, w);
      RunsAnswerEveryRequest(step.next, events[1..]);
      SummariesConcat(step.replies, RunAll(step.next, events[1..]).replies);
    }
  }

  /** Some request of the run strands the batch. */
  ghost predicate RunStrands(s: Session, events: seq<Event>)
    requires Inv(s) && AllClassified(events)
    decreases |events|
  {
    && events != []
    && var step := Dispatch(s, events[0].req, events[0].w);
    && (|| Strands(s, events[0].req, events[0].w)
        || (step.exit.Continue? &&
            (StepKeepsInv(s, events[0].req, events[0].w); RunStrands(step.next, events[1..]))))
  }

  /** A run that strands no batch never panics, neither on the way nor when the
      connection is closed. */
  lemma {:induction false} RunsDoNotPanic(s: Session, events: seq<Event>)
    requires Inv(s) && !IsStranded(s) && AllClassified(events)
    requires !RunStrands(s, events)
    ensures !RunAll(s, events).exit.Panic?
    ensures !IsStranded(RunAll(s, events).final)
    ensures !Close(RunAll(s, events).final).exit.Panic?
    decreases |events|
  {
    CloseIsCalm(RunAll(s, events).final);
    if events != [] {
      StepIsCalm(s, events[0]);
      if Dispatch(s, events[0].req, events[0].w).exit.Continue? {
        RunsDoNotPanic(AfterEvent(s, events[0]), events[1..]);
      }
    }
  }

  lemma {:induction false} CloseIsCalm(s: Session)
    ensures !IsStranded(s) ==> !Close(s).exit.Panic?
  {
  }

  lemma {:induction false} StepIsCalm(s: Session, e: Event)
    requires Inv(s) && !IsStranded(s) && IsClassified(e.req) && !Strands(s, e.req, e.w)
    ensures var step := Dispatch(s, e.req, e.w); !step.exit.Panic? && !IsStranded(step.next)
  {
    PanicsExactly(s, e.req, e.w);
    if Dispatch(s, e.req, e.w).exit.Continue? {
      StrandsExactly(s, e.req, e.w);
    }
  }

  /** A stranded batch cannot be rescued: whatever follows, the handler panics, at
      the next RESET or when the connection closes. */
  lemma {:induction false} StrandedBatchIsLost(s: Session, events: seq<Event>)
    requires Inv(s) && IsStranded(s) && AllClassified(events)
    ensures var r := RunAll(s, events); r.exit.Panic? || Close(r.final).exit.Panic?
    decreases |events|
  {
    if events != [] {
      var (req, w) := (events[0].req, events[0].w);
      PanicsExactly(s, req, w);
      var step := Dispatch(s, req, w);
      if step.exit.Continue? {
        StepKeepsInv(s, req, w);
        StrandsExactly(s, req, w);
        StrandedBatchIsLost(step.next, events[1..]);
      }
    }
  }

  function SomeWorld(): World {
    World(false, true, None, true, true, true, None, None, true, true, 0)
  }
}
