/** Explicit transactions over whole runs: the order in which a session's calls
    reach the graph accessors. */
module Transactions {
  import opened Texts
  import opened Statements
  import opened BoltSession

  /** An observer of the call trace: the transaction it believes open, the ones it
      has ever seen, and whether the trace has been in order so far. */
  datatype View = View(current: Option<(DbName, TxnId)>, seen: set<(DbName, TxnId)>, inOrder: bool)

  const START := View(None, {}, true)

  function Broken(v: View): View {
    v.(inOrder := false)
  }

  /** BEGIN opens a new transaction when none is open; statements in a transaction,
      COMMIT and ROLLBACK belong to the one that is open; nothing else that reads
      or writes happens meanwhile. */
  function Observe(v: View, call: Call): View {
    if !v.inOrder then v
    else
      match call
      case BeginTxn(db, t) =>
        if v.current.None? && (db, t) !in v.seen then View(Some((db, t)), v.seen + {(db, t)}, true)
        else Broken(v)
      case ExecuteInTxn(db, t, _) => if v.current == Some((db, t)) then v else Broken(v)
      case CommitTxn(db, t) => if v.current == Some((db, t)) then v.(current := None) else Broken(v)
      case RollbackTxn(db, t) => if v.current == Some((db, t)) then v.(current := None) else Broken(v)
      case Execute(_, _) => if v.current.None? then v else Broken(v)
      case ReachSchema(_, _) => if v.current.None? then v else Broken(v)
      case ReadGraph(_, _) => if v.current.None? then v else Broken(v)
      case DispatchAdmin(_) => if v.current.None? then v else Broken(v)
      case BeginBatch(_) => v
      case EndBatch(_) => v
  }

  function ObserveAll(v: View, calls: seq<Call>): View
    decreases calls
  {
    if calls == [] then v else ObserveAll(Observe(v, calls[0]), calls[1..])
  }

  lemma {:induction false} ObserveConcat(v: View, a: seq<Call>, b: seq<Call>)
    ensures ObserveAll(v, a + b) == ObserveAll(ObserveAll(v, a), b)
    decreases a
  {
    if a == [] {
      assert a + b == b;
    } else {
      assert (a + b)[1..] == a[1..] + b;
      ObserveConcat(Observe(v, a[0]), a[1..], b);
    }
  }

  /** The session holds open exactly what the observer believes. */
  predicate Agrees(s: Session, v: View) {
    && v.inOrder
    && (s.txn.None? ==> v.current.None?)
    && (s.txn.Some? ==> s.accessor.Some? && v.current == Some((s.accessor.value, s.txn.value)))
  }

  /** The engine does not hand out a transaction id twice. */
  ghost predicate IsFresh(req: Request, w: World, v: View) {
    req.Begin? && w.begun.Some? ==> forall db: DbName :: (db, w.begun.value) !in v.seen
  }

  /** The RUN moves the session off its database while a transaction is open: it
      names another one, and that one is refused or really is another. */
  predicate Switches(s: Session, req: Request, w: World) {
    && !s.failed && req.Run? && s.authenticated && !req.exempt && s.txn.Some?
    && Rebinds(s, req.target)
    && (|| !IsValidDatabaseName(req.target.value)
        || w.acquired.None?
        || w.acquired.value.name != s.db.value.name)
  }

  // ── One step ──────────────────────────────────────────────────────────

  lemma {:induction false} ObserveBatchCalls(v: View, calls: seq<Call>)
    requires forall i :: 0 <= i < |calls| ==> calls[i].BeginBatch? || calls[i].EndBatch?
    ensures ObserveAll(v, calls) == v
    decreases calls
  {
    if calls != [] {
      ObserveBatchCalls(v, calls[1..]);
    }
  }

  /** An execution shows as one executor call among batch calls. */
  lemma {:induction false} ObserveExecution(s: Session, stmt: Statement, db: DbName, w: World, v: View)
    requires v.inOrder
    ensures ObserveAll(v, Read(s, stmt, db, w).calls) == Observe(v, Executor(s, db, Direct(w.executed.Some?)))
    ensures ObserveAll(v, Write(s, db, w).calls) == Observe(v, Executor(s, db, Batched(w.executed.Some?)))
  {
    ObserveRead(s, stmt, db, w, v);
    ObserveWrite(s, db, w, v);
  }

  lemma {:induction false} ObserveRead(s: Session, stmt: Statement, db: DbName, w: World, v: View)
    ensures ObserveAll(v, Read(s, stmt, db, w).calls) == Observe(v, Executor(s, db, Direct(w.executed.Some?)))
  {
    var e := [Executor(s, db, Direct(w.executed.Some?))];
    var flush := if s.batch.dirty > 0 then [EndBatch(db)] else [];
    ObserveConcat(v, flush, e);
    ObserveBatchCalls(v, flush);
    assert e[1..] == [];
  }

  lemma {:induction false} ObserveWrite(s: Session, db: DbName, w: World, v: View)
    ensures ObserveAll(v, Write(s, db, w).calls) == Observe(v, Executor(s, db, Batched(w.executed.Some?)))
  {
    var e := [Executor(s, db, Batched(w.executed.Some?))];
    assert e[1..] == [];
    var open := if s.txn.None? && s.batch.dirty == 0 then [BeginBatch(db)] else [];
    var auto := if ShouldAutoFlush(Dirtied(s, w), w.now) then [EndBatch(db), BeginBatch(db)] else [];
    ObserveConcat(v, open + e, auto);
    ObserveConcat(v, open, e);
    ObserveBatchCalls(v, open);
    ObserveBatchCalls(Observe(v, e[0]), auto);
  }

  lemma {:induction false} ObserveOne(v: View, call: Call)
    ensures ObserveAll(v, [call]) == Observe(v, call)
  {
    assert [call][1..] == [];
  }

  lemma {:induction false} ExecutionInOrder(s: Session, stmt: Statement, db: DbName, w: World, v: View)
    requires v.inOrder && s.accessor == Some(db)
    ensures Agrees(s, v) ==> ObserveAll(v, Read(s, stmt, db, w).calls) == v
    ensures Agrees(s, v) ==> ObserveAll(v, Write(s, db, w).calls) == v
    ensures ObserveAll(v, Read(s, stmt, db, w).calls).current == v.current
    ensures ObserveAll(v, Write(s, db, w).calls).current == v.current
  {
    ObserveExecution(s, stmt, db, w, v);
  }

  /** Nothing closes or opens a transaction, and what runs is in order if the session
      agrees with the observer. */
  predicate IsQuiet(s: Session, step: Step, v: View) {
    && step.next.txn == s.txn && step.next.accessor == s.accessor
    && (Agrees(s, v) ==> ObserveAll(v, step.calls) == v)
    && ObserveAll(v, step.calls).current == v.current
  }

  lemma {:induction false} OneCallIsQuiet(s: Session, step: Step, v: View, call: Call)
    requires v.inOrder && s.txn.None? && (call.ReachSchema? || call.ReadGraph? || call.DispatchAdmin?)
    requires step.calls == [call] && step.next.txn == s.txn && step.next.accessor == s.accessor
    ensures IsQuiet(s, step, v)
  {
    ObserveOne(v, call);
  }

  lemma {:induction false} PerformInOrder(s: Session, stmt: Statement, w: World, v: View)
    requires v.inOrder && Perform(s, stmt, w).exit.Continue?
    ensures IsQuiet(s, Perform(s, stmt, w), v)
  {
    var step := Perform(s, stmt, w);
    if step.calls == [] {
      assert step.next.txn == s.txn && step.next.accessor == s.accessor;
    } else if IsOutsideTxn(stmt) {
      OneCallIsQuiet(s, step, v, step.calls[0]);
    } else {
      ExecutionInOrder(s, stmt, s.accessor.value, w, v);
    }
  }

  lemma {:induction false} SubmitInOrder(s: Session, parsed: Option<Statement>, w: World, v: View)
    requires v.inOrder && Submit(s, parsed, w).exit.Continue?
    ensures IsQuiet(s, Submit(s, parsed, w), v)
  {
    if w.tokenTaken && w.paramsOk && parsed.Some? && w.substituted {
      PerformInOrder(s, parsed.value, w, v);
    }
  }

  lemma {:induction false} RunInOrder(s: Session, req: Request, w: World, v: View)
    requires Inv(s) && IsClassified(req) && Agrees(s, v) && req.Run? && !s.failed
    ensures var step := Dispatch(s, req, w);
      && (Agrees(step.next, ObserveAll(v, step.calls)) <==> !Switches(s, req, w))
  {
    if s.authenticated {
      BindKeepsInv(s, req.target, w);
      var b := if req.exempt then Bound(s) else Bind(s, req.target, w);
      if b.Bound? {
        SubmitKeepsInv(b.next, req.parsed, w);
        SubmitInOrder(b.next, req.parsed, w, v);
      }
    }
  }

  /** A step keeps session and trace in agreement if, and only if, it does not
      switch databases under an open transaction. */
  lemma {:induction false} StepInOrder(s: Session, req: Request, w: World, v: View)
    requires Inv(s) && IsClassified(req) && Agrees(s, v) && IsFresh(req, w, v)
    ensures var step := Dispatch(s, req, w);
      Agrees(step.next, ObserveAll(v, step.calls)) <==> !Switches(s, req, w)
  {
    var step := Dispatch(s, req, w);
    if req.Run? && !s.failed {
      RunInOrder(s, req, w, v);
    } else if req.Reset? {
      var undo :=
        if s.txn.Some? && s.accessor.Some? then [RollbackTxn(s.accessor.value, s.txn.value)] else [];
      var flush := if s.batch.dirty > 0 && s.accessor.Some? then [EndBatch(s.accessor.value)] else [];
      assert step.calls == undo + flush;
      ObserveConcat(v, undo, flush);
      assert undo != [] ==> undo[1..] == [];
      ObserveBatchCalls(ObserveAll(v, undo), flush);
    } else if step.calls != [] {
      assert step.calls[1..] == [];
    }
  }

  // ── Whole runs ────────────────────────────────────────────────────────

  /** Ids are fresh throughout and no transaction is switched away from. */
  ghost predicate KeepsDatabase(s: Session, v: View, events: seq<Event>)
    requires Inv(s) && AllClassified(events)
    decreases |events|
  {
    events == [] ||
    var (req, w) := (events[0].req, events[0].w);
    var step := Dispatch(s, req, w);
    && IsFresh(req, w, v)
    && !Switches(s, req, w)
    && (step.exit.Continue? ==>
          (StepKeepsInv(s, req, w); KeepsDatabase(step.next, ObserveAll(v, step.calls), events[1..])))
  }

  /** Every run of a session keeps its transactions in order. */
  lemma {:induction false} RunsAreInOrder(s: Session, v: View, events: seq<Event>)
    requires Inv(s) && AllClassified(events) && Agrees(s, v) && KeepsDatabase(s, v, events)
    ensures var r := RunAll(s, events); Agrees(r.final, ObserveAll(v, r.calls))
    decreases |events|
  {
    if events != [] {
      var (req, w) := (events[0].req, events[0].w);
      var step := Dispatch(s, req, w);
      StepInOrder(s, req, w, v);
      if step.exit.Continue? {
        StepKeepsInv(s, req, w);
        RunsAreInOrder(step.next, ObserveAll(v, step.calls), events[1..]);
        ObserveConcat(v, step.calls, RunAll(step.next, events[1..]).calls);
      }
    }
  }

  /** Where one transaction stands in the trace. */
  datatype Phase = Unborn | Open | Committed | RolledBack | Misused

  function PhaseAfter(p: Phase, id: (DbName, TxnId), call: Call): Phase {
    match call
    case BeginTxn(db, t) =>
      if (db, t) == id then (if p == Unborn then Open else Misused)
      else if p == Open then Misused else p
    case ExecuteInTxn(db, t, _) => if ((db, t) == id) == (p == Open) then p else Misused
    case CommitTxn(db, t) =>
      if ((db, t) == id) != (p == Open) then Misused else if p == Open then Committed else p
    case RollbackTxn(db, t) =>
      if ((db, t) == id) != (p == Open) then Misused else if p == Open then RolledBack else p
    case Execute(_, _) => if p == Open then Misused else p
    case ReachSchema(_, _) => if p == Open then Misused else p
    case ReadGraph(_, _) => if p == Open then Misused else p
    case DispatchAdmin(_) => if p == Open then Misused else p
    case BeginBatch(_) => p
    case EndBatch(_) => p
  }

  function PhaseAfterAll(p: Phase, id: (DbName, TxnId), calls: seq<Call>): Phase
    decreases calls
  {
    if calls == [] then p else PhaseAfterAll(PhaseAfter(p, id, calls[0]), id, calls[1..])
  }

  /** The phase is one that the observer can believe in. */
  predicate IsPhaseIn(v: View, id: (DbName, TxnId), p: Phase) {
    match p
    case Unborn => id !in v.seen && v.current != Some(id)
    case Open => v.current == Some(id) && id in v.seen
    case Committed => id in v.seen && v.current != Some(id)
    case RolledBack => id in v.seen && v.current != Some(id)
    case Misused => false
  }

  lemma {:induction false} BrokenStaysBroken(v: View, calls: seq<Call>)
    requires !v.inOrder
    ensures !ObserveAll(v, calls).inOrder
    decreases calls
  {
    if calls != [] {
      BrokenStaysBroken(v, calls[1..]);
    }
  }

  /** Seen from any one transaction, a trace in order is: nothing, then BEGIN, then
      only its own statements, then at most one COMMIT or ROLLBACK, then nothing. */
  lemma {:induction false} EveryTransactionLivesOnce(v: View, calls: seq<Call>, id: (DbName, TxnId), p: Phase)
    requires ObserveAll(v, calls).inOrder && (v.current.Some? ==> v.current.value in v.seen) && IsPhaseIn(v, id, p)
    ensures IsPhaseIn(ObserveAll(v, calls), id, PhaseAfterAll(p, id, calls))
    ensures PhaseAfterAll(p, id, calls) != Misused
    decreases calls
  {
    if calls != [] {
      var v' := Observe(v, calls[0]);
      if !v'.inOrder {
        BrokenStaysBroken(v', calls[1..]);
      } else {
        EveryTransactionLivesOnce(v', calls[1..], id, PhaseAfter(p, id, calls[0]));
      }
    }
  }

  /** From a fresh connection, for every transaction. */
  lemma {:induction false} TransactionsLiveOnce(events: seq<Event>, id: (DbName, TxnId))
    requires AllClassified(events) && KeepsDatabase(FRESH, START, events)
    ensures PhaseAfterAll(Unborn, id, RunAll(FRESH, events).calls) in {Unborn, Open, Committed, RolledBack}
  {
    RunsAreInOrder(FRESH, START, events);
    EveryTransactionLivesOnce(START, RunAll(FRESH, events).calls, id, Unborn);
  }

  // ── How a transaction ends ────────────────────────────────────────────

  predicate Holds(s: Session, id: (DbName, TxnId)) {
    s.accessor == Some(id.0) && s.txn == Some(id.1)
  }

  /** The request is one that ends a transaction, and it is not ignored. */
  predicate Ends(s: Session, req: Request) {
    req.Reset? || (!s.failed && (req.Commit? || req.Rollback?))
  }

  /** The first such request that the session serves while it holds the transaction. */
  ghost function Ending(s: Session, events: seq<Event>, id: (DbName, TxnId)): Option<Request>
    requires Inv(s) && AllClassified(events)
    decreases |events|
  {
    if events == [] then None
    else if Holds(s, id) && Ends(s, events[0].req) then Some(events[0].req)
    else if Dispatch(s, events[0].req, events[0].w).exit.Continue? then
      Ending(AfterEvent(s, events[0]), events[1..], id)
    else None
  }

  /** What such a request makes of the transaction. */
  function Verdict(ending: Request): Phase {
    if ending.Commit? then Committed else RolledBack
  }

  lemma {:induction false} PhaseConcat(p: Phase, id: (DbName, TxnId), a: seq<Call>, b: seq<Call>)
    ensures PhaseAfterAll(p, id, a + b) == PhaseAfterAll(PhaseAfterAll(p, id, a), id, b)
    decreases a
  {
    if a == [] {
      assert a + b == b;
    } else {
      assert (a + b)[1..] == a[1..] + b;
      PhaseConcat(PhaseAfter(p, id, a[0]), id, a[1..], b);
    }
  }

  lemma {:induction false} PhaseOne(p: Phase, id: (DbName, TxnId), call: Call)
    ensures PhaseAfterAll(p, id, [call]) == PhaseAfter(p, id, call)
  {
    assert [call][1..] == [];
  }

  lemma {:induction false} EndingStep(s: Session, req: Request, w: World, id: (DbName, TxnId))
    requires CursorOk(s) && Holds(s, id) && Ends(s, req)
    ensures PhaseAfterAll(Open, id, Dispatch(s, req, w).calls) == Verdict(req)
  {
    var calls := Dispatch(s, req, w).calls;
    if req.Commit? {
      assert calls == [CommitTxn(id.0, id.1)];
      PhaseOne(Open, id, calls[0]);
    } else {
      var undo := RollbackTxn(id.0, id.1);
      PhaseOne(Open, id, undo);
      PhaseOne(RolledBack, id, EndBatch(id.0));
      PhaseConcat(Open, id, [undo], [EndBatch(id.0)]);
      assert calls == [undo] || calls == [undo] + [EndBatch(id.0)];
    }
  }

  lemma {:induction false} IsEnded(p: Phase, id: (DbName, TxnId), call: Call)
    requires !call.CommitTxn? && !call.RollbackTxn?
    ensures var q := PhaseAfter(p, id, call); q == Misused || q == p || (p == Unborn && q == Open)
  {
  }

  lemma {:induction false} NoneEnds(p: Phase, id: (DbName, TxnId), calls: seq<Call>)
    requires EndNothing(calls)
    ensures var q := PhaseAfterAll(p, id, calls); q == Misused || q == p || (p == Unborn && q == Open)
    decreases calls
  {
    if calls != [] {
      IsEnded(p, id, calls[0]);
      NoneEnds(PhaseAfter(p, id, calls[0]), id, calls[1..]);
    }
  }

  ghost predicate EndNothing(calls: seq<Call>) {
    forall i :: 0 <= i < |calls| ==> !calls[i].CommitTxn? && !calls[i].RollbackTxn?
  }

  lemma {:induction false} PerformEndsNothing(s: Session, stmt: Statement, w: World)
    ensures EndNothing(Perform(s, stmt, w).calls)
  {
  }

  lemma {:induction false} RunEndsNothing(s: Session, req: Request, w: World)
    requires CursorOk(s) && req.Run?
    ensures EndNothing(Dispatch(s, req, w).calls)
  {
    DispatchOfRun(s, req, w);
    var b := if req.exempt then Bound(s) else Bind(s, req.target, w);
    if b.Bound? && req.parsed.Some? {
      PerformEndsNothing(b.next, req.parsed.value, w);
    }
  }

  /** Other requests end nothing. */
  lemma {:induction false} OthersEndNothing(s: Session, req: Request, w: World)
    requires CursorOk(s) && (!Ends(s, req) || s.txn.None?)
    ensures EndNothing(Dispatch(s, req, w).calls)
  {
    if req.Run? {
      RunEndsNothing(s, req, w);
    }
  }

  lemma {:induction false} OverIsOver(v: View, calls: seq<Call>, id: (DbName, TxnId), p: Phase)
    requires p == Committed || p == RolledBack
    ensures PhaseAfterAll(p, id, calls) == p || PhaseAfterAll(p, id, calls) == Misused
    decreases calls
  {
    if calls != [] {
      if PhaseAfter(p, id, calls[0]) == p {
        OverIsOver(v, calls[1..], id, p);
      } else {
        MisusedStays(id, calls[1..]);
      }
    }
  }

  lemma {:induction false} MisusedStays(id: (DbName, TxnId), calls: seq<Call>)
    ensures PhaseAfterAll(Misused, id, calls) == Misused
    decreases calls
  {
    if calls != [] {
      MisusedStays(id, calls[1..]);
    }
  }

  /** What the observer and the phase say of a session that agrees with them. */
  lemma {:induction false} OpenIsHeld(s: Session, v: View, id: (DbName, TxnId), p: Phase)
    requires Agrees(s, v) && IsPhaseIn(v, id, p)
    ensures p == Open <==> Holds(s, id)
  {
  }

  /** One request, seen from a transaction that has not ended before. */
  lemma {:induction false} StepDecides(s: Session, req: Request, w: World, v: View, id: (DbName, TxnId), p: Phase)
    requires Inv(s) && IsClassified(req) && Agrees(s, v) && IsFresh(req, w, v) && !Switches(s, req, w)
    requires (v.current.Some? ==> v.current.value in v.seen) && IsPhaseIn(v, id, p) && (p == Unborn || p == Open)
    ensures var step := Dispatch(s, req, w);
      var (u, q) := (ObserveAll(v, step.calls), PhaseAfterAll(p, id, step.calls));
      && Agrees(step.next, u) && IsPhaseIn(u, id, q) && (u.current.Some? ==> u.current.value in u.seen)
      && (if Holds(s, id) && Ends(s, req) then q == Verdict(req) else q == Unborn || q == Open)
  {
    var step := Dispatch(s, req, w);
    StepInOrder(s, req, w, v);
    EveryTransactionLivesOnce(v, step.calls, id, p);
    SeenIsKept(v, step.calls);
    OpenIsHeld(s, v, id, p);
    if Ends(s, req) && s.txn.Some? {
      if Holds(s, id) {
        EndingStep(s, req, w, id);
      } else {
        EndsAnother(s, req, w, id);
      }
    } else {
      OthersEndNothing(s, req, w);
      NoneEnds(p, id, step.calls);
    }
  }

  lemma {:induction false} SeenIsKept(v: View, calls: seq<Call>)
    requires v.current.Some? ==> v.current.value in v.seen
    ensures var u := ObserveAll(v, calls); u.current.Some? ==> u.current.value in u.seen
    decreases calls
  {
    if calls != [] {
      SeenIsKept(Observe(v, calls[0]), calls[1..]);
    }
  }

  /** The end of one transaction leaves another unborn. */
  lemma {:induction false} EndsAnother(s: Session, req: Request, w: World, id: (DbName, TxnId))
    requires CursorOk(s) && Ends(s, req) && s.txn.Some? && s.accessor.Some? && !Holds(s, id)
    ensures PhaseAfterAll(Unborn, id, Dispatch(s, req, w).calls) == Unborn
  {
    var (calls, db, t) := (Dispatch(s, req, w).calls, s.accessor.value, s.txn.value);
    if req.Commit? {
      assert calls == [CommitTxn(db, t)];
      PhaseOne(Unborn, id, calls[0]);
    } else {
      var undo := RollbackTxn(db, t);
      PhaseOne(Unborn, id, undo);
      PhaseOne(Unborn, id, EndBatch(db));
      PhaseConcat(Unborn, id, [undo], [EndBatch(db)]);
      assert calls == [undo] || calls == [undo] + [EndBatch(db)];
    }
  }

  lemma {:induction false} EndingDecides(s: Session, v: View, events: seq<Event>, id: (DbName, TxnId), p: Phase)
    requires Inv(s) && AllClassified(events) && Agrees(s, v) && KeepsDatabase(s, v, events)
    requires (v.current.Some? ==> v.current.value in v.seen) && IsPhaseIn(v, id, p) && (p == Unborn || p == Open)
    ensures var (q, ending) := (PhaseAfterAll(p, id, RunAll(s, events).calls), Ending(s, events, id));
      if ending.Some? then q == Verdict(ending.value) else q == Unborn || q == Open
    decreases |events|
  {
    if events != [] {
      var (e, step) := (events[0], Dispatch(s, events[0].req, events[0].w));
      StepDecides(s, e.req, e.w, v, id, p);
      if step.exit.Continue? {
        var (next, u, q) := (AfterEvent(s, e), ObserveAll(v, step.calls), PhaseAfterAll(p, id, step.calls));
        var rest := RunAll(next, events[1..]).calls;
        PhaseConcat(p, id, step.calls, rest);
        if Holds(s, id) && Ends(s, e.req) {
          RunsAreInOrder(next, u, events[1..]);
          EveryTransactionLivesOnce(u, rest, id, q);
          OverIsOver(u, rest, id, q);
        } else {
          EndingDecides(next, u, events[1..], id, q);
        }
      }
    }
  }

  /** Over every run a transaction is committed if and only if a COMMIT was the first of
      COMMIT, ROLLBACK and RESET to be served while the session held it, and rolled back
      if and only if it was one of the others. */
  lemma {:induction false} EndsAsTold(events: seq<Event>, id: (DbName, TxnId))
    requires AllClassified(events) && KeepsDatabase(FRESH, START, events)
    ensures var (q, ending) := (PhaseAfterAll(Unborn, id, RunAll(FRESH, events).calls), Ending(FRESH, events, id));
      && (q == Committed <==> ending == Some(Commit))
      && (q == RolledBack <==> ending == Some(Rollback) || ending == Some(Reset))
  {
    EndingDecides(FRESH, START, events, id, Unborn);
    EndingEnds(FRESH, events, id);
  }

  lemma {:induction false} EndingEnds(s: Session, events: seq<Event>, id: (DbName, TxnId))
    requires Inv(s) && AllClassified(events)
    ensures var ending := Ending(s, events, id);
      ending.Some? ==> ending.value == Commit || ending.value == Rollback || ending.value == Reset
    decreases |events|
  {
    if events != [] && !(Holds(s, id) && Ends(s, events[0].req)) {
      if Dispatch(s, events[0].req, events[0].w).exit.Continue? {
        EndingEnds(AfterEvent(s, events[0]), events[1..], id);
      }
    }
  }

  // ── … wherever the session moves ──────────────────────────────────────

  /** Some request is served while the session holds the transaction, and ends it so. */
  ghost predicate IsEndedAs(s: Session, events: seq<Event>, id: (DbName, TxnId), verdict: Phase)
    requires Inv(s) && AllClassified(events)
    decreases |events|
  {
    && events != []
    && var (req, w) := (events[0].req, events[0].w);
    && (|| (Holds(s, id) && Ends(s, req) && Verdict(req) == verdict)
        || (Dispatch(s, req, w).exit.Continue? && IsEndedAs(AfterEvent(s, events[0]), events[1..], id, verdict)))
  }

  lemma {:induction false} StepEndsExactly(s: Session, req: Request, w: World, id: (DbName, TxnId))
    requires CursorOk(s)
    ensures var calls := Dispatch(s, req, w).calls;
      && (CommitTxn(id.0, id.1) in calls <==> Holds(s, id) && Ends(s, req) && Verdict(req) == Committed)
      && (RollbackTxn(id.0, id.1) in calls <==> Holds(s, id) && Ends(s, req) && Verdict(req) == RolledBack)
  {
    if !Ends(s, req) || s.txn.None? {
      OthersEndNothing(s, req, w);
    }
  }

  /** Over every run, one that switches databases included: the engine is asked to commit
      a transaction on a database if and only if a COMMIT is served while the session
      holds it there, and to roll it back if and only if a ROLLBACK or a RESET is. */
  lemma {:induction false} RunEndsExactly(s: Session, events: seq<Event>, id: (DbName, TxnId))
    requires Inv(s) && AllClassified(events)
    ensures var calls := RunAll(s, events).calls;
      && (CommitTxn(id.0, id.1) in calls <==> IsEndedAs(s, events, id, Committed))
      && (RollbackTxn(id.0, id.1) in calls <==> IsEndedAs(s, events, id, RolledBack))
    decreases |events|
  {
    if events != [] {
      StepEndsExactly(s, events[0].req, events[0].w, id);
      if Dispatch(s, events[0].req, events[0].w).exit.Continue? {
        RunEndsExactly(AfterEvent(s, events[0]), events[1..], id);
      }
    }
  }

  /** The client is told: a COMMIT or ROLLBACK that ends a transaction is answered with
      SUCCESS if and only if the engine has finished it, and one that ends none fails. */
  lemma {:induction false} EndIsAnswered(s: Session, req: Request, w: World)
    requires Inv(s) && !s.failed && (req.Commit? || req.Rollback?)
    ensures var step := Dispatch(s, req, w);
      && step.next.txn.None?
      && (step.replies == [OK] <==> s.txn.Some? && w.finished)
      && (step.replies != [OK] <==> step.replies == [Failure(RequestInvalid)] && step.next.failed)
      && (s.txn.None? ==> step.calls == [])
  {
  }

  /** A session with an open transaction `t` on database `a`. */
  function OpenOn(a: DbName, t: TxnId): Session {
    FRESH.(authenticated := true, user := Some("u"), db := Some(DbHandle(a, ReadWrite)),
           accessor := Some(a), txn := Some(t))
  }

  /** The proviso is needed: a query that names another database, which is there,
      inside a transaction sends that transaction's id to the other database. */
  lemma {:induction false} SwitchingBreaksOrder(a: DbName, b: DbName, t: TxnId, w: World)
    requires a != b && IsValidDatabaseName(b)
    requires w.acquired == Some(DbHandle(b, ReadWrite)) && w.executed.Some?
    requires w.tokenTaken && w.paramsOk && w.substituted
    ensures var moved := Dispatch(OpenOn(a, t), Run(false, Some(Query(0)), Some(b)), w);
      && moved.calls == [ExecuteInTxn(b, t, Direct(true))]
      && !ObserveAll(View(Some((a, t)), {(a, t)}, true), moved.calls).inOrder
  {
    var s := OpenOn(a, t).(db := w.acquired, accessor := Some(b));
    assert Bind(OpenOn(a, t), Some(b), w) == Bound(s);
    assert Read(s, Query(0), b, w).calls == [] + [ExecuteInTxn(b, t, Direct(true))];
    ObserveOne(View(Some((a, t)), {(a, t)}, true), ExecuteInTxn(b, t, Direct(true)));
  }
}
