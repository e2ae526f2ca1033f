/** A client that reads what it wrote: which reads run ahead of the implicit batch, and
    which writes are passed over by its flush. */
module OwnWrites {
  import opened Texts
  import opened Statements
  import opened BoltSession
  import opened Batching
  import opened Traces

  // ── The property, on a trace ──────────────────────────────────────────

  predicate IsMutation(call: Call) {
    (call.Execute? || call.ExecuteInTxn?) && call.kind == Batched(true)
  }

  /** Queries, pipelines and procedures. */
  predicate IsRead(call: Call) {
    call.ReadGraph? || ((call.Execute? || call.ExecuteInTxn?) && call.kind.Direct?)
  }

  /** Between calls `i` and `j` the batch on `db` is ended. */
  predicate IsFlushedBetween(calls: seq<Call>, i: nat, j: nat, db: DbName)
    requires j <= |calls|
  {
    exists k :: i < k < j && calls[k] == EndBatch(db)
  }

  /** If call `j` reads the database on which call `i` wrote, the batch has been ended. */
  predicate IsSeen(calls: seq<Call>, i: nat, j: nat)
    requires i < j < |calls|
  {
    IsMutation(calls[i]) && IsRead(calls[j]) && calls[i].db == calls[j].db ==>
      IsFlushedBetween(calls, i, j, calls[i].db)
  }

  ghost predicate AllSeen(calls: seq<Call>) {
    forall i, j :: 0 <= i < j < |calls| ==> IsSeen(calls, i, j)
  }

  // ── … and by observation ──────────────────────────────────────────────

  /** The databases with a mutation not yet flushed, and whether none of them has been
      read behind the back of its batch. */
  datatype Watch = Watch(unflushed: set<DbName>, ok: bool)

  const CALM := Watch({}, true)

  function Watched(v: Watch, call: Call): Watch {
    if IsMutation(call) then v.(unflushed := v.unflushed + {call.db})
    else if IsRead(call) then v.(ok := v.ok && call.db !in v.unflushed)
    else if call.EndBatch? then v.(unflushed := v.unflushed - {call.db})
    else v
  }

  function WatchAll(v: Watch, calls: seq<Call>): Watch {
    Fold(Watched, v, calls)
  }

  lemma {:induction false} UnflushedExactly(calls: seq<Call>, n: nat, db: DbName)
    requires n <= |calls|
    ensures db in FoldTo(Watched, CALM, calls, n).unflushed <==>
      exists i :: 0 <= i < n && IsMutation(calls[i]) && calls[i].db == db && !IsFlushedBetween(calls, i, n, db)
  {
    if n > 0 {
      UnflushedExactly(calls, n - 1, db);
      var last := calls[n - 1];
      forall i | 0 <= i < n - 1
        ensures IsFlushedBetween(calls, i, n, db) <==> IsFlushedBetween(calls, i, n - 1, db) || last == EndBatch(db)
      {
        OneMoreCall(calls, i, n - 1, db);
      }
      assert !IsFlushedBetween(calls, n - 1, n, db);
    }
  }

  lemma {:induction false} OneMoreCall(calls: seq<Call>, i: nat, n: nat, db: DbName)
    requires i < n < |calls|
    ensures IsFlushedBetween(calls, i, n + 1, db) <==> IsFlushedBetween(calls, i, n, db) || calls[n] == EndBatch(db)
  {
  }

  /** No read up to `n` ran ahead of a write. */
  ghost predicate SeenUpTo(calls: seq<Call>, n: nat)
    requires n <= |calls|
  {
    forall i, j :: 0 <= i < j < n ==> IsSeen(calls, i, j)
  }

  lemma {:induction false} OkExactly(calls: seq<Call>, n: nat)
    requires n <= |calls|
    ensures FoldTo(Watched, CALM, calls, n).ok <==> SeenUpTo(calls, n)
  {
    if n > 0 {
      var m := n - 1;
      OkExactly(calls, m);
      LastIsSeenExactly(calls, m);
      assert SeenUpTo(calls, n) <==> SeenUpTo(calls, m) && forall i :: 0 <= i < m ==> IsSeen(calls, i, m);
    }
  }

  lemma {:induction false} LastIsSeenExactly(calls: seq<Call>, m: nat)
    requires m < |calls|
    ensures (forall i :: 0 <= i < m ==> IsSeen(calls, i, m)) <==>
            !(IsRead(calls[m]) && calls[m].db in FoldTo(Watched, CALM, calls, m).unflushed)
  {
    if IsRead(calls[m]) {
      var db := calls[m].db;
      UnflushedExactly(calls, m, db);
      if i :| 0 <= i < m && IsMutation(calls[i]) && calls[i].db == db && !IsFlushedBetween(calls, i, m, db) {
        assert !IsSeen(calls, i, m);
      }
    }
  }

  lemma {:induction false} AllSeenExactly(calls: seq<Call>)
    ensures WatchAll(CALM, calls).ok <==> AllSeen(calls)
  {
    OkExactly(calls, |calls|);
  }

  // ── Step by step ──────────────────────────────────────────────────────

  /** Performing the statement reads the graph and does not end the batch first. */
  predicate ReadsStraight(s: Session, stmt: Statement) {
    || (CourseOf(s, stmt).Looking? && stmt.Call?)
    || (CourseOf(s, stmt).Reading? && s.batch.dirty == 0)
  }

  /** The request reads a database with unflushed mutations, as a procedure or when
      nothing in the session says that there are any. */
  predicate ReadsBehind(s: Session, req: Request, w: World, v: Watch) {
    && Performs(s, req, w)
    && var t := BoundFor(s, req, w).next;
    && t.accessor.Some? && t.accessor.value in v.unflushed
    && ReadsStraight(t, req.parsed.value)
  }

  lemma {:induction false} PerformReadsExactly(s: Session, stmt: Statement, w: World, v: Watch)
    requires v.ok
    ensures WatchAll(v, Perform(s, stmt, w).calls).ok <==>
            !(s.accessor.Some? && s.accessor.value in v.unflushed && ReadsStraight(s, stmt))
  {
    PerformIs(s, stmt, w);
    match CourseOf(s, stmt)
    case Writing => FoldWrite(Watched, v, s, s.accessor.value, w);
    case Reading => FoldRead(Watched, v, s, stmt, s.accessor.value, w);
    case Looking => FoldOne(Watched, v, Look(s, stmt, w));
    case Nothing =>
  }

  /** A request reads behind a batch in these two cases and in no other. */
  lemma {:induction false} StepReadsExactly(s: Session, req: Request, w: World, v: Watch)
    requires Inv(s) && v.ok
    ensures WatchAll(v, Dispatch(s, req, w).calls).ok <==> !ReadsBehind(s, req, w, v)
  {
    if req.Run? {
      PerformsIs(s, req, w);
      if Performs(s, req, w) {
        PerformReadsExactly(BoundFor(s, req, w).next, req.parsed.value, w, v);
      }
    } else if req.Reset? {
      FoldReset(Watched, v, s);
    } else {
      var calls := Dispatch(s, req, w).calls;
      OthersDoLittle(s, req, w);
      if calls != [] {
        FoldOne(Watched, v, calls[0]);
      }
    }
  }

  ghost predicate NeverReadsBehind(s: Session, events: seq<Event>, v: Watch)
    requires Inv(s) && AllClassified(events)
    decreases |events|
  {
    events == [] ||
    var step := Dispatch(s, events[0].req, events[0].w);
    && !ReadsBehind(s, events[0].req, events[0].w, v)
    && (step.exit.Continue? ==> NeverReadsBehind(AfterEvent(s, events[0]), events[1..], WatchAll(v, step.calls)))
  }

  lemma {:induction false} BrokenStays(v: Watch, calls: seq<Call>, i: nat)
    requires !v.ok && i <= |calls|
    ensures !FoldTo(Watched, v, calls, i).ok
  {
    if i > 0 {
      BrokenStays(v, calls, i - 1);
    }
  }

  lemma {:induction false} RunReadsExactly(s: Session, events: seq<Event>, v: Watch)
    requires Inv(s) && AllClassified(events) && v.ok
    ensures WatchAll(v, RunAll(s, events).calls).ok <==> NeverReadsBehind(s, events, v)
    decreases |events|
  {
    if events != [] {
      var step := Dispatch(s, events[0].req, events[0].w);
      var seen := WatchAll(v, step.calls);
      RunTail(s, events);
      StepReadsExactly(s, events[0].req, events[0].w, v);
      if step.exit.Continue? {
        var rest := RunAll(AfterEvent(s, events[0]), events[1..]).calls;
        FoldConcat(Watched, v, step.calls, rest);
        if seen.ok {
          RunReadsExactly(AfterEvent(s, events[0]), events[1..], seen);
        } else {
          BrokenStays(seen, rest, |rest|);
        }
      }
    }
  }

  /** In every run from a fresh connection each read is preceded by the end of the batch
      that holds the writes before it, if and only if no request reads behind one. */
  lemma {:induction false} ReadsSeeOwnWritesExactly(events: seq<Event>)
    requires AllClassified(events)
    ensures AllSeen(RunAll(FRESH, events).calls) <==> NeverReadsBehind(FRESH, events, CALM)
  {
    RunReadsExactly(FRESH, events, CALM);
    AllSeenExactly(RunAll(FRESH, events).calls);
  }

  // ── What a client can look out for ────────────────────────────────────

  /** The RUN leaves the database of a dirty batch. */
  predicate MovesAway(s: Session, req: Request, w: World) {
    && !s.failed && req.Run? && s.authenticated && !req.exempt
    && Rebinds(s, req.target) && s.batch.dirty > 0
    && (|| !IsValidDatabaseName(req.target.value)
        || w.acquired.None?
        || w.acquired.value.name != s.db.value.name)
  }

  /** The RUN is a procedure call with a dirty batch. */
  predicate CallsDirty(s: Session, req: Request) {
    s.batch.dirty > 0 && req.Run? && req.parsed.Some? && req.parsed.value.Call?
  }

  /** The database whose mutations the session will flush. */
  function Holder(s: Session): set<DbName> {
    if s.batch.dirty > 0 && s.accessor.Some? then {s.accessor.value} else {}
  }

  /** Every unflushed mutation is in the session's hands. */
  predicate IsHeld(s: Session, v: Watch) {
    v.unflushed <= Holder(s)
  }

  lemma {:induction false} BindKeepsHolder(s: Session, req: Request, w: World)
    requires Inv(s) && req.Run? && !s.failed && s.authenticated
    ensures var t := BoundFor(s, req, w).next;
      && t.batch == s.batch
      && if MovesAway(s, req, w) then t.accessor != s.accessor else Holder(t) == Holder(s)
  {
  }

  lemma {:induction false} WriteHolds(s: Session, db: DbName, w: World, v: Watch)
    requires IsTidy(s.batch) && IsHeld(s, v) && s.accessor == Some(db)
    ensures IsHeld(Write(s, db, w).next, WatchAll(v, Write(s, db, w).calls))
  {
    DirtiedIsTidy(s, w);
    FoldWrite(Watched, v, s, db, w);
  }

  lemma {:induction false} ReadHolds(s: Session, stmt: Statement, db: DbName, w: World, v: Watch)
    requires IsHeld(s, v) && s.accessor == Some(db)
    ensures IsHeld(Read(s, stmt, db, w).next, WatchAll(v, Read(s, stmt, db, w).calls))
  {
    FoldRead(Watched, v, s, stmt, db, w);
  }

  lemma {:induction false} PerformHolds(s: Session, stmt: Statement, w: World, v: Watch)
    requires IsTidy(s.batch) && IsHeld(s, v)
    ensures IsHeld(Perform(s, stmt, w).next, WatchAll(v, Perform(s, stmt, w).calls))
  {
    PerformIs(s, stmt, w);
    match CourseOf(s, stmt)
    case Writing => WriteHolds(s, s.accessor.value, w, v);
    case Reading => ReadHolds(s, stmt, s.accessor.value, w, v);
    case Looking =>
      PerformKeepsAccessor(s, stmt, w);
      FoldOne(Watched, v, Look(s, stmt, w));
    case Nothing => PerformKeepsAccessor(s, stmt, w);
  }

  lemma {:induction false} RunHolds(s: Session, req: Request, w: World, v: Watch)
    requires Inv(s) && req.Run? && IsHeld(s, v) && !MovesAway(s, req, w)
    ensures IsHeld(Dispatch(s, req, w).next, WatchAll(v, Dispatch(s, req, w).calls))
  {
    if !s.failed && s.authenticated {
      PerformsIs(s, req, w);
      BindKeepsHolder(s, req, w);
      if Performs(s, req, w) {
        PerformHolds(BoundFor(s, req, w).next, req.parsed.value, w, v);
      } else {
        IdleKeepsAccessor(s, req, w);
      }
    }
  }

  lemma {:induction false} IdleKeepsAccessor(s: Session, req: Request, w: World)
    requires CursorOk(s) && req.Run? && !s.failed && s.authenticated && !Performs(s, req, w)
    ensures Dispatch(s, req, w).next.accessor == BoundFor(s, req, w).next.accessor
  {
  }

  lemma {:induction false} StepHolds(s: Session, req: Request, w: World, v: Watch)
    requires Inv(s) && IsHeld(s, v) && !MovesAway(s, req, w)
    ensures IsHeld(Dispatch(s, req, w).next, WatchAll(v, Dispatch(s, req, w).calls))
  {
    if req.Run? {
      RunHolds(s, req, w, v);
    } else if req.Reset? {
      FoldReset(Watched, v, s);
    } else {
      var calls := Dispatch(s, req, w).calls;
      OthersDoLittle(s, req, w);
      if calls != [] {
        FoldOne(Watched, v, calls[0]);
      }
    }
  }

  lemma {:induction false} OthersDoNotFlush(v: Watch, calls: seq<Call>, accessor: Option<DbName>, a: DbName, i: nat)
    requires AreOn(calls, accessor) && accessor != Some(a) && a in v.unflushed && i <= |calls|
    ensures a in FoldTo(Watched, v, calls, i).unflushed
  {
    if i > 0 {
      OthersDoNotFlush(v, calls, accessor, a, i - 1);
      assert calls[i - 1].DispatchAdmin? || Some(calls[i - 1].db) == accessor;
    }
  }

  lemma {:induction false} AccessorAfterRun(s: Session, req: Request, w: World)
    requires Inv(s) && req.Run? && !s.failed && s.authenticated
    ensures Dispatch(s, req, w).next.accessor == BoundFor(s, req, w).next.accessor
  {
    PerformsIs(s, req, w);
    if Performs(s, req, w) {
      PerformKeepsAccessor(BoundFor(s, req, w).next, req.parsed.value, w);
    } else {
      IdleKeepsAccessor(s, req, w);
    }
  }

  /** With a mutation unflushed on the bound database, a step keeps it in the session's
      hands if and only if it does not move away from that database. */
  lemma {:induction false} StepHoldsExactly(s: Session, req: Request, w: World, v: Watch)
    requires Inv(s) && IsHeld(s, v) && s.accessor.Some? && s.accessor.value in v.unflushed
    ensures var step := Dispatch(s, req, w); IsHeld(step.next, WatchAll(v, step.calls)) <==> !MovesAway(s, req, w)
  {
    if MovesAway(s, req, w) {
      var step := Dispatch(s, req, w);
      CallsStayOnDatabase(s, req, w);
      BindKeepsHolder(s, req, w);
      AccessorAfterRun(s, req, w);
      OthersDoNotFlush(v, step.calls, step.next.accessor, s.accessor.value, |step.calls|);
    } else {
      StepHolds(s, req, w, v);
    }
  }

  /** A session that holds every unflushed mutation and stays where it is reads behind
      its batch only by a procedure call. */
  lemma {:induction false} OnlyCallsReadBehind(s: Session, req: Request, w: World, v: Watch)
    requires Inv(s) && IsHeld(s, v) && !MovesAway(s, req, w)
    ensures ReadsBehind(s, req, w, v) <==>
      && Performs(s, req, w) && req.parsed.value.Call? && CourseOf(BoundFor(s, req, w).next, req.parsed.value).Looking?
      && s.accessor.Some? && s.accessor.value in v.unflushed
  {
    if req.Run? && !s.failed && s.authenticated {
      BindKeepsHolder(s, req, w);
    }
  }

  /** No request moves away from a dirty batch, and none is a procedure call with one. */
  ghost predicate IsCareful(s: Session, events: seq<Event>)
    requires Inv(s) && AllClassified(events)
    decreases |events|
  {
    events == [] ||
    (&& !MovesAway(s, events[0].req, events[0].w) && !CallsDirty(s, events[0].req)
     && (Dispatch(s, events[0].req, events[0].w).exit.Continue? ==> IsCareful(AfterEvent(s, events[0]), events[1..])))
  }

  lemma {:induction false} CarefulNeverReadsBehind(s: Session, events: seq<Event>, v: Watch)
    requires Inv(s) && AllClassified(events) && IsHeld(s, v) && IsCareful(s, events)
    ensures NeverReadsBehind(s, events, v)
    decreases |events|
  {
    if events != [] {
      var (e, step) := (events[0], Dispatch(s, events[0].req, events[0].w));
      OnlyCallsReadBehind(s, e.req, e.w, v);
      StepHolds(s, e.req, e.w, v);
      if step.exit.Continue? {
        CarefulNeverReadsBehind(AfterEvent(s, e), events[1..], WatchAll(v, step.calls));
      }
    }
  }

  /** A careful client reads its own writes. */
  lemma {:induction false} CarefulClientsReadTheirWrites(events: seq<Event>)
    requires AllClassified(events) && IsCareful(FRESH, events)
    ensures AllSeen(RunAll(FRESH, events).calls)
  {
    CarefulNeverReadsBehind(FRESH, events, CALM);
    ReadsSeeOwnWritesExactly(events);
  }

  // ── Writes that are passed over ───────────────────────────────────────

  /** There is a mutation to flush on `db`, and the session does not know. */
  predicate IsLost(s: Session, v: Watch, db: DbName) {
    db in v.unflushed && s.batch.dirty == 0
  }

  /** The database on which performing the statement ends the batch and forgets it. */
  function FlushOf(s: Session, stmt: Statement, w: World): Option<DbName> {
    match CourseOf(s, stmt)
    case Writing => if ShouldAutoFlush(Dirtied(s, w), w.now) && w.endBatchOk then s.accessor else None
    case Reading => s.accessor
    case Looking => None
    case Nothing => None
  }

  /** The same for a request that meets a dirty batch. */
  function FlushedBy(s: Session, req: Request, w: World): Option<DbName> {
    if req.Reset? then s.accessor
    else if Performs(s, req, w) then FlushOf(BoundFor(s, req, w).next, req.parsed.value, w)
    else None
  }

  lemma {:induction false} PerformLosesExactly(s: Session, stmt: Statement, w: World, v: Watch, db: DbName)
    requires IsTidy(s.batch) && s.batch.dirty > 0 && db in v.unflushed
    ensures var step := Perform(s, stmt, w);
      IsLost(step.next, WatchAll(v, step.calls), db) <==>
      FlushOf(s, stmt, w).Some? && FlushOf(s, stmt, w) != Some(db)
  {
    PerformIs(s, stmt, w);
    match CourseOf(s, stmt)
    case Writing =>
      DirtiedIsTidy(s, w);
      FoldWrite(Watched, v, s, s.accessor.value, w);
    case Reading => FoldRead(Watched, v, s, stmt, s.accessor.value, w);
    case Looking => FoldOne(Watched, v, Look(s, stmt, w));
    case Nothing =>
  }

  /** With the batch dirty, a request loses the mutations on `db` if and only if it
      flushes another database in their stead. */
  lemma {:induction false} StepLosesExactly(s: Session, req: Request, w: World, v: Watch, db: DbName)
    requires Inv(s) && s.batch.dirty > 0 && db in v.unflushed
    ensures var step := Dispatch(s, req, w);
      IsLost(step.next, WatchAll(v, step.calls), db) <==>
      FlushedBy(s, req, w).Some? && FlushedBy(s, req, w) != Some(db)
  {
    if req.Run? {
      PerformsIs(s, req, w);
      if Performs(s, req, w) {
        BindKeepsHolder(s, req, w);
        PerformLosesExactly(BoundFor(s, req, w).next, req.parsed.value, w, v, db);
      }
    } else if req.Reset? {
      FoldReset(Watched, v, s);
    } else {
      OthersDoLittle(s, req, w);
    }
  }

  // ── … over runs ───────────────────────────────────────────────────────

  /** The last mutation on a database: none to flush, to be flushed, or passed over by the
      end of a batch elsewhere. */
  datatype Fate = Safe | Held | Passed

  function Fated(db: DbName): (Fate, Call) -> Fate {
    (f: Fate, call: Call) =>
      if IsMutation(call) && call.db == db then Held
      else if call.EndBatch? then (if call.db == db then Safe else if f.Held? then Passed else f)
      else f
  }

  lemma {:induction false} PerformKeepsHeld(s: Session, stmt: Statement, w: World, db: DbName, f: Fate)
    requires IsTidy(s.batch) && (f.Held? ==> s.batch.dirty > 0)
    ensures var step := Perform(s, stmt, w); Fold(Fated(db), f, step.calls).Held? ==> step.next.batch.dirty > 0
  {
    PerformIs(s, stmt, w);
    match CourseOf(s, stmt)
    case Writing =>
      DirtiedIsTidy(s, w);
      FoldWrite(Fated(db), f, s, s.accessor.value, w);
    case Reading => FoldRead(Fated(db), f, s, stmt, s.accessor.value, w);
    case Looking => FoldOne(Fated(db), f, Look(s, stmt, w));
    case Nothing =>
  }

  lemma {:induction false} StepKeepsHeld(s: Session, req: Request, w: World, db: DbName, f: Fate)
    requires Inv(s) && (f.Held? ==> s.batch.dirty > 0)
    ensures var step := Dispatch(s, req, w);
      Fold(Fated(db), f, step.calls).Held? ==> step.next.batch.dirty > 0
  {
    if req.Run? {
      PerformsIs(s, req, w);
      if Performs(s, req, w) {
        BindKeepsHolder(s, req, w);
        PerformKeepsHeld(BoundFor(s, req, w).next, req.parsed.value, w, db, f);
      }
    } else if req.Reset? {
      FoldReset(Fated(db), f, s);
    } else {
      var calls := Dispatch(s, req, w).calls;
      OthersDoLittle(s, req, w);
      if calls != [] {
        FoldOne(Fated(db), f, calls[0]);
      }
    }
  }

  lemma {:induction false} RunKeepsHeld(s: Session, events: seq<Event>, db: DbName, f: Fate)
    requires Inv(s) && AllClassified(events) && (f.Held? ==> s.batch.dirty > 0)
    ensures var r := RunAll(s, events); Fold(Fated(db), f, r.calls).Held? ==> r.final.batch.dirty > 0
    decreases |events|
  {
    if events != [] {
      var (e, step) := (events[0], Dispatch(s, events[0].req, events[0].w));
      RunTail(s, events);
      StepKeepsHeld(s, e.req, e.w, db, f);
      if step.exit.Continue? {
        RunKeepsHeld(AfterEvent(s, e), events[1..], db, Fold(Fated(db), f, step.calls));
        FoldConcat(Fated(db), f, step.calls, RunAll(AfterEvent(s, e), events[1..]).calls);
      }
    }
  }

  /** Between calls `i` and `j` the batch of some database other than `db` is ended. */
  predicate IsPassedBetween(calls: seq<Call>, i: nat, j: nat, db: DbName)
    requires j <= |calls|
  {
    exists k :: i < k < j && calls[k].EndBatch? && calls[k].db != db
  }

  lemma {:induction false} StaysHeld(calls: seq<Call>, i: nat, j: nat, db: DbName, f: Fate)
    requires i < j <= |calls| && IsMutation(calls[i]) && calls[i].db == db
    requires !IsFlushedBetween(calls, i, j, db) && !IsPassedBetween(calls, i, j, db)
    ensures FoldTo(Fated(db), f, calls, j).Held?
    decreases j
  {
    if j > i + 1 {
      assert !calls[j - 1].EndBatch?;
      assert forall k :: i < k < j - 1 ==> !calls[k].EndBatch?;
      StaysHeld(calls, i, j - 1, db, f);
    }
  }

  /** Whenever the session's batch is clean, each write so far has been flushed on its
      database, or passed over by a flush of another one. */
  lemma {:induction false} WritesAreFlushedOrPassedOver(events: seq<Event>, i: nat)
    requires AllClassified(events) && RunAll(FRESH, events).final.batch.dirty == 0
    requires i < |RunAll(FRESH, events).calls| && IsMutation(RunAll(FRESH, events).calls[i])
    ensures var calls := RunAll(FRESH, events).calls;
      IsFlushedBetween(calls, i, |calls|, calls[i].db) || IsPassedBetween(calls, i, |calls|, calls[i].db)
  {
    var calls := RunAll(FRESH, events).calls;
    var db := calls[i].db;
    RunKeepsHeld(FRESH, events, db, Safe);
    if !IsFlushedBetween(calls, i, |calls|, db) && !IsPassedBetween(calls, i, |calls|, db) {
      StaysHeld(calls, i, |calls|, db, Safe);
    }
  }

  /** In particular when the connection has been closed. */
  lemma {:induction false} ClosedConnectionsAccountForWrites(events: seq<Event>, i: nat)
    requires AllClassified(events) && RunAll(FRESH, events).exit.Continue? && !IsStranded(RunAll(FRESH, events).final)
    requires i < |RunAll(FRESH, events).calls| && IsMutation(RunAll(FRESH, events).calls[i])
    ensures var calls := RunAll(FRESH, events).calls + Close(RunAll(FRESH, events).final).calls;
      IsFlushedBetween(calls, i, |calls|, calls[i].db) || IsPassedBetween(calls, i, |calls|, calls[i].db)
  {
    var r := RunAll(FRESH, events);
    var (calls, flush, db) := (r.calls + Close(r.final).calls, Close(r.final).calls, r.calls[i].db);
    RunKeepsHeld(FRESH, events, db, Safe);
    FoldConcat(Fated(db), Safe, r.calls, flush);
    var f := Fold(Fated(db), Safe, r.calls);
    if r.final.batch.dirty > 0 {
      assert flush == [EndBatch(r.final.accessor.value)];
      FoldOne(Fated(db), f, flush[0]);
    }
    assert calls[i] == r.calls[i];
    if !IsFlushedBetween(calls, i, |calls|, db) && !IsPassedBetween(calls, i, |calls|, db) {
      StaysHeld(calls, i, |calls|, db, Safe);
    }
  }

  // ── Runs that show it ─────────────────────────────────────────────────

  /** Write to `a`, read from `b`, read from `a`: the flush goes to `b`, and the read
      from `a` runs behind a batch on `a` that is still open. */
  lemma {:induction false} MovingHidesWrites()
    ensures var events := [HELLO] + ([WRITE_A] + ([READ_B] + ([READ_A] + [])));
      && AllClassified(events)
      && var r := RunAll(FRESH, events);
      && r.calls == [BeginBatch("a"), Execute("a", Batched(true)), EndBatch("b"), Execute("b", Direct(true)),
                     Execute("a", Direct(true))]
      && !IsSeen(r.calls, 1, 4)
      && r.final.batch == CLEAN
  {
    HelloGreets(Good("a"));
    FirstWrite();
    ReadElsewhere();
    ReadBack();
    RunFirst(On("b", None, CLEAN), READ_A, []);
    RunFirst(On("a", Some(1), Batch(1, Some(0))), READ_B, [READ_A] + []);
    RunFirst(GREETED, WRITE_A, [READ_B] + ([READ_A] + []));
    RunFirst(FRESH, HELLO, [WRITE_A] + ([READ_B] + ([READ_A] + [])));
  }

  /** Write to `a` and call a procedure there: it reads the graph with the batch open. */
  lemma {:induction false} CallsRunAhead()
    ensures var events := [HELLO] + ([WRITE_A] + ([CALL_A] + []));
      && AllClassified(events)
      && var r := RunAll(FRESH, events);
      && r.calls == [BeginBatch("a"), Execute("a", Batched(true)), ReadGraph("a", true)]
      && !IsSeen(r.calls, 1, 2)
  {
    HelloGreets(Good("a"));
    FirstWrite();
    CallHere();
    RunFirst(On("a", Some(1), Batch(1, Some(0))), CALL_A, []);
    RunFirst(GREETED, WRITE_A, [CALL_A] + []);
    RunFirst(FRESH, HELLO, [WRITE_A] + ([CALL_A] + []));
  }
}
