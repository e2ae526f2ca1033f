/** How old an implicit batch is, by the clock of the session. */
module BatchAge {
  import opened Texts
  import opened Statements
  import opened BoltSession
  import opened Batching
  import opened Traces

  /** Since when the batch has been dirty, told by the steps from clean to dirty alone. */
  function DirtySince(since: Option<nat>, before: Session, after: Session, now: nat): Option<nat> {
    if after.batch.dirty == 0 then None
    else if before.batch.dirty == 0 then Some(now)
    else since
  }

  ghost function DirtySinceAll(since: Option<nat>, s: Session, events: seq<Event>): Option<nat>
    requires Inv(s) && AllClassified(events)
    decreases |events|
  {
    if events == [] then since
    else
      var (e, next) := (events[0], Dispatch(s, events[0].req, events[0].w).next);
      var after := DirtySince(since, s, next, e.w.now);
      if Dispatch(s, e.req, e.w).exit.Continue? then DirtySinceAll(after, AfterEvent(s, e), events[1..]) else after
  }

  lemma {:induction false} PerformKeepsAge(s: Session, stmt: Statement, w: World)
    requires IsTidy(s.batch)
    ensures Perform(s, stmt, w).next.batch.firstAt == DirtySince(s.batch.firstAt, s, Perform(s, stmt, w).next, w.now)
  {
    PerformIs(s, stmt, w);
    if CourseOf(s, stmt).Writing? {
      DirtiedIsTidy(s, w);
    }
  }

  lemma {:induction false} StepKeepsAge(s: Session, req: Request, w: World)
    requires Inv(s)
    ensures var next := Dispatch(s, req, w).next; next.batch.firstAt == DirtySince(s.batch.firstAt, s, next, w.now)
  {
    if req.Run? {
      PerformsIs(s, req, w);
      if Performs(s, req, w) {
        BoundKeepsBatch(s, req, w);
        PerformKeepsAge(BoundFor(s, req, w).next, req.parsed.value, w);
      }
    } else if !req.Reset? {
      OthersDoLittle(s, req, w);
    }
  }

  lemma {:induction false} BoundKeepsBatch(s: Session, req: Request, w: World)
    requires req.Run?
    ensures BoundFor(s, req, w).next.batch == s.batch
  {
  }

  /** Over every run `first_dirty_at` is the time of the mutation with which the batch
      last became dirty. */
  lemma {:induction false} RunsKeepAge(s: Session, events: seq<Event>)
    requires Inv(s) && AllClassified(events)
    ensures RunAll(s, events).final.batch.firstAt == DirtySinceAll(s.batch.firstAt, s, events)
    decreases |events|
  {
    if events != [] {
      StepKeepsAge(s, events[0].req, events[0].w);
      if Dispatch(s, events[0].req, events[0].w).exit.Continue? {
        RunsKeepAge(AfterEvent(s, events[0]), events[1..]);
      }
    }
  }

  /** A batch that is still dirty behind a mutation, flushes succeeding, is smaller than
      500 and younger than 5000 ms. */
  lemma {:induction false} BatchesStayYoung(s: Session, req: Request, w: World)
    requires Inv(s) && Performs(s, req, w) && w.endBatchOk
    requires CourseOf(BoundFor(s, req, w).next, req.parsed.value).Writing?
    ensures var batch := Dispatch(s, req, w).next.batch;
      batch.dirty > 0 ==> batch.dirty < 500 && batch.firstAt.Some? && w.now - batch.firstAt.value < 5000
  {
    var t := BoundFor(s, req, w).next;
    PerformsIs(s, req, w);
    BoundKeepsBatch(s, req, w);
    PerformIs(t, req.parsed.value, w);
    DirtiedIsTidy(t, w);
  }

  /** A flush of one is not made before it is due. */
  lemma {:induction false} NoFlushTooSoon(s: Session, req: Request, w: World)
    requires Inv(s) && Performs(s, req, w) && w.executed.Some?
    requires CourseOf(BoundFor(s, req, w).next, req.parsed.value).Writing?
    requires s.batch.dirty + 1 < 500 && (s.batch.dirty > 0 ==> w.now - s.batch.firstAt.value < 5000)
    ensures var step := Dispatch(s, req, w);
      && step.next.batch.dirty == s.batch.dirty + 1
      && forall i :: 0 <= i < |step.calls| ==> !step.calls[i].EndBatch?
  {
    var t := BoundFor(s, req, w).next;
    PerformsIs(s, req, w);
    BoundKeepsBatch(s, req, w);
    PerformIs(t, req.parsed.value, w);
  }
}
