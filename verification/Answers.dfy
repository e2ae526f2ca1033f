/** Which error a RUN is answered with, and what its success leaves to be fetched. */
module Answers {
  import opened Texts
  import opened Statements
  import opened BoltSession

  // ── The checks, in order ──────────────────────────────────────────────

  datatype Check = Check(fails: bool, code: Code)

  /** The RUN has to find itself a database. */
  predicate NeedsDatabase(s: Session, run: Request)
    requires run.Run?
  {
    !run.exempt && (s.db.None? || Rebinds(s, run.target))
  }

  /** The statement, which later checks only look at if there is one, is of a kind. */
  predicate IsOf(parsed: Option<Statement>, kind: Statement -> bool) {
    parsed.Some? && kind(parsed.value)
  }

  /** The handle through which the statement is to be executed. */
  function HandleFor(s: Session, run: Request, w: World): Option<DbHandle>
    requires run.Run?
  {
    if NeedsDatabase(s, run) then w.acquired else s.db
  }

  function Checks(s: Session, run: Request, w: World): seq<Check>
    requires run.Run?
  {
    var handle := HandleFor(s, run, w);
    [Check(!s.authenticated, RequestInvalid),
     Check(NeedsDatabase(s, run) && run.target.None?, DatabaseNotFound),
     Check(NeedsDatabase(s, run) && run.target.Some? && !IsValidDatabaseName(run.target.value), DatabaseNotFound),
     Check(NeedsDatabase(s, run) && w.acquired.None?, RegistryRefused),
     Check(!w.tokenTaken, TooManyRequests),
     Check(!w.paramsOk, TypeError),
     Check(run.parsed.None?, SyntaxError),
     Check(!w.substituted, ParameterError),
     Check(s.txn.Some? && IsOf(run.parsed, IsOutsideTxn), NotSupported),
     Check(s.user.None? && IsOf(run.parsed, (stmt: Statement) => stmt.Admin?), Unauthorized),
     Check(IsOf(run.parsed, (stmt: Statement) => stmt.Call? && stmt.registryScoped), UnknownError),
     Check(handle.Some? && handle.value.access.ReadOnly? && IsOf(run.parsed, IsMutating), Forbidden),
     Check(w.executed.None?, ExecutionFailed)]
  }

  /** The code of the first check that fails. */
  function FirstFault(checks: seq<Check>): Option<Code> {
    if checks == [] then None else if checks[0].fails then Some(checks[0].code) else FirstFault(checks[1..])
  }

  function AnswerTo(fault: Option<Code>): seq<Reply> {
    if fault.Some? then [Failure(fault.value)] else [OK]
  }

  lemma {:induction false} FaultOf(a: Check, rest: seq<Check>)
    ensures FirstFault([a] + rest) == if a.fails then Some(a.code) else FirstFault(rest)
  {
    assert ([a] + rest)[1..] == rest;
  }

  lemma {:induction false} FaultOfFour(a: Check, b: Check, c: Check, d: Check)
    ensures FirstFault([a, b, c, d]) ==
            if a.fails then Some(a.code) else if b.fails then Some(b.code)
            else if c.fails then Some(c.code) else if d.fails then Some(d.code) else None
  {
    assert [a, b, c, d][1..] == [b, c, d] && [b, c, d][1..] == [c, d] && [c, d][1..] == [d] && [d][1..] == [];
    assert FirstFault([d]) == if d.fails then Some(d.code) else None;
    assert FirstFault([c, d]) == if c.fails then Some(c.code) else FirstFault([d]);
  }

  /** … cut where the database is bound. */
  function BindingChecks(s: Session, run: Request, w: World): seq<Check>
    requires run.Run?
  {
    Checks(s, run, w)[..4]
  }

  lemma {:induction false} FaultConcat(a: seq<Check>, b: seq<Check>)
    ensures FirstFault(a + b) == if FirstFault(a).Some? then FirstFault(a) else FirstFault(b)
    decreases |a|
  {
    if a == [] {
      assert a + b == b;
    } else {
      assert (a + b)[1..] == a[1..] + b;
      FaultConcat(a[1..], b);
    }
  }

  lemma {:induction false} BindFaults(s: Session, run: Request, w: World)
    requires run.Run? && s.authenticated && (s.db.None? ==> s.accessor.None?)
    ensures var b := if run.exempt then Bound(s) else Bind(s, run.target, w);
      && FirstFault(BindingChecks(s, run, w)) == (if b.Refused? then Some(b.code) else None)
      && b.next.txn == s.txn && b.next.user == s.user && b.next.failed == s.failed
      && (b.Bound? ==> b.next.db == HandleFor(s, run, w))
  {
    var c := Checks(s, run, w);
    assert BindingChecks(s, run, w) == [c[0], c[1], c[2], c[3]];
    FaultOfFour(c[0], c[1], c[2], c[3]);
  }

  lemma {:induction false} PerformFaults(s: Session, stmt: Statement, w: World, c: seq<Check>)
    requires !s.failed && Perform(s, stmt, w).exit.Continue?
    requires c == [Check(s.txn.Some? && IsOutsideTxn(stmt), NotSupported),
                   Check(s.user.None? && stmt.Admin?, Unauthorized),
                   Check(stmt.Call? && stmt.registryScoped, UnknownError),
                   Check(s.db.Some? && s.db.value.access.ReadOnly? && IsMutating(stmt), Forbidden),
                   Check(w.executed.None?, ExecutionFailed)]
    ensures Perform(s, stmt, w).replies == AnswerTo(FirstFault(c))
  {
    assert c == [c[0]] + [c[1], c[2], c[3], c[4]];
    FaultOf(c[0], [c[1], c[2], c[3], c[4]]);
    FaultOfFour(c[1], c[2], c[3], c[4]);
  }

  lemma {:induction false} SubmitFaults(s: Session, parsed: Option<Statement>, w: World, c: seq<Check>, d: seq<Check>)
    requires !s.failed && Submit(s, parsed, w).exit.Continue?
    requires c == [Check(!w.tokenTaken, TooManyRequests), Check(!w.paramsOk, TypeError),
                   Check(parsed.None?, SyntaxError), Check(!w.substituted, ParameterError)]
    requires parsed.Some? && w.tokenTaken && w.paramsOk && w.substituted ==>
      Perform(s, parsed.value, w).replies == AnswerTo(FirstFault(d))
    ensures Submit(s, parsed, w).replies == AnswerTo(FirstFault(c + d))
  {
    FaultConcat(c, d);
    FaultOfFour(c[0], c[1], c[2], c[3]);
  }

  /** From a bound session on. */
  lemma {:induction false} BoundFaults(s: Session, run: Request, w: World, t: Session, c: seq<Check>)
    requires run.Run? && c == Checks(s, run, w) && !t.failed && t.txn == s.txn && t.user == s.user
    requires t.db == HandleFor(s, run, w) && Submit(t, run.parsed, w).exit.Continue?
    ensures Submit(t, run.parsed, w).replies == AnswerTo(FirstFault(c[4..8] + c[8..]))
  {
    if run.parsed.Some? && w.tokenTaken && w.paramsOk && w.substituted {
      PerformFaults(t, run.parsed.value, w, c[8..]);
    }
    SubmitFaults(t, run.parsed, w, c[4..8], c[8..]);
  }

  lemma {:induction false} RunSubmits(s: Session, run: Request, w: World, t: Session)
    requires Inv(s) && !s.failed && run.Run? && IsClassified(run) && s.authenticated
    requires (if run.exempt then Bound(s) else Bind(s, run.target, w)) == Bound(t)
    ensures Dispatch(s, run, w) == Submit(t, run.parsed, w) && Submit(t, run.parsed, w).exit.Continue?
  {
    DispatchOfRun(s, run, w);
    PanicsExactly(s, run, w);
    RunIsPlain(s, run.exempt, run.parsed, run.target, w);
  }

  lemma {:induction false} ChecksSplit(c: seq<Check>)
    requires |c| == 13
    ensures FirstFault(c) == if FirstFault(c[..4]).Some? then FirstFault(c[..4]) else FirstFault(c[4..8] + c[8..])
    ensures c[0].fails ==> FirstFault(c[..4]) == Some(c[0].code)
  {
    assert c == c[..4] + (c[4..8] + c[8..]);
    FaultConcat(c[..4], c[4..8] + c[8..]);
  }

  /** A RUN is answered with the code of the first check it fails, and with SUCCESS if it
      fails none. */
  lemma {:induction false} RunIsAnswered(s: Session, run: Request, w: World)
    requires Inv(s) && !s.failed && run.Run? && IsClassified(run)
    ensures Dispatch(s, run, w).replies == AnswerTo(FirstFault(Checks(s, run, w)))
  {
    var c := Checks(s, run, w);
    var b := if run.exempt then Bound(s) else Bind(s, run.target, w);
    ChecksSplit(c);
    if !s.authenticated {
      DispatchOfRun(s, run, w);
    } else {
      BindFaults(s, run, w);
      if b.Bound? {
        RunSubmits(s, run, w, b.next);
        BoundFaults(s, run, w, b.next, c);
      } else {
        DispatchOfRun(s, run, w);
      }
    }
  }

  /** BEGIN succeeds if and only if none is open, a database is bound, and the engine
      begins one, which is then the session's. */
  lemma {:induction false} BeginIsAnswered(s: Session, w: World)
    requires CursorOk(s) && !s.failed
    ensures var step := Dispatch(s, Begin, w);
      && (step.replies == [OK] <==> s.txn.None? && s.accessor.Some? && w.begun.Some?)
      && (step.replies == [OK] ==> step.next.txn == w.begun && !step.next.failed)
      && (step.replies != [OK] ==>
            step.replies == [Failure(RequestInvalid)] && step.next.txn == s.txn && step.calls == [])
  {
  }

  /** PULL and DISCARD are refused exactly if the limiter refuses them, the result then being
      kept for later; otherwise has_more tells whether any of it is left. */
  lemma {:induction false} FetchIsAnswered(s: Session, req: Request, w: World)
    requires CursorOk(s) && !s.failed && (req.Pull? || req.Discard?)
    ensures var step := Dispatch(s, req, w);
      && step.replies != [] && step.calls == []
      && var last := step.replies[|step.replies| - 1];
      && (last.Failure? <==> !w.tokenTaken)
      && (last.Failure? ==> step.replies == [Failure(TooManyRequests)] && step.next == s.(failed := true))
      && (last.Success? ==> last.hasMore == Some(step.next.pending.Some?) && !step.next.failed)
      && (req.Discard? ==> |step.replies| == 1)
  {
  }

  /** LOGON is a formality; what cannot be decoded fails the session, FAILED or not. */
  lemma {:induction false} FormalitiesAreAnswered(s: Session, w: World)
    requires CursorOk(s)
    ensures Dispatch(s, Logon, w) == Step(s, [if s.failed then Ignored else OK], [], Continue)
    ensures Dispatch(s, Undecodable, w) == Step(s.(failed := true), [Failure(RequestInvalid)], [], Continue)
  {
  }

  /** Names that the server keeps for itself, that are too long or that do not begin with
      a letter are no database names; hyphens and digits may follow. */
  lemma {:induction false} NameSamples(long: DbName)
    requires |long| == 64
    ensures !IsValidDatabaseName("system") && !IsValidDatabaseName("default") && !IsValidDatabaseName("")
    ensures !IsValidDatabaseName("1a") && !IsValidDatabaseName("-a") && !IsValidDatabaseName("a.b")
    ensures !IsValidDatabaseName(long) && IsValidDatabaseName("_a-1") && IsValidDatabaseName("Z")
  {
    assert "a.b"[1] == '.' && !IsNameUnit('.');
  }

  // ── What is left to be fetched ────────────────────────────────────────

  /** The rows of the last RUN that succeeded, unless a RESET has come since. */
  ghost function LastResult(last: Option<seq<Row>>, s: Session, events: seq<Event>): Option<seq<Row>>
    requires Inv(s) && AllClassified(events)
    decreases |events|
  {
    if events == [] then last
    else
      var (e, step) := (events[0], Dispatch(s, events[0].req, events[0].w));
      var now :=
        if e.req.Reset? then None
        else if e.req.Run? && step.replies == [OK] && e.w.executed.Some? then Some(e.w.executed.value.rows)
        else last;
      if step.exit.Continue? then LastResult(now, AfterEvent(s, e), events[1..]) else now
  }

  /** What can be fetched is of that result. */
  predicate IsFrom(s: Session, last: Option<seq<Row>>) {
    s.pending.Some? ==> last == Some(s.pending.value.rows)
  }

  lemma {:induction false} PerformLeaves(s: Session, stmt: Statement, w: World)
    requires !s.failed
    ensures var step := Perform(s, stmt, w);
      if step.replies == [OK] then
        w.executed.Some? && step.next.pending.Some? && step.next.pending.value.rows == w.executed.value.rows
      else step.next.pending == s.pending
  {
  }

  lemma {:induction false} RunLeaves(s: Session, run: Request, w: World)
    requires Inv(s) && !s.failed && run.Run?
    ensures var step := Dispatch(s, run, w);
      if step.replies == [OK] then
        w.executed.Some? && step.next.pending.Some? && step.next.pending.value.rows == w.executed.value.rows
      else step.next.pending == s.pending
  {
    DispatchOfRun(s, run, w);
    var b := if run.exempt then Bound(s) else Bind(s, run.target, w);
    if s.authenticated && b.Bound? && run.parsed.Some? {
      PerformLeaves(b.next, run.parsed.value, w);
    }
  }

  lemma {:induction false} PerformKeepsStats(s: Session, stmt: Statement, w: World)
    requires !s.failed && Perform(s, stmt, w).replies == [OK]
    ensures w.executed.Some? && Perform(s, stmt, w).next.pending.Some?
    ensures var stats := Perform(s, stmt, w).next.pending.value.stats;
      && (stats.Some? <==> stmt.Mutation? || (stmt.Pipeline? && w.executed.value.rows == []))
      && (stats.Some? ==> stats.value == w.executed.value.stats)
  {
  }

  /** Statistics are kept for a mutation, and for a pipeline that returns no rows, and they
      are the executor's. */
  lemma {:induction false} StatsAreKept(s: Session, run: Request, w: World)
    requires Inv(s) && !s.failed && run.Run? && Dispatch(s, run, w).replies == [OK]
    ensures run.parsed.Some? && w.executed.Some? && Dispatch(s, run, w).next.pending.Some?
    ensures var (stmt, stats) := (run.parsed.value, Dispatch(s, run, w).next.pending.value.stats);
      && (stats.Some? <==> stmt.Mutation? || (stmt.Pipeline? && w.executed.value.rows == []))
      && (stats.Some? ==> stats.value == w.executed.value.stats)
  {
    DispatchOfRun(s, run, w);
    var b := if run.exempt then Bound(s) else Bind(s, run.target, w);
    assert Dispatch(s, run, w) == Perform(b.next, run.parsed.value, w);
    PerformKeepsStats(b.next, run.parsed.value, w);
  }

  lemma {:induction false} OthersLeave(s: Session, req: Request, w: World)
    requires CursorOk(s) && !req.Run? && !req.Reset?
    ensures var next := Dispatch(s, req, w).next;
      next.pending.Some? ==> s.pending.Some? && next.pending.value.rows == s.pending.value.rows
  {
  }

  /** Over every run, what a PULL can serve belongs to the last RUN that succeeded, and to
      none once a RESET has come. */
  lemma {:induction false} OnlyLastIsFetched(last: Option<seq<Row>>, s: Session, events: seq<Event>)
    requires Inv(s) && AllClassified(events) && IsFrom(s, last)
    ensures IsFrom(RunAll(s, events).final, LastResult(last, s, events))
    decreases |events|
  {
    if events != [] {
      var (e, step) := (events[0], Dispatch(s, events[0].req, events[0].w));
      if e.req.Run? && !s.failed {
        RunLeaves(s, e.req, e.w);
      } else if e.req.Run? {
        DispatchOfRun(s, e.req, e.w);
      } else if !e.req.Reset? {
        OthersLeave(s, e.req, e.w);
      }
      if step.exit.Continue? {
        var now :=
          if e.req.Reset? then None
          else if e.req.Run? && step.replies == [OK] && e.w.executed.Some? then Some(e.w.executed.value.rows)
          else last;
        OnlyLastIsFetched(now, AfterEvent(s, e), events[1..]);
      }
    }
  }
}
