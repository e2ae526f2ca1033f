/** The session as the server runs it: an object whose methods update its fields
    one after another, over a parse cache that it shares with other connections. Every
    method takes exactly the step that `BoltSession` gives for it, so that what holds
    of all runs there holds of the object: see `Serve`. */
module Handler {
  import opened Texts
  import opened Statements
  import opened BoltSession

  /** `BoltHandler`. `sent` is what has been written to the client and `calls` what
      has been asked of the accessor and the admin dispatcher. */
  class BoltHandler {
    const grammar: Grammar
    const cache: QueryCache
    var failed: bool
    var authenticated: bool
    var user: Option<Text>
    var dbHandle: Option<DbHandle>
    var sessionAccessor: Option<DbName>
    var openTxn: Option<TxnId>
    var pendingResult: Option<Pending>
    var batchState: Batch
    var sent: seq<Reply>
    var calls: seq<Call>

    constructor (grammar: Grammar, cache: QueryCache)
      requires cache.IsSound(grammar, CypherCompat)
      ensures Valid() && Snapshot() == FRESH && sent == [] && calls == []
      ensures this.grammar == grammar && this.cache == cache
    {
      this.grammar, this.cache := grammar, cache;
      failed, authenticated, user := false, false, None;
      dbHandle, sessionAccessor, openTxn := None, None, None;
      pendingResult, batchState := None, CLEAN;
      sent, calls := [], [];
    }

    ghost function Snapshot(): Session
      reads this
    {
      Session(failed, authenticated, user, dbHandle, sessionAccessor, openTxn, pendingResult, batchState)
    }

    ghost predicate Valid()
      reads this, cache
    {
      Inv(Snapshot()) && cache.IsSound(grammar, CypherCompat)
    }

    /** Since `sent` and `calls` were `before` and `asked`, the object has taken
        `step`. */
    ghost predicate Took(step: Step, before: seq<Reply>, asked: seq<Call>)
      reads this
    {
      Snapshot() == step.next && sent == before + step.replies && calls == asked + step.calls
    }

    // ── Small helpers ───────────────────────────────────────────────────

    method SendResponse(reply: Reply)
      modifies `sent
      ensures sent == old(sent) + [reply]
    {
      sent := sent + [reply];
    }

    method Ask(call: Call)
      modifies `calls
      ensures calls == old(calls) + [call]
    {
      calls := calls + [call];
    }

    /** Mark the session FAILED and say so. */
    method FailWith(code: Code)
      modifies `failed, `sent
      ensures failed && sent == old(sent) + [Failure(code)]
    {
      failed := true;
      SendResponse(Failure(code));
    }

    // ── Binding ─────────────────────────────────────────────────────────

    method AcquireAndBind(name: DbName, w: World) returns (refused: Option<Code>)
      modifies `dbHandle, `sessionAccessor
      ensures var b := Acquire(old(Snapshot()), name, w);
        Snapshot() == b.next && refused == (if b.Refused? then Some(b.code) else None)
    {
      if !IsValidDatabaseName(name) {
        return Some(DatabaseNotFound);
      }
      if w.acquired.None? {
        return Some(RegistryRefused);
      }
      var handle := w.acquired.value;
      sessionAccessor := Some(handle.name);
      dbHandle := Some(handle);
      return None;
    }

    method TryBindDatabase(target: Option<DbName>, w: World) returns (refused: Option<Code>)
      modifies `dbHandle, `sessionAccessor
      ensures var b := Bind(old(Snapshot()), target, w);
        Snapshot() == b.next && refused == (if b.Refused? then Some(b.code) else None)
    {
      if dbHandle.Some? {
        if target.None? || dbHandle.value.name == target.value {
          return None;
        }
        dbHandle := None;
        sessionAccessor := None;
        refused := AcquireAndBind(target.value, w);
      } else if target.None? {
        return Some(DatabaseNotFound);
      } else {
        refused := AcquireAndBind(target.value, w);
      }
    }

    // ── RUN ─────────────────────────────────────────────────────────────

    method Finish(executed: Option<Executed>, stats: Option<Stats>)
      modifies `pendingResult, `failed, `sent
      ensures Took(Conclude(old(Snapshot()), executed, stats, []), old(sent), calls)
    {
      if executed.Some? {
        pendingResult := Some(Pending(executed.value.rows, 0, stats));
        SendResponse(OK);
      } else {
        FailWith(ExecutionFailed);
      }
    }

    method RunRead(stmt: Statement, db: DbName, w: World)
      modifies `batchState, `pendingResult, `failed, `sent, `calls
      ensures Took(Read(old(Snapshot()), stmt, db, w), old(sent), old(calls))
    {
      if batchState.dirty > 0 {
        Ask(EndBatch(db));
        batchState := CLEAN;
      }
      var kind := Direct(w.executed.Some?);
      Ask(if openTxn.Some? then ExecuteInTxn(db, openTxn.value, kind) else Execute(db, kind));
      var stats := None;
      if stmt.Pipeline? && w.executed.Some? && w.executed.value.rows == [] {
        stats := Some(w.executed.value.stats);
      }
      Finish(w.executed, stats);
    }

    /** Open a batch if none is, run the mutation, and mark the batch dirty. */
    method RunInBatch(db: DbName, w: World)
      modifies `batchState, `calls
      ensures batchState == Dirtied(old(Snapshot()), w)
      ensures var open := if openTxn.None? && old(batchState).dirty == 0 then [BeginBatch(db)] else [];
        calls == old(calls) + (open + [Executor(old(Snapshot()), db, Batched(w.executed.Some?))])
    {
      if openTxn.None? && batchState.dirty == 0 {
        Ask(BeginBatch(db));
      }
      var kind := Batched(w.executed.Some?);
      Ask(if openTxn.Some? then ExecuteInTxn(db, openTxn.value, kind) else Execute(db, kind));
      if w.executed.Some? {
        batchState := MarkDirty(batchState, w.now);
      }
    }

    method RunMutation(db: DbName, w: World)
      modifies `batchState, `pendingResult, `failed, `sent, `calls
      ensures Took(Write(old(Snapshot()), db, w), old(sent), old(calls))
    {
      RunInBatch(db, w);
      AutoFlush(db, w);
      Finish(w.executed, if w.executed.Some? then Some(w.executed.value.stats) else None);
    }

    method AutoFlush(db: DbName, w: World)
      modifies `batchState, `calls
      ensures var flush := ShouldAutoFlush(old(batchState), w.now);
        && batchState == (if flush && w.endBatchOk then CLEAN else old(batchState))
        && calls == old(calls) + if flush then [EndBatch(db), BeginBatch(db)] else []
    {
      if ShouldAutoFlush(batchState, w.now) {
        Ask(EndBatch(db));
        if w.endBatchOk {
          batchState := CLEAN;
        }
        Ask(BeginBatch(db));
      }
    }

    method PerformStatement(stmt: Statement, w: World) returns (exit: Exit)
      modifies this
      ensures var step := Perform(old(Snapshot()), stmt, w);
        Took(step, old(sent), old(calls)) && exit == step.exit
    {
      if openTxn.Some? && IsOutsideTxn(stmt) {
        FailWith(NotSupported);
        return Continue;
      }
      if stmt.Admin? {
        if user.None? {
          FailWith(Unauthorized);
          return Continue;
        }
        Ask(DispatchAdmin(w.executed.Some?));
        Finish(w.executed, None);
        return Continue;
      }
      if stmt.Call? && stmt.registryScoped {
        FailWith(UnknownError);
        return Continue;
      }
      if sessionAccessor.None? {
        return Panic;
      }
      var db := sessionAccessor.value;
      if stmt.Ddl? || stmt.Call? {
        if stmt.Ddl? {
          Ask(ReachSchema(db, w.executed.Some?));
        } else {
          Ask(ReadGraph(db, w.executed.Some?));
        }
        Finish(w.executed, None);
        return Continue;
      }
      if dbHandle.Some? && dbHandle.value.access.ReadOnly? && IsMutating(stmt) {
        FailWith(Forbidden);
        return Continue;
      }
      if stmt.Mutation? {
        RunMutation(db, w);
      } else {
        RunRead(stmt, db, w);
      }
      return Continue;
    }

    /** A database is bound unless the text is an admin statement. */
    method BindUnlessAdmin(query: Text, target: Option<DbName>, w: World) returns (refused: Option<Code>)
      modifies `dbHandle, `sessionAccessor
      ensures var b := if TryParseAdmin(grammar, query).Parsed? then Bound(old(Snapshot()))
                       else Bind(old(Snapshot()), target, w);
        Snapshot() == b.next && refused == (if b.Refused? then Some(b.code) else None)
    {
      var early := TryParseAdmin(grammar, query);
      if early.Parsed? {
        return None;
      }
      refused := TryBindDatabase(target, w);
    }

    method HandleRun(query: Text, signature: nat, target: Option<DbName>, w: World) returns (exit: Exit)
      requires cache.IsSound(grammar, CypherCompat)
      modifies this, cache
      ensures cache.IsSound(grammar, CypherCompat)
      ensures var run := RunOf(grammar, query, target);
        var step := OnRun(old(Snapshot()), run.exempt, run.parsed, target, w);
        Took(step, old(sent), old(calls)) && exit == step.exit
    {
      if !authenticated {
        FailWith(RequestInvalid);
        return Continue;
      }
      ghost var (was, run) := (Snapshot(), RunOf(grammar, query, target));
      var refused := BindUnlessAdmin(query, target, w);
      if refused.Some? {
        FailWith(refused.value);
        return Continue;
      }
      ghost var bound := Snapshot();
      exit := SubmitQuery(query, signature, w);
      OnRunSubmits(was, run, bound, w);
    }

    /** The parse goes through the shared cache; `signature` stands for the hash of the
        parameters. */
    method SubmitQuery(query: Text, signature: nat, w: World) returns (exit: Exit)
      requires cache.IsSound(grammar, CypherCompat)
      modifies this, cache
      ensures cache.IsSound(grammar, CypherCompat)
      ensures var step := Submit(old(Snapshot()), ParseSpec(grammar, query, CypherCompat), w);
        Took(step, old(sent), old(calls)) && exit == step.exit
    {
      if !w.tokenTaken {
        FailWith(TooManyRequests);
        return Continue;
      }
      if !w.paramsOk {
        FailWith(TypeError);
        return Continue;
      }
      var parsed := cache.Parse(grammar, query, CypherCompat, signature);
      if parsed.None? {
        FailWith(SyntaxError);
        return Continue;
      }
      if !w.substituted {
        FailWith(ParameterError);
        return Continue;
      }
      exit := PerformStatement(parsed.value, w);
    }

    // ── PULL and DISCARD ────────────────────────────────────────────────

    method WriteRecords(rows: seq<Row>)
      modifies `sent
      ensures sent == old(sent) + Records(rows)
    {
      var i := 0;
      while i < |rows|
        invariant i <= |rows| && sent == old(sent) + Records(rows)[..i]
      {
        SendResponse(Record(rows[i]));
        assert Records(rows)[..i + 1] == Records(rows)[..i] + [Record(rows[i])];
        i := i + 1;
      }
      assert Records(rows)[..i] == Records(rows);
    }

    method HandleFetch(n: Option<int>, serve: bool, w: World)
      requires CursorOk(Snapshot())
      modifies `pendingResult, `failed, `sent
      ensures Took(OnFetch(old(Snapshot()), n, serve, w), old(sent), calls)
    {
      if !w.tokenTaken {
        FailWith(TooManyRequests);
        return;
      }
      if pendingResult.None? {
        SendResponse(Success(Some(false), None));
        return;
      }
      var pending := pendingResult.value;
      var wanted := ReadN(n);
      var remaining := |pending.rows| - pending.cursor;
      var take := if wanted < 0 || wanted > remaining then remaining else wanted;
      var end := pending.cursor + take;
      if serve {
        WriteRecords(pending.rows[pending.cursor..end]);
      }
      var hasMore := end < |pending.rows|;
      var stats := if hasMore then None else pending.stats;
      pendingResult := if hasMore then Some(pending.(cursor := end)) else None;
      SendResponse(Success(Some(hasMore), stats));
    }

    // ── The rest ────────────────────────────────────────────────────────

    method HandleHello(principal: Text, w: World)
      modifies `failed, `authenticated, `user, `sent
      ensures Took(OnHello(old(Snapshot()), principal, w), old(sent), calls)
    {
      if w.authBlocked {
        FailWith(AuthorizationExpired);
        return;
      }
      if !w.authOk {
        FailWith(Unauthorized);
        return;
      }
      user := Some(Lower(Trim(principal)));
      authenticated := true;
      SendResponse(OK);
    }

    method FlushPendingBatch() returns (exit: Exit)
      modifies `batchState, `calls
      ensures var step := Flush(old(Snapshot()), []);
        Took(step, sent, old(calls)) && exit == step.exit
    {
      if batchState.dirty > 0 {
        if sessionAccessor.None? {
          return Panic;
        }
        Ask(EndBatch(sessionAccessor.value));
        batchState := CLEAN;
      }
      return Continue;
    }

    method HandleReset() returns (exit: Exit)
      modifies this
      ensures var step := OnReset(old(Snapshot()));
        Took(step, old(sent), old(calls)) && exit == step.exit
    {
      failed := false;
      pendingResult := None;
      var open := openTxn;
      openTxn := None;
      if open.Some? && sessionAccessor.Some? {
        Ask(RollbackTxn(sessionAccessor.value, open.value));
      }
      exit := FlushPendingBatch();
      if exit.Panic? {
        return;
      }
      SendResponse(OK);
    }

    method HandleBegin(w: World)
      modifies `failed, `openTxn, `sent, `calls
      ensures Took(OnBegin(old(Snapshot()), w), old(sent), old(calls))
    {
      if openTxn.Some? || sessionAccessor.None? || w.begun.None? {
        FailWith(RequestInvalid);
        return;
      }
      Ask(BeginTxn(sessionAccessor.value, w.begun.value));
      openTxn := w.begun;
      SendResponse(OK);
    }

    method FinishTxn(commit: bool, w: World) returns (exit: Exit)
      modifies `failed, `openTxn, `sent, `calls
      ensures var step := OnFinish(old(Snapshot()), commit, w);
        Took(step, old(sent), old(calls)) && exit == step.exit
    {
      if openTxn.None? {
        FailWith(RequestInvalid);
        return Continue;
      }
      var id := openTxn.value;
      openTxn := None;
      if sessionAccessor.None? {
        return Panic;
      }
      var db := sessionAccessor.value;
      Ask(if commit then CommitTxn(db, id) else RollbackTxn(db, id));
      if w.finished {
        SendResponse(OK);
      } else {
        FailWith(RequestInvalid);
      }
      return Continue;
    }

    /** `dispatch` for every request but RUN, whose text `HandleRun` takes. */
    method DispatchRequest(req: Request, w: World) returns (exit: Exit)
      requires CursorOk(Snapshot()) && !req.Run?
      modifies this
      ensures var step := Dispatch(old(Snapshot()), req, w);
        Took(step, old(sent), old(calls)) && exit == step.exit
    {
      exit := Continue;
      if req.Undecodable? {
        FailWith(RequestInvalid);
      } else if failed {
        if req.Reset? {
          exit := HandleReset();
        } else if req.Goodbye? {
          exit := Leave;
        } else {
          SendResponse(Ignored);
        }
      } else {
        match req
        case Hello(principal) => HandleHello(principal, w);
        case Logon => SendResponse(OK);
        case Pull(n) => HandleFetch(n, true, w);
        case Discard(n) => HandleFetch(n, false, w);
        case Reset => exit := HandleReset();
        case Goodbye => exit := Leave;
        case Begin => HandleBegin(w);
        case Commit => exit := FinishTxn(true, w);
        case Rollback => exit := FinishTxn(false, w);
        case Run(_, _, _) => assert false;
        case Undecodable => assert false;
      }
    }

    method DispatchRun(query: Text, signature: nat, target: Option<DbName>, w: World) returns (exit: Exit)
      requires CursorOk(Snapshot()) && cache.IsSound(grammar, CypherCompat)
      modifies this, cache
      ensures cache.IsSound(grammar, CypherCompat)
      ensures var step := Dispatch(old(Snapshot()), RunOf(grammar, query, target), w);
        Took(step, old(sent), old(calls)) && exit == step.exit
    {
      DispatchOfRun(Snapshot(), RunOf(grammar, query, target), w);
      if failed {
        SendResponse(Ignored);
        return Continue;
      }
      exit := HandleRun(query, signature, target, w);
    }

    /** `dispatch` */
    method Dispatched(input: Input) returns (exit: Exit)
      requires Valid()
      modifies this, cache
      ensures cache.IsSound(grammar, CypherCompat)
      ensures var e := EventOf(grammar, input);
        var step := Dispatch(old(Snapshot()), e.req, e.w);
        && IsClassified(e.req)
        && Took(step, old(sent), old(calls)) && exit == step.exit
        && (!exit.Panic? ==> Valid())
    {
      ghost var (s, e) := (Snapshot(), EventOf(grammar, input));
      InputIsClassified(grammar, input);
      if input.Asked? {
        exit := DispatchRun(input.text, input.signature, input.target, input.w);
      } else {
        exit := DispatchRequest(input.req, input.w);
      }
      if !exit.Panic? {
        StepKeepsInv(s, e.req, e.w);
      }
    }

    /** `run_inner`: requests are served one after another until one ends the
        connection. */
    method ServeRequests(inputs: seq<Input>) returns (exit: Exit)
      requires Valid()
      modifies this, cache
      ensures AllClassified(EventsOf(grammar, inputs))
      ensures var r := RunAll(old(Snapshot()), EventsOf(grammar, inputs));
        && Snapshot() == r.final && exit == r.exit
        && sent == old(sent) + r.replies && calls == old(calls) + r.calls
      ensures cache.IsSound(grammar, CypherCompat)
    {
      exit := Continue;
      ghost var events := EventsOf(grammar, inputs);
      InputsAreClassified(grammar, inputs);
      ghost var whole := RunAll(Snapshot(), events);
      ghost var (replies, asked) := (sent, calls);
      var i := 0;
      assert events[0..] == events;
      while i < |inputs|
        invariant 0 <= i <= |inputs| && Valid() && exit.Continue?
        invariant IsAhead(whole, Snapshot(), events, i, sent, calls, replies, asked)
        decreases |inputs| - i
      {
        ghost var (s, sentBefore, callsBefore) := (Snapshot(), sent, calls);
        exit := Dispatched(inputs[i]);
        ghost var step := Dispatch(s, events[i].req, events[i].w);
        OneMore(whole, s, events, i, sentBefore, callsBefore, replies, asked, step);
        if !exit.Continue? {
          return;
        }
        i := i + 1;
      }
      assert events[i..] == [];
      assert sent + [] == sent && calls + [] == calls;
    }

    /** `run`: the requests, and then the flush of what is pending. The object makes the
        run of the session; it panics if and only if the session has no accessor for a
        batch that is dirty, which no run does that strands none; and while requests keep
        coming each gets one summary. */
    method Serve(inputs: seq<Input>) returns (exit: Exit)
      requires Valid()
      modifies this, cache
      ensures cache.IsSound(grammar, CypherCompat)
      ensures AllClassified(EventsOf(grammar, inputs))
      ensures var events := EventsOf(grammar, inputs);
        var r := RunAll(old(Snapshot()), events);
        && sent == old(sent) + r.replies
        && (exit.Panic? <==> r.exit.Panic? || IsStranded(r.final))
        && (!exit.Panic? ==> Valid() && Snapshot() == Close(r.final).next && batchState.dirty == 0)
        && (!exit.Panic? ==> calls == old(calls) + (r.calls + Close(r.final).calls))
        && (!old(IsStranded(Snapshot())) && !RunStrands(old(Snapshot()), events) ==> !exit.Panic?)
        && (r.exit.Continue? ==> Summaries(r.replies) == |inputs|)
    {
      ghost var (s, events) := (Snapshot(), EventsOf(grammar, inputs));
      ghost var asked := calls;
      exit := ServeRequests(inputs);
      ghost var r := RunAll(s, events);
      RunIsHonest(s, events);
      if exit.Panic? {
        return;
      }
      PanicsExactly(Snapshot(), Reset, SomeWorld());
      var closed := FlushPendingBatch();
      if closed.Panic? {
        exit := Panic;
      }
      assert asked + r.calls + Close(r.final).calls == asked + (r.calls + Close(r.final).calls);
    }
  }

  // ── What comes in ─────────────────────────────────────────────────────

  /** A request as it arrives, with what the server meets while serving it. */
  datatype Input =
    | Asked(text: Text, signature: nat, target: Option<DbName>, w: World)
    | Other(req: NotRun, w: World)

  type NotRun = r: Request | !r.Run? witness Reset

  ghost function EventOf(g: Grammar, input: Input): Event {
    if input.Asked? then Event(RunOf(g, input.text, input.target), input.w) else Event(input.req, input.w)
  }

  ghost function EventsOf(g: Grammar, inputs: seq<Input>): (events: seq<Event>)
    ensures |events| == |inputs| && forall i :: 0 <= i < |inputs| ==> events[i] == EventOf(g, inputs[i])
  {
    seq(|inputs|, i requires 0 <= i < |inputs| => EventOf(g, inputs[i]))
  }

  lemma {:induction false} InputIsClassified(g: Grammar, input: Input)
    ensures IsClassified(EventOf(g, input).req)
  {
    if input.Asked? {
      RunsAreClassified(g, input.text, input.target);
    }
  }

  lemma {:induction false} InputsAreClassified(g: Grammar, inputs: seq<Input>)
    ensures AllClassified(EventsOf(g, inputs))
  {
    forall i | 0 <= i < |inputs| ensures IsClassified(EventsOf(g, inputs)[i].req) {
      InputIsClassified(g, inputs[i]);
    }
  }

  /** A RUN that has its database is submitted. */
  lemma {:induction false} OnRunSubmits(s: Session, run: Request, bound: Session, w: World)
    requires run.Run? && s.authenticated && (if run.exempt then Bound(s) else Bind(s, run.target, w)) == Bound(bound)
    ensures OnRun(s, run.exempt, run.parsed, run.target, w) == Submit(bound, run.parsed, w)
  {
  }

  /** With `i` events served, what is left of the run `whole` is the run from here. */
  ghost predicate IsAhead(whole: Run, s: Session, events: seq<Event>, i: nat,
                          sent: seq<Reply>, calls: seq<Call>, replies: seq<Reply>, asked: seq<Call>) {
    && i <= |events| && Inv(s) && AllClassified(events)
    && AllClassified(events[i..])
    && var rest := RunAll(s, events[i..]);
    && whole.final == rest.final && whole.exit == rest.exit
    && replies + whole.replies == sent + rest.replies
    && asked + whole.calls == calls + rest.calls
  }

  lemma {:induction false} Regrouped<T>(all: seq<T>, whole: seq<T>, sent: seq<T>, step: seq<T>, rest: seq<T>,
                                        both: seq<T>)
    requires all + whole == sent + both && both == step + rest
    ensures all + whole == sent + step + rest
  {
  }

  lemma {:induction false} RunUnfolds(s: Session, more: seq<Event>, step: Step)
    requires more != [] && Inv(s) && AllClassified(more) && step == Dispatch(s, more[0].req, more[0].w)
    ensures step.exit.Continue? ==> AllClassified(more[1..]) && Inv(step.next)
    ensures RunAll(s, more) ==
      if step.exit.Continue? then
        var rest := RunAll(step.next, more[1..]);
        Done(rest.final, step.replies + rest.replies, step.calls + rest.calls, rest.exit)
      else Done(step.next, step.replies, step.calls, step.exit)
  {
    if !step.exit.Panic? {
      StepKeepsInv(s, more[0].req, more[0].w);
    }
  }

  lemma {:induction false} OneMore(whole: Run, s: Session, events: seq<Event>, i: nat, sent: seq<Reply>,
                                   calls: seq<Call>, replies: seq<Reply>, asked: seq<Call>, step: Step)
    requires i < |events| && IsAhead(whole, s, events, i, sent, calls, replies, asked)
    requires step == Dispatch(s, events[i].req, events[i].w)
    ensures if step.exit.Continue? then
        IsAhead(whole, step.next, events, i + 1, sent + step.replies, calls + step.calls, replies, asked)
      else
        && whole.final == step.next && whole.exit == step.exit
        && replies + whole.replies == sent + step.replies && asked + whole.calls == calls + step.calls
  {
    var more := events[i..];
    assert more[0] == events[i] && more[1..] == events[i + 1..];
    RunUnfolds(s, more, step);
    if step.exit.Continue? {
      var (all, rest) := (RunAll(s, more), RunAll(step.next, more[1..]));
      Regrouped(replies, whole.replies, sent, step.replies, rest.replies, all.replies);
      Regrouped(asked, whole.calls, calls, step.calls, rest.calls, all.calls);
    }
  }

  lemma {:induction false} RunIsHonest(s: Session, events: seq<Event>)
    requires Inv(s) && AllClassified(events)
    ensures var r := RunAll(s, events);
      && (!IsStranded(s) && !RunStrands(s, events) ==> !r.exit.Panic? && !IsStranded(r.final))
      && (r.exit.Continue? ==> Summaries(r.replies) == |events|)
  {
    if !IsStranded(s) && !RunStrands(s, events) {
      RunsDoNotPanic(s, events);
    }
    if RunAll(s, events).exit.Continue? {
      RunsAnswerEveryRequest(s, events);
    }
  }
}
