/** Client and server composed: what `drain_pipeline` makes of a batch of pipelined
    statements, for every batch and every way the server may answer. */
module PipelinedRuns {
  import opened Texts
  import opened Statements
  import opened BoltSession
  import opened Pipeline

  /** One pipelined statement: its RUN, and what the server meets while serving it
      and the PULL behind it. */
  datatype Job = Job(run: Request, w: World, pullWorld: World)

  predicate IsJob(job: Job) {
    job.run.Run? && IsClassified(job.run)
  }

  ghost predicate AreJobs(jobs: seq<Job>) {
    forall i :: 0 <= i < |jobs| ==> IsJob(jobs[i])
  }

  function PairOf(job: Job): seq<Event> {
    [Event(job.run, job.w), Event(Pull(None), job.pullWorld)]
  }

  /** What `pipeline_run`, called for each statement, puts on the wire. */
  function EventsOf(jobs: seq<Job>): seq<Event> {
    if jobs == [] then [] else PairOf(jobs[0]) + EventsOf(jobs[1..])
  }

  function ServePair(v: Server, job: Job): Served {
    var run := Serve(v, Event(job.run, job.w));
    Join(run, Serve(run.server, Event(Pull(None), job.pullWorld)))
  }

  lemma {:induction false} ServePairs(v: Server, jobs: seq<Job>)
    requires jobs != []
    ensures ServeAll(v, EventsOf(jobs)) ==
            Join(ServePair(v, jobs[0]), ServeAll(ServePair(v, jobs[0]).server, EventsOf(jobs[1..])))
  {
    var (run, pull) := (PairOf(jobs[0])[0], PairOf(jobs[0])[1]);
    assert PairOf(jobs[0]) == [run] + [pull];
    ServeConcat(v, PairOf(jobs[0]), EventsOf(jobs[1..]));
    ServeOne(v, run);
    ServeSnoc(v, [run], pull);
  }

  predicate IsHealthy(v: Server) {
    v.Up? && !v.session.failed
  }

  /** How many leading statements succeed, both RUN and PULL. */
  function FirstFailure(v: Server, jobs: seq<Job>): (k: nat)
    ensures k <= |jobs|
    decreases |jobs|
  {
    if jobs == [] || !IsHealthy(ServePair(v, jobs[0]).server) then 0
    else 1 + FirstFailure(ServePair(v, jobs[0]).server, jobs[1..])
  }

  // ── One pair ──────────────────────────────────────────────────────────

  lemma {:induction false} SummaryIs(incoming: seq<Reply>, i: nat, k: nat)
    requires i <= k < |incoming| && !incoming[k].Record?
    requires forall j :: i <= j < k ==> incoming[j].Record?
    ensures SummaryAt(incoming, i) == k
    decreases k - i
  {
    if i < k {
      SummaryIs(incoming, i + 1, k);
    }
  }

  /** The replies to one RUN and one PULL, as `drain_pipeline` expects them. */
  predicate IsPairReply(replies: seq<Reply>, ok: bool) {
    && |replies| >= 2
    && !replies[0].Record?
    && !replies[|replies| - 1].Record?
    && (forall j :: 1 <= j < |replies| - 1 ==> replies[j].Record?)
    && (!replies[0].Success? ==> |replies| == 2)
    && (ok <==> replies[0].Success? && replies[|replies| - 1].Success?)
  }

  lemma {:induction false} PairIsRead(replies: seq<Reply>, ok: bool, rest: seq<Reply>)
    requires IsPairReply(replies, ok)
    ensures ReadPair(replies + rest) == Pair(ok, rest) && AfterPair(replies + rest) == rest
  {
    var all := replies + rest;
    assert all[|replies|..] == rest;
    if replies[0].Success? {
      assert all[1..][|replies| - 1..] == rest;
      SummaryIs(all[1..], 0, |replies| - 2);
    }
  }

  /** A RUN to a session in good order: one reply, and FAILED exactly on FAILURE. */
  lemma {:induction false} RunReply(s: Session, run: Request, w: World)
    requires Inv(s) && !s.failed && run.Run? && IsClassified(run)
    ensures var one := Serve(Up(s), Event(run, w));
      && one.server.Up? && Inv(one.server.session)
      && |one.replies| == 1
      && (one.replies[0].Success? || one.replies[0].Failure?)
      && (one.replies[0].Success? <==> !one.server.session.failed)
  {
    PanicsExactly(s, run, w);
    StepKeepsInv(s, run, w);
    DispatchOfRun(s, run, w);
    RunIsPlain(s, run.exempt, run.parsed, run.target, w);
  }

  lemma {:induction false} PullReply(s: Session, w: World)
    requires Inv(s)
    ensures var one := Serve(Up(s), Event(Pull(None), w));
      && one.server.Up? && Inv(one.server.session)
      && |one.replies| > 0
      && IsAnswered(Pull(None), one.replies)
      && (s.failed ==> one == Served([Ignored], Up(s)))
      && (!s.failed ==> (one.replies[|one.replies| - 1].Success? <==> !one.server.session.failed))
  {
    PanicsExactly(s, Pull(None), w);
    StepKeepsInv(s, Pull(None), w);
    EveryRequestIsAnsweredOnce(s, Pull(None), w);
    FailedStateDiscipline(s, Pull(None), w);
  }

  lemma {:induction false} PairReply(s: Session, job: Job)
    requires Inv(s) && !s.failed && IsJob(job)
    ensures var p := ServePair(Up(s), job);
      && p.server.Up? && Inv(p.server.session)
      && IsPairReply(p.replies, IsHealthy(p.server))
  {
    RunReply(s, job.run, job.w);
    PullReply(Serve(Up(s), Event(job.run, job.w)).server.session, job.pullWorld);
  }

  function Ignoreds(n: nat): (r: seq<Reply>)
    ensures |r| == n && forall i :: 0 <= i < n ==> r[i] == Ignored
  {
    seq(n, _ => Ignored)
  }

  /** Once the session has FAILED every further pair is ignored twice. */
  lemma {:induction false} FailedIgnoresAll(s: Session, jobs: seq<Job>)
    requires Inv(s) && s.failed && AreJobs(jobs)
    ensures ServeAll(Up(s), EventsOf(jobs)) == Served(Ignoreds(2 * |jobs|), Up(s))
    decreases |jobs|
  {
    if jobs != [] {
      ServePairs(Up(s), jobs);
      assert IsJob(jobs[0]);
      DispatchOfRun(s, jobs[0].run, jobs[0].w);
      PullReply(s, jobs[0].pullWorld);
      assert ServePair(Up(s), jobs[0]) == Served(Ignoreds(2), Up(s));
      FailedIgnoresAll(s, jobs[1..]);
      assert Ignoreds(2) + Ignoreds(2 * |jobs[1..]|) == Ignoreds(2 * |jobs|);
    } else {
      assert Ignoreds(0) == [];
    }
  }

  // ── The whole pipeline ────────────────────────────────────────────────

  /** RESET as the client sees it: answered, unless it meets a stranded batch. */
  lemma {:induction false} ResetReply(s: Session)
    requires Inv(s)
    ensures IsStranded(s) ==> Serve(Up(s), RESET) == Served([], Down)
    ensures !IsStranded(s) ==> Serve(Up(s), RESET) == Served([OK], Up(OnReset(s).next)) && !OnReset(s).next.failed
  {
    PanicsExactly(s, Reset, SomeWorld());
  }

  /** The drain of `n` pairs of which the `k`-th is the first to fail, the session
      standing at `final` when all of them are served. */
  function Foreseen(n: nat, k: nat, good: nat, final: Server): Drain
    requires k <= n && final.Up?
  {
    if k == n then Drain(Drained(good + n, 0), Line([], final))
    else if k == n - 1 then Drain(Drained(good + n - 1, 1), Line([], final))
    else if k == n - 2 then
      if IsStranded(final.session) then Drain(Starved, Line([], Down))
      else Drain(Drained(good + n - 2, 2), Line([], Serve(final, RESET).server))
    else
      var reset := Serve(final, RESET);
      Drain(ResetRefused, Line(Ignoreds(2 * (n - k - 2) - 1) + reset.replies, reset.server))
  }

  /** One more statement in front that succeeds. */
  lemma {:induction false} ForeseenShifts(n: nat, k: nat, good: nat, final: Server)
    requires k <= n && final.Up?
    ensures Foreseen(n, k, good + 1, final) == Foreseen(n + 1, k + 1, good, final)
  {
  }

  /** After a failure: two replies of the next pair are skipped, RESET goes out
      behind everything already sent, and the next reply is taken for its answer. */
  lemma {:induction false} DrainAfterFailure(s: Session, m: nat, good: nat)
    requires Inv(s) && s.failed
    ensures DrainFrom(Line(Ignoreds(2 * m), Up(s)), m, good, 1, true) == Foreseen(m + 1, 0, good, Up(s))
  {
    ResetReply(s);
    if m > 0 {
      var l := Line(Ignoreds(2 * m), Up(s));
      assert l.incoming[2..] == Ignoreds(2 * (m - 1));
      var reset := Serve(Up(s), RESET);
      if m == 1 {
        assert Ignoreds(0) + reset.replies == reset.replies;
      } else {
        var sent := Ignoreds(2 * (m - 1)) + reset.replies;
        assert sent[0] == Ignored && sent[1..] == Ignoreds(2 * (m - 1) - 1) + reset.replies;
      }
    } else {
      assert Ignoreds(0) == [];
    }
  }

  /** Pipelining `jobs` to `v` and draining them, `good` having succeeded before. */
  function Pipelined(v: Server, jobs: seq<Job>, good: nat): Drain {
    var r := ServeAll(v, EventsOf(jobs));
    DrainFrom(Line(r.replies, r.server), |jobs|, good, 0, false)
  }

  function Final(v: Server, jobs: seq<Job>): Server {
    ServeAll(v, EventsOf(jobs)).server
  }

  lemma {:induction false} PipelinedStep(s: Session, jobs: seq<Job>, good: nat)
    requires Inv(s) && !s.failed && AreJobs(jobs) && jobs != []
    ensures var p := ServePair(Up(s), jobs[0]);
      && p.server.Up? && Inv(p.server.session)
      && Final(Up(s), jobs) == Final(p.server, jobs[1..])
      && (IsHealthy(p.server) ==> Pipelined(Up(s), jobs, good) == Pipelined(p.server, jobs[1..], good + 1))
      && (!IsHealthy(p.server) ==>
            var r := ServeAll(p.server, EventsOf(jobs[1..]));
            Pipelined(Up(s), jobs, good) == DrainFrom(Line(r.replies, r.server), |jobs| - 1, good, 1, true))
  {
    assert IsJob(jobs[0]);
    var p := ServePair(Up(s), jobs[0]);
    ServePairs(Up(s), jobs);
    PairReply(s, jobs[0]);
    PairIsRead(p.replies, IsHealthy(p.server), ServeAll(p.server, EventsOf(jobs[1..])).replies);
  }

  /** The session is up once all are served, and FAILED exactly if one failed. */
  lemma {:induction false} FinalIsUp(s: Session, jobs: seq<Job>)
    requires Inv(s) && !s.failed && AreJobs(jobs)
    ensures var final := Final(Up(s), jobs);
      final.Up? && Inv(final.session) && (final.session.failed <==> FirstFailure(Up(s), jobs) < |jobs|)
    decreases |jobs|
  {
    if jobs != [] {
      PipelinedStep(s, jobs, 0);
      var v := ServePair(Up(s), jobs[0]).server;
      if IsHealthy(v) {
        FinalIsUp(v.session, jobs[1..]);
      } else {
        FailedIgnoresAll(v.session, jobs[1..]);
      }
    }
  }

  lemma {:induction false} FirstFails(s: Session, jobs: seq<Job>, good: nat)
    requires Inv(s) && !s.failed && AreJobs(jobs) && jobs != []
    requires !IsHealthy(ServePair(Up(s), jobs[0]).server)
    ensures Final(Up(s), jobs).Up? && FirstFailure(Up(s), jobs) == 0
    ensures Pipelined(Up(s), jobs, good) == Foreseen(|jobs|, 0, good, Final(Up(s), jobs))
  {
    PipelinedStep(s, jobs, good);
    var v := ServePair(Up(s), jobs[0]).server;
    FailedIgnoresAll(v.session, jobs[1..]);
    DrainAfterFailure(v.session, |jobs| - 1, good);
  }

  lemma {:induction false} FailsLater(v: Server, jobs: seq<Job>)
    requires jobs != [] && IsHealthy(ServePair(v, jobs[0]).server)
    ensures FirstFailure(v, jobs) == FirstFailure(ServePair(v, jobs[0]).server, jobs[1..]) + 1
  {
  }

  /** The first statement leaves the session healthy at `v`, and the rest, of which the
      `k`-th fails first, leaves it at `final`. */
  lemma {:induction false} FirstSucceeds(s: Session, jobs: seq<Job>, good: nat, v: Server, k: nat, final: Server)
    requires Inv(s) && !s.failed && AreJobs(jobs) && jobs != []
    requires v == ServePair(Up(s), jobs[0]).server && IsHealthy(v)
    requires k == FirstFailure(v, jobs[1..]) && final == Final(v, jobs[1..]) && final.Up?
    requires Pipelined(v, jobs[1..], good + 1) == Foreseen(|jobs| - 1, k, good + 1, final)
    ensures Final(Up(s), jobs) == final && FirstFailure(Up(s), jobs) == k + 1
    ensures Pipelined(Up(s), jobs, good) == Foreseen(|jobs|, k + 1, good, final)
  {
    PipelinedStep(s, jobs, good);
    FailsLater(Up(s), jobs);
    ForeseenShifts(|jobs| - 1, k, good, final);
  }

  lemma {:induction false} NoJobs(s: Live, good: nat)
    ensures Pipelined(Up(s), [], good) == Drain(Drained(good, 0), Line([], Up(s))) == Foreseen(0, 0, good, Up(s))
    ensures Final(Up(s), []) == Up(s) && FirstFailure(Up(s), []) == 0
  {
  }

  lemma {:induction false} DrainIsForeseen(s: Session, jobs: seq<Job>, good: nat)
    requires Inv(s) && !s.failed && AreJobs(jobs)
    ensures Final(Up(s), jobs).Up?
    ensures Pipelined(Up(s), jobs, good) == Foreseen(|jobs|, FirstFailure(Up(s), jobs), good, Final(Up(s), jobs))
    decreases |jobs|
  {
    if jobs == [] {
      NoJobs(s, good);
    } else if IsHealthy(ServePair(Up(s), jobs[0]).server) {
      PipelinedStep(s, jobs, good);
      var v := ServePair(Up(s), jobs[0]).server;
      DrainIsForeseen(v.session, jobs[1..], good + 1);
      FirstSucceeds(s, jobs, good, v, FirstFailure(v, jobs[1..]), Final(v, jobs[1..]));
    } else {
      FirstFails(s, jobs, good);
    }
  }

  /** What a foreseen drain tells the client, and whether it can go on. */
  predicate IsTelling(d: Drain, n: nat, k: nat) {
    && (d.outcome == Drained(n, 0) <==> k == n)
    && (d.outcome.ResetRefused? <==> k < n - 2)
    && (d.outcome.ResetRefused? ==> d.line.incoming != [] && d.line.incoming[0].Ignored?)
    && (d.outcome.Drained? ==>
          && d.line.incoming == []
          && d.line.server.Up?
          && (d.line.server.session.failed <==> k == n - 1))
  }

  lemma {:induction false} ForeseenIsTelling(n: nat, k: nat, final: Server)
    requires k <= n && final.Up? && Inv(final.session) && (final.session.failed <==> k < n)
    ensures IsTelling(Foreseen(n, k, 0, final), n, k)
  {
    ResetReply(final.session);
  }

  /** Pipelining a batch to a session in good order and draining it gives `(N, 0)` if
      nothing fails; `(N - 1, 1)` with the session left FAILED if the last statement
      is the first to fail; `(N - 2, 2)` with the session recovered if it is the last
      but one. An earlier failure ends the drain with an error, although RESET was
      sent, and leaves replies unread that the next request would take for its own. */
  lemma {:induction false} PipelineOutcome(s: Session, jobs: seq<Job>)
    requires Inv(s) && !s.failed && AreJobs(jobs)
    ensures var (n, k, final) := (|jobs|, FirstFailure(Up(s), jobs), Final(Up(s), jobs));
      && final.Up?
      && Pipelined(Up(s), jobs, 0) == Foreseen(n, k, 0, final)
      && IsTelling(Pipelined(Up(s), jobs, 0), n, k)
  {
    DrainIsForeseen(s, jobs, 0);
    FinalIsUp(s, jobs);
    ForeseenIsTelling(|jobs|, FirstFailure(Up(s), jobs), Final(Up(s), jobs));
  }

  lemma {:induction false} FirstPairIgnored(s: Live, n: nat)
    requires n > 0
    ensures DrainFrom(Line(Ignoreds(2 * n), Up(s)), n, 0, 0, false) ==
            DrainFrom(Line(Ignoreds(2 * (n - 1)), Up(s)), n - 1, 0, 1, true)
  {
    assert Ignoreds(2 * n)[2..] == Ignoreds(2 * (n - 1));
  }

  /** A drain that left the session FAILED is followed by one that starts in the
      dark: the first pair of the next batch is ignored, and counts as the first
      failure whatever it is. */
  lemma {:induction false} NextBatchAfterFailure(s: Session, jobs: seq<Job>)
    requires Inv(s) && s.failed && AreJobs(jobs) && jobs != []
    ensures Pipelined(Up(s), jobs, 0) == Foreseen(|jobs|, 0, 0, Up(s))
    ensures IsTelling(Pipelined(Up(s), jobs, 0), |jobs|, 0)
  {
    FailedIgnoresAll(s, jobs);
    FirstPairIgnored(s, |jobs|);
    DrainAfterFailure(s, |jobs| - 1, 0);
    ForeseenIsTelling(|jobs|, 0, Up(s));
  }

  lemma {:induction false} QueuedOne(l: Line, jobs: seq<Job>, job: Job)
    ensures var (run, pull) := (Event(job.run, job.w), Event(Pull(None), job.pullWorld));
      Following(l.incoming, ServeAll(l.server, EventsOf(jobs + [job]))) ==
      Sent(Sent(Following(l.incoming, ServeAll(l.server, EventsOf(jobs))), run), pull)
  {
    var (run, pull) := (Event(job.run, job.w), Event(Pull(None), job.pullWorld));
    var done := EventsOf(jobs);
    EventsSnoc(jobs, job);
    ServeSnoc(l.server, done, run);
    ServeSnoc(l.server, done + [run], pull);
    SentFollows(l.incoming, ServeAll(l.server, done), run);
    SentFollows(l.incoming, ServeAll(l.server, done + [run]), pull);
  }

  /** A batch queued, flushed and drained on a line. */
  function DrainedBatch(l: Line, jobs: seq<Job>): Drain {
    DrainFrom(Following(l.incoming, ServeAll(l.server, EventsOf(jobs))), |jobs|, 0, 0, false)
  }

  lemma {:induction false} BatchIsPipelined(v: Server, jobs: seq<Job>)
    ensures DrainedBatch(Line([], v), jobs) == Pipelined(v, jobs, 0)
  {
    var r := ServeAll(v, EventsOf(jobs));
    assert [] + r.replies == r.replies;
  }

  /** One batch of `run_pipelined_import`. The server serves as fast as it likes: `pace`
      tells how many turns it takes at each point. */
  method ImportBatch(c: Connection, jobs: seq<Job>, pace: nat -> nat) returns (o: Pipeline.Outcome)
    requires c.buffer == []
    modifies c
    ensures c.buffer == [] && Drain(o, c.View()) == DrainedBatch(old(c.View()), jobs)
  {
    ghost var l := c.View();
    assert c.requests + c.buffer == c.requests;
    assert l.incoming + [] == l.incoming;
    for i := 0 to |jobs|
      invariant c.Ahead() == Following(l.incoming, ServeAll(l.server, EventsOf(jobs[..i])))
    {
      QueuedOne(l, jobs[..i], jobs[i]);
      assert jobs[..i + 1] == jobs[..i] + [jobs[i]];
      c.PipelineRun(Event(jobs[i].run, jobs[i].w), Event(Pull(None), jobs[i].pullWorld));
      c.Turns(pace(i));
    }
    assert jobs[..|jobs|] == jobs;
    c.Flush();
    c.Turns(pace(|jobs|));
    o := c.DrainPipeline(|jobs|);
  }

  lemma {:induction false} EventsSnoc(jobs: seq<Job>, job: Job)
    ensures EventsOf(jobs + [job]) ==
            EventsOf(jobs) + [Event(job.run, job.w)] + [Event(Pull(None), job.pullWorld)]
    decreases |jobs|
  {
    if jobs == [] {
      assert [job][1..] == [];
      assert EventsOf([]) == [];
    } else {
      assert (jobs + [job])[1..] == jobs[1..] + [job];
      EventsSnoc(jobs[1..], job);
    }
  }

  // ── One statement at a time ───────────────────────────────────────────

  predicate HoldsResult(s: Session, w: World) {
    && w.executed.Some? && s.pending.Some?
    && s.pending.value.rows == w.executed.value.rows && s.pending.value.cursor == 0
  }

  lemma {:induction false} PerformLeavesResult(s: Session, stmt: Statement, w: World)
    requires !Perform(s, stmt, w).next.failed && Perform(s, stmt, w).exit.Continue?
    ensures HoldsResult(Perform(s, stmt, w).next, w)
  {
  }

  /** A RUN that is answered with SUCCESS leaves the whole result to be pulled. */
  lemma {:induction false} RunLeavesResult(s: Session, run: Request, w: World)
    requires Inv(s) && !s.failed && run.Run? && !Dispatch(s, run, w).next.failed
    requires Dispatch(s, run, w).exit.Continue?
    ensures HoldsResult(Dispatch(s, run, w).next, w)
  {
    var b := if run.exempt then Bound(s) else Bind(s, run.target, w);
    assert Dispatch(s, run, w) == Perform(b.next, run.parsed.value, w);
    PerformLeavesResult(b.next, run.parsed.value, w);
  }

  lemma {:induction false} PullServesAll(s: Session, w: World)
    requires CursorOk(s) && !s.failed && w.tokenTaken
    requires s.pending.Some? && s.pending.value.cursor == 0
    ensures var rows := s.pending.value.rows;
      Serve(Up(s), Event(Pull(None), w)) ==
      Served(Records(rows) + [Success(Some(false), s.pending.value.stats)], Up(s.(pending := None)))
  {
    var p := s.pending.value;
    assert p.rows[0..|p.rows|] == p.rows;
  }

  lemma {:induction false} PullKeepsStep(s: Session, w: World)
    requires Inv(s) && !s.failed && s.pending.Some? && s.pending.value.cursor == 0
    ensures var (a, l) := Pulled(Sent(Line([], Up(s)), Event(Pull(None), w)));
      && l.incoming == [] && l.server.Up? && Inv(l.server.session)
      && (if w.tokenTaken then a == Rows(s.pending.value.rows) && !l.server.session.failed
          else a == QueryFailed && l.server.session.failed)
  {
    PullReply(s, w);
    var inc := Serve(Up(s), Event(Pull(None), w)).replies;
    assert [] + inc == inc;
    if w.tokenTaken {
      PullServesAll(s, w);
      SummaryIs(inc, 0, |s.pending.value.rows|);
      RowsAre(inc, s.pending.value.rows);
    } else {
      assert inc == [Failure(TooManyRequests)];
    }
  }

  /** Without pipelining client and server keep in step: from a connection with
      nothing in flight `run_query` returns the rows of the statement it sent, or an
      error that says what became of it, and leaves nothing in flight. */
  lemma {:induction false} QueryKeepsStep(s: Session, run: Request, w: World, pullWorld: World)
    requires Inv(s) && run.Run? && IsClassified(run)
    ensures var (a, l) := Queried(Line([], Up(s)), Event(run, w), Event(Pull(None), pullWorld));
      && l.incoming == [] && l.server.Up? && Inv(l.server.session)
      && (s.failed <==> a.ConnectionIgnored?)
      && (s.failed ==> l.server == Up(s))
      && (!s.failed ==> a.Rows? || a.QueryFailed?)
      && (a.Rows? ==> !l.server.session.failed && w.executed.Some? && a.rows == w.executed.value.rows)
      && (a.QueryFailed? ==> l.server.session.failed)
  {
    if s.failed {
      DispatchOfRun(s, run, w);
    } else {
      RunReply(s, run, w);
      var one := Serve(Up(s), Event(run, w));
      var t := one.server.session;
      assert [] + one.replies == one.replies;
      if !t.failed {
        RunLeavesResult(s, run, w);
        PullKeepsStep(t, pullWorld);
        assert one.replies[1..] == [];
      }
    }
  }
}
