/** What becomes of a connection on which a drain has ended in the reset error. */
module Adrift {
  import opened Texts
  import opened Statements
  import opened BoltSession
  import opened Pipeline
  import opened PipelinedRuns
  import opened Importing

  // ── Out of step ───────────────────────────────────────────────────────

  /** Replies are in flight that belong to requests long answered for. */
  predicate IsAdrift(l: Line) {
    && l.server.Up? && Inv(l.server.session)
    && l.incoming != [] && !l.incoming[|l.incoming| - 1].Record?
  }

  function RunEvent(job: Job): Event {
    Event(job.run, job.w)
  }

  function PullEvent(job: Job): Event {
    Event(Pull(None), job.pullWorld)
  }

  /** The replies unread after a drain that could not reset. */
  function Unread(n: nat, k: nat): nat {
    if k + 2 < n then 2 * (n - k - 2) - 1 else 0
  }

  /** A drain ends in the reset error although the session is up and not FAILED any more,
      and leaves behind it IGNORED replies and the SUCCESS of that very RESET. */
  lemma {:induction false} RefusedMeansAdrift(s: Session, jobs: seq<Job>)
    requires Inv(s) && !s.failed && AreJobs(jobs)
    requires Pipelined(Up(s), jobs, 0).outcome.ResetRefused? && Final(Up(s), jobs).Up?
    requires !IsStranded(Final(Up(s), jobs).session)
    ensures var (l, j) := (Pipelined(Up(s), jobs, 0).line, Unread(|jobs|, FirstFailure(Up(s), jobs)));
      && j > 0 && l.incoming == Ignoreds(j) + [OK]
      && IsHealthy(l.server) && IsAdrift(l)
  {
    var final := Final(Up(s), jobs);
    DrainIsForeseen(s, jobs, 0);
    FinalIsUp(s, jobs);
    ResetReply(final.session);
    ResetKeepsInv(final.session);
  }

  lemma {:induction false} RunReplies(s: Session, job: Job)
    requires Inv(s) && IsJob(job)
    ensures var one := Serve(Up(s), RunEvent(job));
      one.server.Up? && Inv(one.server.session) && |one.replies| == 1 && !one.replies[0].Record?
  {
    if s.failed {
      DispatchOfRun(s, job.run, job.w);
    } else {
      RunReply(s, job.run, job.w);
    }
  }

  lemma {:induction false} SummaryBefore(all: seq<Reply>, i: nat, k: nat)
    requires i <= k < |all| && !all[k].Record?
    ensures SummaryAt(all, i) <= k
    decreases k - i
  {
    if all[i].Record? {
      SummaryBefore(all, i + 1, k);
    }
  }

  /** Reading up to the next summary of a line whose stale replies end in one. */
  lemma {:induction false} SummaryWithin(stale: seq<Reply>, more: seq<Reply>, all: seq<Reply>)
    requires stale != [] && !stale[|stale| - 1].Record? && all == stale + more
    ensures SummaryAt(all, 0) < |stale|
  {
    assert all[|stale| - 1] == stale[|stale| - 1];
    SummaryBefore(all, 0, |stale| - 1);
  }

  lemma {:induction false} PullStaysAdrift(l: Line, w: World)
    requires IsAdrift(l)
    ensures IsAdrift(Pulled(Sent(l, Event(Pull(None), w))).1)
  {
    PullReply(l.server.session, w);
    var one := Serve(l.server, Event(Pull(None), w));
    var all := l.incoming + one.replies;
    SummaryWithin(l.incoming, one.replies, all);
  }

  /** A query on such a line leaves as many replies unread as it found, or more. */
  lemma {:induction false} QueryStaysAdrift(l: Line, job: Job)
    requires IsAdrift(l) && IsJob(job)
    ensures IsAdrift(Queried(l, RunEvent(job), PullEvent(job)).1)
  {
    RunReplies(l.server.session, job);
    var asked := Sent(l, RunEvent(job));
    var rest := asked.(incoming := asked.incoming[1..]);
    assert rest.incoming[|rest.incoming| - 1] == Serve(l.server, RunEvent(job)).replies[0];
    if asked.incoming[0].Success? {
      PullStaysAdrift(rest, job.pullWorld);
    }
  }

  function AfterQuery(l: Line, job: Job): Line {
    Queried(l, RunEvent(job), PullEvent(job)).1
  }

  function AfterBy(f: (Line, Job) -> Line, l: Line, jobs: seq<Job>, i: nat): Line
    requires i <= |jobs|
  {
    if i == 0 then l else f(AfterBy(f, l, jobs, i - 1), jobs[i - 1])
  }

  /** The line after the first `i` queries. */
  function AfterQueries(l: Line, jobs: seq<Job>, i: nat): Line
    requires i <= |jobs|
  {
    AfterBy(AfterQuery, l, jobs, i)
  }

  lemma {:induction false} KeptByAll(f: (Line, Job) -> Line, ok: Line -> bool, l: Line, jobs: seq<Job>, i: nat)
    requires ok(l) && AreJobs(jobs) && i <= |jobs|
    requires forall k, job :: ok(k) && IsJob(job) ==> ok(f(k, job))
    ensures ok(AfterBy(f, l, jobs, i))
  {
    if i > 0 {
      KeptByAll(f, ok, l, jobs, i - 1);
    }
  }

  /** Queries never bring client and server back into step. */
  lemma {:induction false} NeverBackInStep(l: Line, jobs: seq<Job>, i: nat)
    requires IsAdrift(l) && AreJobs(jobs) && i <= |jobs|
    ensures IsAdrift(AfterQueries(l, jobs, i))
  {
    forall k, job | IsAdrift(k) && IsJob(job) ensures IsAdrift(AfterQuery(k, job)) {
      QueryStaysAdrift(k, job);
    }
    KeptByAll(AfterQuery, IsAdrift, l, jobs, i);
  }

  lemma {:induction false} HeadOff(a: seq<Reply>, b: seq<Reply>)
    requires a != []
    ensures (a + b)[0] == a[0] && (a + b)[1..] == a[1..] + b
  {
  }

  lemma {:induction false} IgnoredIsReported(l: Line, run: Event, pull: Event)
    requires l.incoming != [] && l.incoming[0].Ignored?
    ensures Queried(l, run, pull)
         == (ConnectionIgnored, Line(l.incoming[1..] + Serve(l.server, run).replies, Serve(l.server, run).server))
  {
    HeadOff(l.incoming, Serve(l.server, run).replies);
  }

  function RunStep(s: Session, job: Job): Step
    requires IsJob(job)
  {
    OnRun(s, job.run.exempt, job.run.parsed, job.run.target, job.w)
  }

  lemma {:induction false} HealthyRunIsServed(s: Session, job: Job)
    requires Inv(s) && !s.failed && IsJob(job)
    ensures var one := Serve(Up(s), RunEvent(job));
      one.replies == RunStep(s, job).replies && one.server.Up? && one.server.session == RunStep(s, job).next
  {
    DispatchOfRun(s, job.run, job.w);
    RunReplies(s, job);
  }

  // ── Whatever the client does ──────────────────────────────────────────

  /** What a client can do with the connection: ask, `reset`, or send another batch. */
  datatype Deed = Ask(job: Job) | Recover | SendBatch(jobs: seq<Job>)

  function AfterReset(l: Line): Line {
    var sent := Sent(l, RESET);
    sent.(incoming := if sent.incoming == [] then [] else sent.incoming[1..])
  }

  function AfterDeed(l: Line, deed: Deed): Line {
    match deed
    case Ask(job) => AfterQuery(l, job)
    case Recover => AfterReset(l)
    case SendBatch(jobs) => DrainedBatch(l, jobs).line
  }

  ghost predicate IsDeed(deed: Deed) {
    match deed
    case Ask(job) => IsJob(job)
    case Recover => true
    case SendBatch(jobs) => AreJobs(jobs)
  }

  /** Out of step, or the server is gone. */
  predicate IsAstray(l: Line) {
    l.server.Down? || IsAdrift(l)
  }

  lemma {:induction false} ResetStaysAstray(l: Line)
    requires IsAdrift(l)
    ensures IsAstray(AfterReset(l))
  {
    var s := l.server.session;
    ResetReply(s);
    if !IsStranded(s) {
      ResetKeepsInv(s);
      assert (l.incoming + [OK])[1..][|l.incoming| - 1] == OK;
    }
  }

  // ── … a batch included ────────────────────────────────────────────────

  /** Enough summaries for `count` pairs and one left over, the last reply among them. */
  predicate IsAheadBy(incoming: seq<Reply>, n: nat) {
    incoming != [] && !incoming[|incoming| - 1].Record? && Summaries(incoming) >= n
  }

  lemma {:induction false} FirstOff(incoming: seq<Reply>)
    requires incoming != []
    ensures Summaries(incoming) == Summaries(incoming[1..]) + if incoming[0].Record? then 0 else 1
  {
    assert incoming == [incoming[0]] + incoming[1..];
    SummariesConcat([incoming[0]], incoming[1..]);
    assert [incoming[0]][..0] == [];
  }

  lemma {:induction false} OneRead(incoming: seq<Reply>, n: nat)
    requires IsAheadBy(incoming, n + 1) && n > 0
    ensures IsAheadBy(incoming[1..], n)
  {
    FirstOff(incoming);
    if incoming[1..] != [] {
      assert incoming[1..][|incoming| - 2] == incoming[|incoming| - 1];
    }
  }

  lemma {:induction false} RecordRead(incoming: seq<Reply>, n: nat)
    requires IsAheadBy(incoming, n) && n > 0 && incoming[0].Record?
    ensures IsAheadBy(incoming[1..], n)
  {
    FirstOff(incoming);
    if incoming[1..] != [] {
      assert incoming[1..][|incoming| - 2] == incoming[|incoming| - 1];
    }
  }

  lemma {:induction false} TwoRead(incoming: seq<Reply>, n: nat)
    requires IsAheadBy(incoming, n + 2) && n > 0
    ensures |incoming| >= 2 && IsAheadBy(incoming[2..], n)
  {
    OneRead(incoming, n + 1);
    OneRead(incoming[1..], n);
    assert incoming[1..][1..] == incoming[2..];
  }

  lemma {:induction false} SummaryRead(incoming: seq<Reply>, i: nat, n: nat)
    requires i <= |incoming| && IsAheadBy(incoming[i..], n + 1) && n > 0
    ensures var k := SummaryAt(incoming, i); k < |incoming| && IsAheadBy(incoming[k + 1..], n)
    decreases |incoming| - i
  {
    var rest := incoming[i..];
    assert rest[0] == incoming[i] && rest[1..] == incoming[i + 1..];
    if incoming[i].Record? {
      RecordRead(rest, n + 1);
      SummaryRead(incoming, i + 1, n);
    } else {
      OneRead(rest, n);
    }
  }

  lemma {:induction false} PairLeaves(incoming: seq<Reply>, n: nat)
    requires IsAheadBy(incoming, n + 2) && n > 0
    ensures IsAheadBy(AfterPair(incoming), n)
  {
    if incoming[0].Record? {
      RecordRead(incoming, n + 2);
    } else if incoming[0].Success? {
      OneRead(incoming, n + 1);
      assert incoming[1..][0..] == incoming[1..];
      SummaryRead(incoming[1..], 0, n);
    } else {
      TwoRead(incoming, n);
    }
  }

  lemma {:induction false} SkipLeaves(l: Line, n: nat)
    requires l.server.Up? && Inv(l.server.session) && IsAheadBy(l.incoming, n + 2) && n > 0
    ensures var next := AfterSkip(l).1;
      next.server.Down? || (Inv(next.server.session) && IsAheadBy(next.incoming, n))
  {
    var s := l.server.session;
    TwoRead(l.incoming, n);
    ResetReply(s);
    if !IsStranded(s) {
      ResetKeepsInv(s);
      var sent := l.incoming[2..] + [OK];
      SummariesConcat(l.incoming[2..], [OK]);
      assert [OK][..0] == [];
      assert Summaries([OK]) == 1;
      OneRead(sent, n);
    }
  }

  lemma {:induction false} DownStays(l: Line, count: nat, good: nat, bad: nat, failed: bool)
    requires l.server.Down?
    ensures DrainFrom(l, count, good, bad, failed).line.server.Down?
    decreases count
  {
    if count > 0 {
      if failed {
        var (stop, next) := AfterSkip(l);
        if stop.None? {
          DownStays(next, count - 1, good, bad + 1, false);
        }
      } else {
        var (p, next) := (ReadPair(l.incoming), l.(incoming := AfterPair(l.incoming)));
        if p.Pair? {
          DownStays(next, count - 1, if p.ok then good + 1 else good, if p.ok then bad else bad + 1, !p.ok);
        }
      }
    }
  }

  lemma {:induction false} DrainStaysAstray(l: Line, count: nat, good: nat, bad: nat, failed: bool)
    requires l.server.Up? && Inv(l.server.session) && IsAheadBy(l.incoming, 2 * count + 1)
    ensures IsAstray(DrainFrom(l, count, good, bad, failed).line)
    decreases count
  {
    if count > 0 {
      var m := count - 1;
      if failed {
        var (stop, next) := AfterSkip(l);
        SkipLeaves(l, 2 * m + 1);
        DrainSkips(l, count, good, bad, stop, next);
        if next.server.Down? {
          DownStays(next, m, good, bad + 1, false);
        } else {
          DrainStaysAstray(next, m, good, bad + 1, false);
        }
      } else {
        var (p, next) := (ReadPair(l.incoming), l.(incoming := AfterPair(l.incoming)));
        PairLeaves(l.incoming, 2 * m + 1);
        DrainReads(l, count, good, bad, p, next);
        if p.Pair? {
          DrainStaysAstray(next, m, if p.ok then good + 1 else good, if p.ok then bad else bad + 1, !p.ok);
        }
      }
    }
  }

  /** Serving jobs adds two summaries for each, the last reply among them. */
  lemma {:induction false} ServedAhead(v: Server, jobs: seq<Job>)
    requires v.Up? && Inv(v.session) && AreJobs(jobs)
    ensures var r := ServeAll(v, EventsOf(jobs));
      && r.server.Up? && Inv(r.server.session)
      && Summaries(r.replies) == 2 * |jobs|
      && (jobs != [] ==> r.replies != [] && !r.replies[|r.replies| - 1].Record?)
    decreases |jobs|
  {
    if jobs != [] {
      assert IsJob(jobs[0]);
      var p := ServePair(v, jobs[0]);
      PairAhead(v.session, jobs[0]);
      ServePairs(v, jobs);
      var rest := ServeAll(p.server, EventsOf(jobs[1..])).replies;
      ServedAhead(p.server, jobs[1..]);
      SummariesConcat(p.replies, rest);
      LastOfTwo(p.replies, rest, jobs[1..]);
    }
  }

  lemma {:induction false} LastOfTwo(a: seq<Reply>, b: seq<Reply>, jobs: seq<Job>)
    requires a != [] && !a[|a| - 1].Record? && Summaries(b) == 2 * |jobs|
    requires jobs != [] ==> b != [] && !b[|b| - 1].Record?
    requires jobs == [] ==> b == []
    ensures a + b != [] && !(a + b)[|a + b| - 1].Record?
  {
  }

  lemma {:induction false} PairAhead(s: Session, job: Job)
    requires Inv(s) && IsJob(job)
    ensures var p := ServePair(Up(s), job);
      && p.server.Up? && Inv(p.server.session) && Summaries(p.replies) == 2
      && p.replies != [] && !p.replies[|p.replies| - 1].Record?
  {
    RunReplies(s, job);
    var one := Serve(Up(s), RunEvent(job));
    PullReply(one.server.session, job.pullWorld);
    var two := Serve(one.server, PullEvent(job));
    assert one.replies[..0] == [];
    AnsweredOnce(Pull(None), two.replies);
    SummariesConcat(one.replies, two.replies);
  }

  lemma {:induction false} BatchStaysAstray(l: Line, jobs: seq<Job>)
    requires IsAdrift(l) && AreJobs(jobs)
    ensures IsAstray(DrainedBatch(l, jobs).line)
  {
    var r := ServeAll(l.server, EventsOf(jobs));
    ServedAhead(l.server, jobs);
    SummariesConcat(l.incoming, r.replies);
    StaleCounts(l.incoming);
    DrainStaysAstray(Following(l.incoming, r), |jobs|, 0, 0, false);
  }

  lemma {:induction false} StaleCounts(stale: seq<Reply>)
    requires stale != [] && !stale[|stale| - 1].Record?
    ensures Summaries(stale) >= 1
  {
  }

  lemma {:induction false} DeedStaysAstray(l: Line, deed: Deed)
    requires IsAstray(l) && IsDeed(deed)
    ensures IsAstray(AfterDeed(l, deed))
  {
    if l.server.Down? {
      match deed
      case Ask(job) =>
      case Recover =>
      case SendBatch(jobs) =>
        DownServes(EventsOf(jobs));
        DownStays(Following(l.incoming, ServeAll(Down, EventsOf(jobs))), |jobs|, 0, 0, false);
    } else {
      match deed
      case Ask(job) => QueryStaysAdrift(l, job);
      case Recover => ResetStaysAstray(l);
      case SendBatch(jobs) => BatchStaysAstray(l, jobs);
    }
  }

  lemma {:induction false} DownServes(events: seq<Event>)
    ensures ServeAll(Down, events).server == Down
    decreases |events|
  {
    if events != [] {
      DownServes(events[1..]);
    }
  }

  function AfterDeeds(l: Line, deeds: seq<Deed>, i: nat): Line
    requires i <= |deeds|
  {
    if i == 0 then l else AfterDeed(AfterDeeds(l, deeds, i - 1), deeds[i - 1])
  }

  ghost predicate AreDeeds(deeds: seq<Deed>) {
    forall i :: 0 <= i < |deeds| ==> IsDeed(deeds[i])
  }

  /** No sequence of queries, resets and batches brings client and server back into step:
      they stay out of it, unless the server goes down. */
  lemma {:induction false} NothingBringsBack(l: Line, deeds: seq<Deed>, i: nat)
    requires IsAstray(l) && AreDeeds(deeds) && i <= |deeds|
    ensures IsAstray(AfterDeeds(l, deeds, i))
  {
    if i > 0 {
      NothingBringsBack(l, deeds, i - 1);
      assert IsDeed(deeds[i - 1]);
      DeedStaysAstray(AfterDeeds(l, deeds, i - 1), deeds[i - 1]);
    }
  }

  // ── Told the wrong thing ──────────────────────────────────────────────

  /** With an IGNORED unread, and the session not FAILED, the next statement is executed
      and its caller is told that it was ignored. */
  lemma {:induction false} ExecutedUnseen(l: Line, job: Job)
    requires IsAdrift(l) && IsHealthy(l.server) && IsJob(job) && l.incoming[0].Ignored?
    ensures Queried(l, RunEvent(job), PullEvent(job)).0 == ConnectionIgnored
    ensures var (step, next) := (RunStep(l.server.session, job), AfterQuery(l, job));
      next.server.Up? && next.server.session == step.next && next.incoming == l.incoming[1..] + step.replies
  {
    IgnoredIsReported(l, RunEvent(job), PullEvent(job));
    HealthyRunIsServed(l.server.session, job);
  }

  // ── A silent wrong answer ─────────────────────────────────────────────

  /** Two old SUCCESS replies pass for the answers to RUN and PULL: an empty result,
      whatever was asked and whatever the server made of it. */
  lemma {:induction false} OldRepliesPass(l: Line, job: Job)
    requires |l.incoming| >= 2 && l.incoming[0].Success? && l.incoming[1].Success?
    ensures Queried(l, RunEvent(job), PullEvent(job)).0 == Rows([])
  {
    var asked := Sent(l, RunEvent(job));
    var rest := asked.(incoming := asked.incoming[1..]);
    var pulled := Sent(rest, PullEvent(job));
    assert asked.incoming[0] == l.incoming[0] && pulled.incoming[0] == l.incoming[1];
    assert SummaryAt(pulled.incoming, 0) == 0;
    assert pulled.incoming[..0] == [];
  }

  function Oks(n: nat): (r: seq<Reply>)
    ensures |r| == n && forall i :: 0 <= i < n ==> r[i] == OK
  {
    seq(n, _ => OK)
  }

  /** The server once it has served the first `i` RUNs and no PULL. */
  function AfterRuns(v: Server, jobs: seq<Job>, i: nat): Server
    requires i <= |jobs|
  {
    if i == 0 then v else Serve(AfterRuns(v, jobs, i - 1), RunEvent(jobs[i - 1])).server
  }

  /** Each of the statements succeeds. */
  predicate IsAnsweredOk(v: Server, jobs: seq<Job>, i: nat)
    requires i < |jobs|
  {
    Serve(AfterRuns(v, jobs, i), RunEvent(jobs[i])).replies == [OK]
  }

  lemma {:induction false} QueryShifts(v: Server, job: Job, m: nat, i: nat)
    requires Serve(v, RunEvent(job)).replies == [OK]
    ensures AfterQuery(Line(Ignoreds(m + 1) + Oks(i), v), job)
         == Line(Ignoreds(m) + Oks(i + 1), Serve(v, RunEvent(job)).server)
  {
    var unread := Ignoreds(m + 1) + Oks(i) + [OK];
    assert unread[0] == Ignored;
    assert unread[1..] == Ignoreds(m) + Oks(i + 1);
  }

  lemma {:induction false} QueriesShift(l: Line, jobs: seq<Job>, j: nat, i: nat)
    requires l.incoming == Ignoreds(j) + [OK] && i <= j && j <= |jobs|
    requires forall k :: 0 <= k < j ==> IsAnsweredOk(l.server, jobs, k)
    ensures AfterQueries(l, jobs, i) == Line(Ignoreds(j - i) + Oks(i + 1), AfterRuns(l.server, jobs, i))
  {
    if i == 0 {
      assert [OK] == Oks(1);
    } else {
      QueriesShift(l, jobs, j, i - 1);
      assert IsAnsweredOk(l.server, jobs, i - 1);
      QueryShifts(AfterRuns(l.server, jobs, i - 1), jobs[i - 1], j - i, i);
    }
  }

  /** After a drain with the reset error, let as many statements succeed as there are
      IGNORED replies unread. The next query returns an empty result, whatever it is. */
  lemma {:induction false} SilentWrongAnswer(s: Session, jobs: seq<Job>, later: seq<Job>, last: Job, j: nat)
    requires Inv(s) && !s.failed && AreJobs(jobs) && AreJobs(later)
    requires Pipelined(Up(s), jobs, 0).outcome.ResetRefused? && Final(Up(s), jobs).Up?
    requires !IsStranded(Final(Up(s), jobs).session)
    requires j == Unread(|jobs|, FirstFailure(Up(s), jobs)) == |later|
    requires forall k :: 0 <= k < j ==> IsAnsweredOk(Pipelined(Up(s), jobs, 0).line.server, later, k)
    ensures var l := AfterQueries(Pipelined(Up(s), jobs, 0).line, later, j);
      Queried(l, RunEvent(last), PullEvent(last)).0 == Rows([])
  {
    var l := Pipelined(Up(s), jobs, 0).line;
    RefusedMeansAdrift(s, jobs);
    QueriesShift(l, later, j, j);
    assert Ignoreds(0) + Oks(j + 1) == Oks(j + 1);
    OldRepliesPass(AfterQueries(l, later, j), last);
  }

  const READY := Session(false, true, Some("u"), Some(DbHandle("a", ReadWrite)), Some("a"), None, None, CLEAN)
  const SEVEN := World(false, true, None, true, true, true, Some(Executed([7], 0)), None, true, true, 0)
  /** A statement that does not parse, and one that has a row to show. */
  const BAD := Job(Run(false, None, None), SEVEN, SEVEN)
  const GOOD := Job(Run(false, Some(Query(0)), None), SEVEN, SEVEN)

  lemma {:induction false} GoodIsAnsweredOk(s: Session)
    requires s == READY || s == READY.(pending := Some(Pending([7], 0, None)))
    ensures Serve(Up(s), RunEvent(GOOD)) == Served([OK], Up(READY.(pending := Some(Pending([7], 0, None)))))
  {
    assert Bind(s, None, SEVEN) == Bound(s);
  }

  lemma {:induction false} ThreeFail(jobs: seq<Job>)
    requires jobs == [BAD, BAD, BAD]
    ensures Pipelined(Up(READY), jobs, 0) == Drain(ResetRefused, Line(Ignoreds(1) + [OK], Up(READY)))
  {
    assert Bind(READY, None, SEVEN) == Bound(READY);
    var down := READY.(failed := true);
    assert Serve(Up(READY), RunEvent(BAD)) == Served([Failure(SyntaxError)], Up(down));
    assert ServePair(Up(READY), BAD).server == Up(down);
    PipelinedStep(READY, jobs, 0);
    FailedIgnoresAll(down, jobs[1..]);
    DrainAfterFailure(down, 2, 0);
    ResetReply(down);
  }

  lemma {:induction false} GoodHasRow()
    ensures Queried(Line([], Up(READY)), RunEvent(GOOD), PullEvent(GOOD)).0 == Rows([7])
  {
    GoodIsAnsweredOk(READY);
    QueryKeepsStep(READY, GOOD.run, SEVEN, SEVEN);
    PullKeepsStep(READY.(pending := Some(Pending([7], 0, None))), SEVEN);
  }

  /** It does happen: three statements that do not parse, one query that is said to have
      been ignored, and the next one returns no rows where it has one. */
  lemma {:induction false} SilentWrongAnswerHappens()
    ensures var l := Pipelined(Up(READY), [BAD, BAD, BAD], 0).line;
      var (first, next) := (Queried(l, RunEvent(GOOD), PullEvent(GOOD)), AfterQuery(l, GOOD));
      && first.0 == ConnectionIgnored
      && Queried(next, RunEvent(GOOD), PullEvent(GOOD)).0 == Rows([])
      && Queried(Line([], Up(READY)), RunEvent(GOOD), PullEvent(GOOD)).0 == Rows([7])
  {
    ThreeFail([BAD, BAD, BAD]);
    GoodIsAnsweredOk(READY);
    QueryShifts(Up(READY), GOOD, 0, 1);
    assert [OK] == Oks(1);
    OldRepliesPass(AfterQuery(Line(Ignoreds(1) + Oks(1), Up(READY)), GOOD), GOOD);
    GoodHasRow();
  }
}
