/** What an import has executed, by the calls that reached the executors, against what
    it counts. */
module Executions {
  import opened Texts
  import opened Statements
  import opened BoltSession
  import opened Traces
  import opened Pipeline
  import opened PipelinedRuns
  import opened Importing
  import opened Adrift

  // ── The calls behind the replies ──────────────────────────────────────

  function CallsOf(v: Server, e: Event): seq<Call> {
    if v.Down? then [] else Dispatch(v.session, e.req, e.w).calls
  }

  function CallsOfAll(v: Server, events: seq<Event>): seq<Call>
    decreases |events|
  {
    if events == [] then [] else CallsOf(v, events[0]) + CallsOfAll(Serve(v, events[0]).server, events[1..])
  }

  /** Statements of a batch that were executed and succeeded. */
  function Done(v: Server, jobs: seq<Job>): nat {
    Successes(CallsOfAll(v, EventsOf(jobs)))
  }

  lemma {:induction false} CallsOfPair(v: Server, jobs: seq<Job>)
    requires jobs != []
    ensures var ran := Serve(v, RunEvent(jobs[0])).server;
      CallsOfAll(v, EventsOf(jobs)) ==
      CallsOf(v, RunEvent(jobs[0])) + (CallsOf(ran, PullEvent(jobs[0]))
      + CallsOfAll(ServePair(v, jobs[0]).server, EventsOf(jobs[1..])))
  {
    var (run, pull, rest) := (RunEvent(jobs[0]), PullEvent(jobs[0]), EventsOf(jobs[1..]));
    var events := EventsOf(jobs);
    assert events[0] == run && events[1] == pull && events[1..][1..] == rest;
  }

  lemma {:induction false} PullCallsNothing(v: Server, job: Job)
    ensures CallsOf(v, PullEvent(job)) == []
  {
  }

  lemma {:induction false} DonePair(v: Server, jobs: seq<Job>)
    requires jobs != []
    ensures Done(v, jobs) == Successes(CallsOf(v, RunEvent(jobs[0]))) + Done(ServePair(v, jobs[0]).server, jobs[1..])
  {
    var ran := Serve(v, RunEvent(jobs[0])).server;
    var rest := CallsOfAll(ServePair(v, jobs[0]).server, EventsOf(jobs[1..]));
    CallsOfPair(v, jobs);
    PullCallsNothing(ran, jobs[0]);
    assert [] + rest == rest;
    SuccessesConcat(CallsOf(v, RunEvent(jobs[0])), rest);
  }

  // ── One batch ─────────────────────────────────────────────────────────

  /** The first statement that fails does so at its PULL, when it has been executed. */
  predicate FailsAtPull(v: Server, jobs: seq<Job>)
    decreases |jobs|
  {
    && jobs != []
    && if IsHealthy(ServePair(v, jobs[0]).server) then FailsAtPull(ServePair(v, jobs[0]).server, jobs[1..])
       else IsHealthy(Serve(v, RunEvent(jobs[0])).server)
  }

  function Late(v: Server, jobs: seq<Job>): nat {
    if IsHealthy(v) && FailsAtPull(v, jobs) then 1 else 0
  }

  /** A PULL fails only by the rate limit. */
  lemma {:induction false} PullFailsExactly(s: Session, job: Job)
    requires Inv(s) && !s.failed
    ensures IsHealthy(Serve(Up(s), PullEvent(job)).server) <==> job.pullWorld.tokenTaken
  {
  }

  lemma {:induction false} FailedDoesNothing(s: Session, jobs: seq<Job>)
    requires Inv(s) && s.failed && AreJobs(jobs)
    ensures Done(Up(s), jobs) == 0
    decreases |jobs|
  {
    if jobs != [] {
      assert IsJob(jobs[0]);
      DispatchOfRun(s, jobs[0].run, jobs[0].w);
      PullReply(s, jobs[0].pullWorld);
      DonePair(Up(s), jobs);
      FailedDoesNothing(s, jobs[1..]);
    }
  }

  lemma {:induction false} RunIsDone(s: Session, job: Job)
    requires Inv(s) && !s.failed && IsJob(job)
    ensures Successes(CallsOf(Up(s), RunEvent(job))) == if IsHealthy(Serve(Up(s), RunEvent(job)).server) then 1 else 0
  {
    RunReply(s, job.run, job.w);
    RunSucceedsOnce(s, job.run, job.w);
  }

  /** A pair is in good order at its end only if it was in between. */
  lemma {:induction false} HealthyBetween(s: Session, job: Job)
    requires Inv(s) && !s.failed && IsJob(job)
    ensures var (ran, end) := (Serve(Up(s), RunEvent(job)).server, ServePair(Up(s), job).server);
      end.Up? && Inv(end.session) && (IsHealthy(end) ==> IsHealthy(ran))
  {
    RunReply(s, job.run, job.w);
    PullReply(Serve(Up(s), RunEvent(job)).server.session, job.pullWorld);
  }

  /** What a session in good order executes of a batch: all statements before the first
      that fails, and that one too if only its PULL failed. */
  lemma {:induction false} HealthyDoes(s: Session, jobs: seq<Job>)
    requires Inv(s) && !s.failed && AreJobs(jobs)
    ensures Done(Up(s), jobs) == FirstFailure(Up(s), jobs) + if FailsAtPull(Up(s), jobs) then 1 else 0
    decreases |jobs|
  {
    if jobs != [] {
      assert IsJob(jobs[0]);
      var v := ServePair(Up(s), jobs[0]).server;
      DonePair(Up(s), jobs);
      RunIsDone(s, jobs[0]);
      HealthyBetween(s, jobs[0]);
      if IsHealthy(v) {
        HealthyDoes(v.session, jobs[1..]);
      } else {
        FailedDoesNothing(v.session, jobs[1..]);
      }
    }
  }

  /** Statements executed are those answered well, and one more if the first that
      fails does so at its PULL. */
  lemma {:induction false} BatchDoes(l: Line, jobs: seq<Job>)
    requires IsInStep(l) && IsBatch(jobs)
    ensures Done(l.server, jobs) == AnsweredWell(l.server, jobs) + Late(l.server, jobs)
  {
    if l.server.session.failed {
      FailedDoesNothing(l.server.session, jobs);
    } else {
      HealthyDoes(l.server.session, jobs);
    }
  }

  /** So the count of successes of a drained batch falls short by that one. */
  lemma {:induction false} DrainedExecutions(l: Line, jobs: seq<Job>)
    requires IsInStep(l) && IsBatch(jobs) && DrainedBatch(l, jobs).outcome.Drained?
    ensures Done(l.server, jobs) == DrainedBatch(l, jobs).outcome.successes + Late(l.server, jobs)
  {
    BatchDoes(l, jobs);
    BatchIsHonest(l, jobs);
  }

  // ── A whole import ────────────────────────────────────────────────────

  function DoneInAll(l: Line, batches: seq<seq<Job>>): nat {
    SumBy(DrainedBatch, Done, l, batches)
  }

  /** Batches whose first failing statement failed at its PULL. */
  function LateInAll(l: Line, batches: seq<seq<Job>>): nat {
    SumBy(DrainedBatch, Late, l, batches)
  }

  ghost predicate AddUp(p: (Server, seq<Job>) -> nat, q: (Server, seq<Job>) -> nat, r: (Server, seq<Job>) -> nat,
                        ok: Line -> bool) {
    forall l, jobs :: ok(l) && IsBatch(jobs) ==> p(l.server, jobs) == q(l.server, jobs) + r(l.server, jobs)
  }

  lemma {:induction false} SumsAdd(f: (Line, seq<Job>) -> Drain, ok: Line -> bool, p: (Server, seq<Job>) -> nat,
                                   q: (Server, seq<Job>) -> nat, r: (Server, seq<Job>) -> nat,
                                   l: Line, batches: seq<seq<Job>>)
    requires DrainsHonestly(f, q, ok) && ok(l) && AreBatches(batches)
    requires AddUp(p, q, r, ok)
    ensures SumBy(f, p, l, batches) == SumBy(f, q, l, batches) + SumBy(f, r, l, batches)
    decreases |batches|
  {
    if batches != [] {
      var d := f(l, batches[0]);
      assert IsBatch(batches[0]);
      assert IsHonestDrain(d, q(l.server, batches[0]), |batches[0]|, ok);
      if d.outcome.Drained? {
        SumsAdd(f, ok, p, q, r, d.line, batches[1..]);
      }
    }
  }

  lemma {:induction false} BatchesAddUp()
    ensures AddUp(Done, AnsweredWell, Late, IsInStep)
  {
    forall l, jobs | IsInStep(l) && IsBatch(jobs)
      ensures Done(l.server, jobs) == AnsweredWell(l.server, jobs) + Late(l.server, jobs)
    {
      BatchDoes(l, jobs);
    }
  }

  /** Over a whole import, whether it ends in an error or not, the statements executed
      are those answered well and one for every batch that first failed at a PULL. */
  lemma {:induction false} ImportDoes(l: Line, batches: seq<seq<Job>>)
    requires IsInStep(l) && AreBatches(batches)
    ensures DoneInAll(l, batches) == AnsweredInAll(l, batches) + LateInAll(l, batches)
  {
    BatchesAreHonest();
    BatchesAddUp();
    SumsAdd(DrainedBatch, IsInStep, Done, AnsweredWell, Late, l, batches);
  }

  /** An import without an error reports as good the statements it has executed, if and
      only if no batch first failed at a PULL. */
  lemma {:induction false} CountsExecutionsExactly(l: Line, batches: seq<seq<Job>>)
    requires IsInStep(l) && AreBatches(batches) && Import(l, batches, 0, 0).error.None?
    ensures var t := Import(l, batches, 0, 0);
      && DoneInAll(l, batches) == t.good + LateInAll(l, batches)
      && (t.good == DoneInAll(l, batches) <==> LateInAll(l, batches) == 0)
  {
    ImportDoes(l, batches);
    ImportIsHonest(l, batches, 0, 0);
  }

  // ── A mutation reported as failed ─────────────────────────────────────

  /** A mutation that succeeds, and whose PULL meets the rate limit. */
  const THROTTLED := Job(Run(false, Some(Mutation(0)), None), SEVEN, SEVEN.(tokenTaken := false))

  lemma {:induction false} ThrottledRuns()
    ensures Dispatch(READY, THROTTLED.run, SEVEN) ==
      Answer(READY.(batch := Batch(1, Some(0)), pending := Some(Pending([7], 0, Some(0)))), OK,
             [BeginBatch("a"), Execute("a", Batched(true))])
  {
    assert Bind(READY, None, SEVEN) == Bound(READY);
    assert Write(READY, "a", SEVEN).calls == [BeginBatch("a")] + [Execute("a", Batched(true))] + [];
  }

  /** It is applied, and counted as failed. */
  lemma {:induction false} AppliedAndReportedFailed()
    ensures var (l, jobs) := (Line([], Up(READY)), [THROTTLED]);
      && CallsOfAll(Up(READY), EventsOf(jobs)) == [BeginBatch("a"), Execute("a", Batched(true))]
      && Done(Up(READY), jobs) == 1
      && DrainedBatch(l, jobs).outcome == Drained(0, 1)
  {
    var (l, jobs) := (Line([], Up(READY)), [THROTTLED]);
    ThrottledRuns();
    assert jobs[1..] == [];
    CallsOfPair(Up(READY), jobs);
    PullCallsNothing(Serve(Up(READY), RunEvent(THROTTLED)).server, THROTTLED);
    FoldTwo(Counted, 0, BeginBatch("a"), Execute("a", Batched(true)));
    BatchIsPipelined(Up(READY), jobs);
    FirstFails(READY, jobs, 0);
  }
}
