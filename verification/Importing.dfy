/** A whole import: batch after batch over one connection. */
module Importing {
  import opened Texts
  import opened Statements
  import opened BoltSession
  import opened Pipeline
  import opened PipelinedRuns

  // ── Batch after batch ─────────────────────────────────────────────────

  /** `run_pipelined_import`: statements counted as good and as bad so far, and the error
      that ended it. */
  datatype Tally = Tally(good: nat, bad: nat, error: Option<Pipeline.Outcome>, line: Line)

  /** The loop over batches, whatever draining one of them does. */
  function ImportBy(f: (Line, seq<Job>) -> Drain, l: Line, batches: seq<seq<Job>>, good: nat, bad: nat): Tally
    decreases |batches|
  {
    if batches == [] then Tally(good, bad, None, l)
    else
      var d := f(l, batches[0]);
      if !d.outcome.Drained? then Tally(good, bad, Some(d.outcome), d.line)
      else ImportBy(f, d.line, batches[1..], good + d.outcome.successes, bad + d.outcome.failures)
  }

  function Import(l: Line, batches: seq<seq<Job>>, good: nat, bad: nat): Tally {
    ImportBy(DrainedBatch, l, batches, good, bad)
  }

  /** The loop, with the server serving at any pace. */
  method RunImport(c: Connection, batches: seq<seq<Job>>, pace: (nat, nat) -> nat)
    returns (good: nat, bad: nat, error: Option<Pipeline.Outcome>)
    requires c.buffer == []
    modifies c
    ensures c.buffer == []
    ensures Tally(good, bad, error, c.View()) == Import(old(c.View()), batches, 0, 0)
  {
    good, bad, error := 0, 0, None;
    ghost var l := c.View();
    assert batches[0..] == batches;
    for i := 0 to |batches|
      invariant c.buffer == [] && error.None?
      invariant Import(c.View(), batches[i..], good, bad) == Import(l, batches, 0, 0)
    {
      assert batches[i..][0] == batches[i] && batches[i..][1..] == batches[i + 1..];
      var o := ImportBatch(c, batches[i], n => pace(i, n));
      if !o.Drained? {
        error := Some(o);
        return;
      }
      good, bad := good + o.successes, bad + o.failures;
    }
    assert batches[|batches|..] == [];
  }

  ghost predicate IsBatch(jobs: seq<Job>) {
    AreJobs(jobs) && jobs != []
  }

  ghost predicate AreBatches(batches: seq<seq<Job>>) {
    forall i :: 0 <= i < |batches| ==> IsBatch(batches[i])
  }

  function Size(batches: seq<seq<Job>>): nat {
    if batches == [] then 0 else |batches[0]| + Size(batches[1..])
  }

  /** Statements of a batch whose RUN and PULL were both answered with SUCCESS: those
      before the first failure, and none if the session was FAILED already. */
  function AnsweredWell(v: Server, jobs: seq<Job>): nat {
    if IsHealthy(v) then FirstFailure(v, jobs) else 0
  }

  function SumBy(f: (Line, seq<Job>) -> Drain, p: (Server, seq<Job>) -> nat, l: Line, batches: seq<seq<Job>>): nat
    decreases |batches|
  {
    if batches == [] then 0
    else
      var d := f(l, batches[0]);
      p(l.server, batches[0]) + if d.outcome.Drained? then SumBy(f, p, d.line, batches[1..]) else 0
  }

  function AnsweredInAll(l: Line, batches: seq<seq<Job>>): nat {
    SumBy(DrainedBatch, AnsweredWell, l, batches)
  }

  /** Nothing in flight, and a session in good order, FAILED or not. */
  predicate IsInStep(l: Line) {
    l.incoming == [] && l.server.Up? && Inv(l.server.session)
  }

  lemma {:induction false} ResetKeepsInv(s: Session)
    requires Inv(s) && !IsStranded(s)
    ensures Serve(Up(s), RESET).server.Up? && Inv(Serve(Up(s), RESET).server.session)
  {
    ResetReply(s);
    StepKeepsInv(s, Reset, SomeWorld());
  }

  lemma {:induction false} ForeseenInStep(n: nat, k: nat, final: Server)
    requires k <= n && final.Up? && Inv(final.session) && Foreseen(n, k, 0, final).outcome.Drained?
    ensures IsInStep(Foreseen(n, k, 0, final).line)
    ensures var o := Foreseen(n, k, 0, final).outcome; o.successes == k && o.failures == n - k
  {
    if k == n - 2 {
      ResetKeepsInv(final.session);
    }
  }

  /** Client and session are in step, and the count of successes is the number of
      statements answered well. */
  predicate IsHonestDrain(d: Drain, answered: nat, size: nat, ok: Line -> bool) {
    d.outcome.Drained? ==>
      ok(d.line) && d.outcome.successes == answered && d.outcome.successes + d.outcome.failures == size
  }

  /** A batch that is drained is drained honestly. */
  lemma {:induction false} BatchIsHonest(l: Line, jobs: seq<Job>)
    requires IsInStep(l) && IsBatch(jobs)
    ensures IsHonestDrain(DrainedBatch(l, jobs), AnsweredWell(l.server, jobs), |jobs|, IsInStep)
  {
    if DrainedBatch(l, jobs).outcome.Drained? {
      var v := l.server;
      BatchIsPipelined(v, jobs);
      if v.session.failed {
        NextBatchAfterFailure(v.session, jobs);
        ForeseenInStep(|jobs|, 0, v);
      } else {
        DrainIsForeseen(v.session, jobs, 0);
        FinalIsUp(v.session, jobs);
        ForeseenInStep(|jobs|, FirstFailure(v, jobs), Final(v, jobs));
      }
    }
  }

  ghost predicate DrainsHonestly(f: (Line, seq<Job>) -> Drain, p: (Server, seq<Job>) -> nat, ok: Line -> bool) {
    forall l, jobs :: ok(l) && IsBatch(jobs) ==> IsHonestDrain(f(l, jobs), p(l.server, jobs), |jobs|, ok)
  }

  /** The tally counts every statement once, as good exactly those answered well,
      and nothing is left in flight. */
  predicate IsHonest(t: Tally, good: nat, bad: nat, answered: nat, size: nat, ok: Line -> bool) {
    t.error.None? ==> ok(t.line) && t.good == good + answered && t.good + t.bad == good + bad + size
  }

  lemma {:induction false} HonestBatches(f: (Line, seq<Job>) -> Drain, p: (Server, seq<Job>) -> nat, ok: Line -> bool,
                                         l: Line, batches: seq<seq<Job>>, good: nat, bad: nat)
    requires DrainsHonestly(f, p, ok) && ok(l) && AreBatches(batches)
    ensures IsHonest(ImportBy(f, l, batches, good, bad), good, bad, SumBy(f, p, l, batches), Size(batches), ok)
    decreases |batches|
  {
    if batches != [] {
      var d := f(l, batches[0]);
      assert IsBatch(batches[0]);
      assert IsHonestDrain(d, p(l.server, batches[0]), |batches[0]|, ok);
      if d.outcome.Drained? {
        HonestBatches(f, p, ok, d.line, batches[1..], good + d.outcome.successes, bad + d.outcome.failures);
      }
    }
  }

  lemma {:induction false} BatchesAreHonest()
    ensures DrainsHonestly(DrainedBatch, AnsweredWell, IsInStep)
  {
    forall l, jobs | IsInStep(l) && IsBatch(jobs)
      ensures IsHonestDrain(DrainedBatch(l, jobs), AnsweredWell(l.server, jobs), |jobs|, IsInStep)
    {
      BatchIsHonest(l, jobs);
    }
  }

  /** An import that ends without an error has counted every statement once, as good
      exactly those answered well, and leaves nothing in flight. */
  lemma {:induction false} ImportIsHonest(l: Line, batches: seq<seq<Job>>, good: nat, bad: nat)
    requires IsInStep(l) && AreBatches(batches)
    ensures IsHonest(Import(l, batches, good, bad), good, bad, AnsweredInAll(l, batches), Size(batches), IsInStep)
  {
    BatchesAreHonest();
    HonestBatches(DrainedBatch, AnsweredWell, IsInStep, l, batches, good, bad);
  }

  /** A session that a batch leaves FAILED ends the import, unless the next batch is of
      at most two statements. */
  lemma {:induction false} FailedSessionEndsImport(l: Line, jobs: seq<Job>, more: seq<seq<Job>>, good: nat, bad: nat)
    requires IsInStep(l) && l.server.session.failed && AreJobs(jobs) && |jobs| > 2
    ensures Import(l, [jobs] + more, good, bad).error == Some(ResetRefused)
  {
    assert ([jobs] + more)[0] == jobs;
    BatchIsPipelined(l.server, jobs);
    NextBatchAfterFailure(l.server.session, jobs);
  }
}
