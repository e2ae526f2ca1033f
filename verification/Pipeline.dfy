/** The pipelining client (`bolt_client.rs`) and a session, joined by two queues:
    requests on their way to the server and replies on their way back. */
module Pipeline {
  import opened Texts
  import opened Statements
  import opened BoltSession

  // ── The wire ──────────────────────────────────────────────────────────

  type Live = s: Session | CursorOk(s) witness FRESH

  /** A session that has panicked or said goodbye answers nothing any more. */
  datatype Server = Up(session: Live) | Down

  datatype Served = Served(replies: seq<Reply>, server: Server)

  lemma {:induction false} PerformKeepsCursor(s: Session, stmt: Statement, w: World)
    requires CursorOk(s)
    ensures CursorOk(Perform(s, stmt, w).next)
  {
  }

  lemma {:induction false} RunKeepsCursor(s: Session, exempt: bool, parsed: Option<Statement>, target: Option<DbName>,
                                          w: World)
    requires CursorOk(s)
    ensures CursorOk(OnRun(s, exempt, parsed, target, w).next)
  {
    var b := if exempt then Bound(s) else Bind(s, target, w);
    if b.Bound? && parsed.Some? {
      PerformKeepsCursor(b.next, parsed.value, w);
    }
  }

  lemma {:induction false} DispatchKeepsCursor(s: Session, req: Request, w: World)
    requires CursorOk(s)
    ensures CursorOk(Dispatch(s, req, w).next)
  {
    if req.Run? {
      RunKeepsCursor(s, req.exempt, req.parsed, req.target, w);
    }
  }

  function Serve(v: Server, e: Event): Served {
    if v.Down? then Served([], Down)
    else
      DispatchKeepsCursor(v.session, e.req, e.w);
      var step := Dispatch(v.session, e.req, e.w);
      Served(step.replies, if step.exit.Continue? then Up(step.next) else Down)
  }

  /** One stretch of service after another. */
  function Join(a: Served, b: Served): Served {
    Served(a.replies + b.replies, b.server)
  }

  lemma {:induction false} JoinAssoc(a: Served, b: Served, c: Served)
    ensures Join(Join(a, b), c) == Join(a, Join(b, c))
  {
    assert a.replies + b.replies + c.replies == a.replies + (b.replies + c.replies);
  }

  function ServeAll(v: Server, events: seq<Event>): Served
    decreases |events|
  {
    if events == [] then Served([], v)
    else
      var one := Serve(v, events[0]);
      Join(one, ServeAll(one.server, events[1..]))
  }

  lemma {:induction false} ServeConcat(v: Server, a: seq<Event>, b: seq<Event>)
    ensures ServeAll(v, a + b) == Join(ServeAll(v, a), ServeAll(ServeAll(v, a).server, b))
    decreases |a|
  {
    if a == [] {
      assert a + b == b;
    } else {
      assert (a + b)[0] == a[0] && (a + b)[1..] == a[1..] + b;
      var one := Serve(v, a[0]);
      var more := ServeAll(one.server, a[1..]);
      ServeConcat(one.server, a[1..], b);
      JoinAssoc(one, more, ServeAll(more.server, b));
    }
  }

  lemma {:induction false} ServeOne(v: Server, e: Event)
    ensures ServeAll(v, [e]) == Serve(v, e)
  {
    assert [e][1..] == [];
  }

  lemma {:induction false} ServeSnoc(v: Server, a: seq<Event>, e: Event)
    ensures ServeAll(v, a + [e]) == Join(ServeAll(v, a), Serve(ServeAll(v, a).server, e))
  {
    ServeConcat(v, a, [e]);
    ServeOne(ServeAll(v, a).server, e);
  }

  // ── What the client can see ───────────────────────────────────────────

  /** The replies the client has yet to read, those still to be made included, and
      the server once it has served everything sent. */
  datatype Line = Line(incoming: seq<Reply>, server: Server)

  function Following(read: seq<Reply>, rest: Served): Line {
    Line(read + rest.replies, rest.server)
  }

  function Sent(l: Line, e: Event): Line {
    Following(l.incoming, Serve(l.server, e))
  }

  lemma {:induction false} SentFollows(read: seq<Reply>, a: Served, e: Event)
    ensures Following(read, Join(a, Serve(a.server, e))) == Sent(Following(read, a), e)
  {
    JoinAssoc(Served(read, Down), a, Serve(a.server, e));
  }

  lemma {:induction false} PopFollows(read: seq<Reply>, rest: Served)
    requires read != []
    ensures var l := Following(read, rest);
      && l.incoming != [] && l.incoming[0] == read[0]
      && Following(read[1..], rest) == l.(incoming := l.incoming[1..])
  {
  }

  /** Whether a request is served now or later is all the same. */
  lemma {:induction false} TurnsAlike(v: Server, requests: seq<Event>, more: seq<Event>, read: seq<Reply>)
    requires requests != []
    ensures var one := Serve(v, requests[0]);
      Following(read + one.replies, ServeAll(one.server, requests[1..] + more)) ==
      Following(read, ServeAll(v, requests + more))
  {
    var (all, one) := (requests + more, Serve(v, requests[0]));
    assert all[0] == requests[0] && all[1..] == requests[1..] + more;
    JoinAssoc(Served(read, Down), one, ServeAll(one.server, all[1..]));
  }

  /** RESET asks nothing of the rest of the server. */
  const RESET := Event(Reset, SomeWorld())

  // ── drain_pipeline, as a function ─────────────────────────────────────

  /** `Starved`: the connection ends, or stays silent, before the reply comes. */
  datatype Outcome =
    | Drained(successes: nat, failures: nat)
    | ResetRefused
    | UnexpectedRecord
    | Starved

  datatype Drain = Drain(outcome: Outcome, line: Line)

  /** Replies up to and including the first that is not a record. */
  function SummaryAt(incoming: seq<Reply>, i: nat): (k: nat)
    requires i <= |incoming|
    ensures i <= k <= |incoming|
    ensures forall j :: i <= j < k ==> incoming[j].Record?
    ensures k < |incoming| ==> !incoming[k].Record?
    decreases |incoming| - i
  {
    if i < |incoming| && incoming[i].Record? then SummaryAt(incoming, i + 1) else i
  }

  /** One pair read while the server is not known to be FAILED. */
  datatype Pair = Pair(ok: bool, rest: seq<Reply>) | NoPair(why: Outcome)

  function ReadPair(incoming: seq<Reply>): (p: Pair)
    ensures p.NoPair? ==> !p.why.Drained?
  {
    if incoming == [] then NoPair(Starved)
    else if incoming[0].Record? then NoPair(UnexpectedRecord)
    else if incoming[0].Success? then
      var pulled := incoming[1..];
      var k := SummaryAt(pulled, 0);
      if k == |pulled| then NoPair(Starved) else Pair(pulled[k].Success?, pulled[k + 1..])
    else if |incoming| == 1 then NoPair(Starved)
    else Pair(false, incoming[2..])
  }

  function AfterPair(incoming: seq<Reply>): seq<Reply> {
    var p := ReadPair(incoming);
    if p.Pair? then p.rest else if p.why.UnexpectedRecord? then incoming[1..] else []
  }

  /** A pair read in the FAILED state: both replies are passed over and RESET is
      sent; the next reply is taken for the answer to it. */
  function AfterSkip(l: Line): (Option<Outcome>, Line) {
    if |l.incoming| < 2 then (Some(Starved), l.(incoming := []))
    else
      var r := Sent(l.(incoming := l.incoming[2..]), RESET);
      if r.incoming == [] then (Some(Starved), r)
      else
        (if r.incoming[0].Success? then None else Some(ResetRefused), r.(incoming := r.incoming[1..]))
  }

  /** The rest of a drain with `count` pairs to go. */
  function DrainFrom(l: Line, count: nat, good: nat, bad: nat, failed: bool): Drain
    decreases count
  {
    if count == 0 then Drain(Drained(good, bad), l)
    else if failed then
      var (stop, next) := AfterSkip(l);
      if stop.Some? then Drain(stop.value, next) else DrainFrom(next, count - 1, good, bad + 1, false)
    else
      var (p, next) := (ReadPair(l.incoming), l.(incoming := AfterPair(l.incoming)));
      if p.NoPair? then Drain(p.why, next)
      else if p.ok then DrainFrom(next, count - 1, good + 1, bad, false)
      else DrainFrom(next, count - 1, good, bad + 1, true)
  }

  lemma {:induction false} DrainSkips(l: Line, count: nat, good: nat, bad: nat, stop: Option<Outcome>, next: Line)
    requires count > 0 && (stop, next) == AfterSkip(l)
    ensures DrainFrom(l, count, good, bad, true) ==
            if stop.Some? then Drain(stop.value, next) else DrainFrom(next, count - 1, good, bad + 1, false)
  {
  }

  lemma {:induction false} DrainReads(l: Line, count: nat, good: nat, bad: nat, p: Pair, next: Line)
    requires count > 0 && p == ReadPair(l.incoming) && next == l.(incoming := AfterPair(l.incoming))
    ensures DrainFrom(l, count, good, bad, false) ==
            if p.NoPair? then Drain(p.why, next)
            else if p.ok then DrainFrom(next, count - 1, good + 1, bad, false)
            else DrainFrom(next, count - 1, good, bad + 1, true)
  {
  }

  /** Whatever the server says, a drain that ends well accounts for every pair. */
  lemma {:induction false} DrainCounts(l: Line, count: nat, good: nat, bad: nat, failed: bool)
    ensures var o := DrainFrom(l, count, good, bad, failed).outcome;
      o.Drained? ==> o.successes + o.failures == good + bad + count
    decreases count
  {
    if count > 0 {
      if failed {
        var (stop, next) := AfterSkip(l);
        if stop.None? {
          DrainCounts(next, count - 1, good, bad + 1, false);
        }
      } else {
        var (p, next) := (ReadPair(l.incoming), l.(incoming := AfterPair(l.incoming)));
        if p.Pair? {
          DrainCounts(next, count - 1, if p.ok then good + 1 else good, if p.ok then bad else bad + 1, !p.ok);
        }
      }
    }
  }

  lemma {:induction false} Shifted(inc: seq<Reply>, k: nat)
    requires k <= |inc|
    ensures k < |inc| ==> inc[k..] != [] && inc[k..][0] == inc[k] && inc[k..][1..] == inc[k + 1..]
    ensures k == |inc| ==> inc[k..] == []
  {
  }

  /** The rows of the replies so far, all of them records. */
  ghost predicate HaveRead(inc: seq<Reply>, rows: seq<Row>) {
    && |rows| <= |inc|
    && SummaryAt(inc, |rows|) == SummaryAt(inc, 0)
    && forall j :: 0 <= j < |rows| ==> inc[j] == Record(rows[j])
  }

  lemma {:induction false} ReadOne(inc: seq<Reply>, rows: seq<Row>, row: Row)
    requires HaveRead(inc, rows) && |rows| < |inc| && inc[|rows|] == Record(row)
    ensures HaveRead(inc, rows + [row])
  {
  }

  /** Of the line `l` these rows and the reply `last` behind them are read; `view` is left. */
  ghost predicate IsReading(l: Line, rows: seq<Row>, last: Option<Reply>, view: Line) {
    && HaveRead(l.incoming, rows)
    && last == (if |rows| < |l.incoming| then Some(l.incoming[|rows|]) else None)
    && view == l.(incoming := if last.Some? then l.incoming[|rows| + 1..] else [])
  }

  /** What one `Receive` does to the line. */
  ghost predicate IsReceived(l: Line, r: Option<Reply>, rest: Line) {
    && (r.Some? <==> l.incoming != [])
    && (r.Some? ==> r.value == l.incoming[0])
    && rest == l.(incoming := if r.Some? then l.incoming[1..] else [])
  }

  lemma {:induction false} ReadingGoesOn(l: Line, rows: seq<Row>, last: Reply, view: Line, r: Option<Reply>, rest: Line)
    requires IsReading(l, rows, Some(last), view) && last.Record? && IsReceived(view, r, rest)
    ensures IsReading(l, rows + [last.row], r, rest)
  {
    ReadOne(l.incoming, rows, last.row);
    Shifted(l.incoming, |rows| + 1);
  }

  // ── run_query, as a function ──────────────────────────────────────────

  datatype Answered = Rows(rows: seq<Row>) | QueryFailed | ConnectionIgnored | NoAnswer

  function RowsIn(records: seq<Reply>): seq<Row>
    requires forall j :: 0 <= j < |records| ==> records[j].Record?
  {
    seq(|records|, j requires 0 <= j < |records| => records[j].row)
  }

  lemma {:induction false} RowsAre(incoming: seq<Reply>, rows: seq<Row>)
    requires |rows| <= |incoming| && SummaryAt(incoming, 0) == |rows|
    requires forall j :: 0 <= j < |rows| ==> incoming[j] == Record(rows[j])
    ensures RowsIn(incoming[..SummaryAt(incoming, 0)]) == rows
  {
  }

  /** Reading the replies to a PULL. */
  function Pulled(l: Line): (Answered, Line) {
    var k := SummaryAt(l.incoming, 0);
    if k == |l.incoming| then (NoAnswer, l.(incoming := []))
    else
      var last := l.incoming[k];
      (if last.Success? then Rows(RowsIn(l.incoming[..k]))
       else if last.Ignored? then ConnectionIgnored else QueryFailed,
       l.(incoming := l.incoming[k + 1..]))
  }

  function Queried(l: Line, run: Event, pull: Event): (Answered, Line) {
    var asked := Sent(l, run);
    if asked.incoming == [] then (NoAnswer, asked)
    else
      var (reply, rest) := (asked.incoming[0], asked.(incoming := asked.incoming[1..]));
      if reply.Success? then Pulled(Sent(rest, pull))
      else (if reply.Ignored? then ConnectionIgnored else QueryFailed, rest)
  }

  // ── The client and its connection ─────────────────────────────────────

  class Connection {
    /** Written, not flushed. */
    var buffer: seq<Event>
    /** Flushed, not served. */
    var requests: seq<Event>
    /** Served, not read. */
    var replies: seq<Reply>
    var server: Server

    ghost function View(): Line
      reads this
    {
      Following(replies, ServeAll(server, requests))
    }

    /** What the client would see once its buffer is flushed. */
    ghost function Ahead(): Line
      reads this
    {
      Following(replies, ServeAll(server, requests + buffer))
    }

    constructor (s: Live)
      ensures buffer == [] && View() == Line([], Up(s))
    {
      buffer, requests, replies := [], [], [];
      server := Up(s);
    }

    /** The server takes a turn. It may do so at any time: the client cannot tell. */
    method Turn()
      requires requests != []
      modifies `requests, `replies, `server
      ensures View() == old(View()) && Ahead() == old(Ahead())
      ensures requests == old(requests[1..])
    {
      TurnsAlike(server, requests, [], replies);
      TurnsAlike(server, requests, buffer, replies);
      assert requests + [] == requests && requests[1..] + [] == requests[1..];
      var one := Serve(server, requests[0]);
      server := one.server;
      replies := replies + one.replies;
      requests := requests[1..];
    }

    /** Up to `n` turns. */
    method Turns(n: nat)
      modifies `requests, `replies, `server
      ensures View() == old(View()) && Ahead() == old(Ahead())
    {
      var i := 0;
      while i < n && requests != []
        invariant View() == old(View()) && Ahead() == old(Ahead())
      {
        Turn();
        i := i + 1;
      }
    }

    /** `recv_response` */
    method Receive() returns (r: Option<Reply>)
      modifies this
      ensures buffer == old(buffer)
      ensures IsReceived(old(View()), r, View())
    {
      while replies == [] && requests != []
        invariant View() == old(View()) && buffer == old(buffer)
        decreases |requests|
      {
        Turn();
      }
      if replies == [] {
        return None;
      }
      PopFollows(replies, ServeAll(server, requests));
      r := Some(replies[0]);
      replies := replies[1..];
    }

    /** `flush_pipeline` */
    method Flush()
      modifies this
      ensures buffer == [] && View() == old(Ahead())
    {
      requests := requests + buffer;
      buffer := [];
    }

    /** `pipeline_run`: RUN and PULL go into the buffer, and nowhere else. */
    method PipelineRun(run: Event, pull: Event)
      modifies this
      ensures View() == old(View())
      ensures buffer == old(buffer) + [run, pull]
      ensures Ahead() == Sent(Sent(old(Ahead()), run), pull)
    {
      ghost var all := requests + buffer;
      ServeSnoc(server, all, run);
      ServeSnoc(server, all + [run], pull);
      SentFollows(replies, ServeAll(server, all), run);
      SentFollows(replies, ServeAll(server, all + [run]), pull);
      assert requests + (buffer + [run, pull]) == all + [run] + [pull];
      buffer := buffer + [run, pull];
    }

    /** `send_request`: writes behind the buffer and flushes. */
    method Send(e: Event)
      modifies this
      ensures buffer == [] && View() == Sent(old(Ahead()), e)
    {
      ServeSnoc(server, requests + buffer, e);
      SentFollows(replies, ServeAll(server, requests + buffer), e);
      requests := requests + buffer + [e];
      buffer := [];
    }

    /** Read on to the first reply that is not a record. */
    method ReadRecords() returns (rows: seq<Row>, last: Option<Reply>)
      modifies this
      ensures buffer == old(buffer)
      ensures var inc := old(View()).incoming;
        var k := SummaryAt(inc, 0);
        && rows == RowsIn(inc[..k])
        && last == (if k < |inc| then Some(inc[k]) else None)
        && View() == old(View()).(incoming := if k < |inc| then inc[k + 1..] else [])
    {
      ghost var inc := View().incoming;
      ghost var l := View();
      rows := [];
      last := Receive();
      while last.Some? && last.value.Record?
        invariant buffer == old(buffer) && IsReading(l, rows, last, View())
        decreases |inc| - |rows|
      {
        ghost var view := View();
        var more := Receive();
        ReadingGoesOn(l, rows, last.value, view, more, View());
        rows, last := rows + [last.value.row], more;
      }
      RowsAre(inc, rows);
    }

    /** One turn of the loop of `drain_pipeline`, server not known to be FAILED. */
    method DrainPair() returns (ok: bool, stop: Option<Outcome>)
      modifies this
      ensures buffer == old(buffer)
      ensures var p := ReadPair(old(View()).incoming);
        && stop == (if p.NoPair? then Some(p.why) else None)
        && (p.Pair? ==> ok == p.ok)
        && View() == old(View()).(incoming := AfterPair(old(View()).incoming))
    {
      ghost var start := View();
      var run := Receive();
      if run.None? {
        return false, Some(Starved);
      }
      if run.value.Record? {
        return false, Some(UnexpectedRecord);
      }
      if !run.value.Success? {
        var pull := Receive();
        return false, if pull.None? then Some(Starved) else None;
      }
      var rows, last := ReadRecords();
      if last.None? {
        return false, Some(Starved);
      }
      return last.value.Success?, None;
    }

    /** The other turn: read past the ignored pair and ask for recovery. */
    method SkipPair() returns (stop: Option<Outcome>)
      requires buffer == []
      modifies this
      ensures buffer == []
      ensures (stop, View()) == AfterSkip(old(View()))
    {
      ghost var start := View().incoming;
      var run := Receive();
      var pull := Receive();
      if pull.None? {
        return Some(Starved);
      }
      assert start[1..][1..] == start[2..];
      assert requests + buffer == requests;
      Send(RESET);
      var reply := Receive();
      if reply.None? {
        return Some(Starved);
      }
      return if reply.value.Success? then None else Some(ResetRefused);
    }

    /** One turn of the loop of `drain_pipeline`. */
    method DrainTurn(ghost count: nat, good: nat, bad: nat, failed: bool)
      returns (stop: Option<Outcome>, nextGood: nat, nextBad: nat, nextFailed: bool)
      requires buffer == [] && count > 0
      modifies this
      ensures buffer == []
      ensures DrainFrom(old(View()), count, good, bad, failed) ==
              if stop.Some? then Drain(stop.value, View())
              else DrainFrom(View(), count - 1, nextGood, nextBad, nextFailed)
    {
      ghost var l := View();
      nextGood, nextBad, nextFailed := good, bad, false;
      if failed {
        stop := SkipPair();
        nextBad := bad + 1;
        DrainSkips(l, count, good, bad, stop, View());
      } else {
        var ok;
        ok, stop := DrainPair();
        if ok {
          nextGood := good + 1;
        } else {
          nextBad, nextFailed := bad + 1, true;
        }
        DrainReads(l, count, good, bad, ReadPair(l.incoming), View());
      }
    }

    /** `drain_pipeline` */
    method DrainPipeline(count: nat) returns (o: Outcome)
      requires buffer == []
      modifies this
      ensures buffer == []
      ensures Drain(o, View()) == DrainFrom(old(View()), count, 0, 0, false)
    {
      var good, bad, failed := 0, 0, false;
      for i := 0 to count
        invariant buffer == []
        invariant DrainFrom(View(), count - i, good, bad, failed) == DrainFrom(old(View()), count, 0, 0, false)
      {
        var stop;
        stop, good, bad, failed := DrainTurn(count - i, good, bad, failed);
        if stop.Some? {
          return stop.value;
        }
      }
      return Drained(good, bad);
    }

    /** The reading half of `run_query`. */
    method ReadRows() returns (a: Answered)
      modifies this
      ensures buffer == old(buffer)
      ensures (a, View()) == Pulled(old(View()))
    {
      var rows, last := ReadRecords();
      if last.None? {
        return NoAnswer;
      }
      return if last.value.Success? then Rows(rows)
        else if last.value.Ignored? then ConnectionIgnored else QueryFailed;
    }

    /** `run_query` */
    method RunQuery(run: Event, pull: Event) returns (a: Answered)
      requires buffer == []
      modifies this
      ensures buffer == []
      ensures (a, View()) == Queried(old(View()), run, pull)
    {
      assert requests + buffer == requests;
      Send(run);
      var reply := Receive();
      if reply.None? {
        return NoAnswer;
      }
      if !reply.value.Success? {
        return if reply.value.Ignored? then ConnectionIgnored else QueryFailed;
      }
      assert requests + buffer == requests;
      Send(pull);
      a := ReadRows();
    }

    /** `reset` */
    method Recover() returns (ok: bool)
      requires buffer == []
      modifies this
      ensures buffer == []
      ensures var sent := Sent(old(View()), RESET).incoming;
        && (ok <==> sent != [] && sent[0].Success?)
        && View() == Sent(old(View()), RESET).(incoming := if sent == [] then [] else sent[1..])
    {
      assert requests + buffer == requests;
      Send(RESET);
      var reply := Receive();
      ok := reply.Some? && reply.value.Success?;
    }
  }
}
