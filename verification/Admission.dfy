/** Who gets in: authentication over single requests and over runs. */
module Admission {
  import opened Texts
  import opened Statements
  import opened BoltSession

  /** A HELLO that is served and whose credentials the provider accepts. */
  predicate IsAdmitted(s: Session, req: Request, w: World) {
    req.Hello? && !s.failed && !w.authBlocked && w.authOk
  }

  /** The name by which a principal is known. */
  function NameOf(principal: Text): Text {
    Lower(Trim(principal))
  }

  lemma {:induction false} PerformAdmitsNoOne(s: Session, stmt: Statement, w: World)
    ensures Perform(s, stmt, w).next.authenticated == s.authenticated && Perform(s, stmt, w).next.user == s.user
  {
  }

  lemma {:induction false} RunAdmitsNoOne(s: Session, req: Request, w: World)
    requires CursorOk(s) && req.Run?
    ensures var next := Dispatch(s, req, w).next; next.authenticated == s.authenticated && next.user == s.user
  {
    DispatchOfRun(s, req, w);
    var b := if req.exempt then Bound(s) else Bind(s, req.target, w);
    if b.Bound? && req.parsed.Some? {
      PerformAdmitsNoOne(b.next, req.parsed.value, w);
    }
  }

  /** A request authenticates the session if and only if it is such a HELLO, and the
      session is then in that user's name; none ever takes it back. */
  lemma {:induction false} StepAdmitsExactly(s: Session, req: Request, w: World)
    requires CursorOk(s)
    ensures var next := Dispatch(s, req, w).next;
      && (next.authenticated <==> s.authenticated || IsAdmitted(s, req, w))
      && next.user == if IsAdmitted(s, req, w) then Some(NameOf(req.principal)) else s.user
  {
    if req.Run? {
      RunAdmitsNoOne(s, req, w);
    }
  }

  /** The client is told: a HELLO that is served succeeds if and only if it is admitted,
      and fails with a code of its own if the address is blocked. */
  lemma {:induction false} HelloIsAnswered(s: Session, principal: Text, w: World)
    requires CursorOk(s) && !s.failed
    ensures var (req, step) := (Hello(principal), Dispatch(s, Hello(principal), w));
      && (step.replies == [OK] <==> IsAdmitted(s, req, w))
      && (step.replies == [Failure(AuthorizationExpired)] <==> w.authBlocked)
      && (step.replies == [Failure(Unauthorized)] <==> !w.authBlocked && !w.authOk)
      && (step.next.failed <==> !IsAdmitted(s, req, w))
      && step.calls == []
  {
  }

  // ── Whole runs ────────────────────────────────────────────────────────

  /** The principal of the last HELLO of the run that is admitted. */
  ghost function LastAdmitted(s: Session, events: seq<Event>): Option<Text>
    requires Inv(s) && AllClassified(events)
    decreases |events|
  {
    if events == [] then None
    else
      var (e, later) := (events[0], if Dispatch(s, events[0].req, events[0].w).exit.Continue? then
                                      LastAdmitted(AfterEvent(s, events[0]), events[1..]) else None);
      if later.Some? then later else if IsAdmitted(s, e.req, e.w) then Some(e.req.principal) else None
  }

  /** Over every run the session is authenticated if and only if some HELLO was admitted,
      and in the name of the last that was. */
  lemma {:induction false} RunAdmitsExactly(s: Session, events: seq<Event>)
    requires Inv(s) && AllClassified(events)
    ensures var (final, last) := (RunAll(s, events).final, LastAdmitted(s, events));
      && (final.authenticated <==> s.authenticated || last.Some?)
      && final.user == if last.Some? then Some(NameOf(last.value)) else s.user
    decreases |events|
  {
    if events != [] {
      StepAdmitsExactly(s, events[0].req, events[0].w);
      if Dispatch(s, events[0].req, events[0].w).exit.Continue? {
        RunAdmitsExactly(AfterEvent(s, events[0]), events[1..]);
      }
    }
  }

  /** From a fresh connection nothing is asked of any engine, and no statement
      administered, before a HELLO has been admitted. */
  lemma {:induction false} NoCallUnadmitted(s: Session, events: seq<Event>)
    requires Inv(s) && AllClassified(events) && !s.authenticated && LastAdmitted(s, events).None?
    ensures RunAll(s, events).calls == []
    decreases |events|
  {
    if events != [] {
      CallsStayOnDatabase(s, events[0].req, events[0].w);
      StepAdmitsExactly(s, events[0].req, events[0].w);
      if Dispatch(s, events[0].req, events[0].w).exit.Continue? {
        NoCallUnadmitted(AfterEvent(s, events[0]), events[1..]);
      }
    }
  }

  lemma {:induction false} CallsNeedAdmission(events: seq<Event>)
    requires AllClassified(events) && RunAll(FRESH, events).calls != []
    ensures LastAdmitted(FRESH, events).Some?
  {
    if LastAdmitted(FRESH, events).None? {
      NoCallUnadmitted(FRESH, events);
    }
  }
}
