/** The bounded audit channel (`audit.rs`): any number of senders, one writer, and a
    shared counter of events that found the channel full. One step of the machine is
    one atomic action; every interleaving of them is a run. */
module Backpressure {
  type Event = nat

  /** What the writer is about to do. */
  datatype Writer =
    | Idle
    | Writing(event: Event)
    | Swapping
    | Reporting(dropped: nat)
    /** Shutdown seen: empty the channel, then go. */
    | Draining
    | DrainWriting(event: Event)
    | Leaving
    | Gone

  /** `limbo` are senders turned away that have not counted it yet. `accepted`,
      `written`, `reports` and `abandoned` record what happened. */
  datatype Channel = Channel(
    capacity: nat,
    queue: seq<Event>,
    dropped: nat,
    limbo: nat,
    writer: Writer,
    offered: nat,
    accepted: seq<Event>,
    written: seq<Event>,
    reports: seq<nat>,
    abandoned: seq<Event>)

  datatype Action =
    | Offer(event: Event)
    | CountDrop
    | Receive
    | Write
    | Swap
    | Report
    | Shutdown
    | Close

  function Start(capacity: nat): Channel {
    Channel(capacity, [], 0, 0, Idle, 0, [], [], [], [])
  }

  predicate Accepts(c: Channel) {
    !c.writer.Gone? && |c.queue| < c.capacity
  }

  predicate CanStep(c: Channel, a: Action) {
    match a
    case Offer(_) => true
    case CountDrop => c.limbo > 0
    case Receive => c.writer.Draining? || (c.writer.Idle? && c.queue != [])
    case Write => c.writer.Writing? || c.writer.DrainWriting?
    case Swap => c.writer.Swapping?
    case Report => c.writer.Reporting?
    case Shutdown => c.writer.Idle?
    case Close => c.writer.Leaving?
  }

  function Step(c: Channel, a: Action): Channel
    requires CanStep(c, a)
  {
    match a
    // `send`: `try_send`, and on failure the counter, in two atomic actions
    case Offer(e) =>
      if Accepts(c) then c.(queue := c.queue + [e], accepted := c.accepted + [e], offered := c.offered + 1)
      else c.(limbo := c.limbo + 1, offered := c.offered + 1)
    case CountDrop => c.(limbo := c.limbo - 1, dropped := c.dropped + 1)
    case Receive =>
      if c.queue == [] then c.(writer := Leaving)
      else
        var e := c.queue[0];
        c.(queue := c.queue[1..], writer := if c.writer.Idle? then Writing(e) else DrainWriting(e))
    case Write =>
      c.(written := c.written + [c.writer.event], writer := if c.writer.Writing? then Swapping else Draining)
    // `drain_file_backpressure`
    case Swap => c.(dropped := 0, writer := if c.dropped == 0 then Idle else Reporting(c.dropped))
    case Report => c.(reports := c.reports + [c.writer.dropped], writer := Idle)
    case Shutdown => c.(writer := Draining)
    // the receiver is gone, with whatever came in after the last look
    case Close => c.(writer := Gone, abandoned := c.queue, queue := [])
  }

  /** All of `actions`, in this order, were possible. */
  ghost predicate IsRun(c: Channel, actions: seq<Action>)
    decreases |actions|
  {
    actions == [] || (CanStep(c, actions[0]) && IsRun(Step(c, actions[0]), actions[1..]))
  }

  ghost function After(c: Channel, actions: seq<Action>): Channel
    requires IsRun(c, actions)
    decreases |actions|
  {
    if actions == [] then c else After(Step(c, actions[0]), actions[1..])
  }

  // ── Conservation ──────────────────────────────────────────────────────

  function Sum(reports: seq<nat>): nat {
    if reports == [] then 0 else Sum(reports[..|reports| - 1]) + reports[|reports| - 1]
  }

  /** The event in the writer's hands. */
  function InHand(w: Writer): seq<Event> {
    if w.Writing? || w.DrainWriting? then [w.event] else []
  }

  /** Drops taken from the counter and not yet written as a report. */
  function Unreported(w: Writer): nat {
    if w.Reporting? then w.dropped else 0
  }

  /** Every event offered is accounted for, once. */
  predicate Balances(c: Channel) {
    c.offered == |c.written| + |InHand(c.writer)| + |c.queue| + |c.abandoned|
                 + c.limbo + c.dropped + Unreported(c.writer) + Sum(c.reports)
  }

  /** Events come out in the order they went in. */
  predicate IsFifo(c: Channel) {
    c.accepted == c.written + InHand(c.writer) + c.queue + c.abandoned
  }

  predicate Inv(c: Channel) {
    && Balances(c)
    && IsFifo(c)
    && |c.queue| <= c.capacity
    && (c.abandoned != [] ==> c.writer.Gone?)
    && (c.writer.Gone? ==> c.queue == [])
  }

  lemma {:induction false} StepBalances(c: Channel, a: Action)
    requires Inv(c) && CanStep(c, a)
    ensures Balances(Step(c, a))
  {
    if a.Report? {
      assert (c.reports + [c.writer.dropped])[..|c.reports|] == c.reports;
    }
  }

  lemma {:induction false} StepIsFifo(c: Channel, a: Action)
    requires Inv(c) && CanStep(c, a)
    ensures IsFifo(Step(c, a))
  {
    if a.Receive? && c.queue != [] {
      assert c.queue == [c.queue[0]] + c.queue[1..];
    }
  }

  lemma {:induction false} StepKeepsInv(c: Channel, a: Action)
    requires Inv(c) && CanStep(c, a)
    ensures Inv(Step(c, a)) && Step(c, a).capacity == c.capacity
  {
    StepBalances(c, a);
    StepIsFifo(c, a);
  }

  lemma {:induction false} RunKeepsInv(c: Channel, actions: seq<Action>)
    requires Inv(c) && IsRun(c, actions)
    ensures Inv(After(c, actions)) && After(c, actions).capacity == c.capacity
    decreases |actions|
  {
    if actions != [] {
      StepKeepsInv(c, actions[0]);
      RunKeepsInv(Step(c, actions[0]), actions[1..]);
    }
  }

  /** Whatever the interleaving: nothing offered is forgotten, nothing is written that
      was not accepted, in order, and the channel never holds more than it may. */
  lemma {:induction false} EveryEventIsAccountedFor(capacity: nat, actions: seq<Action>)
    requires IsRun(Start(capacity), actions)
    ensures var c := After(Start(capacity), actions);
      && Balances(c)
      && c.accepted == c.written + InHand(c.writer) + c.queue + c.abandoned
      && |c.queue| <= capacity
  {
    RunKeepsInv(Start(capacity), actions);
  }

  /** When the writer rests with nothing queued or uncounted, what it has written and
      what it has reported as dropped are all there ever was. */
  lemma {:induction false} AtRestNothingIsMissing(capacity: nat, actions: seq<Action>)
    requires IsRun(Start(capacity), actions)
    ensures var c := After(Start(capacity), actions);
      c.writer.Idle? && c.queue == [] && c.limbo == 0 && c.dropped == 0 ==>
      c.written == c.accepted && c.offered == |c.written| + Sum(c.reports)
  {
    RunKeepsInv(Start(capacity), actions);
    var c := After(Start(capacity), actions);
    if c.writer.Idle? && c.queue == [] {
      assert c.abandoned == [];
      assert c.written + [] + [] + [] == c.written;
    }
  }

  // ── Which drops are reported ──────────────────────────────────────────

  /** `CountDrop` actions since the last `Swap`. */
  function SinceSwap(actions: seq<Action>): nat {
    if actions == [] then 0
    else
      var (before, last) := (actions[..|actions| - 1], actions[|actions| - 1]);
      if last.Swap? then 0 else SinceSwap(before) + if last.CountDrop? then 1 else 0
  }

  /** `CountDrop` actions in all. */
  function Counted(actions: seq<Action>): nat {
    if actions == [] then 0
    else Counted(actions[..|actions| - 1]) + if actions[|actions| - 1].CountDrop? then 1 else 0
  }

  /** Events that found the channel full or gone. */
  function TurnedAway(c: Channel): int {
    c.offered - |c.accepted|
  }

  /** `c` has come about by the actions `seen`. */
  predicate Matches(c: Channel, seen: seq<Action>) {
    c.dropped == SinceSwap(seen) && c.limbo == TurnedAway(c) - Counted(seen)
  }

  lemma {:induction false} CountersMatch(c: Channel, seen: seq<Action>, actions: seq<Action>)
    requires IsRun(c, actions) && Matches(c, seen)
    ensures Matches(After(c, actions), seen + actions)
    decreases |actions|
  {
    if actions == [] {
      assert seen + actions == seen;
    } else {
      var more := seen + [actions[0]];
      assert more[..|seen|] == seen;
      CountersMatch(Step(c, actions[0]), more, actions[1..]);
      assert more + actions[1..] == seen + actions;
    }
  }

  /** The counter holds the drops counted since the writer last took it, and the drops
      still to be counted are those turned away and not counted. */
  lemma {:induction false} CountersAreHistory(capacity: nat, actions: seq<Action>)
    requires IsRun(Start(capacity), actions)
    ensures Matches(After(Start(capacity), actions), actions)
  {
    CountersMatch(Start(capacity), [], actions);
    assert [] + actions == actions;
  }

  /** When the writer has gone, every event turned away has been reported if and only if
      each was counted, and none after the writer last took the counter. */
  lemma {:induction false} AllDropsReportedExactly(capacity: nat, actions: seq<Action>)
    requires IsRun(Start(capacity), actions) && After(Start(capacity), actions).writer.Gone?
    ensures var c := After(Start(capacity), actions);
      && Sum(c.reports) == TurnedAway(c) - c.dropped - c.limbo
      && (Sum(c.reports) == TurnedAway(c) <==> c.dropped == 0 && c.limbo == 0)
      && (Sum(c.reports) == TurnedAway(c) <==> SinceSwap(actions) == 0 && Counted(actions) == TurnedAway(c))
  {
    RunKeepsInv(Start(capacity), actions);
    CountersAreHistory(capacity, actions);
    var c := After(Start(capacity), actions);
    assert |c.accepted| == |c.written| + |c.abandoned|;
  }

  /** After shutdown the writer does not take the counter again. */
  lemma {:induction false} DropsAfterShutdownStayUnreported(c: Channel, actions: seq<Action>)
    requires IsRun(c, actions)
    requires c.writer.Draining? || c.writer.DrainWriting? || c.writer.Leaving? || c.writer.Gone?
    ensures After(c, actions).reports == c.reports
    ensures After(c, actions).dropped + After(c, actions).limbo >= c.dropped + c.limbo
    decreases |actions|
  {
    if actions != [] {
      DropsAfterShutdownStayUnreported(Step(c, actions[0]), actions[1..]);
    }
  }

  // ── Drops are reported behind the next event ──────────────────────────

  /** `CountDrop` actions since the last `Write`. */
  function SinceWrite(actions: seq<Action>): nat {
    if actions == [] then 0
    else
      var (before, last) := (actions[..|actions| - 1], actions[|actions| - 1]);
      if last.Write? then 0 else SinceWrite(before) + if last.CountDrop? then 1 else 0
  }

  predicate HasWrite(actions: seq<Action>) {
    actions != [] && (actions[|actions| - 1].Write? || HasWrite(actions[..|actions| - 1]))
  }

  /** The writer has looked at the counter since its last event, and shutdown has not
      been seen. */
  predicate IsSettled(w: Writer) {
    w.Idle? || w.Writing? || w.Reporting?
  }

  predicate IsCaughtUp(c: Channel, seen: seq<Action>) {
    HasWrite(seen) && IsSettled(c.writer) ==> c.dropped <= SinceWrite(seen)
  }

  lemma {:induction false} StepCatchesUp(c: Channel, seen: seq<Action>, a: Action)
    requires CanStep(c, a) && IsCaughtUp(c, seen)
    ensures IsCaughtUp(Step(c, a), seen + [a])
  {
    assert (seen + [a])[..|seen|] == seen;
  }

  lemma {:induction false} RunCatchesUp(c: Channel, seen: seq<Action>, actions: seq<Action>)
    requires IsRun(c, actions) && IsCaughtUp(c, seen)
    ensures IsCaughtUp(After(c, actions), seen + actions)
    decreases |actions|
  {
    if actions == [] {
      assert seen + actions == seen;
    } else {
      StepCatchesUp(c, seen, actions[0]);
      RunCatchesUp(Step(c, actions[0]), seen + [actions[0]], actions[1..]);
      assert seen + [actions[0]] + actions[1..] == seen + actions;
    }
  }

  /** Once the writer rests behind an event, every drop counted before it wrote that
      event has been reported; what the counter holds has come since. */
  lemma {:induction false} DropsAreReportedInTime(capacity: nat, actions: seq<Action>)
    requires IsRun(Start(capacity), actions) && HasWrite(actions)
    requires After(Start(capacity), actions).writer.Idle?
    ensures var c := After(Start(capacity), actions);
      c.dropped <= SinceWrite(actions) && Sum(c.reports) >= Counted(actions) - SinceWrite(actions)
  {
    RunCatchesUp(Start(capacity), [], actions);
    assert [] + actions == actions;
    RunKeepsInv(Start(capacity), actions);
    CountersAreHistory(capacity, actions);
    var c := After(Start(capacity), actions);
    assert c.accepted == c.written + [] + c.queue + [];
  }

  // ── Shutdown empties the channel ──────────────────────────────────────

  /** `Offer` actions since the last `Receive`. */
  function SinceReceive(actions: seq<Action>): nat {
    if actions == [] then 0
    else
      var (before, last) := (actions[..|actions| - 1], actions[|actions| - 1]);
      if last.Receive? then 0 else SinceReceive(before) + if last.Offer? then 1 else 0
  }

  predicate IsEmptied(c: Channel, seen: seq<Action>) {
    && (c.writer.Leaving? ==> |c.queue| <= SinceReceive(seen))
    && (c.writer.Gone? ==> |c.abandoned| <= SinceReceive(seen))
  }

  lemma {:induction false} StepEmpties(c: Channel, seen: seq<Action>, a: Action)
    requires CanStep(c, a) && IsEmptied(c, seen)
    ensures IsEmptied(Step(c, a), seen + [a])
  {
    assert (seen + [a])[..|seen|] == seen;
  }

  lemma {:induction false} RunEmpties(c: Channel, seen: seq<Action>, actions: seq<Action>)
    requires IsRun(c, actions) && IsEmptied(c, seen)
    ensures IsEmptied(After(c, actions), seen + actions)
    decreases |actions|
  {
    if actions == [] {
      assert seen + actions == seen;
    } else {
      StepEmpties(c, seen, actions[0]);
      RunEmpties(Step(c, actions[0]), seen + [actions[0]], actions[1..]);
      assert seen + [actions[0]] + actions[1..] == seen + actions;
    }
  }

  /** Only events offered after the writer's last look, which found the channel empty, are
      abandoned: shutdown loses none that was queued before. */
  lemma {:induction false} ShutdownWritesTheQueue(capacity: nat, actions: seq<Action>)
    requires IsRun(Start(capacity), actions) && After(Start(capacity), actions).writer.Gone?
    ensures |After(Start(capacity), actions).abandoned| <= SinceReceive(actions)
  {
    RunEmpties(Start(capacity), [], actions);
    assert [] + actions == actions;
  }

  /** Nothing is turned away from a channel that has room for everything offered. */
  lemma {:induction false} RoomIsUsed(c: Channel, actions: seq<Action>)
    requires IsRun(c, actions) && Inv(c) && TurnedAway(c) == 0 && !After(c, actions).writer.Gone?
    requires After(c, actions).offered <= c.capacity
    ensures TurnedAway(After(c, actions)) == 0
    decreases |actions|
  {
    if actions != [] {
      StepKeepsInv(c, actions[0]);
      OffersGrow(Step(c, actions[0]), actions[1..]);
      GoneStays(Step(c, actions[0]), actions[1..]);
      RoomForOne(c, actions[0]);
      RoomIsUsed(Step(c, actions[0]), actions[1..]);
    }
  }

  lemma {:induction false} RoomForOne(c: Channel, a: Action)
    requires CanStep(c, a) && Inv(c) && TurnedAway(c) == 0 && !c.writer.Gone? && Step(c, a).offered <= c.capacity
    ensures TurnedAway(Step(c, a)) == 0
  {
    assert |c.accepted| == |c.written| + |InHand(c.writer)| + |c.queue| + |c.abandoned|;
  }

  lemma {:induction false} OffersGrow(c: Channel, actions: seq<Action>)
    requires IsRun(c, actions)
    ensures After(c, actions).offered >= c.offered
    decreases |actions|
  {
    if actions != [] {
      OffersGrow(Step(c, actions[0]), actions[1..]);
    }
  }

  lemma {:induction false} GoneStays(c: Channel, actions: seq<Action>)
    requires IsRun(c, actions)
    ensures c.writer.Gone? ==> After(c, actions).writer.Gone?
    decreases |actions|
  {
    if actions != [] {
      GoneStays(Step(c, actions[0]), actions[1..]);
    }
  }

  /** A channel for one event and two events: the drop is reported behind the first. */
  lemma {:induction false} DropIsReported()
    ensures var actions := [Offer(0)] + ([Offer(1)] + ([CountDrop] +
                           ([Receive] + ([Write] + ([Swap] + ([Report] + []))))));
      && IsRun(Start(1), actions)
      && var c := After(Start(1), actions);
      && c.writer.Idle? && c.written == [0] && c.reports == [1] && c.dropped == 0
  {
    var c1 := Channel(1, [0], 0, 0, Idle, 1, [0], [], [], []);
    var c2 := Channel(1, [0], 0, 1, Idle, 2, [0], [], [], []);
    var c3 := Channel(1, [0], 1, 0, Idle, 2, [0], [], [], []);
    assert Step(Start(1), Offer(0)) == c1;
    assert Step(c1, Offer(1)) == c2 && Step(c2, CountDrop) == c3;
    ReportedTail(c3);
    var tail := [Receive] + ([Write] + ([Swap] + ([Report] + [])));
    RunCons(c2, CountDrop, tail);
    RunCons(c1, Offer(1), [CountDrop] + tail);
    RunCons(Start(1), Offer(0), [Offer(1)] + ([CountDrop] + tail));
  }

  lemma {:induction false} ReportedTail(c: Channel)
    requires c == Channel(1, [0], 1, 0, Idle, 2, [0], [], [], [])
    ensures var actions := [Receive] + ([Write] + ([Swap] + ([Report] + [])));
      IsRun(c, actions) && After(c, actions) == Channel(1, [], 0, 0, Idle, 2, [0], [0], [1], [])
  {
    var c4 := Channel(1, [], 1, 0, Writing(0), 2, [0], [], [], []);
    var c5 := Channel(1, [], 1, 0, Swapping, 2, [0], [0], [], []);
    var c6 := Channel(1, [], 0, 0, Reporting(1), 2, [0], [0], [], []);
    assert Step(c, Receive) == c4 && Step(c4, Write) == c5 && Step(c5, Swap) == c6;
    assert Step(c6, Report) == Channel(1, [], 0, 0, Idle, 2, [0], [0], [1], []);
    RunCons(c6, Report, []);
    RunCons(c5, Swap, [Report] + []);
    RunCons(c4, Write, [Swap] + ([Report] + []));
    RunCons(c, Receive, [Write] + ([Swap] + ([Report] + [])));
  }

  /** Shutdown with one event queued and one drop counted. */
  lemma {:induction false} LostTail(c: Channel)
    requires c == Channel(1, [0], 1, 0, Idle, 2, [0], [], [], [])
    ensures var actions := [Shutdown] + ([Receive] + ([Write] + ([Receive] + ([Close] + []))));
      IsRun(c, actions) && After(c, actions) == Channel(1, [], 1, 0, Gone, 2, [0], [0], [], [])
  {
    var c5 := Channel(1, [], 1, 0, DrainWriting(0), 2, [0], [], [], []);
    var c6 := Channel(1, [], 1, 0, Draining, 2, [0], [0], [], []);
    assert Step(Step(c, Shutdown), Receive) == c5;
    assert Step(c5, Write) == c6;
    assert Step(Step(c6, Receive), Close) == Channel(1, [], 1, 0, Gone, 2, [0], [0], [], []);
    RunCons(Step(c6, Receive), Close, []);
    RunCons(c6, Receive, [Close] + []);
    RunCons(c5, Write, [Receive] + ([Close] + []));
    RunCons(Step(c, Shutdown), Receive, [Write] + ([Receive] + ([Close] + [])));
    RunCons(c, Shutdown, [Receive] + ([Write] + ([Receive] + ([Close] + []))));
  }

  /** A channel for one event, two events, and a shutdown before the writer has looked at
      either: one is written, and the other is neither written nor reported. */
  lemma {:induction false} DropIsLost()
    ensures var actions := [Offer(0)] + ([Offer(1)] + ([CountDrop] +
                           ([Shutdown] + ([Receive] + ([Write] + ([Receive] + ([Close] + [])))))));
      && IsRun(Start(1), actions)
      && var c := After(Start(1), actions);
      && c.writer.Gone? && c.offered == 2 && c.written == [0] && c.reports == [] && TurnedAway(c) == 1
  {
    var tail := [Shutdown] + ([Receive] + ([Write] + ([Receive] + ([Close] + []))));
    var c1 := Channel(1, [0], 0, 0, Idle, 1, [0], [], [], []);
    var c2 := Channel(1, [0], 0, 1, Idle, 2, [0], [], [], []);
    var c3 := Channel(1, [0], 1, 0, Idle, 2, [0], [], [], []);
    assert Step(Start(1), Offer(0)) == c1;
    assert Step(c1, Offer(1)) == c2 && Step(c2, CountDrop) == c3;
    LostTail(c3);
    RunCons(c2, CountDrop, tail);
    RunCons(c1, Offer(1), [CountDrop] + tail);
    RunCons(Start(1), Offer(0), [Offer(1)] + ([CountDrop] + tail));
  }

  lemma {:induction false} RunCons(c: Channel, a: Action, rest: seq<Action>)
    requires CanStep(c, a) && IsRun(Step(c, a), rest)
    ensures IsRun(c, [a] + rest) && After(c, [a] + rest) == After(Step(c, a), rest)
  {
    assert ([a] + rest)[1..] == rest;
  }
}
