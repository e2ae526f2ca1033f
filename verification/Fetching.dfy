/** Incremental fetch: a result is taken away in pieces by PULL and DISCARD. */
module Fetching {
  import opened Texts
  import opened BoltSession

  /** A PULL (`serve`) or a DISCARD. */
  datatype Ask = Ask(n: Option<int>, serve: bool)

  function RequestOf(ask: Ask): Request {
    if ask.serve then Pull(ask.n) else Discard(ask.n)
  }

  // ── How far a result has been taken ───────────────────────────────────

  /** How many of `left` rows an ask takes. */
  function Share(n: int, left: nat): (k: nat)
    ensures k <= left
  {
    if n < 0 || n > left then left else n
  }

  /** Where the first `i` asks leave the cursor. */
  function Cursor(p: Pending, asks: seq<Ask>, i: nat): (c: nat)
    requires p.cursor <= |p.rows| && i <= |asks|
    ensures p.cursor <= c <= |p.rows|
  {
    if i == 0 then p.cursor
    else
      var c := Cursor(p, asks, i - 1);
      c + Share(ReadN(asks[i - 1].n), |p.rows| - c)
  }

  /** The result before ask `i`: it is let go with its last row. */
  function Held(p: Pending, asks: seq<Ask>, i: nat): (h: Option<Pending>)
    requires p.cursor <= |p.rows| && i <= |asks|
    ensures h.Some? ==> h.value.cursor <= |h.value.rows|
  {
    if i == 0 then Some(p)
    else if Cursor(p, asks, i) < |p.rows| then Some(p.(cursor := Cursor(p, asks, i)))
    else None
  }

  /** Ask `i` takes the last row, or finds an empty result for the first time. */
  predicate Ends(p: Pending, asks: seq<Ask>, i: nat)
    requires p.cursor <= |p.rows| && i < |asks|
  {
    Held(p, asks, i).Some? && Held(p, asks, i + 1).None?
  }

  // ── In the session ────────────────────────────────────────────────────

  /** Fetches are answered: the session is not FAILED and the limiter lets them by. */
  predicate CanFetch(s: Session, w: World) {
    !s.failed && CursorOk(s) && w.tokenTaken
  }

  /** What the client is told: the rows, if they are served, and a summary. */
  function Told(serve: bool, rows: seq<Row>, hasMore: bool, stats: Option<Stats>): seq<Reply> {
    (if serve then Records(rows) else []) + [Success(Some(hasMore), stats)]
  }

  /** One ask of a session that holds a result. */
  lemma {:induction false} AskHeld(s: Session, ask: Ask, w: World)
    requires CanFetch(s, w) && s.pending.Some?
    ensures var (step, p) := (Dispatch(s, RequestOf(ask), w), s.pending.value);
      var end := p.cursor + Share(ReadN(ask.n), |p.rows| - p.cursor);
      && step.next == s.(pending := if end < |p.rows| then Some(p.(cursor := end)) else None)
      && step.replies == Told(ask.serve, p.rows[p.cursor..end], end < |p.rows|,
                              if end < |p.rows| then None else p.stats)
      && step.calls == []
  {
    assert Dispatch(s, RequestOf(ask), w) == OnFetch(s, ask.n, ask.serve, w);
  }

  /** One ask of a session that does not. */
  lemma {:induction false} AskNothing(s: Session, ask: Ask, w: World)
    requires CanFetch(s, w) && s.pending.None?
    ensures Dispatch(s, RequestOf(ask), w) == Answer(s, Success(Some(false), None), [])
  {
  }

  function SessionAfter(s: Session, asks: seq<Ask>, w: World, i: nat): (t: Session)
    requires CanFetch(s, w) && i <= |asks|
    ensures CanFetch(t, w)
  {
    if i == 0 then s
    else
      var t := SessionAfter(s, asks, w, i - 1);
      if t.pending.Some? then
        AskHeld(t, asks[i - 1], w);
        Dispatch(t, RequestOf(asks[i - 1]), w).next
      else
        AskNothing(t, asks[i - 1], w);
        Dispatch(t, RequestOf(asks[i - 1]), w).next
  }

  function RepliesTo(s: Session, asks: seq<Ask>, w: World, i: nat): seq<Reply>
    requires CanFetch(s, w) && i < |asks|
  {
    Dispatch(SessionAfter(s, asks, w, i), RequestOf(asks[i]), w).replies
  }

  // ── Any sequence of asks ──────────────────────────────────────────────

  lemma {:induction false} AskStep(s: Session, t: Session, asks: seq<Ask>, w: World, i: nat)
    requires CanFetch(s, w) && CanFetch(t, w) && s.pending.Some? && i < |asks|
    requires t == s.(pending := Held(s.pending.value, asks, i))
    ensures var p := s.pending.value;
      var (from, to) := (Cursor(p, asks, i), Cursor(p, asks, i + 1));
      var step := Dispatch(t, RequestOf(asks[i]), w);
      && step.next == s.(pending := Held(p, asks, i + 1))
      && step.replies == Told(asks[i].serve, p.rows[from..to], to < |p.rows|,
                              if Ends(p, asks, i) then p.stats else None)
  {
    if t.pending.Some? {
      AskHeld(t, asks[i], w);
    } else {
      var p := s.pending.value;
      AskNothing(t, asks[i], w);
      assert Cursor(p, asks, i) == |p.rows|;
      assert p.rows[|p.rows|..|p.rows|] == [] && Records([]) == [];
    }
  }

  lemma {:induction false} SessionHolds(s: Session, asks: seq<Ask>, w: World, i: nat)
    requires CanFetch(s, w) && s.pending.Some? && i <= |asks|
    ensures SessionAfter(s, asks, w, i) == s.(pending := Held(s.pending.value, asks, i))
  {
    if i > 0 {
      SessionHolds(s, asks, w, i - 1);
      AskStep(s, SessionAfter(s, asks, w, i - 1), asks, w, i - 1);
    }
  }

  /** Whatever the sizes asked for, ask `i` takes the rows from where the ask before it
      stopped, so that the result is taken in order, without gap or repeat; a PULL hands
      over exactly those rows; `has_more` is true exactly while rows remain; and the
      statistics come with the reply that ends the result. */
  lemma {:induction false} FetchesPartition(s: Session, asks: seq<Ask>, w: World, i: nat)
    requires CanFetch(s, w) && s.pending.Some? && i < |asks|
    ensures var p := s.pending.value;
      var (from, to) := (Cursor(p, asks, i), Cursor(p, asks, i + 1));
      && from <= to <= |p.rows|
      && RepliesTo(s, asks, w, i) ==
         Told(asks[i].serve, p.rows[from..to], to < |p.rows|, if Ends(p, asks, i) then p.stats else None)
  {
    SessionHolds(s, asks, w, i);
    AskStep(s, SessionAfter(s, asks, w, i), asks, w, i);
  }

  /** Rows served or dropped by the first `i` asks, piece by piece. */
  function Pieces(p: Pending, asks: seq<Ask>, i: nat): seq<Row>
    requires p.cursor <= |p.rows| && i <= |asks|
  {
    if i == 0 then [] else Pieces(p, asks, i - 1) + p.rows[Cursor(p, asks, i - 1)..Cursor(p, asks, i)]
  }

  lemma {:induction false} PiecesJoin(p: Pending, asks: seq<Ask>, i: nat)
    requires p.cursor <= |p.rows| && i <= |asks|
    ensures Pieces(p, asks, i) == p.rows[p.cursor..Cursor(p, asks, i)]
  {
    if i > 0 {
      PiecesJoin(p, asks, i - 1);
    }
  }

  function TimesEnded(p: Pending, asks: seq<Ask>, i: nat): nat
    requires p.cursor <= |p.rows| && i <= |asks|
  {
    if i == 0 then 0 else TimesEnded(p, asks, i - 1) + if Ends(p, asks, i - 1) then 1 else 0
  }

  /** The result ends once: after any number of asks, exactly if nothing is held. With
      `FetchesPartition`, the statistics are sent exactly once. */
  lemma {:induction false} ResultEndsOnce(p: Pending, asks: seq<Ask>, i: nat)
    requires p.cursor <= |p.rows| && i <= |asks|
    ensures TimesEnded(p, asks, i) == if Held(p, asks, i).Some? then 0 else 1
  {
    if i > 0 {
      ResultEndsOnce(p, asks, i - 1);
    }
  }

  // ── Progress ──────────────────────────────────────────────────────────

  function Asked(asks: seq<Ask>, i: nat): int
    requires i <= |asks|
  {
    if i == 0 then 0 else Asked(asks, i - 1) + ReadN(asks[i - 1].n)
  }

  predicate HasOpenEnded(asks: seq<Ask>, i: nat)
    requires i <= |asks|
  {
    i > 0 && (HasOpenEnded(asks, i - 1) || ReadN(asks[i - 1].n) < 0)
  }

  /** Sized asks take what they ask for until the rows run out; one open-ended ask
      takes everything. */
  lemma {:induction false} FetchesProgress(p: Pending, asks: seq<Ask>, i: nat)
    requires p.cursor <= |p.rows| && i <= |asks|
    ensures if HasOpenEnded(asks, i) then Cursor(p, asks, i) == |p.rows|
      else
        && Asked(asks, i) >= 0
        && Cursor(p, asks, i) == if p.cursor + Asked(asks, i) > |p.rows| then |p.rows| else p.cursor + Asked(asks, i)
  {
    if i > 0 {
      FetchesProgress(p, asks, i - 1);
    }
  }
}
