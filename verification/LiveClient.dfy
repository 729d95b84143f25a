/** The browser's view of one live session: which arriving message may change what is shown.
    Follows frontend/src/domain/live.ts; every function keeps that file's branches. */
module LiveClient {
  import opened Wrappers
  import Sorting
  import opened LiveTimeline

  const TRANSPORT_LOG_LIMIT := 20

  datatype Lifecycle = RUNNING | ENDED
  datatype Transport = CONNECTING | OPEN | LOST | CLOSED
  datatype TransportKind = OpenedStream | LostStream | Resynced | ClosedStream | InvalidMessage
  datatype TransportEvent = TransportEvent(at: string, kind: TransportKind)

  /** `facts` stands for the market state, which no rule here reads. */
  datatype Session =
    Session(id: string, lifecycle: Lifecycle, cursor: int, oldestRetained: int, facts: string)

  datatype Page = Page(entries: seq<Entry>, gap: bool)

  datatype ClientState = ClientState(
    sessionId: string, generation: nat, session: Session, cursor: int, timeline: seq<Entry>,
    timelineGap: bool, transport: Transport, transportLog: seq<TransportEvent>,
    lastHeartbeatAt: Option<string>, resyncRequired: bool, resyncReason: Option<string>)

  datatype EnvelopeKind = TIMELINE | STATE | RESYNC_REQUIRED | END | HEARTBEAT

  datatype Envelope = Envelope(
    sessionId: string, kind: EnvelopeKind, serverTime: string, cursor: int,
    entry: Option<Entry>, session: Option<Session>, reason: Option<string>)

  datatype Action = NoAction | Resync | CloseStream

  // ---------------------------------------------------------------- the source's functions

  function InitialState(session: Session, page: Option<Page>, generation: nat): ClientState {
    var entries := if page.None? then [] else page.value.entries;
    ClientState(
      session.id, generation, session, session.cursor,
      Bounded(Sorting.SortBy(SeqOf, entries)),
      if page.None? then true else page.value.gap,
      CONNECTING, [], None, false, None)
  }

  function OrElse<T>(value: Option<T>, fallback: T): T {
    if value.Some? then value.value else fallback
  }

  function Max(a: int, b: int): int {
    if a >= b then a else b
  }

  function ApplyEnvelope(state: ClientState, envelope: Envelope, generation: nat): (ClientState, Action) {
    if envelope.sessionId != state.sessionId || generation != state.generation then (state, NoAction)
    else
      match envelope.kind
      case HEARTBEAT =>
        var next := state.(lastHeartbeatAt := Some(envelope.serverTime), transport := OPEN);
        if envelope.cursor > state.cursor then
          (next.(resyncRequired := true, resyncReason := Some("MISSED_NOTIFICATIONS")), Resync)
        else
          (next, NoAction)
      case STATE =>
        if envelope.session.None? || envelope.cursor < state.cursor then (state, NoAction)
        else
          (state.(session := envelope.session.value, cursor := envelope.cursor, transport := OPEN,
                  resyncRequired := false, resyncReason := None), NoAction)
      case TIMELINE =>
        if envelope.cursor <= state.cursor then (state, NoAction)
        else if envelope.cursor != state.cursor + 1 || envelope.entry.None? then
          (state.(resyncRequired := true, resyncReason := Some("CURSOR_GAP"), timelineGap := true),
           Resync)
        else
          (state.(session := OrElse(envelope.session, state.session), cursor := envelope.cursor,
                  timeline := Merged(state.timeline, [envelope.entry.value]), transport := OPEN),
           NoAction)
      case RESYNC_REQUIRED =>
        (state.(resyncRequired := true,
                resyncReason := Some(OrElse(envelope.reason, "RESYNC_REQUIRED")),
                timelineGap := true), Resync)
      case END =>
        (state.(session := OrElse(envelope.session, state.session),
                cursor := Max(state.cursor, envelope.cursor), transport := CLOSED), CloseStream)
  }

  function AcceptSnapshot(state: ClientState, snapshot: Session, page: Option<Page>, generation: nat): ClientState {
    if snapshot.id != state.sessionId then state
    else if snapshot.cursor < state.cursor then state.(generation := generation)
    else
      state.(generation := generation, session := snapshot, cursor := snapshot.cursor,
             timeline := if page.None? then state.timeline
                         else Merged(state.timeline, page.value.entries),
             timelineGap := if page.None? then state.timelineGap
                            else state.timelineGap || page.value.gap,
             resyncRequired := false, resyncReason := None)
  }

  function WithOlderEntries(state: ClientState, page: Page, sessionId: string, generation: nat): ClientState {
    if state.sessionId != sessionId || state.generation != generation then state
    else state.(timeline := Merged(state.timeline, page.entries))
  }

  function OlderPageCursor(state: ClientState, pageSize: nat): Option<int> {
    if state.timeline == [] || state.timeline[0].at <= state.session.oldestRetained then None
    else Some(Max(state.session.oldestRetained - 1, state.timeline[0].at - pageSize - 1))
  }

  function WithTransport(state: ClientState, transport: Transport, event: TransportEvent): ClientState {
    var log := state.transportLog + [event];
    state.(transport := transport,
           transportLog := if |log| > TRANSPORT_LOG_LIMIT then log[|log| - TRANSPORT_LOG_LIMIT..] else log)
  }

  // ---------------------------------------------------------------- what each of them shows

  /** The messages that are taken in: those for the session and stream shown, and not behind it. */
  ghost predicate Taken(s: ClientState, m: Envelope, ticket: nat) {
    && m.sessionId == s.sessionId && ticket == s.generation
    && (m.kind == STATE ==> m.session.Some? && m.cursor >= s.cursor)
    && (m.kind == TIMELINE ==> m.cursor > s.cursor)
  }

  /** The messages that show something was missed, when they are taken in. */
  ghost predicate Misses(s: ClientState, m: Envelope) {
    match m.kind
    case HEARTBEAT => m.cursor > s.cursor
    case TIMELINE => m.cursor > s.cursor + 1 || m.entry.None?
    case RESYNC_REQUIRED => true
    case STATE => false
    case END => false
  }

  lemma LatestOfOne(t: seq<Entry>, e: Entry)
    ensures IsNewest(Merged(t, [e]), Latest(t)[e.at := e])
  {
    MergedIsNewest(t, [e]);
    assert [e][..0] == [];
    assert Latest(t) + Latest([e]) == Latest(t)[e.at := e];
  }

  /** What a message does to the session, the cursor and the entries on the screen. */
  lemma MessageIsShown(s: ClientState, m: Envelope, ticket: nat)
    ensures var (r, action) := ApplyEnvelope(s, m, ticket);
            && (!Taken(s, m, ticket) ==> r == s && action == NoAction)
            && (Taken(s, m, ticket) ==>
                  && r.sessionId == s.sessionId && r.generation == s.generation
                  && r.session == (if m.session.Some? && m.kind != HEARTBEAT && !Misses(s, m)
                                   then m.session.value else s.session)
                  && r.cursor == (if m.cursor > s.cursor && !Misses(s, m) then m.cursor else s.cursor)
                  && (m.kind != TIMELINE || Misses(s, m) ==> r.timeline == s.timeline)
                  && (m.kind == TIMELINE && !Misses(s, m) ==>
                        IsNewest(r.timeline, Latest(s.timeline)[m.entry.value.at := m.entry.value])))
  {
    if m.kind == TIMELINE && m.entry.Some? {
      LatestOfOne(s.timeline, m.entry.value);
    }
  }

  /** And to what the screen says about its own state: the gap, the demand and its reason, the
      connection, the last heartbeat - and what it must do. */
  lemma MessageIsReported(s: ClientState, m: Envelope, ticket: nat)
    requires Taken(s, m, ticket)
    ensures var (r, action) := ApplyEnvelope(s, m, ticket);
            && (action == Resync <==> Misses(s, m)) && (action == CloseStream <==> m.kind == END)
            && r.resyncRequired == (Misses(s, m) || (s.resyncRequired && m.kind != STATE))
            && r.resyncReason == (if m.kind == RESYNC_REQUIRED
                                  then Some(if m.reason.Some? then m.reason.value else "RESYNC_REQUIRED")
                                  else if Misses(s, m)
                                  then Some(if m.kind == HEARTBEAT then "MISSED_NOTIFICATIONS" else "CURSOR_GAP")
                                  else if m.kind == STATE then None else s.resyncReason)
            && r.timelineGap == (s.timelineGap || (Misses(s, m) && m.kind != HEARTBEAT))
            && r.transport == (if m.kind == END then CLOSED
                               else if Misses(s, m) && m.kind != HEARTBEAT then s.transport else OPEN)
            && r.lastHeartbeatAt == (if m.kind == HEARTBEAT then Some(m.serverTime) else s.lastHeartbeatAt)
            && r.transportLog == s.transportLog
  {
  }

  /** The same stretch of a session is shown: what a stale answer leaves as it is. */
  ghost predicate SameContent(s: ClientState, r: ClientState) {
    && r.sessionId == s.sessionId && r.session == s.session && r.cursor == s.cursor && r.timeline == s.timeline
    && r.timelineGap == s.timelineGap && r.resyncRequired == s.resyncRequired && r.resyncReason == s.resyncReason
  }

  /** A snapshot and the page read with it, taken in: both are shown, and no demand is left. */
  ghost predicate ShowsSnapshot(s: ClientState, r: ClientState, snapshot: Session, page: Option<Page>) {
    && r.sessionId == s.sessionId && r.session == snapshot && r.cursor == snapshot.cursor
    && (page.None? ==> r.timeline == s.timeline && r.timelineGap == s.timelineGap)
    && (page.Some? ==> IsNewest(r.timeline, Latest(s.timeline) + Latest(page.value.entries)))
    && (page.Some? ==> r.timelineGap == (s.timelineGap || page.value.gap))
    && !r.resyncRequired && r.resyncReason == None
  }

  lemma SnapshotIsShown(s: ClientState, snapshot: Session, page: Option<Page>, ticket: nat)
    ensures var r := AcceptSnapshot(s, snapshot, page, ticket);
            && (snapshot.id != s.sessionId ==> r == s)
            && (snapshot.id == s.sessionId ==>
                  && r.generation == ticket
                  && (snapshot.cursor < s.cursor ==> SameContent(s, r))
                  && (snapshot.cursor >= s.cursor ==> ShowsSnapshot(s, r, snapshot, page)))
            && r.transport == s.transport && r.transportLog == s.transportLog
            && r.lastHeartbeatAt == s.lastHeartbeatAt
  {
    if page.Some? {
      MergedIsNewest(s.timeline, page.value.entries);
    }
  }

  /** A session shown without a page shows no entry and says that some are missing. */
  lemma NoPageIsAGap(session: Session, ticket: nat)
    ensures var r := InitialState(session, None, ticket);
            r.timeline == [] && r.timelineGap && r.session == session && r.cursor == session.cursor
  {
    assert |Sorting.SortBy(SeqOf, [])| == 0;
  }

  /** The last of `events`, twenty at most, newest last. */
  ghost predicate IsTail(log: seq<TransportEvent>, events: seq<TransportEvent>) {
    && |log| == (if |events| <= 20 then |events| else 20)
    && forall k | 0 <= k < |log| :: log[k] == events[|events| - |log| + k]
  }

  lemma TransportIsLogged(s: ClientState, transport: Transport, event: TransportEvent)
    ensures var r := WithTransport(s, transport, event);
            && SameContent(s, r) && r.generation == s.generation && r.lastHeartbeatAt == s.lastHeartbeatAt
            && r.transport == transport && IsTail(r.transportLog, s.transportLog + [event])
  {
  }

  /** Logging one event more keeps the last twenty of all there were. */
  lemma TailOfTail(first: seq<TransportEvent>, log: seq<TransportEvent>, events: seq<TransportEvent>, e: TransportEvent)
    requires IsTail(first, events) && IsTail(log, first + [e])
    ensures IsTail(log, events + [e])
  {
    forall k | 0 <= k < |log| ensures log[k] == (events + [e])[|events| + 1 - |log| + k] {
      assert log[k] == (first + [e])[|first| + 1 - |log| + k];
    }
  }

  // ---------------------------------------------------------------- runs

  /** Everything that may happen to the shown state of a session. */
  datatype Step =
    | Message(envelope: Envelope, ticket: nat)
    | Snapshot(snapshot: Session, page: Option<Page>, ticket: nat)
    | Older(olderPage: Page, sessionId: string, ticket: nat)
    | TransportChange(transport: Transport, event: TransportEvent)

  function Apply(state: ClientState, step: Step): ClientState {
    match step
    case Message(envelope, ticket) => ApplyEnvelope(state, envelope, ticket).0
    case Snapshot(snapshot, page, ticket) => AcceptSnapshot(state, snapshot, page, ticket)
    case Older(page, sessionId, ticket) => WithOlderEntries(state, page, sessionId, ticket)
    case TransportChange(transport, event) => WithTransport(state, transport, event)
  }

  function Run(state: ClientState, steps: seq<Step>): ClientState {
    if steps == [] then state else Apply(Run(state, steps[..|steps| - 1]), steps[|steps| - 1])
  }

  /** The entries a step hands over, once its guards let it through. */
  ghost function MergedBy(state: ClientState, step: Step): seq<Entry> {
    match step
    case Message(envelope, ticket) =>
      if envelope.sessionId == state.sessionId && ticket == state.generation && envelope.kind == TIMELINE
         && envelope.entry.Some? && envelope.cursor == state.cursor + 1
      then [envelope.entry.value] else []
    case Snapshot(snapshot, page, ticket) =>
      if snapshot.id == state.sessionId && snapshot.cursor >= state.cursor && page.Some?
      then page.value.entries else []
    case Older(page, sessionId, ticket) =>
      if sessionId == state.sessionId && ticket == state.generation then page.entries else []
    case TransportChange(_, _) => []
  }

  /** Every entry a run ever merged, in the order it was merged. */
  ghost function EverMerged(state: ClientState, steps: seq<Step>): seq<Entry> {
    if steps == [] then []
    else
      var before := steps[..|steps| - 1];
      EverMerged(state, before) + MergedBy(Run(state, before), steps[|steps| - 1])
  }

  lemma {:induction false} LatestOfAppend(a: seq<Entry>, b: seq<Entry>)
    ensures Latest(a + b) == Latest(a) + Latest(b)
  {
    if b == [] {
      assert a + b == a;
    } else {
      LatestOfAppend(a, b[..|b| - 1]);
      assert (a + b)[..|a + b| - 1] == a + b[..|b| - 1];
    }
  }

  lemma LatestExtends(all: map<int, Entry>, a: seq<Entry>, b: seq<Entry>)
    ensures all + Latest(a + b) == all + Latest(a) + Latest(b)
  {
    LatestOfAppend(a, b);
  }

  /** A step either merges what it hands over or leaves the timeline alone. */
  lemma StepTimeline(s: ClientState, step: Step)
    ensures var added, timeline := MergedBy(s, step), Apply(s, step).timeline;
            timeline == Merged(s.timeline, added) || (added == [] && timeline == s.timeline)
  {
  }

  lemma StepKeepsNewest(s: ClientState, all: map<int, Entry>, step: Step)
    requires IsNewest(s.timeline, all)
    ensures IsNewest(Apply(s, step).timeline, all + Latest(MergedBy(s, step)))
  {
    var added, timeline := MergedBy(s, step), Apply(s, step).timeline;
    StepTimeline(s, step);
    MergeKeepsNewest(s.timeline, all, added);
    if timeline != Merged(s.timeline, added) {
      assert all + Latest(added) == all;
    }
  }

  lemma StepMerges(s: ClientState, all: map<int, Entry>, merged: seq<Entry>, step: Step)
    requires IsNewest(s.timeline, all + Latest(merged))
    ensures IsNewest(Apply(s, step).timeline, all + Latest(merged + MergedBy(s, step)))
  {
    StepKeepsNewest(s, all + Latest(merged), step);
    LatestExtends(all, merged, MergedBy(s, step));
  }

  /** However envelopes, resynchronisations and older pages overlap, repeat or interleave, the
      timeline held is the newest 500 of everything ever merged, each `seq` once, in order. */
  lemma {:induction false} HeldTimelineIsNewest(state: ClientState, all: map<int, Entry>, steps: seq<Step>)
    requires IsNewest(state.timeline, all)
    ensures IsNewest(Run(state, steps).timeline, all + Latest(EverMerged(state, steps)))
  {
    if steps == [] {
      assert all + Latest([]) == all;
    } else {
      var before, step := steps[..|steps| - 1], steps[|steps| - 1];
      HeldTimelineIsNewest(state, all, before);
      StepMerges(Run(state, before), all, EverMerged(state, before), step);
    }
  }

  /** The first page is shown without being merged, so a page that repeats a `seq` shows it
      twice. A page of at most 500 entries starts a proper timeline if and only if it does not. */
  lemma InitialTimelineIsNewest(session: Session, page: Page, generation: nat)
    ensures NoSeqTwice(page.entries) ==>
              IsNewest(InitialState(session, Some(page), generation).timeline, Latest(page.entries))
    ensures |page.entries| <= TIMELINE_LIMIT
            && IsNewest(InitialState(session, Some(page), generation).timeline, Latest(page.entries)) ==>
              NoSeqTwice(page.entries)
  {
    var es := page.entries;
    var sorted := Sorting.SortBy(SeqOf, es);
    if NoSeqTwice(es) {
      LatestOfDistinct(es);
      SortedRepresents(es, Latest(es));
      CutIsNewest(sorted, Latest(es));
    }
    if |es| <= TIMELINE_LIMIT && IsNewest(Bounded(sorted), Latest(es)) {
      Sorting.SortMembers(SeqOf, es);
      Sorting.SortIsPermutation(SeqOf, es);
      assert Sorting.Distinct(SeqOf, sorted);
      forall i, j | 0 <= i < j < |es| ensures es[i].at != es[j].at {
        Sorting.TwoAtOneKey(SeqOf, sorted, es, i, j);
      }
    }
  }

  /** A whole session, from the first page on. */
  lemma SessionHoldsNewest(session: Session, page: Page, generation: nat, steps: seq<Step>)
    requires NoSeqTwice(page.entries)
    ensures var start := InitialState(session, Some(page), generation);
            IsNewest(Run(start, steps).timeline,
                     Latest(page.entries + EverMerged(start, steps)))
  {
    var start := InitialState(session, Some(page), generation);
    InitialTimelineIsNewest(session, page, generation);
    HeldTimelineIsNewest(start, Latest(page.entries), steps);
    LatestOfAppend(page.entries, EverMerged(start, steps));
  }

  // ---------------------------------------------------------------- the cursor

  /** No message, snapshot or page, from this session or another, moves the cursor back. */
  lemma {:induction false} CursorNeverDecreases(state: ClientState, steps: seq<Step>, k: nat)
    requires k <= |steps|
    ensures Run(state, steps[..k]).cursor <= Run(state, steps).cursor
  {
    if k < |steps| {
      var before := steps[..|steps| - 1];
      CursorNeverDecreases(state, before, k);
      assert before[..k] == steps[..k];
    } else {
      assert steps[..k] == steps;
    }
  }

  /** A message the stream protocol sends one entry at a time: an entry, a heartbeat or a
      demand to resynchronise, whose entry (if it has one) is the one its cursor names. */
  ghost predicate StreamMessage(step: Step) {
    && step.Message?
    && step.envelope.kind in {TIMELINE, HEARTBEAT, RESYNC_REQUIRED}
    && (step.envelope.entry.Some? ==> step.envelope.entry.value.at == step.envelope.cursor)
  }

  ghost predicate ForThisStream(state: ClientState, step: Step) {
    step.Message? && step.envelope.sessionId == state.sessionId && step.ticket == state.generation
  }

  /** Whatever is lost, repeated or reordered on a stream opened at cursor `c`, the entries
      applied are exactly `c + 1`, `c + 2`, ... up to the cursor, each once and in order. */
  lemma {:induction false} StreamIsContiguous(state: ClientState, steps: seq<Step>)
    requires forall i | 0 <= i < |steps| :: StreamMessage(steps[i])
    ensures var s, applied := Run(state, steps), EverMerged(state, steps);
            && s.sessionId == state.sessionId && s.generation == state.generation
            && s.cursor == state.cursor + |applied|
            && forall i | 0 <= i < |applied| :: applied[i].at == state.cursor + 1 + i
  {
    if steps != [] {
      var before := steps[..|steps| - 1];
      StreamIsContiguous(state, before);
      assert StreamMessage(steps[|steps| - 1]);
    }
  }

  /** The message at hand is applied, or a resynchronisation is demanded. */
  ghost predicate Accounted(s: ClientState, m: Envelope) {
    s.resyncRequired || (m.kind in {TIMELINE, HEARTBEAT} && m.cursor <= s.cursor)
  }

  lemma StepAccounts(s: ClientState, step: Step)
    requires StreamMessage(step) && ForThisStream(s, step)
    ensures Accounted(Apply(s, step), step.envelope)
  {
  }

  lemma StepKeepsAccount(s: ClientState, step: Step, m: Envelope)
    requires StreamMessage(step) && Accounted(s, m)
    ensures Accounted(Apply(s, step), m)
  {
  }

  /** As long as no resynchronisation is demanded, every entry the stream so much as mentioned
      has been applied: nothing is skipped in silence, whatever the order of delivery. */
  lemma {:induction false} NothingHeardOfIsMissing(state: ClientState, steps: seq<Step>, k: nat)
    requires forall i | 0 <= i < |steps| :: StreamMessage(steps[i])
    requires k < |steps| && ForThisStream(state, steps[k])
    ensures Accounted(Run(state, steps), steps[k].envelope)
  {
    var before, last := steps[..|steps| - 1], steps[|steps| - 1];
    if k < |before| {
      NothingHeardOfIsMissing(state, before, k);
      StepKeepsAccount(Run(state, before), last, steps[k].envelope);
    } else {
      StreamIsContiguous(state, before);
      StepAccounts(Run(state, before), last);
    }
  }

  /** A demand to resynchronise, once made, is not withdrawn by any entry or heartbeat. */
  lemma {:induction false} DemandStays(state: ClientState, steps: seq<Step>)
    requires forall i | 0 <= i < |steps| :: StreamMessage(steps[i])
    ensures state.resyncRequired ==> Run(state, steps).resyncRequired
  {
    if steps != [] {
      DemandStays(state, steps[..|steps| - 1]);
      assert StreamMessage(steps[|steps| - 1]);
    }
  }

  /** Any message of a stream; one that carries an entry names it by its cursor. */
  ghost predicate AnyMessage(step: Step) {
    step.Message? && (step.envelope.entry.Some? ==> step.envelope.entry.value.at == step.envelope.cursor)
  }

  /** A `STATE` or an `END` that is not ignored and stands further on than the screen. */
  ghost predicate Jumps(s: ClientState, step: Step) {
    && ForThisStream(s, step) && step.envelope.cursor > s.cursor
    && (step.envelope.kind == END || (step.envelope.kind == STATE && step.envelope.session.Some?))
  }

  /** Every entry between two cursors is among those applied. */
  ghost predicate Complete(applied: seq<Entry>, from: int, to: int) {
    forall k | from < k <= to :: Holds(applied, k)
  }

  ghost predicate NoJump(state: ClientState, steps: seq<Step>) {
    steps != [] ==>
      var before := steps[..|steps| - 1];
      NoJump(state, before) && !Jumps(Run(state, before), steps[|steps| - 1])
  }

  lemma JumpOrAdvance(s: ClientState, step: Step, applied: seq<Entry>, from: int)
    requires AnyMessage(step) && from <= s.cursor
    requires forall i | 0 <= i < |applied| :: applied[i].at <= s.cursor
    ensures var next, all := Apply(s, step), applied + MergedBy(s, step);
            && s.cursor <= next.cursor && (forall i | 0 <= i < |all| :: all[i].at <= next.cursor)
            && (Complete(all, from, next.cursor) <==> Complete(applied, from, s.cursor) && !Jumps(s, step))
  {
    var next, added := Apply(s, step), MergedBy(s, step);
    var all := applied + added;
    if Jumps(s, step) {
      assert added == [] && all == applied;
      assert !Holds(all, s.cursor + 1);
    } else if added == [] {
      assert all == applied && next.cursor == s.cursor;
    } else {
      assert all[|applied|] == added[0] && added[0].at == s.cursor + 1 == next.cursor;
      forall k | from < k <= s.cursor ensures Holds(all, k) <==> Holds(applied, k) {
        if Holds(applied, k) {
          var i :| 0 <= i < |applied| && applied[i].at == k;
          assert all[i].at == k;
        }
      }
    }
  }

  /** Over every run of messages of every kind, whatever is lost, repeated or reordered: each entry
      between the first cursor and the last has been applied if and only if no `STATE` and no `END`
      ever stood further on than the screen when it was accepted. */
  lemma {:induction false} AppliedIsCompleteIff(state: ClientState, steps: seq<Step>)
    requires forall i | 0 <= i < |steps| :: AnyMessage(steps[i])
    ensures Complete(EverMerged(state, steps), state.cursor, Run(state, steps).cursor) <==> NoJump(state, steps)
    ensures state.cursor <= Run(state, steps).cursor
    ensures forall i | 0 <= i < |EverMerged(state, steps)| :: EverMerged(state, steps)[i].at <= Run(state, steps).cursor
  {
    if steps != [] {
      var before, last := steps[..|steps| - 1], steps[|steps| - 1];
      AppliedIsCompleteIff(state, before);
      assert AnyMessage(last);
      JumpOrAdvance(Run(state, before), last, EverMerged(state, before), state.cursor);
    }
  }

  /** A run in which it happens: a `STATE` overtakes the entry it follows, which is then dropped as
      already applied; nothing reports it. */
  lemma StateHidesSkippedEntries(state: ClientState, session: Session, entry: Entry)
    requires state.timeline == [] && state.cursor == 0 && !state.timelineGap
    requires session.id == state.sessionId && entry.at == 1
    ensures var jump := Message(Envelope(state.sessionId, STATE, "", 2, None, Some(session), None), state.generation);
            var late := Message(Envelope(state.sessionId, TIMELINE, "", 1, Some(entry), None, None), state.generation);
            var s := Run(state, [jump, late]);
            s.cursor == 2 && s.timeline == [] && !s.timelineGap && !s.resyncRequired
  {
    var jump := Message(Envelope(state.sessionId, STATE, "", 2, None, Some(session), None), state.generation);
    var late := Message(Envelope(state.sessionId, TIMELINE, "", 1, Some(entry), None, None), state.generation);
    assert [jump, late][..1] == [jump];
    assert [jump][..0] == [];
    assert Run(state, [jump]) == Apply(state, jump);
  }
}
