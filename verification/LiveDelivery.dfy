/** One reader of a live session, end to end: the server's log and the reader's queue, the stream it
    feeds, the reads beside it, and the client at the other end. Follows `subscribe` of
    backend/app/application/live/workspace.py, the frame loop of backend/app/api/routes/live.py, and
    the reads of frontend/src/screens/Live.tsx. */
module LiveDelivery {
  import opened Wrappers
  import opened LiveTimeline
  import opened LiveClient
  import opened LiveServer
  import opened LiveQueue

  // ---------------------------------------------------------------- the whole path

  /** Where the screen stands towards the stream it last had. */
  datatype Hearing =
    | Reading                     // it reads the stream
    | Demanded(reason: string)    // the server demanded a resynchronisation
    | FoundHole                   // it found a hole in what it was sent
    | Ended                       // it was told that the session is over
    | Lost                        // the connection broke
    | Asking(after: int, cut: Option<seq<Entry>>)   // it resynchronises; the page is cut from a log
    | Connecting(after: int)      // snapshot and page are taken in, the stream not yet open

  /** A read of older entries: asked for, cut by the server from its log, merged. */
  datatype OlderRead =
    | Asked(after: int, ticket: nat)
    | Served(after: int, ticket: nat, cut: seq<Entry>)
    | Settled

  /** `pipe` is what the server has written and the browser not yet read; `prompt` whether the last
      subscription put nothing into the queue ahead of what the reader had missed. */
  datatype Path = Path(
    log: seq<Entry>, queue: Queue, pipe: seq<Envelope>, client: ClientState, hearing: Hearing, prompt: bool,
    older: seq<OlderRead>)

  datatype Event =
    | Append(change: Change)                // the session records something
    | Finish(view: Session)                 // the session ends
    | Write                                 // one queued notification goes on the wire
    | Beat                                  // nothing queued: a heartbeat goes on the wire
    | Read                                  // the browser reads one message
    | Break(at: string)                     // the connection is lost
    | BeginResync                           // the stream is stopped and the session read again
    | CutPage                               // the server cuts the page asked for
    | Resynchronise(snapshot: Session, ticket: nat, at: string)   // snapshot and page have arrived
    | Subscribe(changes: seq<Change>, view: Session, ended: bool) // the server opens the stream asked for
    | AnswerAlone(snapshot: Session)        // the answer of cancelling or analysing
    | AskOlder
    | CutOlder(read: nat)
    | MergeOlder(read: nat)

  const NOBODY := Queue([], true)

  function Happen(p: Path, event: Event): Path {
    match event
    case Append(change) =>
      p.(log := p.log + Stamped(p.log, [change]),
         queue := PushedAll(p.queue, ChangeNotices(p.client.sessionId, |p.log| + 1, [change])))
    case Finish(view) =>
      p.(queue := Pushed(p.queue, Envelope(p.client.sessionId, END, "", |p.log|, None, Some(view), None)))
    case Write =>
      if p.queue.items == [] then p
      else p.(pipe := p.pipe + [p.queue.items[0]], queue := p.queue.(items := p.queue.items[1..]))
    case Beat =>
      if p.queue.items != [] || p.queue.closed then p
      else p.(pipe := p.pipe + [Envelope(p.client.sessionId, HEARTBEAT, "", |p.log|, None, None, None)])
    case Read =>
      if p.pipe == [] || p.hearing != Reading then p else ReadOne(p)
    case Break(at) =>
      if p.hearing != Reading then p
      else p.(hearing := Lost, client := WithTransport(p.client, LOST, TransportEvent(at, LostStream)))
    case BeginResync => p.(hearing := Asking(p.client.cursor, None), queue := NOBODY)
    case CutPage =>
      if !p.hearing.Asking? || p.hearing.cut.Some? then p else p.(hearing := p.hearing.(cut := Some(p.log)))
    case Resynchronise(snapshot, ticket, at) =>
      if !p.hearing.Asking? || p.hearing.cut.None? then p else Resynchronised(p, snapshot, ticket, at)
    case Subscribe(changes, view, ended) =>
      if !p.hearing.Connecting? then p
      else
        p.(log := p.log + Stamped(p.log, changes),
           queue := Subscribed(p.log, changes, p.hearing.after, view, ended),
           pipe := [], hearing := Reading, prompt := Prompt(p, changes, ended))
    case AnswerAlone(snapshot) =>
      p.(client := AcceptSnapshot(p.client, snapshot, None, p.client.generation))
    case AskOlder =>
      var after := OlderPageCursor(p.client, PAGE_MAX);
      if after.None? then p else p.(older := p.older + [Asked(after.value, p.client.generation)])
    case CutOlder(i) =>
      if i >= |p.older| || !p.older[i].Asked? then p
      else p.(older := p.older[i := Served(p.older[i].after, p.older[i].ticket, p.log)])
    case MergeOlder(i) =>
      if i >= |p.older| || !p.older[i].Served? then p
      else
        var page := TimelinePage(p.older[i].cut, Some(p.older[i].after), PAGE_MAX);
        p.(client := WithOlderEntries(p.client, page, p.client.sessionId, p.older[i].ticket),
           older := p.older[i := Settled])
  }

  function ReadOne(p: Path): Path
    requires p.pipe != []
  {
    var m := p.pipe[0];
    var (client, action) := ApplyEnvelope(p.client, m, p.client.generation);
    p.(pipe := p.pipe[1..], client := client,
       hearing := match action
                  case NoAction => Reading
                  case CloseStream => Ended
                  case Resync => if m.kind == RESYNC_REQUIRED then Demanded(OrElse(m.reason, "")) else FoundHole)
  }

  function PageRead(p: Path): Page
    requires p.hearing.Asking? && p.hearing.cut.Some?
  {
    TimelinePage(p.hearing.cut.value, Some(p.hearing.after), PAGE_MAX)
  }

  function Resynchronised(p: Path, snapshot: Session, ticket: nat, at: string): Path
    requires p.hearing.Asking? && p.hearing.cut.Some?
  {
    var next := WithTransport(AcceptSnapshot(p.client, snapshot, Some(PageRead(p)), ticket),
                              CONNECTING, TransportEvent(at, Resynced));
    if snapshot.lifecycle == RUNNING then p.(client := next, hearing := Connecting(snapshot.cursor))
    else p.(client := WithTransport(next, CLOSED, TransportEvent(at, ClosedStream)), hearing := Ended)
  }

  /** A session just opened: its snapshot, then its last page, were read from `log`. */
  function Opened(log: seq<Entry>, snapshot: Session, ticket: nat): Path {
    var state := InitialState(snapshot, Some(TimelinePage(log, None, PAGE_MAX)), ticket);
    if snapshot.lifecycle == RUNNING then Path(log, NOBODY, [], state, Connecting(snapshot.cursor), true, [])
    else Path(log, NOBODY, [], state.(transport := CLOSED), Ended, true, [])
  }

  function RunPath(p: Path, events: seq<Event>): Path {
    if events == [] then p else Happen(RunPath(p, events[..|events| - 1]), events[|events| - 1])
  }

  /** The evaluation finds nothing, or a reader that had missed nothing before it, or so much is
      pushed that the queue is dropped for a demand to resynchronise. */
  predicate Prompt(p: Path, changes: seq<Change>, ended: bool)
    requires p.hearing.Connecting?
  {
    || changes == [] || p.client.cursor == |p.log|
    || Pushes(p.log + Stamped(p.log, changes), |changes|, p.hearing.after, ended) > SUBSCRIBER_QUEUE
  }

  /** The last entry a page brings, asked for after `after`. */
  function PageEnd(page: Page, after: int): int {
    if page.entries == [] then after else page.entries[|page.entries| - 1].at
  }

  /** The snapshot of a resynchronisation is older than what is shown, or the page leaves nothing
      out before it and, if it is not shown already, reaches it. */
  ghost predicate Near(p: Path, snapshot: Session)
    requires p.hearing.Asking? && p.hearing.cut.Some? && p.client.timeline != []
  {
    && snapshot.id == p.client.sessionId
    && (|| snapshot.cursor < p.client.cursor
        || (&& !PageRead(p).gap
            && snapshot.cursor <= Max(Hi(p.client.timeline), PageEnd(PageRead(p), p.hearing.after))))
  }

  /** What may arrive: of the answers that bring no entries those whose entries are shown already, and
      of older pages those cut while the server still retained the end of what is shown. */
  ghost predicate Possible(p: Path, event: Event) {
    match event
    case Subscribe(_, view, _) => view.id == p.client.sessionId
    case Resynchronise(snapshot, _, _) =>
      p.client.timeline != [] && p.hearing.Asking? && p.hearing.cut.Some? ==> Near(p, snapshot)
    case AnswerAlone(snapshot) =>
      p.client.timeline != [] && snapshot.id == p.client.sessionId ==> snapshot.cursor <= Hi(p.client.timeline)
    case MergeOlder(i) =>
      p.client.timeline != [] && i < |p.older| && p.older[i].Served? ==>
        Dropped(p.older[i].cut) <= Hi(p.client.timeline)
    case _ => true
  }

  ghost predicate AllPossible(p: Path, events: seq<Event>) {
    events != [] ==>
      var before := events[..|events| - 1];
      AllPossible(p, before) && Possible(RunPath(p, before), events[|events| - 1])
  }

  // ---------------------------------------------------------------- what is shown, and on its way

  ghost predicate OnItsWay(p: Path) {
    var coming := p.pipe + p.queue.items;
    && Continues(coming, p.client.cursor, p.log, p.client.sessionId, p.prompt)
    && ServerDemands(coming)
    && (p.queue.closed ==> HasStop(coming))
  }

  /** What is shown begins no later than that - or is as long as it may be. */
  ghost predicate Reaches(t: seq<Entry>, x: int)
    requires t != []
  {
    Lo(t) <= x || Full(t)
  }

  /** A stretch of the log without a hole, up to the cursor at least, and with nothing missing before
      it that there was room for. */
  ghost predicate Whole(client: ClientState, log: seq<Entry>) {
    && Stretch(client.timeline, log) && |client.timeline| <= TIMELINE_LIMIT
    && client.cursor <= Hi(client.timeline) && Reaches(client.timeline, client.cursor)
  }

  ghost predicate Grew(before: seq<Entry>, after: seq<Entry>) {
    && before != [] && after != [] && WentOn(before, after) && (Full(before) ==> Full(after))
  }

  lemma MergeGrows(t: seq<Entry>, es: seq<Entry>, log: seq<Entry>, p: int, q: int)
    requires IsLog(log) && Stretch(t, log) && |t| <= TIMELINE_LIMIT && Covers(es, p, q, log)
    requires p <= Hi(t) && Reaches(t, q)
    ensures var m := Merged(t, es);
            && Stretch(m, log) && |m| <= TIMELINE_LIMIT && Grew(t, m) && Hi(m) == Max(Hi(t), q)
  {
    StretchMerges(t, es, log, p, q);
  }

  // ---------------------------------------------------------------- what every step keeps

  ghost predicate OlderGood(read: OlderRead, t: seq<Entry>, log: seq<Entry>)
    requires t != []
  {
    match read
    case Asked(after, _) => after <= Hi(t) && after <= |log| && Reaches(t, after + PAGE_MAX)
    case Served(after, _, cut) =>
      && after <= Hi(t) && cut <= log && IsLog(cut) && after <= |cut|
      && Reaches(t, Min(Max(Dropped(cut), after) + PAGE_MAX, |cut|))
    case Settled => true
  }

  ghost predicate OldersGood(older: seq<OlderRead>, t: seq<Entry>, log: seq<Entry>)
    requires t != []
  {
    forall i | 0 <= i < |older| :: OlderGood(older[i], t, log)
  }

  ghost predicate HearingGood(hearing: Hearing, client: ClientState, log: seq<Entry>, prompt: bool)
    requires client.timeline != []
  {
    match hearing
    case FoundHole => !prompt
    case Demanded(reason) => reason in SERVER_REASONS
    case Connecting(after) => after <= client.cursor
    case Asking(after, cut) =>
      && after <= client.cursor && Reaches(client.timeline, after)
      && (cut.Some? ==> cut.value <= log && IsLog(cut.value) && after <= |cut.value|)
    case _ => true
  }

  /** What is shown never has a hole; and the screen finds one in what it is sent only on a stream
      that did not begin promptly. */
  ghost predicate Honest(p: Path) {
    && IsLog(p.log) && Whole(p.client, p.log)
    && HearingGood(p.hearing, p.client, p.log, p.prompt)
    && OldersGood(p.older, p.client.timeline, p.log)
    && (p.hearing == Reading ==> OnItsWay(p))
  }

  lemma OldersStay(older: seq<OlderRead>, t: seq<Entry>, m: seq<Entry>, log: seq<Entry>, log': seq<Entry>)
    requires t != [] && OldersGood(older, t, log) && (m == t || Grew(t, m)) && log <= log'
    ensures OldersGood(older, m, log')
  {
    forall i | 0 <= i < |older| ensures OlderGood(older[i], m, log') {
      assert OlderGood(older[i], t, log);
    }
  }

  lemma WholeOnLongerLog(client: ClientState, log: seq<Entry>, log': seq<Entry>)
    requires Whole(client, log) && log <= log'
    ensures Whole(client, log')
  {
    StretchOnLongerLog(client.timeline, log, log');
  }

  lemma WholeGrows(client: ClientState, next: ClientState, log: seq<Entry>)
    requires Whole(client, log) && Stretch(next.timeline, log) && |next.timeline| <= TIMELINE_LIMIT
    requires Grew(client.timeline, next.timeline) && client.cursor <= next.cursor <= Hi(next.timeline)
    ensures Whole(next, log)
  {
  }

  /** What a longer log alone does not touch. */
  lemma LongerLogIsHonest(p: Path, r: Path)
    requires Honest(p) && p.log <= r.log && IsLog(r.log)
    requires r == p.(log := r.log, queue := r.queue, pipe := r.pipe)
    requires p.hearing == Reading ==> OnItsWay(r)
    ensures Honest(r)
  {
    WholeOnLongerLog(p.client, p.log, r.log);
    OldersStay(p.older, p.client.timeline, p.client.timeline, p.log, r.log);
  }

  /** One more notification, whether it fits into the queue or not. */
  lemma PushStaysOnItsWay(p: Path, item: Envelope, log': seq<Entry>)
    requires OnItsWay(p) && p.log <= log' && item.sessionId == p.client.sessionId
    requires item.kind != RESYNC_REQUIRED && Continues([item], |p.log|, log', p.client.sessionId, p.prompt)
    ensures OnItsWay(p.(log := log', queue := Pushed(p.queue, item)))
  {
    var r := p.(log := log', queue := Pushed(p.queue, item));
    var sid, at, coming := p.client.sessionId, p.client.cursor, p.pipe + p.queue.items;
    if p.queue.closed {
      ContinuesToAStop(coming, at, p.log, sid, p.prompt, log');
    } else if |p.queue.items| >= SUBSCRIBER_QUEUE {
      var demand := ResyncNotice(sid, item.cursor, "SUBSCRIBER_OVERFLOW");
      ContinuesCut(p.pipe, p.queue.items, at, p.log, sid, p.prompt, demand, log');
      PrefixDemands(p.pipe, p.queue.items);
      assert (p.pipe + [demand])[|p.pipe|] == demand;
    } else {
      ContinuesOn(coming, at, p.log, sid, p.prompt, item, log');
      assert p.pipe + r.queue.items == coming + [item];
    }
  }

  lemma OneChange(q: Queue, sid: string, log: seq<Entry>, change: Change)
    ensures var entry := Entry(|log| + 1, change.text);
            && Stamped(log, [change]) == [entry]
            && PushedAll(q, ChangeNotices(sid, |log| + 1, [change])) ==
               Pushed(q, EntryNotice(sid, entry, Some(change.view)))
  {
    var notice := EntryNotice(sid, Entry(|log| + 1, change.text), Some(change.view));
    assert ChangeNotices(sid, |log| + 1, [change]) == [notice];
    assert [notice][..0] == [];
    assert PushedAll(q, [notice]) == Pushed(PushedAll(q, []), notice);
  }

  lemma AppendIsHonest(p: Path, change: Change)
    requires Honest(p)
    ensures Honest(Happen(p, Append(change)))
  {
    var r, sid := Happen(p, Append(change)), p.client.sessionId;
    var notice := EntryNotice(sid, Entry(|p.log| + 1, change.text), Some(change.view));
    OneChange(p.queue, sid, p.log, change);
    StampedIsLog(p.log, [change]);
    if p.hearing == Reading {
      assert Continues([notice], |p.log|, r.log, sid, p.prompt) by {
        assert [notice][1..] == [];
      }
      PushStaysOnItsWay(p, notice, r.log);
    }
    LongerLogIsHonest(p, r);
  }

  lemma FinishIsHonest(p: Path, view: Session)
    requires Honest(p)
    ensures Honest(Happen(p, Finish(view)))
  {
    var r := Happen(p, Finish(view));
    if p.hearing == Reading {
      PushStaysOnItsWay(p, Envelope(p.client.sessionId, END, "", |p.log|, None, Some(view), None), p.log);
    }
    LongerLogIsHonest(p, r);
  }

  lemma BeatIsHonest(p: Path)
    requires Honest(p)
    ensures Honest(Happen(p, Beat))
  {
    var r := Happen(p, Beat);
    if p.hearing == Reading && p.queue.items == [] && !p.queue.closed {
      var sid := p.client.sessionId;
      var beat := Envelope(sid, HEARTBEAT, "", |p.log|, None, None, None);
      assert Continues([beat], |p.log|, p.log, sid, p.prompt) by {
        assert [beat][1..] == [];
      }
      assert p.pipe + p.queue.items == p.pipe;
      ContinuesOn(p.pipe, p.client.cursor, p.log, sid, p.prompt, beat, p.log);
      assert r.pipe + r.queue.items == p.pipe + [beat];
    }
    LongerLogIsHonest(p, r);
  }

  lemma WriteIsHonest(p: Path)
    requires Honest(p)
    ensures Honest(Happen(p, Write))
  {
    var r := Happen(p, Write);
    assert r.pipe + r.queue.items == p.pipe + p.queue.items;
    LongerLogIsHonest(p, r);
  }

  // ---------------------------------------------------------------- reading

  /** What the next message can be, and what is on its way after it. */
  lemma NextMessage(p: Path)
    requires OnItsWay(p) && p.pipe != []
    ensures var m, rest := p.pipe[0], p.pipe[1..] + p.queue.items;
            && m.sessionId == p.client.sessionId
            && (m.kind == TIMELINE ==> 1 <= m.cursor <= |p.log| && m.entry == Some(p.log[m.cursor - 1])
                                       && (p.prompt ==> m.cursor <= p.client.cursor + 1))
            && (m.kind in {STATE, HEARTBEAT, END} ==> m.cursor <= p.client.cursor)
            && (m.kind == RESYNC_REQUIRED ==> m.reason.Some? && m.reason.value in SERVER_REASONS)
            && (m.kind in {TIMELINE, STATE, HEARTBEAT} ==>
                  && Continues(rest, Past(p.client.cursor, m), p.log, p.client.sessionId, p.prompt)
                  && ServerDemands(rest) && (p.queue.closed ==> HasStop(rest)))
  {
    var coming := p.pipe + p.queue.items;
    var m, rest := p.pipe[0], p.pipe[1..] + p.queue.items;
    assert coming[0] == m && coming[1..] == rest && coming == [m] + rest;
    PrefixDemands([m], rest);
    assert [m][0] == m;
    if p.queue.closed && m.kind in {TIMELINE, STATE, HEARTBEAT} {
      var i :| 0 <= i < |coming| && coming[i].kind in {RESYNC_REQUIRED, END};
      assert rest[i - 1] == coming[i];
    }
  }

  /** A message leaves the timeline as it is, or is the next entry and is merged; and then the
      client stands where `Past` says, or has stopped. */
  lemma MessageMoves(client: ClientState, m: Envelope)
    requires m.sessionId == client.sessionId && (m.kind in {STATE, HEARTBEAT, END} ==> m.cursor <= client.cursor)
    requires m.kind == TIMELINE ==> m.entry.Some?
    ensures var (next, action) := ApplyEnvelope(client, m, client.generation);
            && next.sessionId == client.sessionId && next.cursor <= Past(client.cursor, m)
            && (action == NoAction ==>
                  next.cursor == Past(client.cursor, m) && m.kind in {TIMELINE, STATE, HEARTBEAT})
            && (if m.kind == TIMELINE && m.cursor == client.cursor + 1 then
                  next.timeline == Merged(client.timeline, [m.entry.value]) && next.cursor == client.cursor + 1
                else next.timeline == client.timeline && next.cursor == client.cursor)
            && (action == Resync ==> m.kind == RESYNC_REQUIRED || (m.kind == TIMELINE && m.cursor > client.cursor + 1))
            && (m.kind == TIMELINE && m.cursor > client.cursor + 1 ==> action == Resync)
  {
  }

  lemma NextEntryMerges(client: ClientState, log: seq<Entry>)
    requires IsLog(log) && Whole(client, log) && 0 <= client.cursor < |log|
    ensures var m := Merged(client.timeline, [log[client.cursor]]);
            && Stretch(m, log) && |m| <= TIMELINE_LIMIT && Grew(client.timeline, m) && client.cursor + 1 <= Hi(m)
  {
    var c := client.cursor;
    assert log[c..c + 1] == [log[c]];
    MergeGrows(client.timeline, [log[c]], log, c, c + 1);
  }

  lemma ReadKeepsShown(p: Path)
    requires IsLog(p.log) && Whole(p.client, p.log) && OnItsWay(p) && p.pipe != []
    ensures var r := ReadOne(p);
            && Whole(r.client, p.log)
            && (r.client.timeline == p.client.timeline || Grew(p.client.timeline, r.client.timeline))
  {
    NextMessage(p);
    MessageMoves(p.client, p.pipe[0]);
    var m, r := p.pipe[0], ReadOne(p);
    if m.kind == TIMELINE && m.cursor == p.client.cursor + 1 {
      NextEntryMerges(p.client, p.log);
      WholeGrows(p.client, r.client, p.log);
    }
  }

  lemma ReadHears(p: Path)
    requires OnItsWay(p) && p.pipe != []
    ensures var r := ReadOne(p);
            || r.hearing in {Reading, Ended} || (r.hearing == FoundHole && !p.prompt)
            || (r.hearing.Demanded? && r.hearing.reason in SERVER_REASONS)
  {
    NextMessage(p);
    MessageMoves(p.client, p.pipe[0]);
  }

  lemma ReadStaysOnItsWay(p: Path)
    requires OnItsWay(p) && p.pipe != [] && ReadOne(p).hearing == Reading
    ensures OnItsWay(ReadOne(p))
  {
    NextMessage(p);
    MessageMoves(p.client, p.pipe[0]);
  }

  lemma ReadIsHonest(p: Path)
    requires Honest(p)
    ensures Honest(Happen(p, Read))
  {
    if p.hearing == Reading && p.pipe != [] {
      var r := ReadOne(p);
      ReadKeepsShown(p);
      ReadHears(p);
      OldersStay(p.older, p.client.timeline, r.client.timeline, p.log, p.log);
      if r.hearing == Reading {
        ReadStaysOnItsWay(p);
      }
    }
  }

  // ---------------------------------------------------------------- snapshots and pages

  lemma BreakIsHonest(p: Path, at: string)
    requires Honest(p)
    ensures Honest(Happen(p, Break(at)))
  {
  }

  lemma BeginResyncIsHonest(p: Path)
    requires Honest(p)
    ensures Honest(Happen(p, BeginResync))
  {
  }

  lemma CutPageIsHonest(p: Path)
    requires Honest(p)
    ensures Honest(Happen(p, CutPage))
  {
    assert Hi(p.client.timeline) <= |p.log|;
  }

  /** The page of a resynchronisation that leaves nothing out is the stretch after the cursor the
      screen had when it asked, up to a page further or to the end of the log then. */
  lemma PageReadIs(p: Path) returns (to: nat)
    requires Honest(p) && p.hearing.Asking? && p.hearing.cut.Some? && !PageRead(p).gap
    ensures Covers(PageRead(p).entries, p.hearing.after, to, p.log) && PageEnd(PageRead(p), p.hearing.after) == to
  {
    var cut, after := p.hearing.cut.value, p.hearing.after;
    OldestIsAfterDropped(cut);
    PageIsSlice(cut, after);
    to := Min(after + PAGE_MAX, |cut|);
    CoversOnLongerLog(PageRead(p).entries, after, to, cut, p.log);
    if after < to {
      StretchOfCovered(PageRead(p).entries, p.log, after, to);
    }
  }

  lemma AcceptedIsWhole(p: Path, snapshot: Session, ticket: nat)
    requires Honest(p) && p.hearing.Asking? && p.hearing.cut.Some?
    requires Near(p, snapshot)
    ensures var next := AcceptSnapshot(p.client, snapshot, Some(PageRead(p)), ticket);
            && Whole(next, p.log) && snapshot.cursor <= next.cursor
            && (next.timeline == p.client.timeline || Grew(p.client.timeline, next.timeline))
  {
    if snapshot.cursor >= p.client.cursor {
      var to := PageReadIs(p);
      var after := p.hearing.after;
      GrowingOrShorter(p.client.timeline, after, to);
      MergeGrows(p.client.timeline, PageRead(p).entries, p.log, after, to);
      WholeGrows(p.client, AcceptSnapshot(p.client, snapshot, Some(PageRead(p)), ticket), p.log);
    }
  }

  lemma GrowingOrShorter(t: seq<Entry>, x: int, y: int)
    requires t != [] && Reaches(t, x) && x <= y
    ensures Reaches(t, y)
  {
  }

  lemma NotReadingIsHonest(p: Path, client: ClientState, hearing: Hearing)
    requires Honest(p) && Whole(client, p.log) && hearing != Reading
    requires client.timeline == p.client.timeline || Grew(p.client.timeline, client.timeline)
    requires HearingGood(hearing, client, p.log, p.prompt)
    ensures Honest(p.(client := client, hearing := hearing))
  {
    OldersStay(p.older, p.client.timeline, client.timeline, p.log, p.log);
  }

  lemma ShownAlike(a: ClientState, b: ClientState, log: seq<Entry>)
    requires Whole(a, log) && b.timeline == a.timeline && b.cursor == a.cursor
    ensures Whole(b, log)
  {
  }

  lemma ResynchroniseIsHonest(p: Path, snapshot: Session, ticket: nat, at: string)
    requires Honest(p) && Possible(p, Resynchronise(snapshot, ticket, at))
    ensures Honest(Happen(p, Resynchronise(snapshot, ticket, at)))
  {
    if p.hearing.Asking? && p.hearing.cut.Some? {
      var r := Resynchronised(p, snapshot, ticket, at);
      AcceptedIsWhole(p, snapshot, ticket);
      ShownAlike(AcceptSnapshot(p.client, snapshot, Some(PageRead(p)), ticket), r.client, p.log);
      NotReadingIsHonest(p, r.client, r.hearing);
    }
  }

  /** Another cursor, within what is shown already. */
  lemma AnswerAloneIsHonest(p: Path, snapshot: Session)
    requires Honest(p) && Possible(p, AnswerAlone(snapshot))
    ensures Honest(Happen(p, AnswerAlone(snapshot)))
  {
    var r := Happen(p, AnswerAlone(snapshot));
    assert r.client.timeline == p.client.timeline && p.client.cursor <= r.client.cursor <= Hi(p.client.timeline);
    if p.hearing == Reading {
      ContinuesAhead(p.pipe + p.queue.items, p.client.cursor, r.client.cursor, p.log, p.client.sessionId, p.prompt);
    }
  }

  // ---------------------------------------------------------------- older pages

  lemma AskOlderIsHonest(p: Path)
    requires Honest(p)
    ensures Honest(Happen(p, AskOlder))
  {
    OlderPageAsks(p.client);
  }

  lemma CutOlderIsHonest(p: Path, i: nat)
    requires Honest(p)
    ensures Honest(Happen(p, CutOlder(i)))
  {
    if i < |p.older| && p.older[i].Asked? {
      var r := Happen(p, CutOlder(i));
      assert OlderGood(p.older[i], p.client.timeline, p.log);
      assert OlderGood(r.older[i], p.client.timeline, p.log);
      forall k | 0 <= k < |r.older| ensures OlderGood(r.older[k], p.client.timeline, p.log) {}
    }
  }

  lemma OlderIsMerged(client: ClientState, log: seq<Entry>, read: OlderRead)
    requires IsLog(log) && Whole(client, log) && read.Served? && OlderGood(read, client.timeline, log)
    requires Dropped(read.cut) <= Hi(client.timeline)
    ensures var page := TimelinePage(read.cut, Some(read.after), PAGE_MAX);
            var next := WithOlderEntries(client, page, client.sessionId, read.ticket);
            Whole(next, log) && (next == client || Grew(client.timeline, next.timeline))
  {
    var from := Max(Dropped(read.cut), read.after);
    var to := Min(from + PAGE_MAX, |read.cut|);
    var page := TimelinePage(read.cut, Some(read.after), PAGE_MAX).entries;
    PageStarts(read.cut, read.after);
    CoversOnLongerLog(page, from, to, read.cut, log);
    MergeGrows(client.timeline, page, log, from, to);
  }

  lemma MergeOlderIsHonest(p: Path, i: nat)
    requires Honest(p) && Possible(p, MergeOlder(i))
    ensures Honest(Happen(p, MergeOlder(i)))
  {
    if i < |p.older| && p.older[i].Served? {
      var r := Happen(p, MergeOlder(i));
      assert OlderGood(p.older[i], p.client.timeline, p.log);
      OlderIsMerged(p.client, p.log, p.older[i]);
      OldersStay(p.older, p.client.timeline, r.client.timeline, p.log, p.log);
      forall k | 0 <= k < |r.older| ensures OlderGood(r.older[k], r.client.timeline, p.log) {
        assert k != i ==> r.older[k] == p.older[k];
      }
    }
  }

  lemma SubscribeIsHonest(p: Path, changes: seq<Change>, view: Session, ended: bool)
    requires Honest(p) && p.hearing.Connecting? && view.id == p.client.sessionId
    ensures Honest(Happen(p, Subscribe(changes, view, ended)))
  {
    var r := Happen(p, Subscribe(changes, view, ended));
    StampedIsLog(p.log, changes);
    SubscriptionOverflowsIff(p.log, changes, p.hearing.after, view, ended);
    if r.queue.closed {
      OverflowedContinues(p.log, changes, p.hearing.after, view, ended, p.client.cursor, r.prompt);
    } else {
      SubscribedContinues(p.log, changes, p.hearing.after, p.client.cursor, view, ended, r.prompt);
    }
    assert r.pipe + r.queue.items == r.queue.items;
    WholeOnLongerLog(p.client, p.log, r.log);
    OldersStay(p.older, p.client.timeline, p.client.timeline, p.log, r.log);
  }

  lemma HappenIsHonest(p: Path, event: Event)
    requires Honest(p) && Possible(p, event)
    ensures Honest(Happen(p, event))
  {
    match event
    case Append(change) => AppendIsHonest(p, change);
    case Finish(view) => FinishIsHonest(p, view);
    case Write => WriteIsHonest(p);
    case Beat => BeatIsHonest(p);
    case Read => ReadIsHonest(p);
    case Break(at) => BreakIsHonest(p, at);
    case BeginResync => BeginResyncIsHonest(p);
    case CutPage => CutPageIsHonest(p);
    case Resynchronise(snapshot, ticket, at) => ResynchroniseIsHonest(p, snapshot, ticket, at);
    case Subscribe(changes, view, ended) =>
      if p.hearing.Connecting? {
        SubscribeIsHonest(p, changes, view, ended);
      }
    case AnswerAlone(snapshot) => AnswerAloneIsHonest(p, snapshot);
    case AskOlder => AskOlderIsHonest(p);
    case CutOlder(i) => CutOlderIsHonest(p, i);
    case MergeOlder(i) => MergeOlderIsHonest(p, i);
  }

  // ---------------------------------------------------------------- the result

  lemma OpenedIsHonest(log: seq<Entry>, snapshot: Session, ticket: nat)
    requires IsLog(log) && log != [] && 0 <= snapshot.cursor <= |log| <= snapshot.cursor + PAGE_MAX
    ensures Honest(Opened(log, snapshot, ticket))
  {
    OpeningCovers(log, snapshot, ticket);
    StretchOfCovered(Opened(log, snapshot, ticket).client.timeline, log, Max(0, |log| - PAGE_MAX), |log|);
  }

  /** From a session's opening on, over any number of streams and resynchronisations - entries
      appended at any time, queues overflowing or not, heartbeats, connections lost, the session
      ending, older pages and answers in between, the browser reading as fast or as slowly as it
      likes: what is shown never has a hole. And the client finds one in what it is sent only on a
      stream that did not begin promptly. */
  lemma {:induction false} EveryRunIsHonest(log: seq<Entry>, snapshot: Session, ticket: nat, events: seq<Event>)
    requires IsLog(log) && log != [] && 0 <= snapshot.cursor <= |log| <= snapshot.cursor + PAGE_MAX
    requires AllPossible(Opened(log, snapshot, ticket), events)
    ensures Honest(RunPath(Opened(log, snapshot, ticket), events))
  {
    if events == [] {
      OpenedIsHonest(log, snapshot, ticket);
    } else {
      var before := events[..|events| - 1];
      EveryRunIsHonest(log, snapshot, ticket, before);
      HappenIsHonest(RunPath(Opened(log, snapshot, ticket), before), events[|events| - 1]);
    }
  }

  /** And whenever a client that is reading has read all there is, it shows the log without a hole
      up to its very last entry, at the server's own cursor. */
  lemma QuietMeansCaughtUp(log: seq<Entry>, snapshot: Session, ticket: nat, events: seq<Event>)
    requires IsLog(log) && log != [] && 0 <= snapshot.cursor <= |log| <= snapshot.cursor + PAGE_MAX
    requires AllPossible(Opened(log, snapshot, ticket), events)
    ensures var p := RunPath(Opened(log, snapshot, ticket), events);
            p.hearing == Reading && p.pipe == [] && p.queue.items == [] ==>
              && p.client.cursor == |p.log| && Stretch(p.client.timeline, p.log)
              && Hi(p.client.timeline) == |p.log|
  {
    EveryRunIsHonest(log, snapshot, ticket, events);
  }

  /** Nothing but the stream: what is recorded, sent and read. */
  predicate OfTheStream(event: Event) {
    event.Append? || event.Finish? || event.Write? || event.Beat? || event.Read? || event.Break?
  }

  lemma {:induction false} StreamStaysHonest(r: Path, events: seq<Event>)
    requires Honest(r) && forall k | 0 <= k < |events| :: OfTheStream(events[k])
    ensures Honest(RunPath(r, events)) && RunPath(r, events).prompt == r.prompt
  {
    if events != [] {
      var before := events[..|events| - 1];
      StreamStaysHonest(r, before);
      assert OfTheStream(events[|events| - 1]);
      HappenIsHonest(RunPath(r, before), events[|events| - 1]);
    }
  }

  /** However the stream goes on, the reader finds no hole in it. */
  ghost predicate NeverFindsAHole(r: Path) {
    forall events: seq<Event> | (forall k | 0 <= k < |events| :: OfTheStream(events[k])) ::
      RunPath(r, events).hearing != FoundHole
  }

  /** A stream is sent without a hole if and only if it began promptly: its subscription's evaluation
      found nothing, or the reader had missed nothing before it, or the queue overflowed at once.
      Otherwise the newest entry is sent ahead of those the reader has missed. */
  lemma FindsNoHoleIff(p: Path, changes: seq<Change>, view: Session, ended: bool)
    requires Honest(p) && p.hearing.Connecting? && view.id == p.client.sessionId
    ensures NeverFindsAHole(Happen(p, Subscribe(changes, view, ended))) <==> Prompt(p, changes, ended)
  {
    var r := Happen(p, Subscribe(changes, view, ended));
    SubscribeIsHonest(p, changes, view, ended);
    if Prompt(p, changes, ended) {
      PromptStreamIsSound(r);
    } else {
      NewestComesFirst(p, changes, view, ended);
      HoleAfterTwo(r);
    }
  }

  lemma PromptStreamIsSound(r: Path)
    requires Honest(r) && r.prompt
    ensures NeverFindsAHole(r)
  {
    forall events: seq<Event> | (forall k | 0 <= k < |events| :: OfTheStream(events[k]))
      ensures RunPath(r, events).hearing != FoundHole
    {
      StreamStaysHonest(r, events);
    }
  }

  lemma HoleAfterTwo(r: Path)
    requires Happen(Happen(r, Write), Read).hearing == FoundHole
    ensures !NeverFindsAHole(r)
  {
    RunOfTwo(r, Write, Read);
    assert forall k | 0 <= k < |[Write, Read]| :: OfTheStream([Write, Read][k]);
  }

  lemma RunOfTwo(p: Path, a: Event, b: Event)
    ensures RunPath(p, [a, b]) == Happen(Happen(p, a), b)
  {
    assert [a, b][..1] == [a] && [a][..0] == [];
    assert RunPath(p, [a]) == Happen(RunPath(p, []), a);
  }

  lemma NewestIsQueuedFirst(p: Path, changes: seq<Change>, view: Session, ended: bool)
    requires Honest(p) && p.hearing.Connecting? && view.id == p.client.sessionId && !Prompt(p, changes, ended)
    ensures var r := Happen(p, Subscribe(changes, view, ended));
            && r.queue.items != [] && !r.queue.closed && p.client.cursor < |p.log|
            && r.queue.items[0] == EntryNotice(view.id, Entry(|p.log| + 1, changes[0].text), Some(changes[0].view))
  {
    SubscriptionOverflowsIff(p.log, changes, p.hearing.after, view, ended);
    ChangeNoticesAre(view.id, |p.log| + 1, changes);
  }

  lemma ReadAheadStops(w: Path, m: Envelope)
    requires w.hearing == Reading && w.pipe == [m] && m.kind == TIMELINE && m.sessionId == w.client.sessionId
    requires m.cursor > w.client.cursor + 1
    ensures var read := Happen(w, Read);
            && read.hearing == FoundHole && read.client.timelineGap && read.client.timeline == w.client.timeline
            && read.client.resyncReason == Some("CURSOR_GAP")
  {
  }

  /** Then the very first message makes the client report a gap and resynchronise, although nothing
      was lost; what it shows stays as it is. */
  lemma NewestComesFirst(p: Path, changes: seq<Change>, view: Session, ended: bool)
    requires Honest(p) && p.hearing.Connecting? && view.id == p.client.sessionId && !Prompt(p, changes, ended)
    ensures var r := Happen(p, Subscribe(changes, view, ended));
            && r.queue.items != [] && r.queue.items[0].kind == TIMELINE && r.queue.items[0].cursor == |p.log| + 1
            && var read := Happen(Happen(r, Write), Read);
               && read.hearing == FoundHole && read.client.timelineGap && read.client.timeline == p.client.timeline
               && read.client.resyncReason == Some("CURSOR_GAP")
  {
    var r := Happen(p, Subscribe(changes, view, ended));
    NewestIsQueuedFirst(p, changes, view, ended);
    var w := Happen(r, Write);
    assert w.pipe == [r.queue.items[0]];
    ReadAheadStops(w, r.queue.items[0]);
  }

  lemma OneMissed(change: Change)
    ensures var missed := Happen(Opened(LogOf(1), Session("s", RUNNING, 1, 1, ""), 0), Append(change));
            && Honest(missed) && missed.hearing == Connecting(1) && missed.client.cursor == 1 && |missed.log| == 2
            && missed.client.sessionId == "s"
  {
    var snapshot := Session("s", RUNNING, 1, 1, "");
    var opening := Opened(LogOf(1), snapshot, 0);
    OpenedIsHonest(LogOf(1), snapshot, 0);
    AppendIsHonest(opening, change);
    StampedIsLog(opening.log, [change]);
  }

  lemma TwoNotices(sid: string, a: Entry, b: Entry)
    ensures EntryNotices(sid, [a, b]) == [EntryNotice(sid, a, None), EntryNotice(sid, b, None)]
  {
    assert [a, b][1..] == [b] && [b][1..] == [];
    assert EntryNotices(sid, [b]) == [EntryNotice(sid, b, None)] + EntryNotices(sid, []);
    assert EntryNotices(sid, [a, b]) == [EntryNotice(sid, a, None)] + EntryNotices(sid, [b]);
  }

  lemma TwoAfterOne(log: seq<Entry>, view: Session)
    requires IsLog(log) && |log| == 3
    ensures CatchUpRefusal(log, 1).None?
    ensures var items := Primer(log, 1, view, false);
            && |items| == 3 && items[0].cursor == 2 && items[1].cursor == 3 && items[2].kind == STATE
  {
    OldestIsAfterDropped(log);
    NewerThanIsSlice(log, 0, 1);
    assert log[0..] == log && log[1..] == [log[1], log[2]] && log[1..][1..] == [log[2]] && [log[2]][1..] == [];
    TwoNotices(view.id, log[1], log[2]);
  }

  /** A session opened when it had one entry records a second, and its evaluation finds a third as
      the stream is opened: sent are the third, the second, the third, and the state. */
  lemma EvaluationGoesFirst(view: Session, change: Change)
    requires view.id == "s"
    ensures var missed := Happen(Opened(LogOf(1), Session("s", RUNNING, 1, 1, ""), 0), Append(change));
            var r := Happen(missed, Subscribe([change], view, false));
            && |r.queue.items| == 4
            && r.queue.items[0].cursor == 3 && r.queue.items[1].cursor == 2 && r.queue.items[2].cursor == 3
            && r.queue.items[3].kind == STATE && !NeverFindsAHole(r)
  {
    var missed := Happen(Opened(LogOf(1), Session("s", RUNNING, 1, 1, ""), 0), Append(change));
    OneMissed(change);
    OutOfOrder(missed, view, change);
    FindsNoHoleIff(missed, [change], view, false);
  }

  lemma OutOfOrder(p: Path, view: Session, change: Change)
    requires Honest(p) && p.hearing == Connecting(1) && p.client.cursor == 1 && |p.log| == 2
    ensures var r := Happen(p, Subscribe([change], view, false));
            && !Prompt(p, [change], false) && |r.queue.items| == 4
            && r.queue.items[0].cursor == 3 && r.queue.items[1].cursor == 2 && r.queue.items[2].cursor == 3
            && r.queue.items[3].kind == STATE
  {
    StampedIsLog(p.log, [change]);
    TwoAfterOne(p.log + Stamped(p.log, [change]), view);
    SubscriptionOverflowsIff(p.log, [change], 1, view, false);
    assert ChangeNotices(view.id, 3, [change]) == [EntryNotice(view.id, Entry(3, change.text), Some(change.view))] + [];
  }

  /** A reader that missed 60 entries fits into the queue; with two more found by the evaluation it
      overflows before anything is read. */
  lemma EvaluationOverflows(view: Session, change: Change)
    ensures !Subscribed(LogOf(61), [], 1, view, false).closed
    ensures Subscribed(LogOf(61), [change, change], 1, view, false).closed
  {
    var log := LogOf(61);
    var log' := log + Stamped(log, [change, change]);
    StampedIsLog(log, []);
    StampedIsLog(log, [change, change]);
    SubscriptionOverflowsIff(log, [], 1, view, false);
    SubscriptionOverflowsIff(log, [change, change], 1, view, false);
    RetainedIsCaughtUp(log + Stamped(log, []), 1);
    RetainedIsCaughtUp(log', 1);
  }

  lemma RetainedIsCaughtUp(log: seq<Entry>, after: int)
    requires IsLog(log) && Dropped(log) <= after <= |log| && |log| - after < SUBSCRIBER_QUEUE - 1
    ensures CatchUpRefusal(log, after).None?
  {
    OldestIsAfterDropped(log);
    NewerThanIsSlice(log, Dropped(log), after);
  }
}
