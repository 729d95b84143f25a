/** What each step on the path from the server's log to the browser leaves behind, message by message and
    entry by entry. Follows `_append`, `_publish` and `_finish` of
    backend/app/application/live/workspace.py, the frame loop of backend/app/api/routes/live.py and the
    reads of frontend/src/screens/Live.tsx, as put together in `LiveDelivery`. */
module LiveSteps {
  import opened Wrappers
  import opened LiveTimeline
  import opened LiveClient
  import opened LiveServer
  import opened LiveQueue
  import opened LiveDelivery

  /** The reader and what it has asked for are as they were. */
  ghost predicate SameReader(p: Path, r: Path) {
    r.client == p.client && r.hearing == p.hearing && r.prompt == p.prompt && r.older == p.older
  }

  /** The server's side, and what is on the wire, are as they were. */
  ghost predicate SameServer(p: Path, r: Path) {
    r.log == p.log && r.queue == p.queue && r.pipe == p.pipe
  }

  /** One notification more; a full queue becomes one demand, and a closed one takes nothing. */
  ghost predicate Queues(before: Queue, after: Queue, m: Envelope) {
    if before.closed then after == before
    else if |before.items| < 64 then after == Queue(before.items + [m], false)
    else
      after == Queue([Envelope(m.sessionId, RESYNC_REQUIRED, "", m.cursor, None, None, Some("SUBSCRIBER_OVERFLOW"))],
                     true)
  }

  /** Recording something appends the next entry to the log and queues it with the session's state;
      ending the session queues its end. */
  lemma RecordingIs(p: Path, event: Event)
    requires event.Append? || event.Finish?
    ensures var r := Happen(p, event);
            && SameReader(p, r) && r.pipe == p.pipe
            && match event {
                 case Append(change) =>
                   var entry := Entry(|p.log| + 1, change.text);
                   && r.log == p.log + [entry]
                   && Queues(p.queue, r.queue, Envelope(p.client.sessionId, TIMELINE, "", entry.at, Some(entry),
                                                        Some(change.view), None))
                 case Finish(view) =>
                   && r.log == p.log
                   && Queues(p.queue, r.queue, Envelope(p.client.sessionId, END, "", |p.log|, None, Some(view), None))
                 case _ => false
               }
  {
    if event.Append? {
      OneChange(p.queue, p.client.sessionId, p.log, event.change);
    }
  }

  /** What is queued goes on the wire in order, and a heartbeat with the log's cursor when nothing is. */
  lemma WritingIs(p: Path, event: Event)
    requires event.Write? || event.Beat?
    ensures var r := Happen(p, event);
            && SameReader(p, r) && r.log == p.log && r.queue.closed == p.queue.closed
            && (event.Write? ==> r.pipe + r.queue.items == p.pipe + p.queue.items)
            && (event.Write? && p.queue.items != [] ==> |r.queue.items| == |p.queue.items| - 1)
            && (event.Beat? && p.queue.items == [] && !p.queue.closed ==>
                  && r.queue == p.queue
                  && r.pipe == p.pipe + [Envelope(p.client.sessionId, HEARTBEAT, "", |p.log|, None, None, None)])
            && (event.Beat? && (p.queue.items != [] || p.queue.closed) ==> r == p)
  {
  }

  /** A browser that still reads takes in the first message on the wire, and goes on reading unless that
      message shows something was missed or is the last. */
  lemma ReadingIs(p: Path)
    requires p.pipe != [] && p.hearing == Reading
    ensures var m, r := p.pipe[0], Happen(p, Read);
            && r.log == p.log && r.queue == p.queue && p.pipe == [m] + r.pipe
            && r.client == ApplyEnvelope(p.client, m, p.client.generation).0
            && r.older == p.older && r.prompt == p.prompt
            && var taken := Taken(p.client, m, p.client.generation);
               r.hearing == if taken && m.kind == END then Ended
                            else if taken && m.kind == RESYNC_REQUIRED then
                              Demanded(if m.reason.Some? then m.reason.value else "")
                            else if taken && Misses(p.client, m) then FoundHole
                            else Reading
  {
    var m := p.pipe[0];
    MessageIsShown(p.client, m, p.client.generation);
    if Taken(p.client, m, p.client.generation) {
      MessageIsReported(p.client, m, p.client.generation);
    }
  }

  /** A resynchronisation leaves the stream, asks for what follows the screen's cursor, and has its page
      cut from the log as it stands then. */
  lemma AskingIs(p: Path)
    ensures var r := Happen(p, BeginResync);
            && r.log == p.log && r.client == p.client && r.older == p.older && r.queue == Queue([], true)
            && r.hearing == Asking(p.client.cursor, None)
            && var c := Happen(r, CutPage);
               c == r.(hearing := Asking(p.client.cursor, Some(p.log)))
  {
  }

  /** The page of a resynchronisation: up to 100 entries after the screen's cursor, of the 500 that were
      retained when it was cut; and whether it had to start later. */
  lemma PageReadIs(p: Path, first: nat)
    requires p.hearing.Asking? && p.hearing.cut.Some? && IsLog(p.hearing.cut.value)
    requires p.hearing.after <= |p.hearing.cut.value|
    requires var log := p.hearing.cut.value; first == if |log| > 500 then |log| - 500 else 0
    ensures var (log, from) := (p.hearing.cut.value, Max(p.hearing.after, first));
            PageRead(p) == Page(log[from..Min(from + 100, |log|)], p.hearing.after < first)
  {
    PageIs(p.hearing.cut.value, Some(p.hearing.after), PAGE_MAX, 100, first);
  }

  lemma TransportKeepsShown(state: ClientState, snapshot: Session, page: Page, next: ClientState, was: ClientState)
    requires state.generation == next.generation && SameContent(state, next)
    ensures SameContent(was, state) ==> SameContent(was, next)
    ensures ShowsSnapshot(was, state, snapshot, Some(page)) ==> ShowsSnapshot(was, next, snapshot, Some(page))
  {
  }

  /** With snapshot and page there, both are shown, unless the snapshot is behind; and a stream is asked
      for from the snapshot's cursor if the session still runs. */
  lemma ResynchronisingIs(p: Path, snapshot: Session, ticket: nat, at: string)
    requires p.hearing.Asking? && p.hearing.cut.Some? && snapshot.id == p.client.sessionId
    ensures var r := Happen(p, Resynchronise(snapshot, ticket, at));
            && SameServer(p, r) && r.older == p.older && r.client.generation == ticket
            && r.hearing == (if snapshot.lifecycle == RUNNING then Connecting(snapshot.cursor) else Ended)
            && (if snapshot.cursor < p.client.cursor then SameContent(p.client, r.client)
                else ShowsSnapshot(p.client, r.client, snapshot, Some(PageRead(p))))
  {
    var accepted := AcceptSnapshot(p.client, snapshot, Some(PageRead(p)), ticket);
    var next := WithTransport(accepted, CONNECTING, TransportEvent(at, Resynced));
    var over := WithTransport(next, CLOSED, TransportEvent(at, ClosedStream));
    SnapshotIsShown(p.client, snapshot, Some(PageRead(p)), ticket);
    TransportIsLogged(accepted, CONNECTING, TransportEvent(at, Resynced));
    TransportIsLogged(next, CLOSED, TransportEvent(at, ClosedStream));
    TransportKeepsShown(accepted, snapshot, PageRead(p), next, p.client);
    TransportKeepsShown(next, snapshot, PageRead(p), over, p.client);
  }

  /** The snapshot that answers a cancellation or an analysis is shown, unless it is behind; the entries
      and the gap stay as they are. */
  lemma AnswerAloneIs(p: Path, snapshot: Session)
    requires snapshot.id == p.client.sessionId
    ensures var r := Happen(p, AnswerAlone(snapshot));
            && SameServer(p, r) && r == p.(client := r.client) && r.client.generation == p.client.generation
            && (if snapshot.cursor < p.client.cursor then SameContent(p.client, r.client)
                else ShowsSnapshot(p.client, r.client, snapshot, None))
  {
    SnapshotIsShown(p.client, snapshot, None, p.client.generation);
  }

  /** The stream asked for is opened from there: what the evaluation found is recorded first and queued
      first, and what was still on the wire of the stream before is gone. */
  lemma SubscribingIs(p: Path, changes: seq<Change>, view: Session, ended: bool)
    requires p.hearing.Connecting? && IsLog(p.log)
    ensures var r := Happen(p, Subscribe(changes, view, ended));
            && r.client == p.client && r.older == p.older && r.pipe == [] && r.hearing == Reading
            && IsLog(r.log) && p.log <= r.log && |r.log| == |p.log| + |changes|
            && (forall k | 0 <= k < |changes| :: r.log[|p.log| + k].text == changes[k].text)
            && (!r.queue.closed ==>
                  r.queue.items == ChangeNotices(view.id, |p.log| + 1, changes)
                                   + Primer(r.log, p.hearing.after, view, ended))
  {
    StampedIsLog(p.log, changes);
    SubscriptionOverflowsIff(p.log, changes, p.hearing.after, view, ended);
  }

  /** A lost connection is shown and logged; what is shown of the session stays. */
  lemma BreakingIs(p: Path, at: string)
    requires p.hearing == Reading
    ensures var r := Happen(p, Break(at));
            && SameServer(p, r) && r.older == p.older && r.hearing == Lost
            && SameContent(p.client, r.client) && r.client.generation == p.client.generation
            && r.client.transport == LOST
            && IsTail(r.client.transportLog, p.client.transportLog + [TransportEvent(at, LostStream)])
  {
    TransportIsLogged(p.client, LOST, TransportEvent(at, LostStream));
  }

  /** An older page is asked for just below what is shown, if anything older is retained. */
  lemma OlderPageIsAskedFor(p: Path)
    ensures var r, shown := Happen(p, AskOlder), p.client.timeline;
            && SameServer(p, r) && r.client == p.client && r.hearing == p.hearing
            && var oldest := p.client.session.oldestRetained;
               if shown == [] || shown[0].at <= oldest then r.older == p.older
               else
                 var below := shown[0].at - 101;
                 r.older == p.older + [Asked(if below > oldest - 1 then below else oldest - 1, p.client.generation)]
  {
  }

  /** It is cut from the log as it stands by then. */
  lemma OlderPageIsCut(p: Path, i: nat)
    requires i < |p.older| && p.older[i].Asked?
    ensures var r := Happen(p, CutOlder(i));
            && SameServer(p, r) && r.client == p.client && r.hearing == p.hearing
            && r.older == p.older[i := Served(p.older[i].after, p.older[i].ticket, p.log)]
  {
  }

  lemma OlderIsShown(client: ClientState, page: Page, ticket: nat)
    ensures var r := WithOlderEntries(client, page, client.sessionId, ticket);
            && (ticket != client.generation ==> r == client)
            && (ticket == client.generation ==>
                  && r == client.(timeline := r.timeline)
                  && IsNewest(r.timeline, Latest(client.timeline) + Latest(page.entries)))
  {
    MergedIsNewest(client.timeline, page.entries);
  }

  /** And up to 100 entries of it are merged into what is shown, under the ticket it was asked for. */
  lemma OlderPageIsMerged(p: Path, i: nat, first: nat)
    requires i < |p.older| && p.older[i].Served? && IsLog(p.older[i].cut) && p.older[i].after <= |p.older[i].cut|
    requires var cut := p.older[i].cut; first == if |cut| > 500 then |cut| - 500 else 0
    ensures var read, r := p.older[i], Happen(p, MergeOlder(i));
            var from := Max(read.after, first);
            && SameServer(p, r) && r.hearing == p.hearing && r.older == p.older[i := Settled]
            && (read.ticket != p.client.generation ==> r.client == p.client)
            && (read.ticket == p.client.generation ==>
                  && r.client == p.client.(timeline := r.client.timeline)
                  && IsNewest(r.client.timeline,
                              Latest(p.client.timeline) + Latest(read.cut[from..Min(from + 100, |read.cut|)])))
  {
    var read := p.older[i];
    PageIs(read.cut, Some(read.after), PAGE_MAX, 100, first);
    OlderIsShown(p.client, TimelinePage(read.cut, Some(read.after), PAGE_MAX), read.ticket);
  }
}
