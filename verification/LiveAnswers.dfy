/** What each answer and each message leaves on the live screen, field by field: the entries shown are
    the newest of what was shown and what was read, and nothing read is dropped in silence. Follows
    `open`, `resync`, `cancel`, `analyse` and `loadOlder` of frontend/src/screens/Live.tsx and the
    handlers its streams call. */
module LiveAnswers {
  import opened Wrappers
  import opened LiveTimeline
  import opened LiveClient
  import opened LiveProtocol

  /** Request `i` is settled, and no other request is touched. */
  ghost predicate OnlySettles(s: Screen, r: Screen, i: nat) {
    && i < |s.requests| == |r.requests|
    && !r.requests[i].pending && r.requests[i] == s.requests[i].(pending := false)
    && (forall k | 0 <= k < |s.requests| && k != i :: r.requests[k] == s.requests[k])
  }

  /** Neither what is shown nor anything that is under way changes. */
  ghost predicate SameSetting(s: Screen, r: Screen) {
    && r.generation == s.generation && r.controller == s.controller
    && r.streams == s.streams && r.timers == s.timers
    && r.closeStream == s.closeStream && r.resyncTimer == s.resyncTimer
  }

  /** A stream for the session shown, read on from the cursor of the answer, if the session runs. */
  ghost predicate StreamsIfRunning(s: Screen, r: Screen, id: string, reply: Reply) {
    && r.generation == s.generation && r.controller == s.controller && r.timers == s.timers
    && (reply.lifecycle == RUNNING ==>
          r.streams == s.streams + [Stream(id, reply.cursor, s.generation, false)]
          && r.closeStream == Some(|s.streams|) && r.resyncTimer == None)
    && (reply.lifecycle == ENDED ==> SameSetting(s, r))
  }

  lemma NothingToStop(s: Screen)
    requires Safe(s) && !Streaming(s) && !Ticking(s)
    ensures StopStream(s).streams == s.streams && StopStream(s).timers == s.timers
  {
    if s.closeStream.Some? && s.closeStream.value < |s.streams| {
      assert s.streams[s.closeStream.value].closed;
    }
  }

  lemma StartsOne(s: Screen, i: nat, shown: ClientState, after: int)
    requires Safe(s) && Current(s, i)
    ensures var started := StartStream(Answered(s, i).(active := Some(shown)), shown.sessionId, after, s.generation);
            && started.active == Some(shown) && OnlySettles(s, started, i)
            && started.generation == s.generation && started.controller == s.controller
            && started.timers == s.timers && started.resyncTimer == None
            && started.streams == s.streams + [Stream(shown.sessionId, after, s.generation, false)]
            && started.closeStream == Some(|s.streams|)
  {
    assert Reading(s);
    NothingToStop(s);
    var a := Answered(s, i).(active := Some(shown));
    assert StopStream(a) == StopStream(s).(requests := a.requests, active := a.active);
  }

  /** A session opened shows the newest of its first page, says so if that page starts late, and is
      streamed from where the answer stood if it runs. */
  lemma OpeningIsShown(s: Screen, i: nat, reply: Reply)
    requires Safe(s) && i < |s.requests|
    requires var q := s.requests[i]; q == Opening(q.sessionId, s.generation, true, false)
    ensures var id, r := s.requests[i].sessionId, Handle(s, OpenAnswered(i, reply));
            && OnlySettles(s, r, i) && StreamsIfRunning(s, r, id, reply) && r.active.Some?
            && var now := r.active.value;
            && now.sessionId == id && now.generation == s.generation && now.cursor == reply.cursor
            && now.session == Session(id, reply.lifecycle, reply.cursor, reply.oldestRetained, reply.facts)
            && (NoSeqTwice(reply.page.entries) ==> IsNewest(now.timeline, Latest(reply.page.entries)))
            && now.timelineGap == reply.page.gap && !now.resyncRequired && now.resyncReason == None
            && now.transport == (if reply.lifecycle == RUNNING then CONNECTING else CLOSED)
            && now.transportLog == [] && now.lastHeartbeatAt == None
  {
    var snapshot := SnapshotOf(s.requests[i].sessionId, reply);
    var state := InitialState(snapshot, Some(reply.page), s.generation);
    InitialTimelineIsNewest(snapshot, reply.page, s.generation);
    assert Current(s, i);
    StartsOne(s, i, state, reply.cursor);
  }

  /** A resynchronisation answered in time: unless the answer is behind the screen, every entry it read
      is merged with those shown, the newest 500 of both stay, and a gap reported once stays reported.
      Either way the screen goes on under the new ticket, and is streamed from where the answer stood. */
  lemma ResyncIsShown(s: Screen, i: nat, reply: Reply, at: string)
    requires Safe(s) && i < |s.requests|
    requires var q := s.requests[i]; q == Resyncing(q.sessionId, s.generation, true, false)
    ensures s.active.Some? && s.active.value.sessionId == s.requests[i].sessionId
    ensures var was, r := s.active.value, Handle(s, ResyncAnswered(i, reply, at));
            && OnlySettles(s, r, i) && StreamsIfRunning(s, r, was.sessionId, reply) && r.active.Some?
            && var now := r.active.value;
            && now.sessionId == was.sessionId && now.generation == s.generation
            && (reply.cursor < was.cursor ==> SameContent(was, now))
            && (reply.cursor >= was.cursor ==>
                  && IsNewest(now.timeline, Latest(was.timeline) + Latest(reply.page.entries))
                  && now.timelineGap == (was.timelineGap || reply.page.gap)
                  && now.cursor == reply.cursor
                  && now.session ==
                       Session(was.sessionId, reply.lifecycle, reply.cursor, reply.oldestRetained, reply.facts)
                  && !now.resyncRequired && now.resyncReason == None)
  {
    var was := s.active.value;
    var snapshot := SnapshotOf(s.requests[i].sessionId, reply);
    var next := WithTransport(AcceptSnapshot(was, snapshot, Some(reply.page), s.generation),
                              CONNECTING, TransportEvent(at, Resynced));
    assert Current(s, i);
    SnapshotIsShown(was, snapshot, Some(reply.page), s.generation);
    StartsOne(s, i, next, reply.cursor);
  }

  /** And what it reports of the connection: resynchronised, and over if the session has ended. */
  lemma ResyncIsReported(s: Screen, i: nat, reply: Reply, at: string)
    requires Safe(s) && i < |s.requests|
    requires var q := s.requests[i]; q == Resyncing(q.sessionId, s.generation, true, false)
    ensures s.active.Some?
    ensures var was, r := s.active.value, Handle(s, ResyncAnswered(i, reply, at)).active;
            && r.Some?
            && r.value.transport == (if reply.lifecycle == RUNNING then CONNECTING else CLOSED)
            && IsTail(r.value.transportLog, was.transportLog + [TransportEvent(at, Resynced)]
                        + (if reply.lifecycle == RUNNING then [] else [TransportEvent(at, ClosedStream)]))
            && r.value.lastHeartbeatAt == was.lastHeartbeatAt
  {
    assert Current(s, i);
    var was, resynced, ended := s.active.value, TransportEvent(at, Resynced), TransportEvent(at, ClosedStream);
    var snapshot := SnapshotOf(s.requests[i].sessionId, reply);
    var accepted := AcceptSnapshot(was, snapshot, Some(reply.page), s.generation);
    var next := WithTransport(accepted, CONNECTING, resynced);
    SnapshotIsShown(was, snapshot, Some(reply.page), s.generation);
    TransportIsLogged(accepted, CONNECTING, resynced);
    TransportIsLogged(next, CLOSED, ended);
    var all := was.transportLog + [resynced];
    assert all + [] == all;
    TailOfTail(next.transportLog, WithTransport(next, CLOSED, ended).transportLog, all, ended);
    StartsOne(s, i, next, reply.cursor);
  }

  /** The snapshot that follows a cancellation or an analysis: no page was read, so the entries and
      the gap stay, while session and cursor move on to it unless it is behind. */
  lemma SnapshotAnswerIsShown(s: Screen, i: nat, reply: Reply)
    requires s.active.Some? && i < |s.requests|
    requires s.requests[i] == Snapshotting(s.active.value.sessionId, true)
    ensures var was, r := s.active.value, Handle(s, SnapshotAnswered(i, reply));
            && OnlySettles(s, r, i) && SameSetting(s, r) && r.active.Some?
            && var now := r.active.value;
            && now.timeline == was.timeline && now.timelineGap == was.timelineGap && now.generation == was.generation
            && now.transport == was.transport && now.transportLog == was.transportLog
            && now.lastHeartbeatAt == was.lastHeartbeatAt
            && (reply.cursor < was.cursor ==> SameContent(was, now))
            && (reply.cursor >= was.cursor ==>
                  && now.cursor == reply.cursor && !now.resyncRequired && now.resyncReason == None
                  && now.session ==
                       Session(was.sessionId, reply.lifecycle, reply.cursor, reply.oldestRetained, reply.facts))
  {
    var was := s.active.value;
    SnapshotIsShown(was, SnapshotOf(was.sessionId, reply), None, was.generation);
    assert OnlySettles(s, Handle(s, SnapshotAnswered(i, reply)), i);
  }

  /** An older page asked for by the session and stream shown: its entries are merged, and nothing
      else changes. */
  lemma OlderAnswerIsShown(s: Screen, i: nat, page: Page)
    requires s.active.Some? && i < |s.requests|
    requires s.requests[i] == PagingOlder(s.active.value.sessionId, s.active.value.generation, true)
    ensures var was, r := s.active.value, Handle(s, OlderAnswered(i, page));
            && OnlySettles(s, r, i) && SameSetting(s, r) && r.active.Some?
            && var now := r.active.value;
            && IsNewest(now.timeline, Latest(was.timeline) + Latest(page.entries))
            && now == was.(timeline := now.timeline)
  {
    MergedIsNewest(s.active.value.timeline, page.entries);
    assert OnlySettles(s, Handle(s, OlderAnswered(i, page)), i);
  }

  /** The answers the screen no longer wants: under another ticket, or for another session. */
  ghost predicate Outdated(s: Screen, event: Event) {
    match event
    case OpenAnswered(i, _) =>
      i < |s.requests| && s.requests[i].Opening? && s.requests[i].ticket != s.generation
    case ResyncAnswered(i, _, _) =>
      i < |s.requests| && s.requests[i].Resyncing? && s.requests[i].ticket != s.generation
    case ResyncFailed(i, _, _) =>
      i < |s.requests| && s.requests[i].Resyncing? && s.requests[i].ticket != s.generation
    case SnapshotAnswered(i, _) =>
      i < |s.requests| && s.requests[i].Snapshotting?
      && (s.active.Some? ==> s.active.value.sessionId != s.requests[i].sessionId)
    case OlderAnswered(i, _) =>
      i < |s.requests| && s.requests[i].PagingOlder?
      && (s.active.Some? ==> s.active.value.sessionId != s.requests[i].sessionId
                             || s.active.value.generation != s.requests[i].ticket)
    case _ => false
  }

  /** They paint nothing, and neither start nor stop anything. */
  lemma OutdatedAnswersAreDropped(s: Screen, event: Event)
    requires Outdated(s, event)
    ensures Handle(s, event).active == s.active && SameSetting(s, Handle(s, event))
  {
  }

  // ---------------------------------------------------------------- what is asked for

  /** The read under way can only fail from now on; what it was asked for stays as it was. */
  ghost predicate AbortsTheRead(s: Screen, r: Screen) {
    && |s.requests| <= |r.requests|
    && (forall k | 0 <= k < |s.requests| :: r.requests[k].pending == s.requests[k].pending)
    && (forall k | Current(s, k) :: r.requests[k] == s.requests[k].(aborted := true))
    && (forall k | 0 <= k < |s.requests| && s.controller != Some(k) :: r.requests[k] == s.requests[k])
  }

  /** The old stream closed, the old timer cancelled, the read under way aborted; one read asked for,
      under a ticket that outdates everything before it. */
  ghost predicate StartsRead(s: Screen, r: Screen, read: Request) {
    && r.generation == s.generation + 1 && !Streaming(r) && !Ticking(r)
    && |r.requests| == |s.requests| + 1 && r.requests[|s.requests|] == read
    && r.controller == Some(|s.requests|)
    && AbortsTheRead(s, r)
  }

  lemma ReadStarts(s: Screen, read: Request)
    requires Safe(s)
    ensures StartsRead(s, NewRead(AbortReads(StopStream(s)), read), read)
  {
    StopIsSafe(s);
    AbortIsSafe(StopStream(s));
    var stopped := AbortReads(StopStream(s));
    var r := NewRead(stopped, read);
    assert r.streams == stopped.streams && r.timers == stopped.timers;
    assert Streaming(r) <==> Streaming(stopped);
    assert Ticking(r) <==> Ticking(stopped);
  }

  /** Asking for a session leaves what is shown as it is until the answer comes. */
  lemma OpeningIsAskedFor(s: Screen, id: string)
    requires Safe(s)
    ensures var r := Handle(s, OpenSession(id));
            r.active == s.active && StartsRead(s, r, Opening(id, s.generation + 1, true, false))
  {
    ReadStarts(s, Opening(id, s.generation + 1, true, false));
  }

  lemma FiredIsSafe(s: Screen, j: nat)
    requires Safe(s) && j < |s.timers| && s.timers[j]
    ensures var fired := s.(timers := s.timers[j := false]);
            Safe(fired) && forall i :: Current(fired, i) == Current(s, i)
  {
    var fired := s.(timers := s.timers[j := false]);
    assert Ticking(s);
    SameReads(s, fired);
    assert !Ticking(fired) && !Streaming(fired);
  }

  lemma TimerReadsAgain(s: Screen, j: nat, read: Request)
    requires Safe(s) && j < |s.timers| && s.timers[j]
    ensures StartsRead(s, NewRead(AbortReads(StopStream(s.(timers := s.timers[j := false]))), read), read)
  {
    FiredIsSafe(s, j);
    ReadStarts(s.(timers := s.timers[j := false]), read);
  }

  /** Asked for by hand or by the timer, the session shown is read again. */
  lemma ResyncIsAskedFor(s: Screen, event: Event)
    requires Safe(s) && s.active.Some?
    requires event.AskResync? || (event.TimerFires? && event.timer < |s.timers| && s.timers[event.timer])
    ensures var r := Handle(s, event);
            && r.active == s.active
            && StartsRead(s, r, Resyncing(s.active.value.sessionId, s.generation + 1, true, false))
  {
    var read := Resyncing(s.active.value.sessionId, s.generation + 1, true, false);
    if event.AskResync? {
      ReadStarts(s, read);
      assert Handle(s, event) == NewRead(AbortReads(StopStream(s)), read);
    } else {
      TimerReadsAgain(s, event.timer, read);
      var fired := s.(timers := s.timers[event.timer := false]);
      assert Handle(s, event) == NewRead(AbortReads(StopStream(fired)), read);
    }
  }

  /** An analysis or a cancellation is asked for the session shown, and an older page for the stream
      shown, if something older than the first entry shown is still retained; nothing else changes. */
  lemma OthersAreAskedFor(s: Screen, event: Event)
    requires s.active.Some? && (event.AskSnapshot? || event.AskOlder?)
    ensures var was, r := s.active.value, Handle(s, event);
            && r.active == s.active && SameSetting(s, r)
            && (event.AskSnapshot? ==> r.requests == s.requests + [Snapshotting(was.sessionId, true)])
            && (event.AskOlder? ==>
                  r.requests == s.requests
                    + (if was.timeline != [] && was.timeline[0].at > was.session.oldestRetained
                       then [PagingOlder(was.sessionId, was.generation, true)] else []))
  {
    assert s.requests + [] == s.requests;
  }

  /** Leaving a session shows nothing, stops its stream and outdates its reads; removing it also
      aborts the read under way. An unmounted screen only stops and aborts. */
  lemma LeavingStops(s: Screen, event: Event)
    requires Safe(s)
    requires event.Unmount? || (s.active.Some? && (event.Release? || event.BackToList?))
    ensures var r := Handle(s, event);
            && !Streaming(r) && !Ticking(r) && |r.requests| == |s.requests|
            && r.active == (if event.Unmount? then s.active else None)
            && r.generation == s.generation + (if event.Unmount? then 0 else 1)
            && (event.BackToList? ==> r.requests == s.requests)
            && (!event.BackToList? ==> AbortsTheRead(s, r))
  {
    StopIsSafe(s);
    var stopped := StopStream(s);
    AbortIsSafe(stopped);
    var r := Handle(s, event);
    assert r.streams == stopped.streams && r.timers == stopped.timers;
    assert Streaming(r) <==> Streaming(stopped);
    assert Ticking(r) <==> Ticking(stopped);
  }

  // ---------------------------------------------------------------- what the streams bring

  /** The open stream carries the ticket and the session of what is shown. */
  lemma ListeningIsForThisStream(s: Screen, i: nat)
    requires Safe(s) && i < |s.streams| && !s.streams[i].closed
    ensures Streaming(s) && s.active.Some? && s.streams[i].ticket == s.active.value.generation == s.generation
  {
  }

  /** Showing another state of the session and reading it again. */
  lemma ReadsAgain(s: Screen, state: ClientState)
    requires Safe(s) && s.active.Some?
    requires state.sessionId == s.active.value.sessionId && state.generation == s.active.value.generation
    ensures var r := LiveProtocol.Resync(s.(active := Some(state)));
            && r.active == Some(state)
            && StartsRead(s, r, Resyncing(state.sessionId, s.generation + 1, true, false))
  {
    RepaintIsSafe(s, state);
    var shown := s.(active := Some(state));
    ReadStarts(shown, Resyncing(state.sessionId, s.generation + 1, true, false));
    assert forall k :: Current(shown, k) == Current(s, k);
  }

  lemma MissResynchronises(s: Screen, i: nat, m: Envelope, state: ClientState)
    requires Safe(s) && i < |s.streams| && !s.streams[i].closed
    requires s.active.Some? && Taken(s.active.value, m, s.active.value.generation) && Misses(s.active.value, m)
    requires state == ApplyEnvelope(s.active.value, m, s.active.value.generation).0
    ensures state.sessionId == s.active.value.sessionId && state.generation == s.active.value.generation
    ensures Handle(s, Delivered(i, m)) == LiveProtocol.Resync(s.(active := Some(state)))
  {
    ListeningIsForThisStream(s, i);
    MessageIsReported(s.active.value, m, s.active.value.generation);
  }

  /** A message of the open stream that shows something was missed has the session read again at once. */
  lemma MissIsFollowed(s: Screen, i: nat, m: Envelope)
    requires Safe(s) && i < |s.streams| && !s.streams[i].closed
    ensures s.active.Some?
    ensures var was, r := s.active.value, Handle(s, Delivered(i, m));
            Taken(was, m, was.generation) && Misses(was, m) ==>
              && r.active == Some(ApplyEnvelope(was, m, was.generation).0)
              && StartsRead(s, r, Resyncing(was.sessionId, s.generation + 1, true, false))
  {
    ListeningIsForThisStream(s, i);
    var was := s.active.value;
    if Taken(was, m, was.generation) && Misses(was, m) {
      var state := ApplyEnvelope(was, m, was.generation).0;
      MissResynchronises(s, i, m, state);
      ReadsAgain(s, state);
    }
  }

  /** What it says otherwise is shown, and the last message ends the stream. */
  lemma DeliveryIsShown(s: Screen, i: nat, m: Envelope)
    requires Safe(s) && i < |s.streams| && !s.streams[i].closed
    ensures s.active.Some?
    ensures var was, r := s.active.value, Handle(s, Delivered(i, m));
            && (!Taken(was, m, was.generation) ==> r == s)
            && (Taken(was, m, was.generation) && !Misses(was, m) ==>
                  && r.active == Some(ApplyEnvelope(was, m, was.generation).0)
                  && r.requests == s.requests && r.generation == s.generation && r.controller == s.controller
                  && (m.kind != END ==> SameSetting(s, r))
                  && (m.kind == END ==> !Streaming(r) && !Ticking(r)))
  {
    ListeningIsForThisStream(s, i);
    var was := s.active.value;
    MessageIsShown(was, m, was.generation);
    if Taken(was, m, was.generation) {
      MessageIsReported(was, m, was.generation);
      var shown := s.(active := Some(ApplyEnvelope(was, m, was.generation).0));
      RepaintIsSafe(s, shown.active.value);
      StopIsSafe(shown);
    }
  }

  /** The connection's own events. */
  ghost function KindOf(event: Event): TransportKind
    requires event.StreamOpened? || event.StreamLost? || event.StreamInvalid?
  {
    if event.StreamOpened? then OpenedStream else if event.StreamLost? then LostStream else InvalidMessage
  }

  lemma ConnectionLogs(s: Screen, event: Event, transport: Transport)
    requires event.StreamOpened? || event.StreamLost? || event.StreamInvalid?
    requires s.active.Some? && event.stream < |s.streams| && !s.streams[event.stream].closed
    requires s.streams[event.stream].ticket == s.generation
    requires transport == if event.StreamOpened? then OPEN else LOST
    ensures Handle(s, event).active ==
            Some(WithTransport(s.active.value, transport, TransportEvent(event.at, KindOf(event))))
  {
  }

  /** They leave the content alone, and are shown and logged for what they are. */
  lemma ConnectionIsShown(s: Screen, event: Event)
    requires event.StreamOpened? || event.StreamLost? || event.StreamInvalid?
    requires Safe(s) && event.stream < |s.streams| && !s.streams[event.stream].closed
    ensures s.active.Some?
    ensures var was, r := s.active.value, Handle(s, event).active;
            && r.Some? && SameContent(was, r.value) && r.value.generation == was.generation
            && r.value.lastHeartbeatAt == was.lastHeartbeatAt
            && r.value.transport == (if event.StreamOpened? then OPEN else LOST)
            && IsTail(r.value.transportLog, was.transportLog + [TransportEvent(event.at, KindOf(event))])
  {
    ListeningIsForThisStream(s, event.stream);
    var transport := if event.StreamOpened? then OPEN else LOST;
    ConnectionLogs(s, event, transport);
    TransportIsLogged(s.active.value, transport, TransportEvent(event.at, KindOf(event)));
  }

  /** A stream that is lost has one retry set; an unreadable message has the session read again. */
  lemma ConnectionIsFollowed(s: Screen, event: Event)
    requires event.StreamOpened? || event.StreamLost? || event.StreamInvalid?
    requires Safe(s) && event.stream < |s.streams| && !s.streams[event.stream].closed
    ensures s.active.Some?
    ensures var was, r := s.active.value, Handle(s, event);
            && (event.StreamOpened? ==> SameSetting(s, r) && r.requests == s.requests)
            && (event.StreamLost? ==>
                  && !Streaming(r) && r.timers == s.timers + [true] && r.resyncTimer == Some(|s.timers|)
                  && r.requests == s.requests && r.generation == s.generation)
            && (event.StreamInvalid? ==>
                  StartsRead(s, r, Resyncing(was.sessionId, s.generation + 1, true, false)))
  {
    var i := event.stream;
    ListeningIsForThisStream(s, i);
    if event.StreamInvalid? {
      var state := WithTransport(s.active.value, LOST, TransportEvent(event.at, InvalidMessage));
      ReadsAgain(s, state);
    } else if event.StreamLost? {
      LostSourceIsSafe(s, i);
      var lost := CloseSource(s, i);
      assert Handle(s, event).streams == lost.streams;
      assert Streaming(Handle(s, event)) <==> Streaming(lost);
    }
  }

  /** A current read that fails: of a session the server no longer has, the screen says it is over;
      for any other reason one retry is set. An opening that fails leaves all else as it was. */
  lemma FailureIsShown(s: Screen, event: Event)
    requires event.ResyncFailed? || event.OpenFailed?
    requires Safe(s) && Current(s, event.request)
    requires s.requests[event.request].Opening? <==> event.OpenFailed?
    ensures event.ResyncFailed? ==> s.active.Some?
    ensures var r := Handle(s, event);
            && OnlySettles(s, r, event.request)
            && (event.OpenFailed? ==> r.active == s.active && SameSetting(s, r))
            && (event.ResyncFailed? && !event.notFound ==>
                  && r.active == s.active && r.streams == s.streams && r.generation == s.generation
                  && r.timers == s.timers + [true] && r.resyncTimer == Some(|s.timers|))
            && (event.ResyncFailed? && event.notFound ==>
                  && SameSetting(s, r) && r.active.Some?
                  && SameContent(s.active.value, r.active.value) && r.active.value.transport == CLOSED
                  && r.active.value.generation == s.active.value.generation
                  && IsTail(r.active.value.transportLog,
                            s.active.value.transportLog + [TransportEvent(event.at, ClosedStream)]))
  {
    assert OnlySettles(s, Answered(s, event.request), event.request);
    if event.ResyncFailed? {
      TransportIsLogged(s.active.value, CLOSED, TransportEvent(event.at, ClosedStream));
    }
  }
}
