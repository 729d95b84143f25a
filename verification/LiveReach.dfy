/** What the live screen reads, and from where: every stream from a cursor the screen has reached,
    every demand met at once. Follows `startStream`, `resync` and `open` of
    frontend/src/screens/Live.tsx. */
module LiveReach {
  import opened Wrappers
  import opened LiveTimeline
  import opened LiveClient
  import opened LiveProtocol

  /** Across everything that happens while one session is shown, its cursor never goes back. */
  lemma ShownCursorNeverDecreases(s: Screen, event: Event)
    requires Safe(s) && s.active.Some? && Handle(s, event).active.Some? && !event.OpenAnswered?
    ensures Handle(s, event).active.value.sessionId == s.active.value.sessionId
    ensures Handle(s, event).active.value.cursor >= s.active.value.cursor
  {
    if event.Delivered? {
      DeliveredKeepsCursor(s, event.stream, event.envelope);
    } else if event.ResyncAnswered? {
      ResyncKeepsCursor(s, event.request, event.reply, event.at);
    }
  }

  lemma DeliveredKeepsCursor(s: Screen, i: nat, envelope: Envelope)
    requires Safe(s) && s.active.Some?
    ensures var r := OnDelivered(s, i, envelope).active;
            r.Some? && r.value.sessionId == s.active.value.sessionId && r.value.cursor >= s.active.value.cursor
  {
    if Listening(s, i) {
      var (state, _) := ApplyEnvelope(s.active.value, envelope, s.streams[i].ticket);
      EnvelopeKeepsCursor(s.active.value, envelope, s.streams[i].ticket);
      StoppingKeepsShown(s.(active := Some(state)));
    }
  }

  lemma EnvelopeKeepsCursor(current: ClientState, envelope: Envelope, ticket: nat)
    ensures var (state, _) := ApplyEnvelope(current, envelope, ticket);
            state.sessionId == current.sessionId && state.cursor >= current.cursor
  {
  }

  lemma StoppingKeepsShown(s: Screen)
    ensures StopStream(s).active == s.active && LiveProtocol.Resync(s).active == s.active
  {
  }

  lemma ResyncKeepsCursor(s: Screen, i: nat, reply: Reply, at: string)
    requires Safe(s) && s.active.Some?
    ensures var r := OnResyncAnswered(s, i, reply, at).active;
            r.Some? && r.value.sessionId == s.active.value.sessionId && r.value.cursor >= s.active.value.cursor
  {
  }

  /** Every open stream was asked for from a cursor the screen has reached: what it brings first is
      either known already or the very next entry. */
  ghost predicate WithinReach(s: Screen) {
    forall i | 0 <= i < |s.streams| && !s.streams[i].closed ::
      s.active.Some? && s.streams[i].after <= s.active.value.cursor
  }

  /** A stream open after a step was open before it, or was just started within reach. */
  ghost predicate OldOrWithinReach(s: Screen, r: Screen) {
    forall i | 0 <= i < |r.streams| && !r.streams[i].closed ::
      || (i < |s.streams| && !s.streams[i].closed && r.streams[i].after == s.streams[i].after)
      || (r.active.Some? && r.streams[i].after <= r.active.value.cursor)
  }

  lemma StopOpensNothing(s: Screen)
    ensures OldOrWithinReach(s, StopStream(s)) && |StopStream(s).streams| == |s.streams|
  {
  }

  lemma StartedWithinReach(s: Screen, state: ClientState, after: int, ticket: nat)
    requires after <= state.cursor
    ensures OldOrWithinReach(s, StartStream(s.(active := Some(state)), state.sessionId, after, ticket))
  {
    StopOpensNothing(s.(active := Some(state)));
  }

  lemma AnswersStartWithinReach(s: Screen, event: Event)
    requires event.OpenAnswered? || event.ResyncAnswered?
    ensures OldOrWithinReach(s, Handle(s, event))
  {
    var i := event.request;
    if Hears(s, i) {
      var snapshot := SnapshotOf(s.requests[i].sessionId, event.reply);
      if event.OpenAnswered? && s.requests[i].Opening? {
        var state := InitialState(snapshot, Some(event.reply.page), s.requests[i].ticket);
        StartedWithinReach(Answered(s, i), state, snapshot.cursor, s.requests[i].ticket);
      } else if event.ResyncAnswered? && s.requests[i].Resyncing? && s.active.Some?
                && s.active.value.sessionId == s.requests[i].sessionId {
        var accepted := AcceptSnapshot(s.active.value, snapshot, Some(event.reply.page), s.requests[i].ticket);
        var next := WithTransport(accepted,
                                  CONNECTING, TransportEvent(event.at, Resynced));
        StartedWithinReach(Answered(s, i), next, snapshot.cursor, s.requests[i].ticket);
      }
    }
  }

  lemma ReadingOpensNothing(s: Screen, read: Request)
    ensures OldOrWithinReach(s, NewRead(AbortReads(StopStream(s)), read))
  {
    StopOpensNothing(s);
    assert NewRead(AbortReads(StopStream(s)), read).streams == StopStream(s).streams;
  }

  lemma ResyncOpensNothing(s: Screen)
    ensures OldOrWithinReach(s, LiveProtocol.Resync(s))
  {
    if s.active.Some? {
      ReadingOpensNothing(s, Resyncing(s.active.value.sessionId, s.generation + 1, true, false));
    }
  }

  lemma DeliveredOpensNothing(s: Screen, i: nat, envelope: Envelope)
    ensures OldOrWithinReach(s, OnDelivered(s, i, envelope))
  {
    if Listening(s, i) && s.active.Some? {
      var (state, _) := ApplyEnvelope(s.active.value, envelope, s.streams[i].ticket);
      var shown := s.(active := Some(state));
      StopOpensNothing(shown);
      ResyncOpensNothing(shown);
    }
  }

  lemma InvalidOpensNothing(s: Screen, i: nat, at: string)
    ensures OldOrWithinReach(s, OnStreamInvalid(s, i, at))
  {
    ResyncOpensNothing(LogTransport(s, LOST, TransportEvent(at, InvalidMessage)));
  }

  lemma TimerOpensNothing(s: Screen, j: nat)
    ensures OldOrWithinReach(s, Handle(s, TimerFires(j)))
  {
    if j < |s.timers| {
      ResyncOpensNothing(s.(timers := s.timers[j := false]));
    }
  }

  lemma OthersOpenNothing(s: Screen, event: Event)
    requires !event.OpenAnswered? && !event.ResyncAnswered?
    ensures OldOrWithinReach(s, Handle(s, event))
  {
    match event
    case OpenSession(sessionId) => ReadingOpensNothing(s, Opening(sessionId, s.generation + 1, true, false));
    case Release => StopOpensNothing(s);
    case BackToList => StopOpensNothing(s);
    case Unmount => StopOpensNothing(s);
    case AskResync => ResyncOpensNothing(s);
    case TimerFires(j) => TimerOpensNothing(s, j);
    case Delivered(i, envelope) => DeliveredOpensNothing(s, i, envelope);
    case StreamInvalid(i, at) => InvalidOpensNothing(s, i, at);
    case _ =>
  }

  lemma StepKeepsWithinReach(s: Screen, event: Event)
    requires Safe(s) && WithinReach(s)
    ensures WithinReach(Handle(s, event))
  {
    var r := Handle(s, event);
    StepIsSafe(s, event);
    if event.OpenAnswered? {
      OpeningStartsAfresh(s, event.request, event.reply);
    } else if event.ResyncAnswered? {
      AnswersStartWithinReach(s, event);
    } else {
      OthersOpenNothing(s, event);
    }
    if !event.OpenAnswered? && s.active.Some? && r.active.Some? {
      ShownCursorNeverDecreases(s, event);
    }
  }

  /** An opening that is answered in time finds no stream to inherit. */
  lemma OpeningStartsAfresh(s: Screen, i: nat, reply: Reply)
    requires Safe(s) && WithinReach(s)
    ensures WithinReach(OnOpenAnswered(s, i, reply))
  {
    AnswersStartWithinReach(s, OpenAnswered(i, reply));
    if Hears(s, i) && s.requests[i].Opening? && s.requests[i].ticket == s.generation {
      assert Current(s, i);
      assert !Streaming(s);
    }
  }

  /** In every run a stream is read from within the screen's reach: the assumption under which the
      path from the server's log to the browser is free of holes. */
  lemma {:induction false} EveryStreamStartsWithinReach(events: seq<Event>)
    ensures WithinReach(LiveProtocol.Run(START, events))
  {
    if events != [] {
      EveryStreamStartsWithinReach(events[..|events| - 1]);
      EveryRunIsSafe(events[..|events| - 1]);
      StepKeepsWithinReach(LiveProtocol.Run(START, events[..|events| - 1]), events[|events| - 1]);
    }
  }

  /** A message that demands a resynchronisation closes the stream and starts the read at once,
      for the session shown and under a ticket that outdates everything still under way; one that
      ends the session closes the stream for good. */
  lemma DemandIsMet(s: Screen, i: nat, envelope: Envelope)
    requires Safe(s) && Listening(s, i)
    ensures s.active.Some?
    ensures var (state, action) := ApplyEnvelope(s.active.value, envelope, s.streams[i].ticket);
            var r := Handle(s, Delivered(i, envelope));
            && r.active == Some(state)
            && (action == LiveClient.Resync ==>
                  !Streaming(r) && r.generation == s.generation + 1
                  && r.requests == AbortReads(s).requests + [Resyncing(state.sessionId, r.generation, true, false)])
            && (action == CloseStream ==>
                  !Streaming(r) && !Ticking(r) && r.requests == s.requests && state.transport == CLOSED)
            && (action == NoAction ==> Streaming(r) && r.requests == s.requests)
  {
    assert Streaming(s);
    var (state, action) := ApplyEnvelope(s.active.value, envelope, s.streams[i].ticket);
    var shown := s.(active := Some(state));
    RepaintIsSafe(s, state);
    StopIsSafe(shown);
  }
}
