/** The live screen as a state machine: what its callbacks do to the refs they share, for every
    order in which the person, the timers, the streams and the answers may act. Follows the
    protocol callbacks of frontend/src/screens/Live.tsx and `openLiveEvents` of
    frontend/src/api/live.ts. `LiveScreen` is the same protocol as the object that runs it. */
module LiveProtocol {
  import opened Wrappers
  import opened LiveTimeline
  import opened LiveClient

  /** One EventSource. Once closed it never calls back. */
  datatype Stream = Stream(sessionId: string, after: int, ticket: nat, closed: bool)

  /** A request whose answer is still awaited, or no longer. The reads of a session share an abort
      signal; an aborted read can only fail. */
  datatype Request =
    | Opening(sessionId: string, ticket: nat, pending: bool, aborted: bool)
    | Resyncing(sessionId: string, ticket: nat, pending: bool, aborted: bool)
    | Snapshotting(sessionId: string, pending: bool)              // cancel, or analyse
    | PagingOlder(sessionId: string, ticket: nat, pending: bool)

  /** What the server says about the session named in the request's path. */
  datatype Reply = Reply(lifecycle: Lifecycle, cursor: int, oldestRetained: int, facts: string, page: Page)

  /** `controller` is the read whose signal the screen can still abort. */
  datatype Screen = Screen(
    active: Option<ClientState>, generation: nat, closeStream: Option<nat>, resyncTimer: Option<nat>,
    controller: Option<nat>, streams: seq<Stream>, timers: seq<bool>, requests: seq<Request>)

  const START := Screen(None, 0, None, None, None, [], [], [])

  datatype Event =
    | OpenSession(sessionId: string)
    | OpenAnswered(request: nat, reply: Reply)
    | OpenFailed(request: nat)
    | ResyncAnswered(request: nat, reply: Reply, at: string)
    | ResyncFailed(request: nat, notFound: bool, at: string)
    | Release
    | BackToList
    | AskResync
    | AskSnapshot
    | SnapshotAnswered(request: nat, reply: Reply)
    | AskOlder
    | OlderAnswered(request: nat, older: Page)
    | StreamOpened(stream: nat, at: string)
    | Delivered(stream: nat, envelope: Envelope)
    | StreamLost(stream: nat, at: string)
    | StreamInvalid(stream: nat, at: string)
    | TimerFires(timer: nat)
    | Unmount

  // ---------------------------------------------------------------- the callbacks

  function SnapshotOf(sessionId: string, reply: Reply): Session {
    Session(sessionId, reply.lifecycle, reply.cursor, reply.oldestRetained, reply.facts)
  }

  function CloseSource(s: Screen, i: nat): Screen {
    if i < |s.streams| then s.(streams := s.streams[i := s.streams[i].(closed := true)]) else s
  }

  function StopStream(s: Screen): Screen {
    var s := if s.closeStream.Some? then CloseSource(s, s.closeStream.value) else s;
    s.(closeStream := None, resyncTimer := None,
       timers := if s.resyncTimer.Some? && s.resyncTimer.value < |s.timers|
                 then s.timers[s.resyncTimer.value := false] else s.timers)
  }

  function LogTransport(s: Screen, transport: Transport, event: TransportEvent): Screen {
    if s.active.None? then s else s.(active := Some(WithTransport(s.active.value, transport, event)))
  }

  function StartStream(s: Screen, sessionId: string, after: int, ticket: nat): Screen {
    var s := StopStream(s);
    s.(closeStream := Some(|s.streams|), streams := s.streams + [Stream(sessionId, after, ticket, false)])
  }

  function AbortReads(s: Screen): Screen {
    if s.controller.Some? && s.controller.value < |s.requests|
       && (s.requests[s.controller.value].Opening? || s.requests[s.controller.value].Resyncing?) then
      s.(requests := s.requests[s.controller.value := s.requests[s.controller.value].(aborted := true)])
    else
      s
  }

  /** The next ticket, and a read under it that the screen can abort. */
  function NewRead(s: Screen, read: Request): Screen {
    s.(generation := s.generation + 1, controller := Some(|s.requests|), requests := s.requests + [read])
  }

  function SetTimer(s: Screen): Screen {
    s.(resyncTimer := Some(|s.timers|), timers := s.timers + [true])
  }

  function Resync(s: Screen): Screen {
    if s.active.None? then s
    else
      NewRead(AbortReads(StopStream(s)), Resyncing(s.active.value.sessionId, s.generation + 1, true, false))
  }

  function Open(s: Screen, sessionId: string): Screen {
    NewRead(AbortReads(StopStream(s)), Opening(sessionId, s.generation + 1, true, false))
  }

  function Awaits(s: Screen, i: nat): bool {
    i < |s.requests| && s.requests[i].pending
  }

  /** An answer, as opposed to a failure, can still come. */
  function Hears(s: Screen, i: nat): bool {
    Awaits(s, i) && (s.requests[i].Opening? || s.requests[i].Resyncing?) && !s.requests[i].aborted
  }

  function Answered(s: Screen, i: nat): Screen
    requires i < |s.requests|
  {
    s.(requests := s.requests[i := s.requests[i].(pending := false)])
  }

  function OnOpenAnswered(s: Screen, i: nat, reply: Reply): Screen {
    if !Hears(s, i) || !s.requests[i].Opening? then s
    else
      var r := s.requests[i];
      var s := Answered(s, i);
      if r.ticket != s.generation then s
      else
        var snapshot := SnapshotOf(r.sessionId, reply);
        var state := InitialState(snapshot, Some(reply.page), r.ticket);
        if reply.lifecycle == RUNNING then
          StartStream(s.(active := Some(state)), r.sessionId, snapshot.cursor, r.ticket)
        else
          s.(active := Some(state.(transport := CLOSED)))
  }

  function OnResyncAnswered(s: Screen, i: nat, reply: Reply, at: string): Screen {
    if !Hears(s, i) || !s.requests[i].Resyncing? then s
    else
      var r := s.requests[i];
      var s := Answered(s, i);
      if r.ticket != s.generation || s.active.None? || s.active.value.sessionId != r.sessionId then s
      else
        var snapshot := SnapshotOf(r.sessionId, reply);
        var next := WithTransport(AcceptSnapshot(s.active.value, snapshot, Some(reply.page), r.ticket),
                                  CONNECTING, TransportEvent(at, Resynced));
        if reply.lifecycle == RUNNING then
          StartStream(s.(active := Some(next)), r.sessionId, snapshot.cursor, r.ticket)
        else
          s.(active := Some(WithTransport(next, CLOSED, TransportEvent(at, ClosedStream))))
  }

  function OnResyncFailed(s: Screen, i: nat, notFound: bool, at: string): Screen {
    if !Awaits(s, i) || !s.requests[i].Resyncing? then s
    else
      var r := s.requests[i];
      var s := Answered(s, i);
      if r.ticket != s.generation then s
      else if notFound then LogTransport(s, CLOSED, TransportEvent(at, ClosedStream))
      else SetTimer(s)
  }

  /** Removing the session aborts its reads; going back to the list only outdates them. */
  function OnLeave(s: Screen, release: bool): Screen {
    if s.active.None? then s
    else
      var s := if release then AbortReads(StopStream(s)) else StopStream(s);
      s.(generation := s.generation + 1, active := None)
  }

  function OnSnapshotAnswered(s: Screen, i: nat, reply: Reply): Screen {
    if !Awaits(s, i) || !s.requests[i].Snapshotting? then s
    else
      var r := s.requests[i];
      var s := Answered(s, i);
      if s.active.None? || s.active.value.sessionId != r.sessionId then s
      else
        s.(active := Some(AcceptSnapshot(s.active.value, SnapshotOf(r.sessionId, reply), None,
                                         s.active.value.generation)))
  }

  function OnAskOlder(s: Screen): Screen {
    if s.active.None? || OlderPageCursor(s.active.value, 100).None? then s
    else s.(requests := s.requests + [PagingOlder(s.active.value.sessionId, s.active.value.generation, true)])
  }

  function OnOlderAnswered(s: Screen, i: nat, page: Page): Screen {
    if !Awaits(s, i) || !s.requests[i].PagingOlder? then s
    else
      var r := s.requests[i];
      var s := Answered(s, i);
      if s.active.None? then s
      else s.(active := Some(WithOlderEntries(s.active.value, page, r.sessionId, r.ticket)))
  }

  function Listening(s: Screen, i: nat): bool {
    i < |s.streams| && !s.streams[i].closed
  }

  function OnDelivered(s: Screen, i: nat, envelope: Envelope): Screen {
    if !Listening(s, i) || s.active.None? then s
    else
      var ticket := s.streams[i].ticket;
      var (state, action) := ApplyEnvelope(s.active.value, envelope, ticket);
      var s := s.(active := Some(state));
      if action == CloseStream then StopStream(s)
      else if action == LiveClient.Resync && ticket == s.generation then Resync(s)
      else s
  }

  /** The browser's own retry is switched off: the source is closed before anything else. */
  function OnStreamLost(s: Screen, i: nat, at: string): Screen {
    if !Listening(s, i) then s
    else
      var ticket := s.streams[i].ticket;
      var s := CloseSource(s, i);
      if ticket != s.generation then s
      else SetTimer(LogTransport(s, LOST, TransportEvent(at, LostStream)))
  }

  function OnStreamInvalid(s: Screen, i: nat, at: string): Screen {
    if !Listening(s, i) || s.streams[i].ticket != s.generation then s
    else Resync(LogTransport(s, LOST, TransportEvent(at, InvalidMessage)))
  }

  function Handle(s: Screen, event: Event): Screen {
    match event
    case OpenSession(sessionId) => Open(s, sessionId)
    case OpenAnswered(i, reply) => OnOpenAnswered(s, i, reply)
    case OpenFailed(i) => if Awaits(s, i) && s.requests[i].Opening? then Answered(s, i) else s
    case ResyncAnswered(i, reply, at) => OnResyncAnswered(s, i, reply, at)
    case ResyncFailed(i, notFound, at) => OnResyncFailed(s, i, notFound, at)
    case Release => OnLeave(s, true)
    case BackToList => OnLeave(s, false)
    case AskResync => Resync(s)
    case AskSnapshot =>
      if s.active.None? then s
      else s.(requests := s.requests + [Snapshotting(s.active.value.sessionId, true)])
    case SnapshotAnswered(i, reply) => OnSnapshotAnswered(s, i, reply)
    case AskOlder => OnAskOlder(s)
    case OlderAnswered(i, page) => OnOlderAnswered(s, i, page)
    case StreamOpened(i, at) =>
      if !Listening(s, i) || s.streams[i].ticket != s.generation then s
      else LogTransport(s, OPEN, TransportEvent(at, OpenedStream))
    case Delivered(i, envelope) => OnDelivered(s, i, envelope)
    case StreamLost(i, at) => OnStreamLost(s, i, at)
    case StreamInvalid(i, at) => OnStreamInvalid(s, i, at)
    case TimerFires(j) =>
      if j < |s.timers| && s.timers[j] then Resync(s.(timers := s.timers[j := false])) else s
    case Unmount => AbortReads(StopStream(s))
  }

  function Run(s: Screen, events: seq<Event>): Screen {
    if events == [] then s else Handle(Run(s, events[..|events| - 1]), events[|events| - 1])
  }

  // ---------------------------------------------------------------- at most one stream

  /** A read the screen would still act on: it carries the current ticket. */
  ghost predicate Current(s: Screen, i: int) {
    && 0 <= i < |s.requests| && s.requests[i].pending
    && (s.requests[i].Opening? || s.requests[i].Resyncing?)
    && s.requests[i].ticket == s.generation
  }

  ghost predicate Streaming(s: Screen) {
    exists i :: 0 <= i < |s.streams| && !s.streams[i].closed
  }

  ghost predicate Ticking(s: Screen) {
    exists j :: 0 <= j < |s.timers| && s.timers[j]
  }

  ghost predicate Reading(s: Screen) {
    exists i :: Current(s, i)
  }

  /** Only the stream the screen could close is open, and it is the one that feeds what is
      shown: its ticket is the current generation and the shown state's own. */
  ghost predicate OneStream(s: Screen) {
    forall i | 0 <= i < |s.streams| && !s.streams[i].closed ::
      && s.closeStream == Some(i)
      && s.streams[i].ticket == s.generation
      && s.active.Some? && s.active.value.generation == s.generation
      && s.active.value.sessionId == s.streams[i].sessionId
  }

  /** And of the three ways to go on - stream, timer, read - at most one is under way. */
  ghost predicate Safe(s: Screen) {
    && OneStream(s)
    && (forall j | 0 <= j < |s.timers| && s.timers[j] :: s.resyncTimer == Some(j) && s.active.Some?)
    && (forall i | Current(s, i) :: s.controller == Some(i))
    && !(Streaming(s) && Ticking(s)) && !(Streaming(s) && Reading(s)) && !(Ticking(s) && Reading(s))
    && (forall i | 0 <= i < |s.requests| && !s.requests[i].Snapshotting? :: s.requests[i].ticket <= s.generation)
    && (forall i | Current(s, i) && s.requests[i].Resyncing? ::
          s.active.Some? && s.active.value.sessionId == s.requests[i].sessionId)
    && (s.active.Some? ==> s.active.value.generation <= s.generation)
  }

  lemma StopIsSafe(s: Screen)
    requires Safe(s)
    ensures var r := StopStream(s);
            && Safe(r) && !Streaming(r) && !Ticking(r) && r.active == s.active
            && r.requests == s.requests && r.generation == s.generation && r.controller == s.controller
            && (Reading(r) <==> Reading(s))
  {
    var r := StopStream(s);
    assert !Streaming(r);
    assert !Ticking(r);
    SameReads(s, r);
  }

  lemma SameReads(s: Screen, r: Screen)
    requires r.requests == s.requests && r.generation == s.generation
    ensures Reading(r) <==> Reading(s)
    ensures forall i :: Current(r, i) == Current(s, i)
  {
    assert forall i :: Current(r, i) == Current(s, i);
  }

  /** Starting a read under the next ticket, with the stream stopped. */
  lemma NewReadIsSafe(s: Screen, read: Request)
    requires Safe(s) && !Streaming(s) && !Ticking(s)
    requires read.Opening? || (read.Resyncing? && s.active.Some? && s.active.value.sessionId == read.sessionId)
    requires read.ticket == s.generation + 1 && read.pending
    ensures Safe(NewRead(s, read)) && Reading(NewRead(s, read))
  {
    var r := NewRead(s, read);
    assert Current(r, |s.requests|);
    assert forall i :: Current(r, i) ==> i == |s.requests|;
    assert !Streaming(r) && !Ticking(r);
  }

  /** Aborting a read does not end it: what it was current for, it still is until it fails. */
  lemma AbortIsSafe(s: Screen)
    requires Safe(s)
    ensures var r := AbortReads(s);
            && Safe(r) && r == s.(requests := r.requests) && |r.requests| == |s.requests|
            && (forall i :: Current(r, i) == Current(s, i)) && (Reading(r) <==> Reading(s))
            && (Streaming(r) <==> Streaming(s)) && (Ticking(r) <==> Ticking(s))
            && (forall i | Current(r, i) :: r.requests[i].aborted && r.requests[i].Opening? == s.requests[i].Opening?)
  {
    var r := AbortReads(s);
    assert forall i :: Current(r, i) == Current(s, i);
    assert Streaming(r) <==> Streaming(s);
    assert Ticking(r) <==> Ticking(s);
  }

  lemma ResyncIsSafe(s: Screen)
    requires Safe(s)
    ensures Safe(Resync(s)) && (s.active.Some? ==> Reading(Resync(s)))
  {
    if s.active.Some? {
      StopIsSafe(s);
      AbortIsSafe(StopStream(s));
      NewReadIsSafe(AbortReads(StopStream(s)), Resyncing(s.active.value.sessionId, s.generation + 1, true, false));
    }
  }

  lemma AnsweredIsSafe(s: Screen, i: nat)
    requires Safe(s) && i < |s.requests|
    ensures var r := Answered(s, i);
            && Safe(r)
            && (Current(s, i) ==> !Reading(r) && !Streaming(r) && !Ticking(r))
            && (!Current(s, i) ==> (Reading(r) <==> Reading(s)))
  {
    var r := Answered(s, i);
    assert forall k :: Current(r, k) <==> Current(s, k) && k != i;
    if Current(s, i) {
      assert Reading(s);
    } else if Reading(s) {
      var k :| Current(s, k);
      assert Current(r, k);
    }
    assert Streaming(r) <==> Streaming(s);
    assert Ticking(r) <==> Ticking(s);
  }

  /** A request that is not a read of the session changes nothing that matters. */
  lemma SideRequestIsSafe(s: Screen, side: Request)
    requires Safe(s) && (side.Snapshotting? || (side.PagingOlder? && side.ticket <= s.generation))
    ensures var r := s.(requests := s.requests + [side]);
            Safe(r) && (Reading(r) <==> Reading(s))
  {
    var r := s.(requests := s.requests + [side]);
    assert forall i :: Current(r, i) == Current(s, i);
    assert Streaming(r) <==> Streaming(s);
    assert Ticking(r) <==> Ticking(s);
  }

  /** Showing another state of the session shown, under the same generation. */
  lemma RepaintIsSafe(s: Screen, state: ClientState)
    requires Safe(s) && s.active.Some?
    requires state.sessionId == s.active.value.sessionId && state.generation == s.active.value.generation
    ensures var r := s.(active := Some(state));
            Safe(r) && (Reading(r) <==> Reading(s)) && (Streaming(r) <==> Streaming(s)) && (Ticking(r) <==> Ticking(s))
  {
    var r := s.(active := Some(state));
    SameReads(s, r);
    assert Streaming(r) <==> Streaming(s);
    assert Ticking(r) <==> Ticking(s);
  }

  lemma StartIsSafe(s: Screen, state: ClientState, after: int)
    requires Safe(s) && !Reading(s) && !Streaming(s) && !Ticking(s)
    requires state.generation == s.generation
    ensures var r := StartStream(s.(active := Some(state)), state.sessionId, after, s.generation);
            Safe(r) && Streaming(r) && r.active == Some(state)
  {
    var shown := s.(active := Some(state));
    SameReads(s, shown);
    assert !Streaming(shown) && !Ticking(shown);
    StopIsSafe(shown);
    var r := StartStream(shown, state.sessionId, after, s.generation);
    SameReads(s, r);
    assert !r.streams[|r.streams| - 1].closed;
    assert !Ticking(r);
  }

  lemma TimerIsSafe(s: Screen)
    requires Safe(s) && !Reading(s) && !Streaming(s) && !Ticking(s) && s.active.Some?
    ensures Safe(SetTimer(s)) && Ticking(SetTimer(s))
  {
    var r := SetTimer(s);
    SameReads(s, r);
    assert r.timers[|s.timers|];
    assert !Streaming(r);
  }

  lemma LostSourceIsSafe(s: Screen, i: nat)
    requires Safe(s) && Listening(s, i)
    ensures var r := CloseSource(s, i);
            Safe(r) && !Streaming(r) && !Ticking(r) && !Reading(r)
  {
    var r := CloseSource(s, i);
    assert Streaming(s);
    SameReads(s, r);
    assert !Streaming(r) && !Ticking(r);
  }

  /** What is shown is being attended to, or its stream is known to be over. */
  ghost predicate Attended(s: Screen) {
    s.active.Some? && s.active.value.transport != CLOSED ==> Streaming(s) || Ticking(s) || Reading(s)
  }

  /** The ways to be left showing a session that looks live with nothing behind it: an attempt
      to open another session fails, or the screen goes away. */
  ghost predicate Strands(s: Screen, event: Event) {
    && s.active.Some? && s.active.value.transport != CLOSED
    && ((event.OpenFailed? && Current(s, event.request) && s.requests[event.request].Opening?)
        || (event.Unmount? && !Reading(s)))
  }

  lemma AnsweredLeavesTheRest(s: Screen, i: nat)
    requires i < |s.requests|
    ensures var r := Answered(s, i);
            (Streaming(r) <==> Streaming(s)) && (Ticking(r) <==> Ticking(s))
  {
    assert Answered(s, i).streams == s.streams && Answered(s, i).timers == s.timers;
  }

  lemma OpenAnsweredStep(s: Screen, i: nat, reply: Reply)
    requires Safe(s)
    ensures var r := OnOpenAnswered(s, i, reply);
            Safe(r) && (Attended(s) ==> Attended(r))
  {
    if Hears(s, i) && s.requests[i].Opening? {
      AnsweredIsSafe(s, i);
      AnsweredLeavesTheRest(s, i);
      if Current(s, i) {
        var snapshot := SnapshotOf(s.requests[i].sessionId, reply);
        var state := InitialState(snapshot, Some(reply.page), s.generation);
        StartIsSafe(Answered(s, i), state, snapshot.cursor);
        EndedIsSafe(Answered(s, i), state.(transport := CLOSED));
      }
    }
  }

  lemma ResyncAnsweredStep(s: Screen, i: nat, reply: Reply, at: string)
    requires Safe(s)
    ensures var r := OnResyncAnswered(s, i, reply, at);
            Safe(r) && (Attended(s) ==> Attended(r))
  {
    if Hears(s, i) && s.requests[i].Resyncing? {
      AnsweredIsSafe(s, i);
      AnsweredLeavesTheRest(s, i);
      if Current(s, i) {
        var snapshot := SnapshotOf(s.requests[i].sessionId, reply);
        var next := WithTransport(AcceptSnapshot(s.active.value, snapshot, Some(reply.page), s.generation),
                                  CONNECTING, TransportEvent(at, Resynced));
        StartIsSafe(Answered(s, i), next, snapshot.cursor);
        EndedIsSafe(Answered(s, i), WithTransport(next, CLOSED, TransportEvent(at, ClosedStream)));
      }
    }
  }

  lemma ResyncFailedStep(s: Screen, i: nat, notFound: bool, at: string)
    requires Safe(s)
    ensures var r := OnResyncFailed(s, i, notFound, at);
            Safe(r) && (Attended(s) ==> Attended(r))
  {
    if Awaits(s, i) && s.requests[i].Resyncing? {
      AnsweredIsSafe(s, i);
      AnsweredLeavesTheRest(s, i);
      if Current(s, i) {
        var a := Answered(s, i);
        TimerIsSafe(a);
        RepaintIsSafe(a, WithTransport(a.active.value, CLOSED, TransportEvent(at, ClosedStream)));
      }
    }
  }

  lemma OpenFailedStep(s: Screen, i: nat)
    requires Safe(s)
    ensures var r := Handle(s, OpenFailed(i));
            Safe(r) && (Attended(s) ==> (Attended(r) <==> !Strands(s, OpenFailed(i))))
  {
    if Awaits(s, i) && s.requests[i].Opening? {
      AnsweredIsSafe(s, i);
      AnsweredLeavesTheRest(s, i);
    }
  }

  lemma EndedIsSafe(s: Screen, state: ClientState)
    requires Safe(s) && !Reading(s) && !Streaming(s) && !Ticking(s)
    requires state.generation == s.generation
    ensures Safe(s.(active := Some(state)))
  {
    var r := s.(active := Some(state));
    SameReads(s, r);
    assert !Streaming(r) && !Ticking(r);
  }

  lemma DeliveredStep(s: Screen, i: nat, envelope: Envelope)
    requires Safe(s)
    ensures Safe(OnDelivered(s, i, envelope))
    ensures Attended(s) ==> Attended(OnDelivered(s, i, envelope))
  {
    if Listening(s, i) {
      assert Streaming(s);
      var (state, action) := ApplyEnvelope(s.active.value, envelope, s.streams[i].ticket);
      var shown := s.(active := Some(state));
      RepaintIsSafe(s, state);
      StopIsSafe(shown);
      ResyncIsSafe(shown);
    }
  }

  lemma StreamLostStep(s: Screen, i: nat, at: string)
    requires Safe(s)
    ensures Safe(OnStreamLost(s, i, at))
    ensures Attended(s) ==> Attended(OnStreamLost(s, i, at))
  {
    if Listening(s, i) {
      assert Streaming(s);
      LostSourceIsSafe(s, i);
      var lost, event := CloseSource(s, i), TransportEvent(at, LostStream);
      RepaintIsSafe(lost, WithTransport(s.active.value, LOST, event));
      TimerIsSafe(LogTransport(lost, LOST, event));
    }
  }

  lemma StreamsStep(s: Screen, event: Event)
    requires Safe(s)
    requires event.StreamOpened? || event.Delivered? || event.StreamLost? || event.StreamInvalid?
    ensures Safe(Handle(s, event))
    ensures Attended(s) ==> Attended(Handle(s, event))
  {
    var i := event.stream;
    match event
    case Delivered(_, envelope) => DeliveredStep(s, i, envelope);
    case StreamLost(_, at) => StreamLostStep(s, i, at);
    case StreamOpened(_, at) =>
      if Listening(s, i) {
        assert Streaming(s);
        RepaintIsSafe(s, WithTransport(s.active.value, OPEN, TransportEvent(at, OpenedStream)));
      }
    case StreamInvalid(_, at) =>
      if Listening(s, i) {
        assert Streaming(s);
        RepaintIsSafe(s, WithTransport(s.active.value, LOST, TransportEvent(at, InvalidMessage)));
        ResyncIsSafe(LogTransport(s, LOST, TransportEvent(at, InvalidMessage)));
      }
  }

  lemma LeaveStep(s: Screen, release: bool)
    requires Safe(s)
    ensures var r := OnLeave(s, release);
            Safe(r) && (Attended(s) ==> Attended(r)) && (s.active.Some? ==> !Streaming(r) && !Ticking(r) && !Reading(r))
  {
    if s.active.Some? {
      StopIsSafe(s);
      AbortIsSafe(StopStream(s));
      var r := OnLeave(s, release);
      assert !Streaming(r) && !Ticking(r);
      assert !Reading(r);
    }
  }

  lemma OpenStep(s: Screen, sessionId: string)
    requires Safe(s)
    ensures Safe(Open(s, sessionId)) && Attended(Open(s, sessionId))
  {
    StopIsSafe(s);
    AbortIsSafe(StopStream(s));
    NewReadIsSafe(AbortReads(StopStream(s)), Opening(sessionId, s.generation + 1, true, false));
  }

  lemma TimerStep(s: Screen, j: nat)
    requires Safe(s)
    ensures Safe(Handle(s, TimerFires(j)))
    ensures Attended(s) ==> Attended(Handle(s, TimerFires(j)))
  {
    if j < |s.timers| && s.timers[j] {
      assert Ticking(s);
      var fired := s.(timers := s.timers[j := false]);
      SameReads(s, fired);
      assert !Ticking(fired) && !Streaming(fired);
      ResyncIsSafe(fired);
    }
  }

  lemma UnmountStep(s: Screen)
    requires Safe(s)
    ensures Safe(Handle(s, Unmount))
    ensures Attended(s) ==> (Attended(Handle(s, Unmount)) <==> !Strands(s, Unmount))
  {
    StopIsSafe(s);
    AbortIsSafe(StopStream(s));
  }

  lemma OthersStep(s: Screen, event: Event)
    requires Safe(s)
    requires event.OpenSession? || event.Release? || event.BackToList? || event.AskResync? || event.TimerFires?
    ensures Safe(Handle(s, event))
    ensures Attended(s) ==> Attended(Handle(s, event))
  {
    match event
    case OpenSession(sessionId) => OpenStep(s, sessionId);
    case Release => LeaveStep(s, true);
    case BackToList => LeaveStep(s, false);
    case AskResync => ResyncIsSafe(s);
    case TimerFires(j) => TimerStep(s, j);
  }

  lemma AsksStep(s: Screen, event: Event)
    requires Safe(s)
    requires event.AskSnapshot? || event.AskOlder?
    ensures Safe(Handle(s, event))
    ensures Attended(s) ==> Attended(Handle(s, event))
  {
    if s.active.Some? {
      var current := s.active.value;
      SideRequestIsSafe(s, Snapshotting(current.sessionId, true));
      SideRequestIsSafe(s, PagingOlder(current.sessionId, current.generation, true));
    }
  }

  lemma SnapshotAnsweredStep(s: Screen, i: nat, reply: Reply)
    requires Safe(s)
    ensures Safe(OnSnapshotAnswered(s, i, reply))
    ensures Attended(s) ==> Attended(OnSnapshotAnswered(s, i, reply))
  {
    if Awaits(s, i) && s.requests[i].Snapshotting? {
      AnsweredIsSafe(s, i);
      var a := Answered(s, i);
      if a.active.Some? {
        RepaintIsSafe(a, AcceptSnapshot(a.active.value, SnapshotOf(a.active.value.sessionId, reply), None,
                                        a.active.value.generation));
      }
    }
  }

  lemma OlderAnsweredStep(s: Screen, i: nat, older: Page)
    requires Safe(s)
    ensures Safe(OnOlderAnswered(s, i, older))
    ensures Attended(s) ==> Attended(OnOlderAnswered(s, i, older))
  {
    if Awaits(s, i) && s.requests[i].PagingOlder? {
      AnsweredIsSafe(s, i);
      var a, r := Answered(s, i), s.requests[i];
      if a.active.Some? {
        RepaintIsSafe(a, WithOlderEntries(a.active.value, older, r.sessionId, r.ticket));
      }
    }
  }

  lemma StepIsSafe(s: Screen, event: Event)
    requires Safe(s)
    ensures Safe(Handle(s, event))
    ensures Attended(s) ==> (Attended(Handle(s, event)) <==> !Strands(s, event))
  {
    if event.OpenAnswered? {
      OpenAnsweredStep(s, event.request, event.reply);
    } else if event.OpenFailed? {
      OpenFailedStep(s, event.request);
    } else if event.ResyncAnswered? {
      ResyncAnsweredStep(s, event.request, event.reply, event.at);
    } else if event.ResyncFailed? {
      ResyncFailedStep(s, event.request, event.notFound, event.at);
    } else if event.StreamOpened? || event.Delivered? || event.StreamLost? || event.StreamInvalid? {
      StreamsStep(s, event);
    } else if event.Unmount? {
      UnmountStep(s);
    } else if event.OpenSession? || event.Release? || event.BackToList? || event.AskResync? || event.TimerFires? {
      OthersStep(s, event);
    } else if event.SnapshotAnswered? {
      SnapshotAnsweredStep(s, event.request, event.reply);
    } else if event.OlderAnswered? {
      OlderAnsweredStep(s, event.request, event.older);
    } else {
      AsksStep(s, event);
    }
  }

  /** In every interleaving of choices, timers, answers and deliveries at most one stream is
      open, and it carries both the current generation and the shown state's. */
  lemma {:induction false} EveryRunIsSafe(events: seq<Event>)
    ensures Safe(Run(START, events))
  {
    if events != [] {
      EveryRunIsSafe(events[..|events| - 1]);
      StepIsSafe(Run(START, events[..|events| - 1]), events[|events| - 1]);
    }
  }

  /** A session shown as anything but closed always has its stream open, a retry due, or a read
      under way - in every run except one that takes a stranding step, and never right after one. */
  lemma {:induction false} EveryRunIsAttended(events: seq<Event>)
    requires forall k | 0 <= k < |events| :: !Strands(Run(START, events[..k]), events[k])
    ensures Attended(Run(START, events))
  {
    if events != [] {
      var before := events[..|events| - 1];
      forall k | 0 <= k < |before| ensures !Strands(Run(START, before[..k]), before[k]) {
        assert before[..k] == events[..k] && before[k] == events[k];
      }
      EveryRunIsAttended(before);
      EveryRunIsSafe(before);
      assert !Strands(Run(START, before), events[|before|]);
      StepIsSafe(Run(START, before), events[|before|]);
    }
  }

  /** Such a step can be reached: a second session is asked for while the first is shown (one just
      created, say) and cannot be read. The first stays on the screen, looking live. */
  lemma FailedOpeningStrands(first: string, second: string, reply: Reply)
    requires reply.lifecycle == RUNNING
    ensures var r := Run(START, [OpenSession(first), OpenAnswered(0, reply), OpenSession(second), OpenFailed(1)]);
            && !Attended(r) && !Streaming(r) && !Ticking(r) && !Reading(r)
            && r.active.Some? && r.active.value.sessionId == first && r.active.value.transport == CONNECTING
  {
    var events := [OpenSession(first), OpenAnswered(0, reply), OpenSession(second), OpenFailed(1)];
    var shown := Handle(Open(START, first), events[1]);
    assert shown.active.Some? && shown.closeStream == Some(0) && |shown.streams| == 1;
    var r := Handle(Handle(shown, events[2]), events[3]);
    assert events[..3][..2][..1][..0] == [];
    assert Run(START, events[..3][..2][..1]) == Open(START, first);
    assert Run(START, events[..3][..2]) == shown;
    assert Run(START, events) == r;
    assert |r.requests| == 2 && !r.requests[0].pending && !r.requests[1].pending;
    assert !Reading(r) && !Streaming(r) && !Ticking(r);
  }
}
