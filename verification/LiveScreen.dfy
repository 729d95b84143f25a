/** The live screen as the object the browser runs: refs that its callbacks reassign between one
    await and the next. Follows the callbacks of frontend/src/screens/Live.tsx; each is proved to
    be the step of `LiveProtocol` it stands for, and to keep `Safe`. */
module LiveScreen {
  import opened Wrappers
  import opened LiveClient
  import opened LiveProtocol

  class LiveScreen {
    var active: Option<ClientState>    // activeRef
    var generation: nat
    var closeStream: Option<nat>       // which source the stored closer closes
    var resyncTimer: Option<nat>
    var controller: Option<nat>        // reads: which request its signal aborts
    var streams: seq<Stream>           // every EventSource opened so far
    var timers: seq<bool>              // every timeout set so far, and whether it is still due
    var requests: seq<Request>         // every read begun so far

    function View(): Screen
      reads this
    {
      Screen(active, generation, closeStream, resyncTimer, controller, streams, timers, requests)
    }

    constructor ()
      ensures View() == START && Safe(View())
    {
      active, generation, closeStream, resyncTimer, controller := None, 0, None, None, None;
      streams, timers, requests := [], [], [];
      new;
      assert forall i :: !Current(START, i);
    }

    method StopStream()
      modifies this
      ensures View() == LiveProtocol.StopStream(old(View()))
    {
      if closeStream.Some? && closeStream.value < |streams| {
        streams := streams[closeStream.value := streams[closeStream.value].(closed := true)];
      }
      closeStream := None;
      if resyncTimer.Some? {
        if resyncTimer.value < |timers| {
          timers := timers[resyncTimer.value := false];
        }
        resyncTimer := None;
      }
    }

    method LogTransport(transport: Transport, event: TransportEvent)
      modifies this
      ensures View() == LiveProtocol.LogTransport(old(View()), transport, event)
    {
      if active.Some? {
        active := Some(WithTransport(active.value, transport, event));
      }
    }

    method StartStream(sessionId: string, after: int, ticket: nat)
      modifies this
      ensures View() == LiveProtocol.StartStream(old(View()), sessionId, after, ticket)
    {
      StopStream();
      streams := streams + [Stream(sessionId, after, ticket, false)];
      closeStream := Some(|streams| - 1);
    }

    method RetryLater()
      modifies this
      ensures View() == SetTimer(old(View()))
    {
      timers := timers + [true];
      resyncTimer := Some(|timers| - 1);
    }

    method AbortReads()
      modifies this
      ensures View() == LiveProtocol.AbortReads(old(View()))
    {
      if controller.Some? && controller.value < |requests|
         && (requests[controller.value].Opening? || requests[controller.value].Resyncing?) {
        requests := requests[controller.value := requests[controller.value].(aborted := true)];
      }
    }

    /** Up to the first await. */
    method Resync()
      modifies this
      ensures View() == LiveProtocol.Resync(old(View()))
    {
      if active.None? {
        return;
      }
      StopStream();
      AbortReads();
      controller := Some(|requests|);
      generation := generation + 1;
      requests := requests + [Resyncing(active.value.sessionId, generation, true, false)];
    }

    method Settle(i: nat)
      requires i < |requests|
      modifies this
      ensures View() == Answered(old(View()), i)
    {
      requests := requests[i := requests[i].(pending := false)];
    }

    /** After the awaits: the session was read, or could not be. */
    method ResyncAnswered(i: nat, reply: Reply, at: string)
      requires Safe(View())
      requires i < |requests| && requests[i].Resyncing? && requests[i].pending && !requests[i].aborted
      modifies this
      ensures View() == Handle(old(View()), Event.ResyncAnswered(i, reply, at)) && Safe(View())
    {
      StepIsSafe(View(), Event.ResyncAnswered(i, reply, at));
      var sessionId, ticket := requests[i].sessionId, requests[i].ticket;
      Settle(i);
      if ticket != generation || active.None? || active.value.sessionId != sessionId {
        return;
      }
      var snapshot := SnapshotOf(sessionId, reply);
      var next := WithTransport(AcceptSnapshot(active.value, snapshot, Some(reply.page), ticket),
                                CONNECTING, TransportEvent(at, Resynced));
      active := Some(next);
      if snapshot.lifecycle == RUNNING {
        StartStream(sessionId, snapshot.cursor, ticket);
      } else {
        active := Some(WithTransport(next, CLOSED, TransportEvent(at, ClosedStream)));
      }
    }

    method ResyncFailed(i: nat, notFound: bool, at: string)
      requires Safe(View())
      requires i < |requests| && requests[i].Resyncing? && requests[i].pending
      modifies this
      ensures View() == Handle(old(View()), Event.ResyncFailed(i, notFound, at)) && Safe(View())
    {
      StepIsSafe(View(), Event.ResyncFailed(i, notFound, at));
      var ticket := requests[i].ticket;
      Settle(i);
      if ticket != generation {
        return;
      }
      if notFound {
        LogTransport(CLOSED, TransportEvent(at, ClosedStream));
      } else {
        RetryLater();
      }
    }

    method Open(sessionId: string)
      requires Safe(View())
      modifies this
      ensures View() == Handle(old(View()), OpenSession(sessionId)) && Safe(View())
    {
      StepIsSafe(View(), OpenSession(sessionId));
      StopStream();
      AbortReads();
      controller := Some(|requests|);
      generation := generation + 1;
      requests := requests + [Opening(sessionId, generation, true, false)];
    }

    method OpenAnswered(i: nat, reply: Reply)
      requires Safe(View())
      requires i < |requests| && requests[i].Opening? && requests[i].pending && !requests[i].aborted
      modifies this
      ensures View() == Handle(old(View()), Event.OpenAnswered(i, reply)) && Safe(View())
    {
      StepIsSafe(View(), Event.OpenAnswered(i, reply));
      var sessionId, ticket := requests[i].sessionId, requests[i].ticket;
      Settle(i);
      if ticket != generation {
        return;
      }
      var snapshot := SnapshotOf(sessionId, reply);
      var state := InitialState(snapshot, Some(reply.page), ticket);
      if snapshot.lifecycle == RUNNING {
        active := Some(state);
        StartStream(sessionId, snapshot.cursor, ticket);
      } else {
        active := Some(state.(transport := CLOSED));
      }
    }

    method OpenFailed(i: nat)
      requires Safe(View())
      requires i < |requests| && requests[i].Opening? && requests[i].pending
      modifies this
      ensures View() == Handle(old(View()), Event.OpenFailed(i)) && Safe(View())
    {
      StepIsSafe(View(), Event.OpenFailed(i));
      Settle(i);
    }

    method BackToList()
      requires Safe(View())
      modifies this
      ensures View() == Handle(old(View()), Event.BackToList) && Safe(View())
    {
      StepIsSafe(View(), Event.BackToList);
      if active.None? {
        return;
      }
      StopStream();
      generation := generation + 1;
      active := None;
    }

    method Release()
      requires Safe(View())
      modifies this
      ensures View() == Handle(old(View()), Event.Release) && Safe(View())
    {
      StepIsSafe(View(), Event.Release);
      if active.None? {
        return;
      }
      StopStream();
      AbortReads();
      generation := generation + 1;
      active := None;
    }

    method SnapshotAnswered(i: nat, reply: Reply)
      requires Safe(View())
      requires i < |requests| && requests[i].Snapshotting? && requests[i].pending
      modifies this
      ensures View() == Handle(old(View()), Event.SnapshotAnswered(i, reply)) && Safe(View())
    {
      StepIsSafe(View(), Event.SnapshotAnswered(i, reply));
      var snapshot := SnapshotOf(requests[i].sessionId, reply);
      Settle(i);
      if active.Some? && active.value.sessionId == snapshot.id {
        active := Some(AcceptSnapshot(active.value, snapshot, None, active.value.generation));
      }
    }

    method LoadOlder()
      requires Safe(View())
      modifies this
      ensures View() == Handle(old(View()), AskOlder) && Safe(View())
    {
      StepIsSafe(View(), AskOlder);
      if active.None? || OlderPageCursor(active.value, 100).None? {
        return;
      }
      requests := requests + [PagingOlder(active.value.sessionId, active.value.generation, true)];
    }

    method OlderAnswered(i: nat, page: Page)
      requires Safe(View())
      requires i < |requests| && requests[i].PagingOlder? && requests[i].pending
      modifies this
      ensures View() == Handle(old(View()), Event.OlderAnswered(i, page)) && Safe(View())
    {
      StepIsSafe(View(), Event.OlderAnswered(i, page));
      var sessionId, ticket := requests[i].sessionId, requests[i].ticket;
      Settle(i);
      if active.Some? {
        active := Some(WithOlderEntries(active.value, page, sessionId, ticket));
      }
    }

    method OnOpen(i: nat, at: string)
      requires Safe(View()) && i < |streams|
      modifies this
      ensures View() == Handle(old(View()), StreamOpened(i, at)) && Safe(View())
    {
      StepIsSafe(View(), StreamOpened(i, at));
      if streams[i].closed || streams[i].ticket != generation {
        return;
      }
      LogTransport(OPEN, TransportEvent(at, OpenedStream));
    }

    method OnEnvelope(i: nat, envelope: Envelope)
      requires Safe(View()) && i < |streams|
      modifies this
      ensures View() == Handle(old(View()), Delivered(i, envelope)) && Safe(View())
    {
      StepIsSafe(View(), Delivered(i, envelope));
      if streams[i].closed || active.None? {
        return;
      }
      var ticket := streams[i].ticket;
      var (state, action) := ApplyEnvelope(active.value, envelope, ticket);
      active := Some(state);
      if action == CloseStream {
        StopStream();
      } else if action == LiveClient.Resync && ticket == generation {
        Resync();
      }
    }

    method OnTransportLost(i: nat, at: string)
      requires Safe(View()) && i < |streams|
      modifies this
      ensures View() == Handle(old(View()), StreamLost(i, at)) && Safe(View())
    {
      StepIsSafe(View(), StreamLost(i, at));
      if streams[i].closed {
        return;
      }
      streams := streams[i := streams[i].(closed := true)];
      if streams[i].ticket != generation {
        return;
      }
      LogTransport(LOST, TransportEvent(at, LostStream));
      RetryLater();
    }

    method OnInvalid(i: nat, at: string)
      requires Safe(View()) && i < |streams|
      modifies this
      ensures View() == Handle(old(View()), StreamInvalid(i, at)) && Safe(View())
    {
      StepIsSafe(View(), StreamInvalid(i, at));
      if streams[i].closed || streams[i].ticket != generation {
        return;
      }
      LogTransport(LOST, TransportEvent(at, InvalidMessage));
      Resync();
    }

    method OnTimer(j: nat)
      requires Safe(View()) && j < |timers| && timers[j]
      modifies this
      ensures View() == Handle(old(View()), TimerFires(j)) && Safe(View())
    {
      StepIsSafe(View(), TimerFires(j));
      timers := timers[j := false];
      Resync();
    }

    method OnUnmount()
      requires Safe(View())
      modifies this
      ensures View() == Handle(old(View()), Unmount) && Safe(View())
    {
      StepIsSafe(View(), Unmount);
      StopStream();
      AbortReads();
    }
  }
}
