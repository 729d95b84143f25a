/** What is left of the live screen's protocol once a session is left or the screen goes away: what
    still arrives must not paint anything or open a stream. Follows `release` and the unmount effect
    of frontend/src/screens/Live.tsx. */
module LiveEndings {
  import opened Wrappers
  import opened LiveTimeline
  import opened LiveClient
  import opened LiveProtocol

  /** Things that happen to the screen without anybody asking. */
  ghost predicate Callback(event: Event) {
    && !event.OpenSession? && !event.Release? && !event.BackToList? && !event.AskResync? && !event.AskSnapshot?
    && !event.AskOlder? && !event.Unmount?
  }

  /** Nothing is under way but openings that can only fail. */
  ghost predicate Quiet(s: Screen) {
    && Safe(s) && !Streaming(s) && !Ticking(s)
    && (forall i | Current(s, i) :: s.requests[i].Opening? && s.requests[i].aborted)
  }

  /** What hangs on a request that is not the current read. */
  lemma SettledStaysQuiet(s: Screen, i: nat, r: Screen)
    requires Quiet(s) && Safe(r) && i < |s.requests|
    requires var a := Answered(s, i);
             r.requests == a.requests && r.generation == a.generation && r.streams == a.streams && r.timers == a.timers
    ensures Quiet(r)
  {
    var a := Answered(s, i);
    AnsweredLeavesTheRest(s, i);
    assert forall k :: Current(a, k) ==> Current(s, k);
    SameReads(a, r);
    assert Streaming(r) <==> Streaming(a);
    assert Ticking(r) <==> Ticking(a);
  }

  lemma QuietStep(s: Screen, event: Event)
    requires Quiet(s) && Callback(event)
    ensures Quiet(Handle(s, event))
  {
    StepIsSafe(s, event);
    if event.StreamOpened? || event.Delivered? || event.StreamLost? || event.StreamInvalid? {
      assert !Listening(s, event.stream);
    } else if event.TimerFires? {
      assert event.timer < |s.timers| ==> !s.timers[event.timer];
    } else if Handle(s, event) != s {
      SettledStaysQuiet(s, event.request, Handle(s, event));
    }
  }

  lemma {:induction false} QuietStays(s: Screen, events: seq<Event>)
    requires Quiet(s)
    requires forall k | 0 <= k < |events| :: Callback(events[k])
    ensures Quiet(LiveProtocol.Run(s, events))
  {
    if events != [] {
      QuietStays(s, events[..|events| - 1]);
      assert Callback(events[|events| - 1]);
      QuietStep(LiveProtocol.Run(s, events[..|events| - 1]), events[|events| - 1]);
    }
  }

  /** No answer, failure, timer or message that may still arrive opens a stream. */
  ghost predicate IsFinal(s: Screen) {
    forall events: seq<Event> | (forall k | 0 <= k < |events| :: Callback(events[k])) ::
      !Streaming(LiveProtocol.Run(s, events))
  }

  ghost predicate Resynchronising(s: Screen) {
    exists i :: Current(s, i) && s.requests[i].Resyncing?
  }

  /** Whatever answers, failures, timers and messages still arrive, an unmounted screen never opens
      a stream again - if and only if it was not resynchronising when it was unmounted. */
  lemma UnmountIsFinalIff(s: Screen)
    requires Safe(s)
    ensures IsFinal(Handle(s, Unmount)) <==> !Resynchronising(s)
  {
    StopIsSafe(s);
    AbortIsSafe(StopStream(s));
    var u := Handle(s, Unmount);
    if Resynchronising(s) {
      var i :| Current(s, i) && s.requests[i].Resyncing?;
      ResyncComesBack(s, i);
    } else {
      assert forall i :: Current(u, i) ==> Current(StopStream(s), i);
      QuietIsFinal(u);
    }
  }

  lemma QuietIsFinal(u: Screen)
    requires Quiet(u)
    ensures IsFinal(u)
  {
    forall events: seq<Event> | (forall k | 0 <= k < |events| :: Callback(events[k]))
      ensures !Streaming(LiveProtocol.Run(u, events))
    {
      QuietStays(u, events);
    }
  }

  const RUNNING_REPLY := Reply(RUNNING, 0, 0, "", Page([], false))

  lemma ResyncComesBack(s: Screen, i: nat)
    requires Safe(s) && Current(s, i) && s.requests[i].Resyncing?
    ensures !IsFinal(Handle(s, Unmount))
  {
    var u := Handle(s, Unmount);
    var events := [ResyncFailed(i, false, ""), TimerFires(|s.timers|), ResyncAnswered(|s.requests|, RUNNING_REPLY, "")];
    AbortedResyncComesBack(s, i, RUNNING_REPLY);
    RunOfThree(u, events);
    assert forall k | 0 <= k < |events| :: Callback(events[k]);
  }

  lemma RunOfThree(s: Screen, events: seq<Event>)
    requires |events| == 3
    ensures LiveProtocol.Run(s, events) == Handle(Handle(Handle(s, events[0]), events[1]), events[2])
  {
    assert events[..2][..1][..0] == [];
    assert LiveProtocol.Run(s, events[..2][..1]) == Handle(s, events[0]);
    assert LiveProtocol.Run(s, events[..2]) == Handle(Handle(s, events[0]), events[1]);
  }

  lemma AnswerStarts(s: Screen, i: nat, reply: Reply)
    requires Safe(s) && Current(s, i) && s.requests[i].Resyncing? && !s.requests[i].aborted
    requires reply.lifecycle == RUNNING
    ensures Streaming(OnResyncAnswered(s, i, reply, ""))
  {
    AnsweredIsSafe(s, i);
    var snapshot := SnapshotOf(s.requests[i].sessionId, reply);
    StartIsSafe(Answered(s, i),
                WithTransport(AcceptSnapshot(s.active.value, snapshot, Some(reply.page), s.generation),
                              CONNECTING, TransportEvent("", Resynced)), snapshot.cursor);
  }

  /** Aborting the read on the way out does not help a resynchronisation: its failure sets the
      retry timer after the screen has gone, and the retry opens a stream nobody will close. */
  lemma AbortedResyncComesBack(s: Screen, i: nat, reply: Reply)
    requires Safe(s) && Current(s, i) && s.requests[i].Resyncing? && reply.lifecycle == RUNNING
    ensures var gone := Handle(s, Unmount);
            var failed := Handle(gone, ResyncFailed(i, false, ""));
            var retried := Handle(failed, TimerFires(|s.timers|));
            && !Streaming(gone) && !Ticking(gone) && gone.requests[i].aborted
            && Streaming(Handle(retried, ResyncAnswered(|s.requests|, reply, "")))
  {
    StopIsSafe(s);
    AbortIsSafe(StopStream(s));
    var gone := Handle(s, Unmount);
    assert Current(gone, i) && |gone.timers| == |s.timers|;
    FailureSetsTimer(gone, i);
    TimerReads(Handle(gone, ResyncFailed(i, false, "")), |s.timers|, reply);
  }

  lemma FailureSetsTimer(s: Screen, i: nat)
    requires Safe(s) && Current(s, i) && s.requests[i].Resyncing?
    ensures var r := Handle(s, ResyncFailed(i, false, ""));
            Safe(r) && r.active.Some? && r.timers == s.timers + [true] && |r.requests| == |s.requests|
  {
    AnsweredIsSafe(s, i);
    TimerIsSafe(Answered(s, i));
  }

  lemma TimerReads(s: Screen, j: nat, reply: Reply)
    requires Safe(s) && s.active.Some? && j < |s.timers| && s.timers[j] && reply.lifecycle == RUNNING
    ensures var r := Handle(s, TimerFires(j));
            Streaming(Handle(r, ResyncAnswered(|s.requests|, reply, "")))
  {
    TimerStep(s, j);
    var r := Handle(s, TimerFires(j));
    assert Current(r, |s.requests|) && !r.requests[|s.requests|].aborted;
    AnswerStarts(r, |s.requests|, reply);
  }

  lemma LeftStep(s: Screen, event: Event)
    requires Quiet(s) && s.active.None? && !event.OpenSession?
    ensures Quiet(Handle(s, event)) && Handle(s, event).active.None?
  {
    if Callback(event) {
      QuietStep(s, event);
      assert event.OpenAnswered? && Hears(s, event.request) ==> !Current(s, event.request);
    } else if event.Unmount? {
      StopIsSafe(s);
      AbortIsSafe(StopStream(s));
      assert forall i :: Current(Handle(s, event), i) ==> Current(StopStream(s), i);
    }
  }

  /** A screen that was left shows nothing until a session is opened again: no answer, timer or
      message that was still on its way paints it, aborted or not. */
  lemma {:induction false} LeftStaysLeft(s: Screen, leaving: Event, events: seq<Event>)
    requires Safe(s) && s.active.Some? && (leaving.Release? || leaving.BackToList?)
    requires forall k | 0 <= k < |events| :: !events[k].OpenSession?
    ensures var r := LiveProtocol.Run(Handle(s, leaving), events);
            Quiet(r) && r.active.None?
  {
    if events == [] {
      LeaveStep(s, leaving.Release?);
      var r := Handle(s, leaving);
      assert forall i :: !Current(r, i);
    } else {
      LeftStaysLeft(s, leaving, events[..|events| - 1]);
      assert !events[|events| - 1].OpenSession?;
      LeftStep(LiveProtocol.Run(Handle(s, leaving), events[..|events| - 1]), events[|events| - 1]);
    }
  }
}
