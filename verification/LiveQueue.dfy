/** What a reader of a live session is sent: the server's bounded queue, what a subscription puts into
    it, and what it is to a client that reads it in order. Follows `Subscriber`, `subscribe` and
    `_evaluate` of backend/app/application/live/workspace.py. */
module LiveQueue {
  import opened Wrappers
  import opened LiveTimeline
  import opened LiveClient
  import opened LiveServer

  const SUBSCRIBER_QUEUE := 64

  // ---------------------------------------------------------------- the bounded queue

  datatype Queue = Queue(items: seq<Envelope>, closed: bool)

  function EntryNotice(sid: string, entry: Entry, view: Option<Session>): Envelope {
    Envelope(sid, TIMELINE, "", entry.at, Some(entry), view, None)
  }

  function ResyncNotice(sid: string, cursor: int, reason: string): Envelope {
    Envelope(sid, RESYNC_REQUIRED, "", cursor, None, None, Some(reason))
  }

  function Pushed(q: Queue, item: Envelope): Queue {
    if q.closed then q
    else if |q.items| >= SUBSCRIBER_QUEUE then
      Queue([ResyncNotice(item.sessionId, item.cursor, "SUBSCRIBER_OVERFLOW")], true)
    else Queue(q.items + [item], false)
  }

  function PushedAll(q: Queue, items: seq<Envelope>): Queue {
    if items == [] then q else Pushed(PushedAll(q, items[..|items| - 1]), items[|items| - 1])
  }

  class Subscriber {
    const sessionId: string
    var items: seq<Envelope>
    var closed: bool
    var overflows: nat

    function View(): Queue
      reads this
    {
      Queue(items, closed)
    }

    constructor (sessionId: string)
      ensures this.sessionId == sessionId && View() == Queue([], false) && overflows == 0
    {
      this.sessionId := sessionId;
      items, closed, overflows := [], false, 0;
    }

    /** A full queue is dropped whole, replaced by one demand to resynchronise, and closed. */
    method Push(item: Envelope)
      requires item.sessionId == sessionId
      modifies this
      ensures View() == Pushed(old(View()), item)
      ensures if old(closed) then unchanged(this)
              else if |old(items)| < 64 then items == old(items) + [item] && !closed
              else closed && items == [Envelope(sessionId, RESYNC_REQUIRED, "", item.cursor, None, None,
                                                Some("SUBSCRIBER_OVERFLOW"))]
      ensures overflows == old(overflows) +
                           if !old(closed) && |old(items)| >= 64 then 1 else 0
    {
      if closed {
        return;
      }
      if |items| >= SUBSCRIBER_QUEUE {
        overflows := overflows + 1;
        items := [];
        items := items + [ResyncNotice(sessionId, item.cursor, "SUBSCRIBER_OVERFLOW")];
        Close();
        return;
      }
      items := items + [item];
    }

    /** What is queued can still be read after closing. */
    method Next() returns (r: Option<Envelope>)
      modifies this`items
      ensures if old(items) == [] then r == None && items == []
              else r == Some(old(items)[0]) && items == old(items)[1..]
    {
      if items == [] {
        r := None;
      } else {
        r := Some(items[0]);
        items := items[1..];
      }
    }

    method Close()
      modifies this`closed
      ensures closed
    {
      closed := true;
    }
  }

  // ---------------------------------------------------------------- subscribing

  /** Something the session records, and what it looks like by then. */
  datatype Change = Change(text: string, view: Session)

  function Stamped(log: seq<Entry>, changes: seq<Change>): seq<Entry> {
    seq(|changes|, i requires 0 <= i < |changes| => Entry(|log| + 1 + i, changes[i].text))
  }

  function ChangeNotices(sid: string, first: nat, changes: seq<Change>): seq<Envelope>
    decreases |changes|
  {
    if changes == [] then []
    else
      [EntryNotice(sid, Entry(first, changes[0].text), Some(changes[0].view))]
      + ChangeNotices(sid, first + 1, changes[1..])
  }

  function EntryNotices(sid: string, es: seq<Entry>): seq<Envelope> {
    if es == [] then [] else [EntryNotice(sid, es[0], None)] + EntryNotices(sid, es[1..])
  }

  function PrimerTail(log: seq<Entry>, view: Session, ended: bool): seq<Envelope> {
    [Envelope(view.id, STATE, "", |log|, None, Some(view), None)]
    + if ended then [Envelope(view.id, END, "", |log|, None, Some(view), None)] else []
  }

  /** Why a reader at `after` has to resynchronise, if it does. */
  function CatchUpRefusal(log: seq<Entry>, after: int): Option<string> {
    if after > |log| then Some("CURSOR_UNKNOWN")
    else if after < Oldest(log) - 1 then Some("CURSOR_NOT_RETAINED")
    else if |NewerThan(Retained(log), after)| >= SUBSCRIBER_QUEUE - 1 then Some("CATCH_UP_TOO_LARGE")
    else None
  }

  /** What `subscribe` queues for a reader that holds everything up to `after`. */
  function Primer(log: seq<Entry>, after: int, view: Session, ended: bool): seq<Envelope> {
    var refusal := CatchUpRefusal(log, after);
    var catchUp := if refusal.Some? then [ResyncNotice(view.id, |log|, refusal.value)]
                   else EntryNotices(view.id, NewerThan(Retained(log), after));
    catchUp + PrimerTail(log, view, ended)
  }

  /** A new reader is registered, the session is evaluated - which records the timeframes found to
      have changed with time, and tells every reader, the new one included - and only then is the
      reader's queue primed. */
  function Subscribed(log: seq<Entry>, changes: seq<Change>, after: int, view: Session, ended: bool): Queue {
    PushedAll(Queue([], false),
              ChangeNotices(view.id, |log| + 1, changes) + Primer(log + Stamped(log, changes), after, view, ended))
  }

  /** How many notifications that is. */
  function Pushes(log: seq<Entry>, changes: nat, after: int, ended: bool): int {
    changes
    + (if CatchUpRefusal(log, after).Some? then 1 else |log| - after)
    + (if ended then 2 else 1)
  }

  // ---------------------------------------------------------------- what is on its way

  /** Read in order by a client at cursor `at`, `items` repeat entries of the log or go on with it
      and end at its last entry - or come to a demand to resynchronise, or to the end of the session,
      first. If the reader is `prompt` they never leave an entry out. */
  ghost predicate Continues(items: seq<Envelope>, at: int, log: seq<Entry>, sid: string, prompt: bool) {
    if items == [] then at == |log|
    else
      var m := items[0];
      && m.sessionId == sid
      && match m.kind {
           case TIMELINE =>
             && 1 <= m.cursor <= |log| && m.entry == Some(log[m.cursor - 1])
             && (prompt ==> m.cursor <= at + 1)
             && Continues(items[1..], Max(at, m.cursor), log, sid, prompt)
           case STATE => m.cursor <= at && m.session.Some? && m.session.value.id == sid
                         && Continues(items[1..], at, log, sid, prompt)
           case HEARTBEAT => m.cursor <= at && Continues(items[1..], at, log, sid, prompt)
           case RESYNC_REQUIRED => true
           case END => m.cursor <= at
         }
  }

  /** Where the client stands after a message that does not stop it. */
  function Past(at: int, m: Envelope): int {
    if m.kind == TIMELINE then Max(at, m.cursor) else at
  }

  lemma {:induction false} ContinuesOn(
      items: seq<Envelope>, at: int, log: seq<Entry>, sid: string, prompt: bool, next: Envelope, log': seq<Entry>)
    requires Continues(items, at, log, sid, prompt)
    requires log <= log' && Continues([next], |log|, log', sid, prompt)
    ensures Continues(items + [next], at, log', sid, prompt)
  {
    if items == [] {
      assert items + [next] == [next];
    } else {
      assert (items + [next])[1..] == items[1..] + [next];
      if items[0].kind in {TIMELINE, STATE, HEARTBEAT} {
        ContinuesOn(items[1..], Past(at, items[0]), log, sid, prompt, next, log');
      }
    }
  }

  /** Whatever was queued may be replaced by a demand to resynchronise. */
  lemma {:induction false} ContinuesCut(
      pipe: seq<Envelope>, rest: seq<Envelope>, at: int, log: seq<Entry>, sid: string, prompt: bool,
      demand: Envelope, log': seq<Entry>)
    requires Continues(pipe + rest, at, log, sid, prompt)
    requires log <= log' && demand.kind == RESYNC_REQUIRED && demand.sessionId == sid
    ensures Continues(pipe + [demand], at, log', sid, prompt)
  {
    if pipe != [] {
      assert (pipe + [demand])[1..] == pipe[1..] + [demand];
      assert (pipe + rest)[1..] == pipe[1..] + rest;
      if pipe[0].kind in {TIMELINE, STATE, HEARTBEAT} {
        ContinuesCut(pipe[1..], rest, Past(at, pipe[0]), log, sid, prompt, demand, log');
      }
    }
  }

  /** A client that has come further by another way reads the same messages. */
  lemma {:induction false} ContinuesAhead(
      items: seq<Envelope>, at: int, at': int, log: seq<Entry>, sid: string, prompt: bool)
    requires Continues(items, at, log, sid, prompt) && at <= at' <= |log|
    ensures Continues(items, at', log, sid, prompt)
  {
    if items != [] && items[0].kind in {TIMELINE, STATE, HEARTBEAT} {
      ContinuesAhead(items[1..], Past(at, items[0]), Past(at', items[0]), log, sid, prompt);
    }
  }

  ghost predicate HasStop(items: seq<Envelope>) {
    exists i :: 0 <= i < |items| && items[i].kind in {RESYNC_REQUIRED, END}
  }

  /** Once a demand or an end is on its way, what the log does afterwards cannot matter. */
  lemma {:induction false} ContinuesToAStop(
      items: seq<Envelope>, at: int, log: seq<Entry>, sid: string, prompt: bool, log': seq<Entry>)
    requires Continues(items, at, log, sid, prompt) && log <= log' && HasStop(items)
    ensures Continues(items, at, log', sid, prompt)
  {
    if items[0].kind in {TIMELINE, STATE, HEARTBEAT} {
      var i :| 0 <= i < |items| && items[i].kind in {RESYNC_REQUIRED, END};
      assert items[1..][i - 1] == items[i];
      ContinuesToAStop(items[1..], Past(at, items[0]), log, sid, prompt, log');
    }
  }

  const SERVER_REASONS :=
    {"SUBSCRIBER_OVERFLOW", "CURSOR_UNKNOWN", "CURSOR_NOT_RETAINED", "CATCH_UP_TOO_LARGE"}

  ghost predicate ServerDemands(items: seq<Envelope>) {
    forall i | 0 <= i < |items| && items[i].kind == RESYNC_REQUIRED ::
      items[i].reason.Some? && items[i].reason.value in SERVER_REASONS
  }

  lemma PrefixDemands(a: seq<Envelope>, b: seq<Envelope>)
    requires ServerDemands(a + b)
    ensures ServerDemands(a) && ServerDemands(b)
  {
    forall i | 0 <= i < |a| ensures a[i] == (a + b)[i] {}
    forall i | 0 <= i < |b| ensures b[i] == (a + b)[|a| + i] {}
  }

  // ---------------------------------------------------------------- the start of a stream

  lemma StampedIsLog(log: seq<Entry>, changes: seq<Change>)
    requires IsLog(log)
    ensures IsLog(log + Stamped(log, changes)) && log <= log + Stamped(log, changes)
    ensures |log + Stamped(log, changes)| == |log| + |changes|
  {
  }

  lemma {:induction false} NoticesContinue(
      log: seq<Entry>, after: nat, sid: string, tail: seq<Envelope>, prompt: bool)
    requires IsLog(log) && after <= |log|
    requires Continues(tail, |log|, log, sid, prompt)
    ensures Continues(EntryNotices(sid, log[after..]) + tail, after, log, sid, prompt)
    ensures |EntryNotices(sid, log[after..])| == |log| - after
    ensures forall m | m in EntryNotices(sid, log[after..]) :: m.kind == TIMELINE
    decreases |log| - after
  {
    var notices := EntryNotices(sid, log[after..]);
    if after < |log| {
      assert log[after..][1..] == log[after + 1..];
      NoticesContinue(log, after + 1, sid, tail, prompt);
      assert (notices + tail)[1..] == EntryNotices(sid, log[after + 1..]) + tail;
    } else {
      assert notices + tail == tail;
    }
  }

  lemma PrimerTailContinues(log: seq<Entry>, view: Session, ended: bool, prompt: bool)
    ensures var tail := PrimerTail(log, view, ended);
            && |tail| == (if ended then 2 else 1)
            && Continues(tail, |log|, log, view.id, prompt) && ServerDemands(tail)
  {
    var tail := PrimerTail(log, view, ended);
    assert ended ==> tail[1..] == [tail[1]];
    assert !ended ==> tail[1..] == [];
  }

  lemma DemandContinues(
      demand: Envelope, tail: seq<Envelope>, after: int, log: seq<Entry>, sid: string, prompt: bool)
    requires demand.kind == RESYNC_REQUIRED && demand.sessionId == sid && ServerDemands([demand]) && ServerDemands(tail)
    ensures Continues([demand] + tail, after, log, sid, prompt) && ServerDemands([demand] + tail)
  {
    assert forall i | 1 <= i < |[demand] + tail| :: ([demand] + tail)[i] == tail[i - 1];
    assert [demand][0] == demand;
  }

  lemma NoRefusalMeansRetained(log: seq<Entry>, after: int)
    requires IsLog(log) && CatchUpRefusal(log, after).None?
    ensures Dropped(log) <= after <= |log| && NewerThan(Retained(log), after) == log[after..]
    ensures |log| - after < SUBSCRIBER_QUEUE - 1
  {
    OldestIsAfterDropped(log);
    NewerThanIsSlice(log, Dropped(log), after);
  }

  /** What a reader is primed with continues the log from its cursor to the last entry, or demands a
      resynchronisation; by itself it fits into the queue. */
  lemma PrimerContinues(log: seq<Entry>, after: int, view: Session, ended: bool, prompt: bool)
    requires IsLog(log)
    ensures var items := Primer(log, after, view, ended);
            && |items| == Pushes(log, 0, after, ended) <= 64
            && Continues(items, after, log, view.id, prompt) && ServerDemands(items)
  {
    var items, tail := Primer(log, after, view, ended), PrimerTail(log, view, ended);
    PrimerTailContinues(log, view, ended, prompt);
    if CatchUpRefusal(log, after).Some? {
      assert items == [items[0]] + tail;
      DemandContinues(items[0], tail, after, log, view.id, prompt);
    } else {
      NoRefusalMeansRetained(log, after);
      NoticesContinue(log, after, view.id, tail, prompt);
      NoticesDemandNothing(EntryNotices(view.id, log[after..]), tail);
    }
  }

  /** When a reader is not caught up but told to resynchronise, and with which reason: its cursor lies
      beyond the log, or more than it holds was dropped, or more than 62 entries are missing. */
  lemma CatchUpIs(log: seq<Entry>, after: int)
    requires IsLog(log)
    ensures CatchUpRefusal(log, after) ==
            if after > |log| then Some("CURSOR_UNKNOWN")
            else if after < |log| - 500 || after < 0 then Some("CURSOR_NOT_RETAINED")
            else if |log| - after >= 63 then Some("CATCH_UP_TOO_LARGE")
            else None
  {
    OldestIsAfterDropped(log);
    if Dropped(log) <= after <= |log| {
      NewerThanIsSlice(log, Dropped(log), after);
    }
  }

  lemma {:induction false} EntryNoticesAre(sid: string, es: seq<Entry>)
    ensures |EntryNotices(sid, es)| == |es|
    ensures forall k | 0 <= k < |es| ::
              EntryNotices(sid, es)[k] == Envelope(sid, TIMELINE, "", es[k].at, Some(es[k]), None, None)
  {
    if es != [] {
      EntryNoticesAre(sid, es[1..]);
    }
  }

  /** What a primer holds, message by message: each entry after the reader's cursor, or one demand with
      its reason; then the state of the session at the log's end; then the end, if it has ended. */
  lemma PrimerIs(log: seq<Entry>, after: int, view: Session, ended: bool)
    requires IsLog(log)
    ensures var items, refusal := Primer(log, after, view, ended), CatchUpRefusal(log, after);
            var n := if refusal.Some? then 1 else |log| - after;
            && 0 <= n && |items| == n + (if ended then 2 else 1)
            && (refusal.Some? ==>
                  items[0] == Envelope(view.id, RESYNC_REQUIRED, "", |log|, None, None, refusal))
            && (refusal.None? ==>
                  forall k | 0 <= k < n :: 0 <= after + k < |log| && items[k] ==
                    Envelope(view.id, TIMELINE, "", after + 1 + k, Some(log[after + k]), None, None))
            && items[n] == Envelope(view.id, STATE, "", |log|, None, Some(view), None)
            && (ended ==> items[n + 1] == Envelope(view.id, END, "", |log|, None, Some(view), None))
  {
    if CatchUpRefusal(log, after).None? {
      NoRefusalMeansRetained(log, after);
      EntryNoticesAre(view.id, log[after..]);
    }
  }

  lemma NoticesDemandNothing(notices: seq<Envelope>, tail: seq<Envelope>)
    requires ServerDemands(tail) && forall m | m in notices :: m.kind == TIMELINE
    ensures ServerDemands(notices + tail)
  {
    forall i | 0 <= i < |notices| ensures (notices + tail)[i].kind == TIMELINE {
      assert notices[i] in notices;
    }
    forall i | |notices| <= i < |notices + tail| ensures (notices + tail)[i] == tail[i - |notices|] {}
  }

  /** What the evaluation pushes ahead of that, read by a client at `at`. */
  lemma {:induction false} ChangesContinue(
      log: seq<Entry>, sid: string, first: nat, changes: seq<Change>, at: int, tail: seq<Envelope>, prompt: bool)
    requires IsLog(log) && 1 <= first && first - 1 + |changes| == |log| && at <= |log|
    requires forall i | 0 <= i < |changes| :: log[first - 1 + i] == Entry(first + i, changes[i].text)
    requires (changes == [] ==> at == |log|) && (prompt ==> at >= first - 1)
    requires Continues(tail, |log|, log, sid, prompt)
    ensures Continues(ChangeNotices(sid, first, changes) + tail, at, log, sid, prompt)
    decreases |changes|
  {
    var notices := ChangeNotices(sid, first, changes);
    if changes == [] {
      assert notices + tail == tail;
    } else {
      assert log[first - 1] == Entry(first, changes[0].text);
      forall i | 0 <= i < |changes| - 1 ensures log[first + i] == Entry(first + 1 + i, changes[1..][i].text) {
        assert changes[1..][i] == changes[i + 1];
        assert log[first - 1 + (i + 1)] == Entry(first + (i + 1), changes[i + 1].text);
      }
      ChangesContinue(log, sid, first + 1, changes[1..], Max(at, first), tail, prompt);
      assert (notices + tail)[1..] == ChangeNotices(sid, first + 1, changes[1..]) + tail;
    }
  }

  lemma {:induction false} ChangeNoticesAre(sid: string, first: nat, changes: seq<Change>)
    ensures |ChangeNotices(sid, first, changes)| == |changes|
    ensures forall k | 0 <= k < |changes| ::
              ChangeNotices(sid, first, changes)[k] ==
              Envelope(sid, TIMELINE, "", first + k, Some(Entry(first + k, changes[k].text)), Some(changes[k].view),
                       None)
    ensures forall m | m in ChangeNotices(sid, first, changes) :: m.kind == TIMELINE
    decreases |changes|
  {
    if changes != [] {
      ChangeNoticesAre(sid, first + 1, changes[1..]);
    }
  }

  lemma {:induction false} PushedAllIs(items: seq<Envelope>)
    ensures PushedAll(Queue([], false), items) ==
            if |items| <= SUBSCRIBER_QUEUE then Queue(items, false)
            else Queue([ResyncNotice(items[SUBSCRIBER_QUEUE].sessionId, items[SUBSCRIBER_QUEUE].cursor,
                                     "SUBSCRIBER_OVERFLOW")], true)
  {
    if items != [] {
      PushedAllIs(items[..|items| - 1]);
    }
  }

  /** The queue of a new reader overflows if and only if the evaluation and the priming push more
      than it holds. What is left then is one demand to resynchronise. */
  lemma SubscriptionOverflowsIff(log: seq<Entry>, changes: seq<Change>, after: int, view: Session, ended: bool)
    requires IsLog(log)
    ensures var q, log' := Subscribed(log, changes, after, view, ended), log + Stamped(log, changes);
            && (q.closed <==> Pushes(log', |changes|, after, ended) > 64)
            && (q.closed ==> |q.items| == 1 && q.items[0].kind == RESYNC_REQUIRED && HasStop(q.items)
                             && q.items[0].reason == Some("SUBSCRIBER_OVERFLOW"))
            && (!q.closed ==> q.items == ChangeNotices(view.id, |log| + 1, changes) + Primer(log', after, view, ended))
  {
    var log' := log + Stamped(log, changes);
    StampedIsLog(log, changes);
    PrimerContinues(log', after, view, ended, true);
    ChangeNoticesAre(view.id, |log| + 1, changes);
    PushedAllIs(ChangeNotices(view.id, |log| + 1, changes) + Primer(log', after, view, ended));
  }

  lemma SubscribedContinues(
      log: seq<Entry>, changes: seq<Change>, after: int, at: int, view: Session, ended: bool, prompt: bool)
    requires IsLog(log) && after <= at <= |log|
    requires !Subscribed(log, changes, after, view, ended).closed
    requires prompt ==> changes == [] || at == |log|
    ensures var q, log' := Subscribed(log, changes, after, view, ended), log + Stamped(log, changes);
            Continues(q.items, at, log', view.id, prompt) && ServerDemands(q.items)
  {
    var log' := log + Stamped(log, changes);
    var primer := Primer(log', after, view, ended);
    StampedIsLog(log, changes);
    SubscriptionOverflowsIff(log, changes, after, view, ended);
    PrimerContinues(log', after, view, ended, prompt);
    ChangeNoticesAre(view.id, |log| + 1, changes);
    NoticesDemandNothing(ChangeNotices(view.id, |log| + 1, changes), primer);
    if changes == [] {
      ContinuesAhead(primer, after, at, log', view.id, prompt);
      assert [] + primer == primer;
    } else {
      ContinuesAhead(primer, after, |log'|, log', view.id, prompt);
      ChangesContinue(log', view.id, |log| + 1, changes, at, primer, prompt);
    }
  }

  lemma OverflowedContinues(log: seq<Entry>, changes: seq<Change>, after: int, view: Session, ended: bool, at: int,
                            prompt: bool)
    requires IsLog(log) && Subscribed(log, changes, after, view, ended).closed
    ensures var q, log' := Subscribed(log, changes, after, view, ended), log + Stamped(log, changes);
            Continues(q.items, at, log', view.id, prompt) && ServerDemands(q.items) && HasStop(q.items)
  {
    var log' := log + Stamped(log, changes);
    var items := ChangeNotices(view.id, |log| + 1, changes) + Primer(log', after, view, ended);
    SubscriptionOverflowsIff(log, changes, after, view, ended);
    PushedAllIs(items);
    AllForOneSession(log, changes, after, view, ended);
  }

  lemma {:induction false} NoticesForOneSession(sid: string, first: nat, changes: seq<Change>, es: seq<Entry>)
    ensures forall m | m in ChangeNotices(sid, first, changes) :: m.sessionId == sid
    ensures forall m | m in EntryNotices(sid, es) :: m.sessionId == sid
    decreases |changes| + |es|
  {
    if changes != [] {
      NoticesForOneSession(sid, first + 1, changes[1..], es);
    }
    if es != [] {
      NoticesForOneSession(sid, first, changes, es[1..]);
    }
  }

  lemma AllForOneSession(log: seq<Entry>, changes: seq<Change>, after: int, view: Session, ended: bool)
    ensures var log' := log + Stamped(log, changes);
            forall m | m in ChangeNotices(view.id, |log| + 1, changes) + Primer(log', after, view, ended) ::
              m.sessionId == view.id
  {
    var log' := log + Stamped(log, changes);
    NoticesForOneSession(view.id, |log| + 1, changes, NewerThan(Retained(log'), after));
  }
}
