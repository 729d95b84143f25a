/** The server's side of a live session: its append-only log, of which the newest 500 entries
    are retained, and the pages it serves. Follows `_append` and `timeline` of
    backend/app/application/live/workspace.py. What a page leaves a client holding is proved
    against the client of `LiveClient`. */
module LiveServer {
  import opened Wrappers
  import Sorting
  import opened LiveTimeline
  import opened LiveClient

  const RETENTION := 500
  const PAGE_MAX := 100

  /** Entries are stamped 1, 2, 3, ... as they are appended and never change. */
  ghost predicate IsLog(log: seq<Entry>) {
    forall i | 0 <= i < |log| :: log[i].at == i + 1
  }

  function Dropped(log: seq<Entry>): nat {
    if |log| > RETENTION then |log| - RETENTION else 0
  }

  function Retained(log: seq<Entry>): seq<Entry> {
    log[Dropped(log)..]
  }

  function Oldest(log: seq<Entry>): int {
    var kept := Retained(log);
    if kept != [] then kept[0].at else |log| + 1
  }

  function NewerThan(es: seq<Entry>, after: int): seq<Entry> {
    if es == [] then []
    else if es[0].at > after then [es[0]] + NewerThan(es[1..], after)
    else NewerThan(es[1..], after)
  }

  function Take(es: seq<Entry>, n: nat): seq<Entry> {
    if |es| > n then es[..n] else es
  }

  function Last(es: seq<Entry>, n: nat): seq<Entry> {
    if |es| > n then es[|es| - n..] else es
  }

  function PageLimit(limit: int): nat {
    if limit < 1 then 1 else if limit > PAGE_MAX then PAGE_MAX else limit
  }

  function TimelinePage(log: seq<Entry>, after: Option<int>, limit: int): Page {
    var kept := Retained(log);
    if after.None? then
      Page(Last(kept, PageLimit(limit)), kept != [] && Oldest(log) > 1)
    else
      Page(Take(NewerThan(kept, after.value), PageLimit(limit)), after.value < Oldest(log) - 1)
  }

  // ---------------------------------------------------------------- slices of the log

  /** `t` is the stretch of the log after entry `lo` up to entry `hi`, with no hole in it. */
  ghost predicate Covers(t: seq<Entry>, lo: int, hi: int, log: seq<Entry>) {
    0 <= lo <= hi <= |log| && t == log[lo..hi]
  }

  function Min(a: int, b: int): int {
    if a <= b then a else b
  }

  lemma OldestIsAfterDropped(log: seq<Entry>)
    requires IsLog(log)
    ensures Oldest(log) == Dropped(log) + 1
  {
  }

  lemma {:induction false} NewerThanIsSlice(log: seq<Entry>, from: nat, after: int)
    requires IsLog(log) && from <= |log|
    ensures NewerThan(log[from..], after) == log[Min(Max(from, after), |log|)..]
    decreases |log| - from
  {
    if from < |log| {
      assert log[from..][1..] == log[from + 1..];
      NewerThanIsSlice(log, from + 1, after);
      if log[from].at > after {
        assert log[from..] == [log[from]] + log[from + 1..];
      }
    }
  }

  /** A page starts at the first entry after the one named that is still retained. */
  lemma PageStarts(log: seq<Entry>, after: int)
    requires IsLog(log) && after <= |log|
    ensures var from := Max(Dropped(log), after);
            Covers(TimelinePage(log, Some(after), PAGE_MAX).entries, from, Min(from + PAGE_MAX, |log|), log)
  {
    var from := Max(Dropped(log), after);
    NewerThanIsSlice(log, Dropped(log), after);
    assert NewerThan(Retained(log), after) == log[from..];
    assert |log| > from + PAGE_MAX ==> log[from..][..PAGE_MAX] == log[from..from + PAGE_MAX];
  }

  /** A page after an entry still retained starts at the very next one. */
  lemma PageIsSlice(log: seq<Entry>, after: int)
    requires IsLog(log) && Dropped(log) <= after <= |log|
    ensures var page := TimelinePage(log, Some(after), PAGE_MAX);
            !page.gap && Covers(page.entries, after, Min(after + PAGE_MAX, |log|), log)
  {
    OldestIsAfterDropped(log);
    PageStarts(log, after);
  }

  lemma TakeOf(log: seq<Entry>, from: nat, n: nat)
    requires from <= |log|
    ensures Take(log[from..], n) == log[from..Min(from + n, |log|)]
    ensures Last(log[from..], n) == log[Max(from, |log| - n)..]
  {
  }

  lemma LimitIs(limit: int)
    ensures PageLimit(limit) == if limit < 1 then 1 else if limit > 100 then 100 else limit
  {
  }

  lemma PageAfterIs(log: seq<Entry>, after: int, limit: int, n: nat, first: nat, from: int)
    requires IsLog(log) && after <= |log| && n == PageLimit(limit) && first == Dropped(log) && from == Max(after, first)
    ensures var page := TimelinePage(log, Some(after), limit);
            page.entries == log[from..Min(from + n, |log|)] && (page.gap <==> after < first)
  {
    OldestIsAfterDropped(log);
    NewerThanIsSlice(log, first, after);
    TakeOf(log, from, n);
  }

  lemma LastPageIs(log: seq<Entry>, limit: int, n: nat, first: nat)
    requires IsLog(log) && n == PageLimit(limit) && first == Dropped(log)
    ensures var page := TimelinePage(log, None, limit);
            page.entries == log[Max(|log| - n, first)..] && (page.gap <==> first > 0)
  {
    OldestIsAfterDropped(log);
    TakeOf(log, first, n);
  }

  /** Any page there is. Without a place to start at it is the end of what is retained, 500 entries at
      most; with one it is what follows that place, from the oldest retained on if the place is older,
      which is what `gap` says. Either way the limit asked for is brought to between 1 and 100. */
  lemma PageIs(log: seq<Entry>, after: Option<int>, limit: int, n: nat, first: nat)
    requires IsLog(log) && (after.Some? ==> after.value <= |log|)
    requires n == if limit < 1 then 1 else if limit > 100 then 100 else limit
    requires first == if |log| > 500 then |log| - 500 else 0
    ensures var page := TimelinePage(log, after, limit);
            if after.None? then page == Page(log[Max(|log| - n, first)..], first > 0)
            else
              var from := Max(after.value, first);
              page == Page(log[from..Min(from + n, |log|)], after.value < first)
  {
    LimitIs(limit);
    if after.None? {
      LastPageIs(log, limit, n, first);
    } else {
      PageAfterIs(log, after.value, limit, n, first, Max(after.value, first));
    }
  }

  lemma SliceRises(log: seq<Entry>, lo: nat, hi: nat)
    requires IsLog(log) && lo <= hi <= |log|
    ensures Rising(log[lo..hi])
    ensures forall k :: Holds(log[lo..hi], k) <==> lo < k <= hi
  {
    var t := log[lo..hi];
    forall i | 0 <= i < |t| ensures t[i].at == lo + i + 1 {}
    forall k | lo < k <= hi ensures Holds(t, k) {
      assert t[k - lo - 1].at == k;
    }
  }

  lemma SeqsOf(t: seq<Entry>, lo: int, k: int)
    requires forall i | 0 <= i < |t| :: t[i].at == lo + i + 1
    ensures k in Latest(t) <==> lo < k <= lo + |t|
    ensures lo < k <= lo + |t| ==> Latest(t)[k] == t[k - lo - 1]
  {
    LatestOfDistinct(t);
    if lo < k <= lo + |t| {
      assert t[k - lo - 1].at == k;
    }
  }

  lemma SliceSeqs(log: seq<Entry>, lo: nat, hi: nat)
    requires IsLog(log) && lo <= hi <= |log|
    ensures forall k :: k in Latest(log[lo..hi]) <==> lo < k <= hi
    ensures forall k | k in Latest(log[lo..hi]) :: Latest(log[lo..hi])[k] == log[k - 1]
  {
    var t := log[lo..hi];
    forall k ensures k in Latest(t) <==> lo < k <= hi
             ensures k in Latest(t) ==> Latest(t)[k] == log[k - 1]
    {
      SeqsOf(t, lo, k);
    }
  }

  lemma SliceIsNewest(log: seq<Entry>, l: nat, h: nat, all: map<int, Entry>)
    requires IsLog(log) && l <= h <= |log| && h - l <= TIMELINE_LIMIT
    requires forall k :: l < k <= h ==> k in all
    requires forall k | k in all :: k <= h && (l < k || h - l == TIMELINE_LIMIT)
    requires forall k | k in all && 0 < k <= |log| :: all[k] == log[k - 1]
    ensures IsNewest(log[l..h], all)
  {
    var t := log[l..h];
    SliceRises(log, l, h);
    forall i | 0 <= i < |t| ensures t[i].at in all && all[t[i].at] == t[i] {
      assert t[i] == log[l + i] && t[i].at == l + i + 1;
    }
    forall k | k in all ensures Holds(t, k) || (|t| == TIMELINE_LIMIT && k < t[0].at) {
      if k <= l {
        assert t[0] == log[l];
      }
    }
  }

  /** Two stretches that meet merge into one, cut to the newest 500; and a full one takes in nothing
      older than it holds. */
  lemma MergeOfSlices(log: seq<Entry>, lo: nat, hi: nat, p: nat, q: nat)
    requires IsLog(log) && lo <= hi <= |log| && p <= q <= |log|
    requires p <= hi && (lo <= q || hi - lo == TIMELINE_LIMIT)
    ensures var h := Max(hi, q);
            Covers(Merged(log[lo..hi], log[p..q]), Max(Min(lo, p), h - TIMELINE_LIMIT), h, log)
  {
    var h := Max(hi, q);
    var l := Max(Min(lo, p), h - TIMELINE_LIMIT);
    var all := Latest(log[lo..hi]) + Latest(log[p..q]);
    SliceSeqs(log, lo, hi);
    SliceSeqs(log, p, q);
    SliceIsNewest(log, l, h, all);
    MergedIsNewest(log[lo..hi], log[p..q]);
    NewestIsUnique(log[l..h], Merged(log[lo..hi], log[p..q]), all);
  }

  lemma MergeOfCovered(t: seq<Entry>, es: seq<Entry>, log: seq<Entry>, lo: nat, hi: nat, p: nat, q: nat)
    requires IsLog(log) && Covers(t, lo, hi, log) && Covers(es, p, q, log)
    requires p <= hi && (lo <= q || hi - lo == TIMELINE_LIMIT)
    ensures var h := Max(hi, q);
            Covers(Merged(t, es), Max(Min(lo, p), h - TIMELINE_LIMIT), h, log)
  {
    MergeOfSlices(log, lo, hi, p, q);
  }

  // ---------------------------------------------------------------- what is shown, by its two ends

  /** The last entry before what is shown, and the last one shown. */
  function Lo(t: seq<Entry>): int
    requires t != []
  {
    t[0].at - 1
  }

  function Hi(t: seq<Entry>): int
    requires t != []
  {
    t[|t| - 1].at
  }

  /** Something is shown, and it is a stretch of the log. */
  ghost predicate Stretch(t: seq<Entry>, log: seq<Entry>) {
    t != [] && Covers(t, Lo(t), Hi(t), log)
  }

  predicate Full(t: seq<Entry>) {
    |t| == TIMELINE_LIMIT
  }

  lemma StretchOfCovered(t: seq<Entry>, log: seq<Entry>, lo: int, hi: int)
    requires IsLog(log) && Covers(t, lo, hi, log) && lo < hi
    ensures Stretch(t, log) && Lo(t) == lo && Hi(t) == hi
  {
    assert t[0] == log[lo] && t[hi - lo - 1] == log[hi - 1];
  }

  lemma StretchOnLongerLog(t: seq<Entry>, log: seq<Entry>, log': seq<Entry>)
    requires Stretch(t, log) && log <= log'
    ensures Stretch(t, log')
  {
    assert log'[Lo(t)..Hi(t)] == log[Lo(t)..Hi(t)];
  }

  lemma StretchMerges(t: seq<Entry>, es: seq<Entry>, log: seq<Entry>, p: int, q: int)
    requires IsLog(log) && Stretch(t, log) && Covers(es, p, q, log)
    requires p <= Hi(t) && (Lo(t) <= q || Full(t))
    ensures var m := Merged(t, es);
            && Stretch(m, log) && Hi(m) == Max(Hi(t), q) && Lo(m) == Max(Min(Lo(t), p), Hi(m) - TIMELINE_LIMIT)
            && |m| == Hi(m) - Lo(m)
  {
    var h := Max(Hi(t), q);
    assert |t| == Hi(t) - Lo(t);
    MergeOfCovered(t, es, log, Lo(t), Hi(t), p, q);
    StretchOfCovered(Merged(t, es), log, Max(Min(Lo(t), p), h - TIMELINE_LIMIT), h);
  }

  // ---------------------------------------------------------------- loading older pages

  /** The place to ask at is found in what is shown by then, the page cut by the server later, and
      merged into what is shown later still. */
  function OlderMerged(asked: ClientState, cut: seq<Entry>, later: ClientState): ClientState {
    var after := OlderPageCursor(asked, PAGE_MAX);
    if after.None? then later
    else WithOlderEntries(later, TimelinePage(cut, after, PAGE_MAX), asked.sessionId, asked.generation)
  }

  lemma OlderPageAsks(state: ClientState)
    requires state.timeline != []
    ensures OlderPageCursor(state, PAGE_MAX) ==
            if Lo(state.timeline) < state.session.oldestRetained then None
            else Some(Max(state.session.oldestRetained - 1, Lo(state.timeline) - PAGE_MAX))
  {
  }

  /** What was shown has grown upwards since, and lost of its older end only what did not fit. */
  ghost predicate WentOn(before: seq<Entry>, after: seq<Entry>)
    requires before != [] && after != []
  {
    Hi(before) <= Hi(after) && (Lo(after) <= Lo(before) || Full(after))
  }

  /** A page cut from `cut` for a place just below `shown`, merged into what that has become. */
  lemma OlderPageMerges(shown: seq<Entry>, cut: seq<Entry>, later: seq<Entry>, log: seq<Entry>, after: int)
    requires IsLog(log) && cut <= log && Stretch(shown, cut) && Stretch(later, log) && WentOn(shown, later)
    requires Lo(shown) - PAGE_MAX <= after < Lo(shown) + 1 && Dropped(cut) <= Hi(later)
    ensures var from, m := Max(Dropped(cut), after), Merged(later, TimelinePage(cut, Some(after), PAGE_MAX).entries);
            && Stretch(m, log) && Hi(m) == Max(Hi(later), Min(from + PAGE_MAX, |cut|))
            && Lo(m) == Max(Min(Lo(later), from), Hi(m) - TIMELINE_LIMIT)
  {
    var from := Max(Dropped(cut), after);
    var to := Min(from + PAGE_MAX, |cut|);
    PageStarts(cut, after);
    var page := TimelinePage(cut, Some(after), PAGE_MAX).entries;
    CoversOnLongerLog(page, from, to, cut, log);
    StretchMerges(later, page, log, from, to);
  }

  /** What is shown never starts later than that by more than what the server has dropped. */
  lemma OldestShown(shown: seq<Entry>, later: seq<Entry>, log: seq<Entry>)
    requires shown != [] && Stretch(later, log) && WentOn(shown, later)
    ensures Lo(later) <= Max(Lo(shown), Dropped(log))
  {
    assert |later| == Hi(later) - Lo(later);
  }

  lemma OlderExtends(asked: ClientState, cut: seq<Entry>, later: ClientState, log: seq<Entry>, after: int)
    requires IsLog(log) && cut <= log && Stretch(asked.timeline, cut) && Stretch(later.timeline, log)
    requires WentOn(asked.timeline, later.timeline) && Dropped(cut) <= Hi(later.timeline)
    requires asked.session.oldestRetained <= Oldest(cut) && Lo(asked.timeline) >= asked.session.oldestRetained
    requires after == Max(asked.session.oldestRetained - 1, Lo(asked.timeline) - PAGE_MAX)
    ensures var m := Merged(later.timeline, TimelinePage(cut, Some(after), PAGE_MAX).entries);
            var from := Max(Dropped(cut), Lo(asked.timeline) - PAGE_MAX);
            && Stretch(m, log) && Hi(later.timeline) <= Hi(m)
            && Lo(m) == Max(Min(Lo(later.timeline), from), Hi(m) - TIMELINE_LIMIT)
  {
    OldestIsAfterDropped(cut);
    OlderPageMerges(asked.timeline, cut, later.timeline, log, after);
  }

  /** One click: the oldest entry shown moves back by a page, or to the oldest one retained when the
      page was cut - whatever the stream has brought in the meantime. The screen may know an older
      one as the oldest retained than the server still has. */
  lemma LoadOlderExtends(asked: ClientState, cut: seq<Entry>, later: ClientState, log: seq<Entry>)
    requires IsLog(log) && cut <= log && Stretch(asked.timeline, cut) && Stretch(later.timeline, log)
    requires later.sessionId == asked.sessionId && later.generation == asked.generation
    requires WentOn(asked.timeline, later.timeline)
    requires asked.session.oldestRetained <= Oldest(cut) && Dropped(cut) <= Hi(later.timeline)
    ensures OlderPageCursor(asked, PAGE_MAX).None? <==> Lo(asked.timeline) < asked.session.oldestRetained
    ensures var r := OlderMerged(asked, cut, later);
            var from := Max(Dropped(cut), Lo(asked.timeline) - PAGE_MAX);
            && r == later.(timeline := r.timeline) && Stretch(r.timeline, log) && Hi(later.timeline) <= Hi(r.timeline)
            && Lo(r.timeline) <= Max(Dropped(log), Lo(asked.timeline) - PAGE_MAX)
            && (OlderPageCursor(asked, PAGE_MAX).Some? ==>
                  Lo(r.timeline) == Max(Min(Lo(later.timeline), from), Hi(r.timeline) - TIMELINE_LIMIT))
  {
    OldestIsAfterDropped(cut);
    OlderPageAsks(asked);
    OldestShown(asked.timeline, later.timeline, log);
    var after := OlderPageCursor(asked, PAGE_MAX);
    if after.Some? {
      OlderExtends(asked, cut, later, log, after.value);
    }
  }

  /** What the stream brings goes on from within what is shown. */
  datatype Delivery = Delivery(from: nat, entries: seq<Entry>)

  function Delivered(state: ClientState, d: Delivery): ClientState {
    state.(timeline := Merged(state.timeline, d.entries))
  }

  ghost predicate GoesOn(d: Delivery, shown: seq<Entry>, log: seq<Entry>) {
    && Covers(d.entries, d.from, d.from + |d.entries|, log)
    && shown != [] && Lo(shown) <= d.from <= Hi(shown)
  }

  /** A click on "older": what the stream has brought since the last one, the last word on what is
      still retained, the log the page is cut from, what the stream brings while the page is under
      way, and the log by the time it is merged. */
  datatype Click = Click(before: Delivery, oldest: int, cut: seq<Entry>, meanwhile: Delivery, log: seq<Entry>)

  function Asking(state: ClientState, click: Click): ClientState {
    Delivered(state, click.before).(session := state.session.(oldestRetained := click.oldest))
  }

  function AfterClick(state: ClientState, click: Click): ClientState {
    var asked := Asking(state, click);
    OlderMerged(asked, click.cut, Delivered(asked, click.meanwhile))
  }

  function LoadAllOlder(state: ClientState, clicks: seq<Click>): ClientState
    decreases |clicks|
  {
    if clicks == [] then state else LoadAllOlder(AfterClick(state, clicks[0]), clicks[1..])
  }

  function LastLog(log: seq<Entry>, clicks: seq<Click>): seq<Entry>
    decreases |clicks|
  {
    if clicks == [] then log else LastLog(clicks[0].log, clicks[1..])
  }

  /** The stream goes on as it may, and the server still retains the end of what is shown when it
      cuts the page. */
  ghost predicate Fits(click: Click, state: ClientState, log: seq<Entry>) {
    && IsLog(click.log) && log <= click.cut <= click.log && click.oldest <= Oldest(click.cut)
    && GoesOn(click.before, state.timeline, click.cut)
    && var asked := Asking(state, click);
       && GoesOn(click.meanwhile, asked.timeline, click.log)
       && Dropped(click.cut) <= Max(Hi(asked.timeline), click.meanwhile.from + |click.meanwhile.entries|)
  }

  ghost predicate FitsAll(clicks: seq<Click>, state: ClientState, log: seq<Entry>)
    decreases |clicks|
  {
    clicks == [] || (&& Fits(clicks[0], state, log)
                     && FitsAll(clicks[1..], AfterClick(state, clicks[0]), clicks[0].log))
  }

  lemma {:induction false} LogsGrow(clicks: seq<Click>, state: ClientState, log: seq<Entry>)
    requires IsLog(log) && FitsAll(clicks, state, log)
    ensures IsLog(LastLog(log, clicks)) && log <= LastLog(log, clicks)
    decreases |clicks|
  {
    if clicks != [] {
      LogsGrow(clicks[1..], AfterClick(state, clicks[0]), clicks[0].log);
    }
  }

  lemma CoversOnLongerLog(t: seq<Entry>, lo: int, hi: int, log: seq<Entry>, log': seq<Entry>)
    requires Covers(t, lo, hi, log) && log <= log'
    ensures Covers(t, lo, hi, log')
  {
    assert log'[lo..hi] == log[lo..hi];
  }

  lemma DeliveredGoesOn(t: seq<Entry>, log: seq<Entry>, d: Delivery, log': seq<Entry>)
    requires IsLog(log') && log <= log' && Stretch(t, log) && GoesOn(d, t, log')
    ensures var m := Merged(t, d.entries);
            && Stretch(m, log') && WentOn(t, m) && Hi(m) == Max(Hi(t), d.from + |d.entries|)
            && Lo(m) <= Max(Lo(t), Dropped(log'))
  {
    StretchOnLongerLog(t, log, log');
    StretchMerges(t, d.entries, log', d.from, d.from + |d.entries|);
  }

  lemma ClickExtends(state: ClientState, log: seq<Entry>, click: Click)
    requires IsLog(log) && Stretch(state.timeline, log) && Fits(click, state, log)
    ensures var r := AfterClick(state, click);
            && Stretch(r.timeline, click.log) && Hi(state.timeline) <= Hi(r.timeline)
            && Lo(r.timeline) <= Max(Dropped(click.log), Lo(state.timeline) - PAGE_MAX)
  {
    var asked := Asking(state, click);
    DeliveredGoesOn(state.timeline, log, click.before, click.cut);
    DeliveredGoesOn(asked.timeline, click.cut, click.meanwhile, click.log);
    LoadOlderExtends(asked, click.cut, Delivered(asked, click.meanwhile), click.log);
  }

  /** While the log grows and the stream goes on: after as many clicks as there are pages between
      the oldest entry shown and the oldest the server will still retain, the timeline has no hole
      from there on. The 500 the client may hold are the 500 the server retains. */
  lemma {:induction false} LoadingOlderReachesTheOldest(state: ClientState, log: seq<Entry>, clicks: seq<Click>)
    requires IsLog(log) && Stretch(state.timeline, log) && FitsAll(clicks, state, log)
    requires Lo(state.timeline) <= Dropped(LastLog(log, clicks)) + |clicks| * PAGE_MAX
    ensures var last, r := LastLog(log, clicks), LoadAllOlder(state, clicks);
            && IsLog(last) && log <= last && Stretch(r.timeline, last) && Hi(state.timeline) <= Hi(r.timeline)
            && Lo(r.timeline) <= Dropped(last)
            && (r.session.oldestRetained == Oldest(last) ==> OlderPageCursor(r, PAGE_MAX).None?)
    decreases |clicks|
  {
    LogsGrow(clicks, state, log);
    if clicks == [] {
      OldestIsAfterDropped(log);
      OlderPageAsks(state);
    } else {
      LogsGrow(clicks[1..], AfterClick(state, clicks[0]), clicks[0].log);
      ClickExtends(state, log, clicks[0]);
      LoadingOlderReachesTheOldest(AfterClick(state, clicks[0]), clicks[0].log, clicks[1..]);
    }
  }

  /** Five clicks always do: the server retains no more than five pages. */
  lemma FiveClicksAreEnough(state: ClientState, log: seq<Entry>, clicks: seq<Click>)
    requires IsLog(log) && Stretch(state.timeline, log)
    requires |clicks| == 5 && FitsAll(clicks, state, log)
    ensures var last, r := LastLog(log, clicks), LoadAllOlder(state, clicks);
            && IsLog(last) && log <= last && Stretch(r.timeline, last) && Hi(state.timeline) <= Hi(r.timeline)
            && Lo(r.timeline) <= Dropped(last)
            && (r.session.oldestRetained == Oldest(last) ==> OlderPageCursor(r, PAGE_MAX).None?)
  {
    LogsGrow(clicks, state, log);
    LoadingOlderReachesTheOldest(state, log, clicks);
  }

  // ---------------------------------------------------------------- resynchronising

  /** What is shown runs without a hole up to the cursor (and perhaps a little past it). */
  ghost predicate Gapless(state: ClientState, log: seq<Entry>) {
    exists lo, hi :: Covers(state.timeline, lo, hi, log) && lo <= state.cursor <= hi
  }

  lemma GaplessOfSlice(state: ClientState, log: seq<Entry>, lo: nat, hi: nat)
    requires IsLog(log) && Covers(state.timeline, lo, hi, log) && lo < hi
    ensures Gapless(state, log) <==> lo <= state.cursor <= hi
  {
    if Gapless(state, log) {
      var l, h :| Covers(state.timeline, l, h, log) && l <= state.cursor <= h;
      assert log[l..h][0] == log[l] && log[lo..hi][0] == log[lo];
    }
  }

  /** A resynchronisation reads one page after the cursor, yet moves the cursor to the
      snapshot's. When nothing it asked for had been dropped, what is shown is free of holes
      afterwards if and only if the snapshot was at most one page ahead (or already held); and
      in the other case `timelineGap` stays as it was, so the hole is not reported. */
  lemma ResyncLeavesNoHoleIff(
    state: ClientState, snapshot: Session, log: seq<Entry>, lo: nat, hi: nat, generation: nat)
    requires IsLog(log) && Covers(state.timeline, lo, hi, log) && lo < hi
    requires lo <= state.cursor <= hi && Dropped(log) <= state.cursor
    requires snapshot.id == state.sessionId && state.cursor <= snapshot.cursor <= |log|
    ensures var page := TimelinePage(log, Some(state.cursor), PAGE_MAX);
            var s := AcceptSnapshot(state, snapshot, Some(page), generation);
            && s.cursor == snapshot.cursor && s.timelineGap == state.timelineGap
            && (Gapless(s, log) <==> snapshot.cursor <= hi || snapshot.cursor - state.cursor <= PAGE_MAX)
  {
    var page := TimelinePage(log, Some(state.cursor), PAGE_MAX);
    var s := AcceptSnapshot(state, snapshot, Some(page), generation);
    var q := Min(state.cursor + PAGE_MAX, |log|);
    PageIsSlice(log, state.cursor);
    MergeOfSlices(log, lo, hi, state.cursor, q);
    GaplessOfSlice(s, log, Max(lo, Max(hi, q) - TIMELINE_LIMIT), Max(hi, q));
  }

  lemma LastPageIsSlice(log: seq<Entry>)
    requires IsLog(log)
    ensures Covers(TimelinePage(log, None, PAGE_MAX).entries, Max(0, |log| - PAGE_MAX), |log|, log)
  {
  }

  /** Opening a session reads its snapshot and then its last page, while the log moves on. */
  lemma OpeningCovers(log: seq<Entry>, snapshot: Session, generation: nat)
    requires IsLog(log)
    ensures var state := InitialState(snapshot, Some(TimelinePage(log, None, PAGE_MAX)), generation);
            Covers(state.timeline, Max(0, |log| - PAGE_MAX), |log|, log) && |state.timeline| <= PAGE_MAX
  {
    var lo := Max(0, |log| - PAGE_MAX);
    var es := TimelinePage(log, None, PAGE_MAX).entries;
    LastPageIsSlice(log);
    SliceRises(log, lo, |log|);
    Sorting.SortOfOrdered(SeqOf, es);
  }

  /** What is shown is free of holes from the start if and only if the last page reaches back to
      the snapshot. */
  lemma OpeningLeavesNoHoleIff(log: seq<Entry>, snapshot: Session, generation: nat)
    requires IsLog(log) && log != [] && 0 <= snapshot.cursor <= |log|
    ensures var state := InitialState(snapshot, Some(TimelinePage(log, None, PAGE_MAX)), generation);
            Gapless(state, log) <==> |log| - snapshot.cursor <= PAGE_MAX
  {
    OpeningCovers(log, snapshot, generation);
    GaplessOfSlice(InitialState(snapshot, Some(TimelinePage(log, None, PAGE_MAX)), generation),
                   log, Max(0, |log| - PAGE_MAX), |log|);
  }

  function LogOf(n: nat): seq<Entry> {
    seq(n, i => Entry(i + 1, ""))
  }

  /** A session opened when it had one entry, and resynchronised when it has 102, shows a hole that
      nothing reports. */
  lemma FarBehindLeavesAHole(generation: nat)
    ensures var log, one := LogOf(102), LogOf(1);
            var shown := InitialState(Session("s", RUNNING, 1, 1, ""), Some(TimelinePage(one, None, PAGE_MAX)), 0);
            var snapshot := Session("s", RUNNING, 102, 1, "");
            var s := AcceptSnapshot(shown, snapshot, Some(TimelinePage(log, Some(shown.cursor), PAGE_MAX)), generation);
            IsLog(log) && one <= log && Gapless(shown, log) && !Gapless(s, log) && !s.timelineGap
  {
    var log, one := LogOf(102), LogOf(1);
    var page := TimelinePage(one, None, PAGE_MAX);
    var shown := InitialState(Session("s", RUNNING, 1, 1, ""), Some(page), 0);
    assert one == log[0..1] == [log[0]];
    assert page.entries == one;
    assert Sorting.SortBy(SeqOf, one) == one;
    assert Covers(shown.timeline, 0, 1, log);
    ResyncLeavesNoHoleIff(shown, Session("s", RUNNING, 102, 1, ""), log, 0, 1, generation);
  }

  /** A `STATE` moves the cursor to the message's, an `END` does if that is further on; neither
      brings entries. What is shown is then free of holes if and only if the message is ignored or
      every entry up to its cursor was already held; and `timelineGap` never says so. */
  lemma CursorMessageLeavesNoHoleIff(
    state: ClientState, m: Envelope, ticket: nat, log: seq<Entry>, lo: nat, hi: nat)
    requires IsLog(log) && Covers(state.timeline, lo, hi, log) && lo < hi && lo <= state.cursor <= hi
    requires m.kind == STATE || m.kind == END
    ensures var s := ApplyEnvelope(state, m, ticket).0;
            && s.timelineGap == state.timelineGap && s.timeline == state.timeline
            && (Gapless(s, log) <==> Ignored(state, m, ticket) || m.cursor <= hi)
  {
    GaplessOfSlice(ApplyEnvelope(state, m, ticket).0, log, lo, hi);
  }

  ghost predicate Ignored(state: ClientState, m: Envelope, ticket: nat) {
    || m.sessionId != state.sessionId || ticket != state.generation
    || (m.kind == STATE && (m.session.None? || m.cursor < state.cursor))
  }

  /** A page that could not start where it was asked to says so, and the client keeps that. */
  lemma ResyncReportsDroppedEntries(state: ClientState, snapshot: Session, log: seq<Entry>, generation: nat)
    requires IsLog(log) && snapshot.id == state.sessionId && state.cursor <= snapshot.cursor
    ensures var page := TimelinePage(log, Some(state.cursor), PAGE_MAX);
            AcceptSnapshot(state, snapshot, Some(page), generation).timelineGap
            <==> state.timelineGap || state.cursor < Dropped(log)
  {
    OldestIsAfterDropped(log);
  }

  /** Cancelling and analysing take in a snapshot without a page. What is shown is then free of
      holes if and only if every entry up to the snapshot was already held. */
  lemma SnapshotAloneLeavesNoHoleIff(
    state: ClientState, snapshot: Session, log: seq<Entry>, lo: nat, hi: nat)
    requires IsLog(log) && Covers(state.timeline, lo, hi, log) && lo < hi
    requires lo <= state.cursor <= hi
    requires snapshot.id == state.sessionId && state.cursor <= snapshot.cursor <= |log|
    ensures var s := AcceptSnapshot(state, snapshot, None, state.generation);
            && s.timelineGap == state.timelineGap
            && (Gapless(s, log) <==> snapshot.cursor <= hi)
  {
    GaplessOfSlice(AcceptSnapshot(state, snapshot, None, state.generation), log, lo, hi);
  }

  /** The race this leaves open: the entry an analysis appends travels on the stream while its
      snapshot travels in the answer. Stream first, the entry is shown; answer first, it is
      dropped as already applied - and nothing says so. */
  lemma AnalysisAnswerFirstLosesItsEntry(state: ClientState, snapshot: Session, log: seq<Entry>, lo: nat)
    requires IsLog(log) && Covers(state.timeline, lo, state.cursor, log) && state.cursor < |log|
    requires snapshot.id == state.sessionId && snapshot.cursor == state.cursor + 1
    requires !state.timelineGap && !state.resyncRequired
    ensures var answer := Snapshot(snapshot, None, state.generation);
            var event := EntryMessage(state, log[state.cursor]);
            var streamFirst, answerFirst := Apply(Apply(state, event), answer), Apply(Apply(state, answer), event);
            && streamFirst.cursor == answerFirst.cursor == state.cursor + 1
            && Holds(streamFirst.timeline, state.cursor + 1) && !Holds(answerFirst.timeline, state.cursor + 1)
            && !answerFirst.timelineGap && !answerFirst.resyncRequired
  {
    var answer := Snapshot(snapshot, None, state.generation);
    var event := EntryMessage(state, log[state.cursor]);
    NextEntryIsShown(state, log, lo);
    assert Apply(Apply(state, event), answer).timeline == Apply(state, event).timeline;
    assert Apply(Apply(state, answer), event).timeline == state.timeline;
  }

  function EntryMessage(state: ClientState, entry: Entry): Step {
    Message(Envelope(state.sessionId, TIMELINE, "", entry.at, Some(entry), None, None), state.generation)
  }

  lemma NextEntryIsShown(state: ClientState, log: seq<Entry>, lo: nat)
    requires IsLog(log) && Covers(state.timeline, lo, state.cursor, log) && state.cursor < |log|
    ensures var s := Apply(state, EntryMessage(state, log[state.cursor]));
            s.cursor == state.cursor + 1 && s.session == state.session && s.sessionId == state.sessionId
            && Holds(s.timeline, state.cursor + 1)
  {
    var c := state.cursor;
    assert log[c..c + 1] == [log[c]];
    var after := Merged(state.timeline, [log[c]]);
    MergeOfCovered(state.timeline, [log[c]], log, lo, c, c, c + 1);
    assert after[|after| - 1] == log[c];
  }
}
