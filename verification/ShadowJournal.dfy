/** The screen that pages through a shadow run's journal. Follows `emptyJournal`, `withPage` and
    `withRunPage` of frontend/src/domain/shadow.ts, with `openRun` and `loadMore` of
    frontend/src/screens/Shadow.tsx and the page the server cuts in
    backend/app/adapters/persistence/shadow_store.py. */
module ShadowJournal {
  import opened Wrappers
  import opened Sorting

  const JOURNAL_PAGE := 50
  const MAX_HELD_ENTRIES := 500
  const MAX_HELD_RUNS := 200

  datatype Entry = Entry(sequence: int, text: string)

  datatype Page = Page(runId: string, items: seq<Entry>, total: nat, nextAfter: Option<int>)

  datatype Held = Held(
    runId: string, ticket: nat, entries: seq<Entry>, total: nat, nextAfter: Option<int>, capped: bool)

  function Sequence(): Entry -> int {
    (e: Entry) => e.sequence
  }

  // ---------------------------------------------------------------- the source's functions

  function EmptyJournal(runId: string, ticket: nat): Held {
    Held(runId, ticket, [], 0, Some(0), false)
  }

  function Unknown(known: set<int>): Entry -> bool {
    (e: Entry) => e.sequence !in known
  }

  function Sequences(entries: seq<Entry>): set<int> {
    set e | e in entries :: e.sequence
  }

  /** What is held once a page has been merged into `merged`. */
  function Merged(held: Held, page: Page, merged: seq<Entry>): Held {
    var capped := |merged| >= MAX_HELD_ENTRIES;
    var exhausted := page.items == [] || page.nextAfter.None?;
    held.(entries := if capped then merged[..MAX_HELD_ENTRIES] else merged,
          total := page.total,
          nextAfter := if capped || exhausted then None else page.nextAfter,
          capped := capped)
  }

  function WithPage(held: Held, page: Page, runId: string, ticket: nat): Held {
    if runId != held.runId || ticket != held.ticket || page.runId != held.runId then held
    else
      var added := Filter(Unknown(Sequences(held.entries)), page.items);
      Merged(held, page, SortBy(Sequence(), held.entries + added))
  }

  /** The server's page: the next entries after a sequence, at most a page of them. */
  function NewerThan(after: int): Entry -> bool {
    (e: Entry) => e.sequence > after
  }

  function Upto<T>(xs: seq<T>, n: nat): seq<T> {
    if |xs| > n then xs[..n] else xs
  }

  function ServerPage(runId: string, journal: seq<Entry>, after: int): Page {
    var items := Upto(Filter(NewerThan(after), journal), JOURNAL_PAGE);
    Page(runId, items, |journal|, if items == [] then None else Some(items[|items| - 1].sequence))
  }

  // ---------------------------------------------------------------- pages of a growing journal

  /** Entries are numbered upwards from one and only ever appended. */
  ghost predicate IsJournal(j: seq<Entry>) {
    Increasing(Sequence(), j) && forall e | e in j :: e.sequence >= 1
  }

  /** `after` is where a page can be asked for: the start, or an entry of the first `n`. */
  ghost predicate IsPlace(j: seq<Entry>, n: nat, after: int) {
    after == 0 || exists m :: 0 <= m < n && m < |j| && j[m].sequence == after
  }

  lemma PlaceIndex(j: seq<Entry>, n: nat, after: int) returns (m: nat)
    requires IsJournal(j) && n <= |j| && IsPlace(j, n, after)
    ensures m <= n && Filter(NewerThan(after), j) == j[m..]
  {
    if after == 0 {
      m := 0;
      FilterAll(NewerThan(after), j);
      assert j[0..] == j;
    } else {
      var k :| 0 <= k < n && k < |j| && j[k].sequence == after;
      m := k + 1;
      NewerOfRising(j, m, after);
    }
  }

  lemma NewerOfRising(j: seq<Entry>, m: nat, after: int)
    requires IsJournal(j) && 0 < m <= |j| && j[m - 1].sequence == after
    ensures Filter(NewerThan(after), j) == j[m..]
  {
    var seen, rest := j[..m], j[m..];
    assert j == seen + rest;
    FilterAppend(NewerThan(after), seen, rest);
    forall e | e in seen ensures e.sequence <= after {
      var i :| 0 <= i < m && j[i] == e;
      assert i < m - 1 ==> Sequence()(j[i]) < Sequence()(j[m - 1]);
    }
    forall e | e in rest ensures e.sequence > after {
      var i :| 0 <= i < |rest| && rest[i] == e;
      assert Sequence()(j[m - 1]) < Sequence()(j[m + i]);
    }
    FilterNone(NewerThan(after), seen);
    FilterAll(NewerThan(after), rest);
  }

  lemma FreshOfSlice(j: seq<Entry>, n: nat, m: nat, k: nat)
    requires IsJournal(j) && m <= n <= |j| && m <= k <= |j|
    ensures Filter(Unknown(Sequences(j[..n])), j[m..k]) == if k <= n then [] else j[n..k]
  {
    var known := Sequences(j[..n]);
    if k <= n {
      KnownSlice(j, n, m, k);
      FilterNone(Unknown(known), j[m..k]);
    } else {
      assert j[m..k] == j[m..n] + j[n..k];
      FilterAppend(Unknown(known), j[m..n], j[n..k]);
      KnownSlice(j, n, m, n);
      FilterNone(Unknown(known), j[m..n]);
      UnknownSlice(j, n, k);
      FilterAll(Unknown(known), j[n..k]);
      assert [] + j[n..k] == j[n..k];
    }
  }

  lemma KnownSlice(j: seq<Entry>, n: nat, m: nat, k: nat)
    requires m <= k <= n <= |j|
    ensures forall e | e in j[m..k] :: e.sequence in Sequences(j[..n])
  {
    forall e | e in j[m..k] ensures e.sequence in Sequences(j[..n]) {
      var i :| 0 <= i < k - m && j[m..k][i] == e;
      assert j[..n][m + i] == e;
    }
  }

  lemma UnknownSlice(j: seq<Entry>, n: nat, k: nat)
    requires IsJournal(j) && n <= k <= |j|
    ensures forall e | e in j[n..k] :: e.sequence !in Sequences(j[..n])
  {
    forall e, f | e in j[n..k] && f in j[..n] ensures e.sequence != f.sequence {
      var i :| 0 <= i < k - n && j[n..k][i] == e;
      var h :| 0 <= h < n && j[..n][h] == f;
      assert Sequence()(j[h]) < Sequence()(j[n + i]);
    }
  }

  lemma PrefixIsSorted(j: seq<Entry>, n: nat)
    requires IsJournal(j) && n <= |j|
    ensures SortBy(Sequence(), j[..n]) == j[..n]
  {
    forall a, b | 0 <= a < b < n ensures Sequence()(j[..n][a]) <= Sequence()(j[..n][b]) {
      assert Sequence()(j[a]) < Sequence()(j[b]);
    }
    SortOfOrdered(Sequence(), j[..n]);
  }

  // ---------------------------------------------------------------- one page

  /** What is held is the first `n` entries of the journal, at most 500 of them, and the next page
      will be asked for at a place among them. */
  ghost predicate HoldsPrefix(held: Held, j: seq<Entry>) {
    && |held.entries| <= 500 && held.entries <= j
    && (held.nextAfter.Some? ==> IsPlace(j, |held.entries|, held.nextAfter.value))
  }

  function Min(a: nat, b: nat): nat {
    if a <= b then a else b
  }

  /** What `held` becomes by a page of the journal from its `m`-th entry up to its `k`-th. */
  ghost predicate ExtendedFrom(held: Held, r: Held, j: seq<Entry>, m: nat, k: nat) {
    var n := |held.entries|;
    && r.runId == held.runId && r.ticket == held.ticket
    && n <= |j| && m <= k <= |j| && r.entries == j[..Min(500, if k <= n then n else k)]
    && r.nextAfter == if |r.entries| == 500 || k == m then None else Some(j[k - 1].sequence)
  }

  /** A page asked for at a place of the held prefix, cut from the journal as it was whenever the
      server got to it, and delivered however late, extends the prefix or changes nothing. */
  lemma PageExtendsPrefix(held: Held, j: seq<Entry>, cut: seq<Entry>, after: int, m: nat)
    requires IsJournal(j) && cut <= j && |held.entries| <= 500 && held.entries <= j
    requires m <= |held.entries| && m <= |cut| && Filter(NewerThan(after), cut) == cut[m..]
    ensures ExtendedFrom(held, WithPage(held, ServerPage(held.runId, cut, after), held.runId, held.ticket), j,
                         m, Min(|cut|, m + 50))
  {
    var k := Min(|cut|, m + 50);
    PageItems(held.runId, cut, after, m, k);
    PrefixSlices(cut, j, m, k);
    PageExtends(held, ServerPage(held.runId, cut, after), j, m, k);
  }

  lemma PrefixSlices(cut: seq<Entry>, j: seq<Entry>, m: nat, k: nat)
    requires cut <= j && m <= k <= |cut|
    ensures cut[m..k] == j[m..k] && (k > 0 ==> cut[k - 1] == j[k - 1])
  {
  }

  lemma PageExtends(held: Held, page: Page, j: seq<Entry>, m: nat, k: nat)
    requires IsJournal(j) && |held.entries| <= 500 && held.entries <= j
    requires m <= |held.entries| && m <= k <= |j| && page.runId == held.runId
    requires page.items == j[m..k] && page.nextAfter == if k == m then None else Some(j[k - 1].sequence)
    ensures ExtendedFrom(held, WithPage(held, page, held.runId, held.ticket), j, m, k)
  {
    PageMerges(held, page, j, m, k);
    MergedIsExtended(held, page, j, m, k);
  }

  lemma MergedIsExtended(held: Held, page: Page, j: seq<Entry>, m: nat, k: nat)
    requires |held.entries| <= 500 && |held.entries| <= |j| && m <= |held.entries| && m <= k <= |j|
    requires page.items == j[m..k] && page.nextAfter == if k == m then None else Some(j[k - 1].sequence)
    ensures var top := if k <= |held.entries| then |held.entries| else k;
            ExtendedFrom(held, Merged(held, page, j[..top]), j, m, k)
  {
    CutPrefix(j, if k <= |held.entries| then |held.entries| else k);
  }

  lemma PageMerges(held: Held, page: Page, j: seq<Entry>, m: nat, k: nat)
    requires IsJournal(j) && held.entries <= j && m <= |held.entries| && m <= k <= |j|
    requires page.runId == held.runId && page.items == j[m..k]
    ensures var top := if k <= |held.entries| then |held.entries| else k;
            WithPage(held, page, held.runId, held.ticket) == Merged(held, page, j[..top])
  {
    assert held.entries == j[..|held.entries|];
    MergedIsPrefix(j, |held.entries|, m, k);
  }

  lemma MergedIsPrefix(j: seq<Entry>, n: nat, m: nat, k: nat)
    requires IsJournal(j) && m <= n <= |j| && m <= k <= |j|
    ensures SortBy(Sequence(), j[..n] + Filter(Unknown(Sequences(j[..n])), j[m..k])) == j[..if k <= n then n else k]
  {
    FreshOfSlice(j, n, m, k);
    var top := if k <= n then n else k;
    assert j[..n] + (if k <= n then [] else j[n..k]) == j[..top];
    PrefixIsSorted(j, top);
  }

  lemma CutPrefix(j: seq<Entry>, top: nat)
    requires top <= |j|
    ensures (if |j[..top]| >= 500 then j[..top][..500] else j[..top])
            == j[..Min(500, top)]
  {
  }

  lemma PageItems(runId: string, j: seq<Entry>, after: int, m: nat, k: nat)
    requires m <= |j| && k == Min(|j|, m + 50) && Filter(NewerThan(after), j) == j[m..]
    ensures var page := ServerPage(runId, j, after);
            page.items == j[m..k] && page.nextAfter == if k == m then None else Some(j[k - 1].sequence)
  {
    assert |j| - m > 50 ==> j[m..][..50] == j[m..k];
    assert |j| - m <= 50 ==> j[m..] == j[m..k];
  }

  lemma PrefixIsJournal(cut: seq<Entry>, j: seq<Entry>)
    requires IsJournal(j) && cut <= j
    ensures IsJournal(cut)
  {
    forall a, b | 0 <= a < b < |cut| ensures Sequence()(cut[a]) < Sequence()(cut[b]) {
      assert Sequence()(j[a]) < Sequence()(j[b]);
    }
    forall e | e in cut ensures e.sequence >= 1 {
      assert e in j;
    }
  }

  lemma PlaceInCut(cut: seq<Entry>, j: seq<Entry>, n: nat, after: int)
    requires cut <= j && IsPlace(j, n, after) && n <= |cut|
    ensures IsPlace(cut, n, after)
  {
    if after != 0 {
      var m :| 0 <= m < n && m < |j| && j[m].sequence == after;
      assert cut[m].sequence == after;
    }
  }

  /** The page may be cut from a journal shorter than what is held by the time it is delivered. */
  lemma PageKeepsPrefix(held: Held, j: seq<Entry>, cut: seq<Entry>, after: int)
    requires IsJournal(j) && cut <= j && HoldsPrefix(held, j) && IsPlace(j, Min(|held.entries|, |cut|), after)
    ensures var r := WithPage(held, ServerPage(held.runId, cut, after), held.runId, held.ticket);
            HoldsPrefix(r, j) && |r.entries| >= |held.entries| && r.runId == held.runId && r.ticket == held.ticket
  {
    var n := Min(|held.entries|, |cut|);
    PrefixIsJournal(cut, j);
    PlaceInCut(cut, j, n, after);
    var m := PlaceIndex(cut, n, after);
    PageExtendsPrefix(held, j, cut, after, m);
    ExtendedHoldsPrefix(held, WithPage(held, ServerPage(held.runId, cut, after), held.runId, held.ticket), j,
                        m, Min(|cut|, m + 50));
  }

  /** Whatever was delivered, the screen reports how long the journal was when the page was cut, and
      that it is full exactly when it holds 500 entries. */
  lemma PageReports(held: Held, cut: seq<Entry>, after: int)
    ensures var r := WithPage(held, ServerPage(held.runId, cut, after), held.runId, held.ticket);
            r.total == |cut| && (r.capped <==> |r.entries| == 500)
  {
  }

  /** Any page for what is held, however it came about: its own entries not held before are all there is
      to add, in the order of their sequence; where to go on is what it says, unless it brought nothing or
      no more is held. A page of another run, or for another ticket, changes nothing. */
  lemma AnyPageIs(held: Held, page: Page, runId: string, ticket: nat)
    requires |held.entries| <= 500
    ensures var r := WithPage(held, page, runId, ticket);
            if runId != held.runId || ticket != held.ticket || page.runId != held.runId then r == held
            else
              && r.runId == held.runId && r.ticket == held.ticket && r.total == page.total
              && |r.entries| <= 500 && (r.capped <==> |r.entries| == 500)
              && Ordered(Sequence(), r.entries)
              && (forall e | e in r.entries :: e in held.entries || e in page.items)
              && (!r.capped ==> (forall e | e in held.entries :: e in r.entries)
                                && forall e | e in page.items :: exists x :: x in r.entries && x.sequence == e.sequence)
              && r.nextAfter == if r.capped || page.items == [] then None else page.nextAfter
  {
    var added := Filter(Unknown(Sequences(held.entries)), page.items);
    var all := held.entries + added;
    SortMembers(Sequence(), all);
    SortOrders(Sequence(), all);
    forall e ensures e in added <==> e in page.items && Unknown(Sequences(held.entries))(e) {
      FilterMembers(Unknown(Sequences(held.entries)), page.items, e);
    }
    var sorted := SortBy(Sequence(), all);
    assert |sorted| >= 500 ==> forall e | e in sorted[..500] :: e in sorted;
    forall e | e in page.items ensures exists x :: x in sorted && x.sequence == e.sequence {
      if e.sequence in Sequences(held.entries) {
        var x :| x in held.entries && x.sequence == e.sequence;
        assert x in all;
      } else {
        assert e in all;
      }
    }
  }

  lemma ExtendedHoldsPrefix(held: Held, r: Held, j: seq<Entry>, m: nat, k: nat)
    requires |held.entries| <= 500 && m <= |held.entries| && ExtendedFrom(held, r, j, m, k)
    ensures HoldsPrefix(r, j) && |r.entries| >= |held.entries|
  {
  }

  // ---------------------------------------------------------------- every interleaving

  /** `cut` is the journal the server has cut the page from, once it has. */
  datatype Request = Request(
    runId: string, ticket: nat, after: int, opening: bool, pending: bool, cut: Option<seq<Entry>>)

  /** `journals` are the server's; `held` is what the screen shows, if anything. */
  datatype State = State(journals: map<string, seq<Entry>>, generation: nat, held: Option<Held>, requests: seq<Request>)

  datatype Event =
    | Record(runId: string, entry: Entry)   // the server appends to a run's journal
    | OpenRun(runId: string)                // the person chooses a run: its first page is asked for
    | CloseRun                              // the person goes back to the list
    | LoadMore                              // the next page of what is held is asked for
    | Serve(request: nat)                   // the server cuts the page
    | Answer(request: nat)                  // and it arrives, however late and whatever came before it

  function JournalOf(s: State, runId: string): seq<Entry> {
    if runId in s.journals then s.journals[runId] else []
  }

  predicate Follows(j: seq<Entry>, entry: Entry) {
    entry.sequence >= 1 && (j == [] || j[|j| - 1].sequence < entry.sequence)
  }

  function Handle(s: State, event: Event): State {
    match event
    case Record(runId, entry) =>
      if !Follows(JournalOf(s, runId), entry) then s
      else s.(journals := s.journals[runId := JournalOf(s, runId) + [entry]])
    case OpenRun(runId) =>
      s.(generation := s.generation + 1,
         requests := s.requests + [Request(runId, s.generation + 1, 0, true, true, None)])
    case CloseRun => s.(generation := s.generation + 1, held := None)
    case LoadMore =>
      if s.held.None? || s.held.value.nextAfter.None? then s
      else
        var held := s.held.value;
        s.(requests := s.requests + [Request(held.runId, held.ticket, held.nextAfter.value, false, true, None)])
    case Serve(i) =>
      if i >= |s.requests| || s.requests[i].cut.Some? then s
      else s.(requests := s.requests[i := s.requests[i].(cut := Some(JournalOf(s, s.requests[i].runId)))])
    case Answer(i) =>
      if i >= |s.requests| || !s.requests[i].pending || s.requests[i].cut.None? then s
      else Answered(s.(requests := s.requests[i := s.requests[i].(pending := false)]), s.requests[i])
  }

  /** The callbacks' own guards: `openRun` compares its ticket, `loadMore` leaves it to `withPage`. */
  function Answered(s: State, r: Request): State
    requires r.cut.Some?
  {
    var page := ServerPage(r.runId, r.cut.value, r.after);
    if r.opening then
      if r.ticket != s.generation then s
      else s.(held := Some(WithPage(EmptyJournal(r.runId, r.ticket), page, r.runId, r.ticket)))
    else if s.held.None? then s
    else s.(held := Some(WithPage(s.held.value, page, r.runId, r.ticket)))
  }

  function Run(s: State, events: seq<Event>): State {
    if events == [] then s else Handle(Run(s, events[..|events| - 1]), events[|events| - 1])
  }

  const START := State(map[], 0, None, [])

  ghost predicate JournalsGood(s: State) {
    forall id :: IsJournal(JournalOf(s, id))
  }

  ghost predicate HeldGood(s: State) {
    s.held.Some? ==> s.held.value.ticket <= s.generation && HoldsPrefix(s.held.value, JournalOf(s, s.held.value.runId))
  }

  /** Openings have a ticket each, and until one is answered nothing is held or asked under it. */
  ghost predicate OpeningsGood(s: State) {
    && (forall i | 0 <= i < |s.requests| ::
          s.requests[i].ticket <= s.generation && (s.requests[i].opening ==> s.requests[i].after == 0))
    && (forall i, k | 0 <= i < |s.requests| && 0 <= k < |s.requests| && i != k && s.requests[i].opening
                      && s.requests[i].ticket == s.requests[k].ticket ::
          !s.requests[k].opening && !s.requests[i].pending)
    && (s.held.Some? ==>
          forall i | 0 <= i < |s.requests| && s.requests[i].opening && s.requests[i].pending ::
            s.held.value.ticket != s.requests[i].ticket)
  }

  /** What was asked for under the ticket of what is held, was asked for at a place within it. */
  ghost predicate PlacesGood(s: State) {
    s.held.Some? ==>
      forall i | 0 <= i < |s.requests| && s.requests[i].ticket == s.held.value.ticket && !s.requests[i].opening ::
        && s.requests[i].runId == s.held.value.runId
        && IsPlace(JournalOf(s, s.held.value.runId), |s.held.value.entries|, s.requests[i].after)
        && (s.requests[i].cut.Some? ==>
              IsPlace(JournalOf(s, s.held.value.runId), Min(|s.held.value.entries|, |s.requests[i].cut.value|),
                      s.requests[i].after))
  }

  /** Pages are cut from what the journal was. */
  ghost predicate CutsGood(s: State) {
    forall i | 0 <= i < |s.requests| && s.requests[i].cut.Some? ::
      s.requests[i].cut.value <= JournalOf(s, s.requests[i].runId)
  }

  ghost predicate Good(s: State) {
    JournalsGood(s) && HeldGood(s) && OpeningsGood(s) && PlacesGood(s) && CutsGood(s)
  }

  lemma AppendedIsJournal(j: seq<Entry>, entry: Entry)
    requires IsJournal(j) && Follows(j, entry)
    ensures IsJournal(j + [entry])
  {
    var all := j + [entry];
    forall a, b | 0 <= a < b < |all| ensures Sequence()(all[a]) < Sequence()(all[b]) {
      if b == |j| && a < |j| - 1 {
        assert Sequence()(j[a]) < Sequence()(j[|j| - 1]);
      } else if b < |j| {
        assert Sequence()(j[a]) < Sequence()(j[b]);
      }
    }
  }

  lemma PlaceStays(j: seq<Entry>, j': seq<Entry>, n: nat, n': nat, after: int)
    requires IsPlace(j, n, after) && j <= j' && n <= n'
    ensures IsPlace(j', n', after)
  {
    if after != 0 {
      var m :| 0 <= m < n && m < |j| && j[m].sequence == after;
      assert j'[m].sequence == after;
    }
  }

  lemma RecordIsGood(s: State, runId: string, entry: Entry)
    requires Good(s)
    ensures Good(Handle(s, Record(runId, entry)))
  {
    var r := Handle(s, Record(runId, entry));
    if Follows(JournalOf(s, runId), entry) {
      AppendedIsJournal(JournalOf(s, runId), entry);
      forall id ensures JournalOf(s, id) <= JournalOf(r, id) && IsJournal(JournalOf(r, id)) {}
      if s.held.Some? {
        var j, j', n := JournalOf(s, s.held.value.runId), JournalOf(r, s.held.value.runId), |s.held.value.entries|;
        if s.held.value.nextAfter.Some? {
          PlaceStays(j, j', n, n, s.held.value.nextAfter.value);
        }
        forall i | 0 <= i < |s.requests| && s.requests[i].ticket == s.held.value.ticket && !s.requests[i].opening
          ensures IsPlace(j', n, s.requests[i].after)
          ensures s.requests[i].cut.Some? ==> IsPlace(j', Min(n, |s.requests[i].cut.value|), s.requests[i].after)
        {
          PlaceStays(j, j', n, n, s.requests[i].after);
          if s.requests[i].cut.Some? {
            var k := Min(n, |s.requests[i].cut.value|);
            PlaceStays(j, j', k, k, s.requests[i].after);
          }
        }
      }
    }
  }

  lemma AskedIsGood(s: State, r: State, request: Request)
    requires Good(s) && s.generation <= r.generation
    requires r == s.(requests := s.requests + [request], generation := r.generation)
    requires request.ticket <= r.generation && (request.opening ==> request.after == 0) && request.cut.None?
    requires request.opening ==> request.ticket > s.generation
    requires !request.opening ==>
               && s.held.Some? && request.ticket == s.held.value.ticket && request.runId == s.held.value.runId
               && IsPlace(JournalOf(s, s.held.value.runId), |s.held.value.entries|, request.after)
    ensures Good(r)
  {
    var n := |s.requests|;
    forall i | 0 <= i < n ensures r.requests[i] == s.requests[i] && s.requests[i].ticket <= s.generation {}
    assert r.requests[n] == request;
    assert forall id :: JournalOf(r, id) == JournalOf(s, id);
    assert OpeningsGood(r);
    assert PlacesGood(r);
  }

  lemma OpenIsGood(s: State, runId: string)
    requires Good(s)
    ensures Good(Handle(s, OpenRun(runId)))
  {
    AskedIsGood(s, Handle(s, OpenRun(runId)), Request(runId, s.generation + 1, 0, true, true, None));
  }

  lemma CloseIsGood(s: State)
    requires Good(s)
    ensures Good(Handle(s, CloseRun))
  {
    var r := Handle(s, CloseRun);
    assert forall id :: JournalOf(r, id) == JournalOf(s, id);
  }

  lemma LoadMoreIsGood(s: State)
    requires Good(s)
    ensures Good(Handle(s, LoadMore))
  {
    if s.held.Some? && s.held.value.nextAfter.Some? {
      var held := s.held.value;
      AskedIsGood(s, Handle(s, LoadMore), Request(held.runId, held.ticket, held.nextAfter.value, false, true, None));
    }
  }

  lemma MarkedIsGood(s: State, i: nat)
    requires Good(s) && i < |s.requests|
    ensures Good(s.(requests := s.requests[i := s.requests[i].(pending := false)]))
  {
    var r := s.(requests := s.requests[i := s.requests[i].(pending := false)]);
    forall k | 0 <= k < |s.requests|
      ensures r.requests[k].(pending := true) == s.requests[k].(pending := true)
              && (r.requests[k].pending ==> s.requests[k].pending)
    {}
    assert forall id :: JournalOf(r, id) == JournalOf(s, id);
    assert OpeningsGood(r);
    assert PlacesGood(r);
  }

  /** The first page of a run, under a ticket nothing else has: nothing was held or asked under it. */
  lemma OpeningAnsweredIsGood(s: State, r: Request)
    requires Good(s) && r.opening && r.after == 0 && r.cut.Some? && r.cut.value <= JournalOf(s, r.runId)
    requires forall k | 0 <= k < |s.requests| && s.requests[k].ticket == r.ticket ::
               s.requests[k].opening && !s.requests[k].pending
    ensures Good(Answered(s, r))
  {
    var after := Answered(s, r);
    var start := EmptyJournal(r.runId, r.ticket);
    PageKeepsPrefix(start, JournalOf(s, r.runId), r.cut.value, 0);
    if r.ticket == s.generation {
      assert after.held.Some? && after.held.value.ticket == r.ticket && after.held.value.runId == r.runId;
      assert forall id :: JournalOf(after, id) == JournalOf(s, id);
      assert OpeningsGood(after);
      assert PlacesGood(after);
    }
  }

  lemma PageAnsweredIsGood(s: State, i: nat)
    requires Good(s) && i < |s.requests| && !s.requests[i].opening && s.requests[i].cut.Some?
    ensures Good(Answered(s, s.requests[i]))
  {
    var r := s.requests[i];
    if s.held.Some? {
      var held := s.held.value;
      var after := Answered(s, r);
      assert forall id :: JournalOf(after, id) == JournalOf(s, id);
      if held.ticket == r.ticket {
        var j := JournalOf(s, held.runId);
        PageKeepsPrefix(held, j, r.cut.value, r.after);
        var n, n' := |held.entries|, |after.held.value.entries|;
        forall k | 0 <= k < |s.requests| && s.requests[k].ticket == held.ticket && !s.requests[k].opening
          ensures IsPlace(j, n', s.requests[k].after)
          ensures s.requests[k].cut.Some? ==> IsPlace(j, Min(n', |s.requests[k].cut.value|), s.requests[k].after)
        {
          PlaceStays(j, j, n, n', s.requests[k].after);
          if s.requests[k].cut.Some? {
            var cut := |s.requests[k].cut.value|;
            PlaceStays(j, j, Min(n, cut), Min(n', cut), s.requests[k].after);
          }
        }
      } else {
        assert after.held == s.held;
      }
    }
  }

  lemma ServeIsGood(s: State, i: nat)
    requires Good(s)
    ensures Good(Handle(s, Serve(i)))
  {
    var r := Handle(s, Serve(i));
    assert forall id :: JournalOf(r, id) == JournalOf(s, id);
    assert |r.requests| == |s.requests|;
    forall k | 0 <= k < |s.requests|
      ensures r.requests[k].(cut := None) == s.requests[k].(cut := None)
      ensures k != i ==> r.requests[k] == s.requests[k]
    {}
    assert OpeningsGood(r);
    assert CutsGood(r);
    assert PlacesGood(r);
  }

  lemma AnswerIsGood(s: State, i: nat)
    requires Good(s)
    ensures Good(Handle(s, Answer(i)))
  {
    if i < |s.requests| && s.requests[i].pending && s.requests[i].cut.Some? {
      var marked := s.(requests := s.requests[i := s.requests[i].(pending := false)]);
      var r := s.requests[i];
      MarkedIsGood(s, i);
      if r.opening {
        forall k | 0 <= k < |marked.requests| && marked.requests[k].ticket == r.ticket
          ensures marked.requests[k].opening && !marked.requests[k].pending
        {
          assert marked.requests[k].ticket == s.requests[k].ticket;
          assert k == i;
        }
        OpeningAnsweredIsGood(marked, r);
      } else {
        PageAnsweredIsGood(marked, i);
        SameAnswer(marked, r);
      }
    }
  }

  /** Whether a request is still marked as pending is nothing its answer looks at. */
  lemma SameAnswer(s: State, r: Request)
    requires r.cut.Some?
    ensures Answered(s, r) == Answered(s, r.(pending := false))
  {
  }

  lemma {:induction false} EveryRunIsGood(events: seq<Event>)
    ensures Good(Run(START, events))
  {
    if events != [] {
      var before, event := events[..|events| - 1], events[|events| - 1];
      EveryRunIsGood(before);
      match event
      case Record(runId, entry) => RecordIsGood(Run(START, before), runId, entry);
      case OpenRun(runId) => OpenIsGood(Run(START, before), runId);
      case CloseRun => CloseIsGood(Run(START, before));
      case LoadMore => LoadMoreIsGood(Run(START, before));
      case Serve(i) => ServeIsGood(Run(START, before), i);
      case Answer(i) => AnswerIsGood(Run(START, before), i);
    }
  }

  /** Whatever is recorded, opened, asked for, cut and answered, in whatever order and however late,
      what is held is the first entries of its own run's journal - no other run's, none missing,
      none twice - and never more than 500 of them. */
  lemma HeldIsAlwaysAPrefix(events: seq<Event>)
    ensures var s := Run(START, events);
            s.held.Some? ==> s.held.value.entries <= JournalOf(s, s.held.value.runId) && |s.held.value.entries| <= 500
  {
    EveryRunIsGood(events);
  }

  /** Nothing is shown, and no opening still under way would be. */
  ghost predicate Closed(s: State) {
    && s.held.None?
    && forall i | 0 <= i < |s.requests| && s.requests[i].opening :: s.requests[i].ticket != s.generation
  }

  /** A run that was closed is not shown again, whatever was still on its way: until a run is
      opened, nothing is. */
  lemma {:induction false} ClosedStaysClosed(before: seq<Event>, after: seq<Event>)
    requires forall k | 0 <= k < |after| :: !after[k].OpenRun?
    ensures Closed(Run(START, before + [CloseRun] + after))
  {
    var events := before + [CloseRun] + after;
    if after == [] {
      assert events[..|events| - 1] == before && events[|events| - 1] == CloseRun;
      EveryRunIsGood(before);
    } else {
      var earlier := after[..|after| - 1];
      ClosedStaysClosed(before, earlier);
      assert events[..|events| - 1] == before + [CloseRun] + earlier;
      assert events[|events| - 1] == after[|after| - 1];
      EveryRunIsGood(before + [CloseRun] + earlier);
      ClosedStep(Run(START, before + [CloseRun] + earlier), after[|after| - 1]);
    }
  }

  lemma ClosedStep(s: State, event: Event)
    requires Closed(s) && !event.OpenRun?
    requires forall i | 0 <= i < |s.requests| :: s.requests[i].ticket <= s.generation
    ensures Closed(Handle(s, event))
  {
  }

  // ---------------------------------------------------------------- what is asked for, and shown

  /** What the person asks for and the server does: choosing a run asks for its first page under a new
      ticket and leaves what is shown until it comes; the next page is asked for, for what is held,
      where its last page said; going back outdates both and shows nothing. */
  lemma AskingIs(s: State, event: Event)
    requires event.OpenRun? || event.CloseRun? || event.LoadMore? || event.Serve?
    ensures var r := Handle(s, event);
            && r.journals == s.journals
            && r.held == (if event.CloseRun? then None else s.held)
            && r.generation == s.generation + (if event.OpenRun? || event.CloseRun? then 1 else 0)
            && match event {
                 case OpenRun(runId) =>
                   r.requests == s.requests + [Request(runId, s.generation + 1, 0, true, true, None)]
                 case LoadMore =>
                   r.requests == s.requests
                     + (if s.held.Some? && s.held.value.nextAfter.Some?
                        then [Request(s.held.value.runId, s.held.value.ticket, s.held.value.nextAfter.value, false,
                                      true, None)]
                        else [])
                 case Serve(i) =>
                   if i < |s.requests| && s.requests[i].cut.None? then
                     r.requests == s.requests[i := s.requests[i].(cut := Some(JournalOf(s, s.requests[i].runId)))]
                   else r.requests == s.requests
                 case _ => r.requests == s.requests
               }
  {
    assert s.requests + [] == s.requests;
  }

  /** An entry that follows a journal's last is appended to that journal, and nothing else changes. */
  lemma RecordingIs(s: State, runId: string, entry: Entry)
    ensures var r, j := Handle(s, Record(runId, entry)), JournalOf(s, runId);
            && r.held == s.held && r.requests == s.requests && r.generation == s.generation
            && (forall id | id != runId :: JournalOf(r, id) == JournalOf(s, id))
            && var follows := entry.sequence >= 1 && (j != [] ==> j[|j| - 1].sequence < entry.sequence);
               JournalOf(r, runId) == if follows then j + [entry] else j
  {
  }

  /** The first page of the run chosen last is shown: up to 50 entries, and where to go on from. */
  lemma OpeningIsShown(s: State, i: nat, cut: seq<Entry>)
    requires i < |s.requests| && IsJournal(cut)
    requires s.requests[i] == Request(s.requests[i].runId, s.generation, 0, true, true, Some(cut))
    ensures var q, r, n := s.requests[i], Handle(s, Answer(i)), Min(50, |cut|);
            && r == s.(requests := s.requests[i := q.(pending := false)], held := r.held)
            && r.held == Some(Held(q.runId, s.generation, cut[..n], |cut|,
                                   if n == 0 then None else Some(cut[n - 1].sequence), false))
  {
    var q := s.requests[i];
    var start := EmptyJournal(q.runId, q.ticket);
    FilterAll(NewerThan(0), cut);
    assert cut[0..] == cut;
    PageExtendsPrefix(start, cut, cut, 0, 0);
    PageReports(start, cut, 0);
  }

  lemma PageIsTaken(s: State, i: nat, held: Held, cut: seq<Entry>)
    requires s.held == Some(held) && i < |s.requests|
    requires var q := s.requests[i]; q == Request(held.runId, held.ticket, q.after, false, true, Some(cut))
    ensures var q := s.requests[i];
            Handle(s, Answer(i)) ==
            s.(requests := s.requests[i := q.(pending := false)],
               held := Some(WithPage(held, ServerPage(held.runId, cut, q.after), held.runId, held.ticket)))
  {
  }

  lemma PlaceOf(s: State, i: nat, held: Held, cut: seq<Entry>) returns (m: nat)
    requires Good(s) && s.held == Some(held) && i < |s.requests|
    requires var q := s.requests[i]; q == Request(held.runId, held.ticket, q.after, false, true, Some(cut))
    ensures IsJournal(JournalOf(s, held.runId)) && cut <= JournalOf(s, held.runId)
    ensures |held.entries| <= 500 && held.entries <= JournalOf(s, held.runId)
    ensures m <= |held.entries| && m <= |cut| && Filter(NewerThan(s.requests[i].after), cut) == cut[m..]
  {
    var q, j, n := s.requests[i], JournalOf(s, held.runId), Min(|held.entries|, |cut|);
    PrefixIsJournal(cut, j);
    PlaceInCut(cut, j, n, q.after);
    m := PlaceIndex(cut, n, q.after);
  }

  /** A later page of what is held, asked for at a place of it, is added to it: from where it goes on, up
      to 50 entries further, up to 500 in all. */
  lemma PageIsShown(s: State, i: nat, held: Held, cut: seq<Entry>) returns (m: nat)
    requires Good(s) && s.held == Some(held) && i < |s.requests|
    requires var q := s.requests[i]; q == Request(held.runId, held.ticket, q.after, false, true, Some(cut))
    ensures m <= |cut| && Filter(NewerThan(s.requests[i].after), cut) == cut[m..]
    ensures var q, r := s.requests[i], Handle(s, Answer(i));
            && r == s.(requests := s.requests[i := q.(pending := false)], held := r.held) && r.held.Some?
            && ExtendedFrom(held, r.held.value, JournalOf(s, held.runId), m, Min(|cut|, m + 50))
            && r.held.value.total == |cut|
  {
    m := PlaceOf(s, i, held, cut);
    PageIsTaken(s, i, held, cut);
    PageExtendsPrefix(held, JournalOf(s, held.runId), cut, s.requests[i].after, m);
    PageReports(held, cut, s.requests[i].after);
  }

  /** An answer for another run or under another ticket changes nothing that is shown. */
  lemma OutdatedAnswersShowNothing(s: State, i: nat)
    requires i < |s.requests|
    requires var q := s.requests[i];
             if q.opening then q.ticket != s.generation
             else s.held.Some? ==> q.runId != s.held.value.runId || q.ticket != s.held.value.ticket
    ensures var r := Handle(s, Answer(i));
            r.held == s.held && r.generation == s.generation && r.journals == s.journals
  {
  }

  // ---------------------------------------------------------------- loading to the end

  /** Asking for the next page, which is cut from the journal as it is by then. */
  function Loader(): (Held, seq<Entry>) -> Held {
    (held: Held, cut: seq<Entry>) =>
      if held.nextAfter.None? then held
      else WithPage(held, ServerPage(held.runId, cut, held.nextAfter.value), held.runId, held.ticket)
  }

  /** Asking again and again while there is a place to ask at; `cuts` is what the journal is each time. */
  function LoadAll(load: (Held, seq<Entry>) -> Held, held: Held, cuts: seq<seq<Entry>>): Held
    decreases |cuts|
  {
    if cuts == [] || held.nextAfter.None? then held else LoadAll(load, load(held, cuts[0]), cuts[1..])
  }

  /** The journal the last page was cut from. */
  function LastCut(
      load: (Held, seq<Entry>) -> Held, held: Held, j: seq<Entry>, cuts: seq<seq<Entry>>): seq<Entry>
    decreases |cuts|
  {
    if cuts == [] || held.nextAfter.None? then j else LastCut(load, load(held, cuts[0]), cuts[0], cuts[1..])
  }

  /** The journal grows while pages are asked for, cut and on their way. */
  ghost predicate Grows(j: seq<Entry>, cuts: seq<seq<Entry>>)
    decreases |cuts|
  {
    cuts == [] || (IsJournal(cuts[0]) && j <= cuts[0] && Grows(cuts[0], cuts[1..]))
  }

  function LastSequence(entries: seq<Entry>): int {
    if entries == [] then 0 else entries[|entries| - 1].sequence
  }

  /** The next page will be asked for right after the last entry held. */
  ghost predicate AtTheEnd(held: Held, j: seq<Entry>) {
    && |held.entries| <= 500 && held.entries <= j
    && (held.nextAfter.Some? ==>
          |held.entries| < 500 && held.nextAfter.value == LastSequence(held.entries))
  }

  /** One page further, or as far as the journal goes, or as is held at most; and that is the end if
      nothing came, or no more is held. */
  ghost predicate PageFurther(held: Held, r: Held, cut: seq<Entry>) {
    && AtTheEnd(r, cut)
    && r.entries == cut[..Min(500, Min(|cut|, |held.entries| + 50))]
    && (r.nextAfter.None? <==> |r.entries| == 500 || |held.entries| == |cut|)
  }

  ghost predicate Advances(load: (Held, seq<Entry>) -> Held) {
    forall held: Held, cut: seq<Entry> | IsJournal(cut) && AtTheEnd(held, cut) && held.nextAfter.Some? ::
      PageFurther(held, load(held, cut), cut)
  }

  lemma LoaderAdvances()
    ensures Advances(Loader())
  {
    forall held: Held, cut: seq<Entry> | IsJournal(cut) && AtTheEnd(held, cut) && held.nextAfter.Some?
      ensures PageFurther(held, Loader()(held, cut), cut)
    {
      NextPage(held, cut);
    }
  }

  lemma NextPlace(held: Held, cut: seq<Entry>)
    requires IsJournal(cut) && AtTheEnd(held, cut) && held.nextAfter.Some?
    ensures Filter(NewerThan(held.nextAfter.value), cut) == cut[|held.entries|..]
  {
    var n := |held.entries|;
    if n == 0 {
      FilterAll(NewerThan(0), cut);
      assert cut[0..] == cut;
    } else {
      assert held.entries[n - 1] == cut[n - 1];
      NewerOfRising(cut, n, held.nextAfter.value);
    }
  }

  lemma ExtendedIsFurther(held: Held, r: Held, cut: seq<Entry>)
    requires AtTheEnd(held, cut)
    requires ExtendedFrom(held, r, cut, |held.entries|, Min(|cut|, |held.entries| + 50))
    ensures PageFurther(held, r, cut)
  {
  }

  lemma NextPage(held: Held, cut: seq<Entry>)
    requires IsJournal(cut) && AtTheEnd(held, cut) && held.nextAfter.Some?
    ensures PageFurther(held, Loader()(held, cut), cut)
  {
    NextPlace(held, cut);
    PageExtendsPrefix(held, cut, cut, held.nextAfter.value, |held.entries|);
    ExtendedIsFurther(held, Loader()(held, cut), cut);
  }

  /** While the journal grows, sequential loading comes to an end - each page that is not the last
      brings an entry at least - and then holds all the journal had when the last page was cut, or
      exactly its first 500 entries. */
  lemma {:induction false} LoadingTerminates(
      load: (Held, seq<Entry>) -> Held, held: Held, j: seq<Entry>, cuts: seq<seq<Entry>>)
    requires Advances(load) && AtTheEnd(held, j) && Grows(j, cuts) && held.nextAfter.Some?
    ensures var r, last := LoadAll(load, held, cuts), LastCut(load, held, j, cuts);
            && AtTheEnd(r, last) && j <= last
            && (r.nextAfter.None? ==> r.entries == last[..Min(|last|, 500)])
            && (|held.entries| + |cuts| >= 500 ==> r.nextAfter.None?)
            && (r.nextAfter.Some? ==> |r.entries| >= |held.entries| + |cuts|)
    decreases |cuts|
  {
    if cuts != [] {
      var next := load(held, cuts[0]);
      assert PageFurther(held, next, cuts[0]);
      if next.nextAfter.Some? {
        LoadingTerminates(load, next, cuts[0], cuts[1..]);
      } else {
        assert LoadAll(load, next, cuts[1..]) == next;
      }
    }
  }

  /** The journal grows only while the reader is behind: once a page brings it up to date, the next
      one finds nothing new. */
  ghost predicate Catches(load: (Held, seq<Entry>) -> Held, held: Held, cuts: seq<seq<Entry>>)
    decreases |cuts|
  {
    |cuts| >= 2 && held.nextAfter.Some? ==>
      var next := load(held, cuts[0]);
      && (|next.entries| == |cuts[0]| ==> cuts[1] == cuts[0])
      && Catches(load, next, cuts[1..])
  }

  /** Then whole pages come until the last, so that eleven always do. */
  lemma {:induction false} PagesUntilCaughtUp(
      load: (Held, seq<Entry>) -> Held, held: Held, j: seq<Entry>, cuts: seq<seq<Entry>>)
    requires Advances(load) && AtTheEnd(held, j) && Grows(j, cuts) && held.nextAfter.Some?
    requires Catches(load, held, cuts) && cuts != []
    requires |held.entries| + (|cuts| - 1) * 50 >= 500 || |held.entries| == |cuts[0]|
    ensures LoadAll(load, held, cuts).nextAfter.None?
    decreases |cuts|
  {
    var next := load(held, cuts[0]);
    assert PageFurther(held, next, cuts[0]);
    if next.nextAfter.Some? {
      PagesUntilCaughtUp(load, next, cuts[0], cuts[1..]);
    }
  }

  lemma EmptyIsAtTheEnd(runId: string, ticket: nat)
    ensures AtTheEnd(EmptyJournal(runId, ticket), [])
  {
  }

  /** From an empty journal, eleven pages do, if the journal does not grow once the reader has caught
      up with it. */
  lemma ElevenPagesAreEnough(runId: string, ticket: nat, cuts: seq<seq<Entry>>)
    requires |cuts| == 11 && Grows([], cuts) && Catches(Loader(), EmptyJournal(runId, ticket), cuts)
    ensures var start := EmptyJournal(runId, ticket);
            var r, last := LoadAll(Loader(), start, cuts), LastCut(Loader(), start, [], cuts);
            r.nextAfter.None? && r.entries == last[..Min(|last|, 500)]
  {
    LoaderAdvances();
    EmptyIsAtTheEnd(runId, ticket);
    LoadingTerminates(Loader(), EmptyJournal(runId, ticket), [], cuts);
    PagesUntilCaughtUp(Loader(), EmptyJournal(runId, ticket), [], cuts);
  }

  /** However it grows, 500 pages do. */
  lemma FiveHundredPagesAreEnough(runId: string, ticket: nat, cuts: seq<seq<Entry>>)
    requires |cuts| == 500 && Grows([], cuts)
    ensures var start := EmptyJournal(runId, ticket);
            var r, last := LoadAll(Loader(), start, cuts), LastCut(Loader(), start, [], cuts);
            r.nextAfter.None? && r.entries == last[..Min(|last|, 500)]
  {
    LoaderAdvances();
    EmptyIsAtTheEnd(runId, ticket);
    LoadingTerminates(Loader(), EmptyJournal(runId, ticket), [], cuts);
  }

  function JournalOfLength(n: nat): seq<Entry> {
    seq(n, i => Entry(i + 1, ""))
  }

  function OneMoreEach(n: nat, clicks: nat): seq<seq<Entry>> {
    seq(clicks, i requires 0 <= i < clicks => JournalOfLength(n + 1 + i))
  }

  /** And no fewer: a journal that records one entry between each page and the next is still being
      asked for after any smaller number of them. */
  lemma {:induction false} OneAtATimeGoesOn(load: (Held, seq<Entry>) -> Held, held: Held, n: nat, clicks: nat)
    requires Advances(load) && n + clicks < 500
    requires held.entries == JournalOfLength(n) && held.nextAfter == Some(n)
    ensures var r := LoadAll(load, held, OneMoreEach(n, clicks));
            r.nextAfter.Some? && r.entries == JournalOfLength(n + clicks)
    decreases clicks
  {
    var cuts := OneMoreEach(n, clicks);
    if clicks > 0 {
      var cut := JournalOfLength(n + 1);
      var next := load(held, cut);
      assert IsJournal(cut) && held.entries <= cut;
      assert PageFurther(held, next, cut);
      assert cut[..n + 1] == cut;
      assert cuts[1..] == OneMoreEach(n + 1, clicks - 1);
      OneAtATimeGoesOn(load, next, n + 1, clicks - 1);
    }
  }

  // ---------------------------------------------------------------- the list of runs

  datatype ShadowRun = ShadowRun(runId: string, text: string)

  function RunId(): ShadowRun -> string {
    (r: ShadowRun) => r.runId
  }

  function NotHeld(known: set<string>): ShadowRun -> bool {
    (r: ShadowRun) => r.runId !in known
  }

  function WithRunPage(held: seq<ShadowRun>, page: seq<ShadowRun>): seq<ShadowRun> {
    var known := set r | r in held :: r.runId;
    Upto(held + Filter(NotHeld(known), page), MAX_HELD_RUNS)
  }

  /** The history never lists a run twice nor loses one it lists, as long as no single page
      repeats a run itself. */
  lemma RunPageAddsOnlyNewRuns(held: seq<ShadowRun>, page: seq<ShadowRun>)
    requires Unique(RunId(), held) && Unique(RunId(), page) && |held| <= 200
    ensures var r := WithRunPage(held, page);
            && Unique(RunId(), r) && |r| <= 200 && held <= r
            && (|r| < 200 ==> forall p | p in page :: exists h :: h in r && h.runId == p.runId)
  {
    var known := set r | r in held :: r.runId;
    var added := Filter(NotHeld(known), page);
    FilterUnique(RunId(), NotHeld(known), page);
    UniqueAppend(RunId(), held, added);
    forall x, y | x in held && y in added ensures RunId()(x) != RunId()(y) {
      FilterMembers(NotHeld(known), page, y);
    }
    var r := WithRunPage(held, page);
    if |r| < 200 {
      forall p | p in page ensures exists h :: h in r && h.runId == p.runId {
        FilterMembers(NotHeld(known), page, p);
      }
    }
  }

  /** New runs are listed after the old ones in the order of their page, 200 runs at most. */
  lemma NewRunsKeepTheirOrder(held: seq<ShadowRun>, page: seq<ShadowRun>, i: nat, j: nat) returns (a: nat, b: nat)
    requires |held| <= i < j < |WithRunPage(held, page)|
    ensures var r := WithRunPage(held, page);
            |r| <= 200 && a < b < |page| && r[i] == page[a] && r[j] == page[b]
  {
    var known := set r | r in held :: r.runId;
    a, b := FilterInOrder(NotHeld(known), page, i - |held|, j - |held|);
  }
}
