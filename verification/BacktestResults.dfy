/** What the backtest store promises about the runs it holds, over the tables of `BacktestTables`:
    a result reads back as it was published, and what has ended stays as it ended. */
module BacktestResults {
  import opened Wrappers
  import opened Sorting
  import opened BacktestTables

  // ---------------------------------------------------------------- flattening and regrouping

  function Sequence(): LedgerEvent -> int {
    (e: LedgerEvent) => e.sequence
  }

  function PositionOrdinal(): Position -> int {
    (p: Position) => p.ordinal
  }

  function DecisionNumber(): Decision -> int {
    (d: Decision) => d.sequence
  }

  /** A position with its ledger in sequence order. */
  function InSequence(): Position -> Position {
    (p: Position) => p.(events := SortBy(Sequence(), p.events))
  }

  function Stored(): Decision -> Decision {
    (d: Decision) => StoredDecision(d)
  }

  /** The result as a reader will find it: everything in order, reasons cut. */
  function Kept(result: RunResult): RunResult {
    result.(decisions := Map(Stored(), SortBy(DecisionNumber(), result.decisions)),
            positions := Map(InSequence(), SortBy(PositionOrdinal(), result.positions)))
  }

  /** The result as it was handed over, reasons cut. */
  function Truncated(result: RunResult): RunResult {
    result.(decisions := Map(Stored(), result.decisions))
  }

  lemma {:induction false} FilterWithin<T>(keep: T -> bool, outer: T -> bool, xs: seq<T>)
    requires forall x | x in xs && keep(x) :: outer(x)
    ensures Filter(keep, Filter(outer, xs)) == Filter(keep, xs)
  {
    if xs != [] {
      FilterWithin(keep, outer, xs[1..]);
      if outer(xs[0]) {
        assert ([xs[0]] + Filter(outer, xs[1..]))[1..] == Filter(outer, xs[1..]);
      }
    }
  }

  lemma {:induction false} MapAgree<T, U>(f: T -> U, g: T -> U, xs: seq<T>)
    requires forall x | x in xs :: f(x) == g(x)
    ensures Map(f, xs) == Map(g, xs)
  {
    if xs != [] {
      MapAgree(f, g, xs[1..]);
    }
  }

  /** One position's events, picked out of a regrouping, are its ledger in sequence order. */
  lemma RegroupedLedger(t: Tables, ids: set<string>, pid: string, collate: string -> int)
    requires pid in ids
    ensures Filter(OfPosition(pid), EventRowsOf(t, ids, collate)) ==
            SortBy(EventSequence(), Filter(OfPosition(pid), t.events))
  {
    var mine, any := OfPosition(pid), Filter(OfAny(ids), t.events);
    SortThenFilter(ByPosition(collate), mine, SortBy(EventSequence(), any));
    SortThenFilter(EventSequence(), mine, any);
    FilterWithin(mine, OfAny(ids), t.events);
    var ledger := SortBy(EventSequence(), Filter(mine, t.events));
    forall i | 0 <= i < |ledger| ensures ledger[i].positionId == pid {
      SortMembers(EventSequence(), Filter(mine, t.events));
      FilterMembers(mine, t.events, ledger[i]);
    }
    SortOfOrdered(ByPosition(collate), ledger);
  }

  function LedgerOf(events: seq<EventRow>, pid: string): seq<LedgerEvent> {
    Map(EventOf(), SortBy(EventSequence(), Filter(OfPosition(pid), events)))
  }

  function WithLedger(events: seq<EventRow>): PositionRow -> Position {
    (row: PositionRow) => Position(row.id, row.ordinal, row.body, LedgerOf(events, row.id))
  }

  /** Regrouping gives every position its own ledger, however the database orders ids. */
  lemma PositionsHaveTheirLedgers(t: Tables, id: string, collate: string -> int)
    ensures PositionsOf(t, id, collate) == Map(WithLedger(t.events), PositionRowsOf(t, id))
  {
    var rows := PositionRowsOf(t, id);
    var events := EventRowsOf(t, Ids(rows), collate);
    forall row | row in rows ensures Regrouped(events)(row) == WithLedger(t.events)(row) {
      RegroupedLedger(t, Ids(rows), row.id, collate);
    }
    MapAgree(Regrouped(events), WithLedger(t.events), rows);
  }

  lemma {:induction false} FlattenedOwners(positions: seq<Position>, e: EventRow)
    ensures e in Flattened(positions) <==>
            exists p :: p in positions && p.id == e.positionId && e.event in p.events
  {
    if positions != [] {
      var p, rest := positions[0], positions[1..];
      FlattenedOwners(rest, e);
      assert positions == [p] + rest;
      var mine := Map(ToEventRow(p.id), p.events);
      if e in mine {
        var i :| 0 <= i < |mine| && mine[i] == e;
        assert p.events[i] == e.event;
      }
      if p.id == e.positionId && e.event in p.events {
        var i :| 0 <= i < |p.events| && p.events[i] == e.event;
        assert mine[i] == e;
      }
    }
  }

  function IdOf(): Position -> string {
    (p: Position) => p.id
  }

  lemma {:induction false} FlattenedOf(positions: seq<Position>, k: nat)
    requires Unique(IdOf(), positions) && k < |positions|
    ensures Filter(OfPosition(positions[k].id), Flattened(positions)) ==
            Map(ToEventRow(positions[k].id), positions[k].events)
  {
    var p, rest := positions[0], positions[1..];
    var own := OfPosition(positions[k].id);
    var mine := Map(ToEventRow(p.id), p.events);
    FilterAppend(own, mine, Flattened(rest));
    if k == 0 {
      FilterAll(own, mine);
      forall e | e in Flattened(rest) ensures !own(e) {
        FlattenedOwners(rest, e);
      }
      FilterNone(own, Flattened(rest));
    } else {
      FilterNone(own, mine);
      FlattenedOf(rest, k - 1);
    }
  }

  lemma UnownedEvents(t: Tables, pid: string)
    requires Consistent(t) && !Owned(pid, t.positions)
    ensures Filter(OfPosition(pid), t.events) == []
  {
    FilterNone(OfPosition(pid), t.events);
  }

  lemma {:induction false} MapTwice<T, U, V>(f: T -> U, g: U -> V, h: T -> V, xs: seq<T>)
    requires forall x | x in xs :: g(f(x)) == h(x)
    ensures Map(g, Map(f, xs)) == Map(h, xs)
  {
    if xs != [] {
      MapTwice(f, g, h, xs[1..]);
      assert Map(f, xs)[1..] == Map(f, xs[1..]);
    }
  }

  lemma LedgerOfRows(events: seq<LedgerEvent>, pid: string)
    ensures Map(EventOf(), SortBy(EventSequence(), Map(ToEventRow(pid), events))) == SortBy(Sequence(), events)
  {
    var sorted := SortBy(Sequence(), events);
    SortThenMap(Sequence(), EventSequence(), ToEventRow(pid), events);
    assert Map(EventOf(), Map(ToEventRow(pid), sorted)) == sorted;
  }

  lemma AppendedLedger(old': seq<EventRow>, positions: seq<Position>, k: nat)
    requires Unique(IdOf(), positions) && k < |positions|
    requires Filter(OfPosition(positions[k].id), old') == []
    ensures LedgerOf(old' + Flattened(positions), positions[k].id) == SortBy(Sequence(), positions[k].events)
  {
    var p := positions[k];
    var mine := Filter(OfPosition(p.id), Flattened(positions));
    FilterAppend(OfPosition(p.id), old', Flattened(positions));
    assert [] + mine == mine;
    FlattenedOf(positions, k);
    LedgerOfRows(p.events, p.id);
  }

  lemma PublishedLedgers(t: Tables, id: string, result: RunResult, now: int)
    requires Consistent(t) && id in t.runs && Consistent(Published(t, id, result, now))
    ensures Unique(IdOf(), result.positions)
    ensures forall p | p in result.positions ::
              LedgerOf(Published(t, id, result, now).events, p.id) == SortBy(Sequence(), p.events)
  {
    NewIdsAreNew(t, id, result, now);
    forall p | p in result.positions
      ensures LedgerOf(Published(t, id, result, now).events, p.id) == SortBy(Sequence(), p.events)
    {
      var k :| 0 <= k < |result.positions| && result.positions[k] == p;
      UnownedEvents(t, p.id);
      AppendedLedger(t.events, result.positions, k);
    }
  }

  lemma NewIdsAreNew(t: Tables, id: string, result: RunResult, now: int)
    requires id in t.runs && PositionsOk(Published(t, id, result, now).positions, Published(t, id, result, now).runs)
    ensures Unique(IdOf(), result.positions)
    ensures forall p | p in result.positions :: !Owned(p.id, t.positions)
  {
    var toRow := ToPositionRow(id, now);
    var rows := Map(toRow, result.positions);
    UniqueAppend(PositionId(), t.positions, rows);
    UniqueMap(toRow, IdOf(), PositionId(), result.positions);
    forall p | p in result.positions ensures !Owned(p.id, t.positions) {
      MapMembers(toRow, result.positions, toRow(p));
      assert forall row | row in t.positions :: PositionId()(row) != PositionId()(toRow(p));
    }
  }

  // ---------------------------------------------------------------- a result reads back

  lemma NoRowsYet(t: Tables, id: string)
    requires Sound(t) && id in t.runs && t.runs[id].status != COMPLETED
    ensures Filter(OfRun(id), t.positions) == [] && Filter(DecidedIn(id), t.decisions) == []
  {
    FilterNone(OfRun(id), t.positions);
    FilterNone(DecidedIn(id), t.decisions);
  }

  lemma AppendInside<T>(keep: T -> bool, xs: seq<T>, ys: seq<T>)
    requires Filter(keep, xs) == [] && forall y | y in ys :: keep(y)
    ensures Filter(keep, xs + ys) == ys
  {
    FilterAppend(keep, xs, ys);
    FilterAll(keep, ys);
    assert [] + ys == ys;
  }

  lemma AppendedPositionRows(old': seq<PositionRow>, positions: seq<Position>, id: string, now: int)
    requires Filter(OfRun(id), old') == []
    ensures SortBy(Ordinal(), Filter(OfRun(id), old' + Map(ToPositionRow(id, now), positions))) ==
            Map(ToPositionRow(id, now), SortBy(PositionOrdinal(), positions))
  {
    AppendInside(OfRun(id), old', Map(ToPositionRow(id, now), positions));
    SortThenMap(PositionOrdinal(), Ordinal(), ToPositionRow(id, now), positions);
  }

  lemma AppendedDecisionRows(old': seq<DecisionRow>, decisions: seq<Decision>, id: string)
    requires Filter(DecidedIn(id), old') == []
    ensures SortBy(DecisionSequence(), Filter(DecidedIn(id), old' + Map(ToDecisionRow(id), decisions))) ==
            Map(ToDecisionRow(id), SortBy(DecisionNumber(), decisions))
  {
    AppendInside(DecidedIn(id), old', Map(ToDecisionRow(id), decisions));
    SortThenMap(DecisionNumber(), DecisionSequence(), ToDecisionRow(id), decisions);
  }

  lemma RowsWithLedgers(events: seq<EventRow>, positions: seq<Position>, id: string, now: int)
    requires forall p | p in positions :: LedgerOf(events, p.id) == SortBy(Sequence(), p.events)
    ensures Map(WithLedger(events), Map(ToPositionRow(id, now), SortBy(PositionOrdinal(), positions))) ==
            Map(InSequence(), SortBy(PositionOrdinal(), positions))
  {
    var sorted := SortBy(PositionOrdinal(), positions);
    var rows := Map(ToPositionRow(id, now), sorted);
    SortMembers(PositionOrdinal(), positions);
    forall i | 0 <= i < |sorted| ensures WithLedger(events)(rows[i]) == InSequence()(sorted[i]) {
      assert sorted[i] in positions;
    }
  }

  lemma PublishedPositions(t: Tables, id: string, result: RunResult, now: int, collate: string -> int)
    requires Sound(t) && id in t.runs && t.runs[id].status != COMPLETED
    requires Consistent(Published(t, id, result, now))
    ensures PositionsOf(Published(t, id, result, now), id, collate) ==
            Map(InSequence(), SortBy(PositionOrdinal(), result.positions))
  {
    NoRowsYet(t, id);
    PublishedLedgers(t, id, result, now);
    AppendedPositionRows(t.positions, result.positions, id, now);
    PositionsHaveTheirLedgers(Published(t, id, result, now), id, collate);
    RowsWithLedgers(Published(t, id, result, now).events, result.positions, id, now);
  }

  lemma PublishedDecisions(t: Tables, id: string, result: RunResult, now: int)
    requires Sound(t) && id in t.runs && t.runs[id].status != COMPLETED
    ensures DecisionsOf(Published(t, id, result, now), id) ==
            Map(Stored(), SortBy(DecisionNumber(), result.decisions))
  {
    NoRowsYet(t, id);
    AppendedDecisionRows(t.decisions, result.decisions, id);
    MapTwice(ToDecisionRow(id), DecisionOf(), Stored(), SortBy(DecisionNumber(), result.decisions));
  }

  /** Whatever was stored before, for whatever order of strings the database sorts by: the run
      reads back COMPLETED with exactly what was published, in order, reasons cut. */
  lemma PublishedReadsBack(t: Tables, id: string, result: RunResult, now: int, collate: string -> int)
    requires Sound(t) && Refusal(t, Publish(id, result, now)).None?
    ensures var run := Hydrated(Commit(t, Publish(id, result, now)), id, collate);
            && run.status == COMPLETED && run.result == Some(Kept(result))
            && run.facts == t.runs[id].facts && run.updatedAt == now
            && run.failureCode == t.runs[id].failureCode && run.failureReason == t.runs[id].failureReason
  {
    PublishedPositions(t, id, result, now, collate);
    PublishedDecisions(t, id, result, now);
  }

  ghost predicate InOrder(result: RunResult) {
    && Ordered(DecisionNumber(), result.decisions)
    && Ordered(PositionOrdinal(), result.positions)
    && forall i | 0 <= i < |result.positions| :: Ordered(Sequence(), result.positions[i].events)
  }

  lemma {:induction false} StoredKeepsOrder(ds: seq<Decision>)
    ensures Ordered(DecisionNumber(), Map(Stored(), ds)) <==> Ordered(DecisionNumber(), ds)
  {
    var cut, n := Map(Stored(), ds), DecisionNumber();
    forall i | 0 <= i < |ds| ensures n(cut[i]) == n(ds[i]) {}
  }

  lemma OrderedStored(ds: seq<Decision>)
    ensures Map(Stored(), SortBy(DecisionNumber(), ds)) == Map(Stored(), ds) <==> Ordered(DecisionNumber(), ds)
  {
    SortThenMap(DecisionNumber(), DecisionNumber(), Stored(), ds);
    StoredKeepsOrder(ds);
    SortFixesExactlyOrdered(DecisionNumber(), Map(Stored(), ds));
  }

  lemma OrderedLedgers(ps: seq<Position>)
    ensures Map(InSequence(), SortBy(PositionOrdinal(), ps)) == ps <==>
            && Ordered(PositionOrdinal(), ps)
            && forall i | 0 <= i < |ps| :: Ordered(Sequence(), ps[i].events)
  {
    var inner := Map(InSequence(), ps);
    SortThenMap(PositionOrdinal(), PositionOrdinal(), InSequence(), ps);
    assert forall i | 0 <= i < |ps| :: PositionOrdinal()(inner[i]) == PositionOrdinal()(ps[i]);
    SortOrders(PositionOrdinal(), inner);
    if Ordered(PositionOrdinal(), ps) {
      SortOfOrdered(PositionOrdinal(), inner);
    }
    forall i | 0 <= i < |ps| ensures inner[i] == ps[i] <==> Ordered(Sequence(), ps[i].events) {
      SortFixesExactlyOrdered(Sequence(), ps[i].events);
    }
  }

  /** The same result comes back, but for the reasons' cut, if and only if it was in order. */
  lemma ReadBackIsExactIff(t: Tables, id: string, result: RunResult, now: int, collate: string -> int)
    requires Sound(t) && Refusal(t, Publish(id, result, now)).None?
    ensures Hydrated(Commit(t, Publish(id, result, now)), id, collate).result == Some(Truncated(result))
            <==> InOrder(result)
  {
    PublishedReadsBack(t, id, result, now, collate);
    OrderedStored(result.decisions);
    OrderedLedgers(result.positions);
  }

  // ---------------------------------------------------------------- what has ended stays ended

  lemma AppendOutside<T>(keep: T -> bool, xs: seq<T>, ys: seq<T>)
    requires forall y | y in ys :: !keep(y)
    ensures Filter(keep, xs + ys) == Filter(keep, xs)
  {
    FilterAppend(keep, xs, ys);
    FilterNone(keep, ys);
  }

  lemma OtherRowsUntouched(t: Tables, id: string, other: string, result: RunResult, now: int, collate: string -> int)
    requires other in t.runs && id != other && Consistent(Published(t, other, result, now))
    ensures DecisionsOf(Published(t, other, result, now), id) == DecisionsOf(t, id)
    ensures PositionsOf(Published(t, other, result, now), id, collate) == PositionsOf(t, id, collate)
  {
    var ids := Ids(PositionRowsOf(t, id));
    AppendOutside(OfRun(id), t.positions, Map(ToPositionRow(other, now), result.positions));
    AppendOutside(DecidedIn(id), t.decisions, Map(ToDecisionRow(other), result.decisions));
    forall e | e in Flattened(result.positions) ensures !OfAny(ids)(e) {
      NewEventIsElsewhere(t, id, other, result, now, e);
    }
    AppendOutside(OfAny(ids), t.events, Flattened(result.positions));
  }

  lemma NewEventIsElsewhere(t: Tables, id: string, other: string, result: RunResult, now: int, e: EventRow)
    requires other in t.runs && Consistent(Published(t, other, result, now))
    requires e in Flattened(result.positions)
    ensures e.positionId !in Ids(PositionRowsOf(t, id))
  {
    NewIdsAreNew(t, other, result, now);
    FlattenedOwners(result.positions, e);
    var p :| p in result.positions && p.id == e.positionId;
    var k :| 0 <= k < |result.positions| && result.positions[k] == p;
    forall row | row in PositionRowsOf(t, id) ensures row.id != e.positionId {
      SortMembers(Ordinal(), Filter(OfRun(id), t.positions));
      FilterMembers(OfRun(id), t.positions, row);
    }
  }

  /** A transaction that is let through leaves a COMPLETED run's row alone, and all its rows. */
  lemma CompletedStepStays(t: Tables, txn: Transaction, id: string, collate: string -> int)
    requires Sound(t) && id in t.runs && t.runs[id].status == COMPLETED
    ensures var t' := Commit(t, txn);
            && id in t'.runs && t'.runs[id] == t.runs[id]
            && DecisionsOf(t', id) == DecisionsOf(t, id) && PositionsOf(t', id, collate) == PositionsOf(t, id, collate)
  {
    if Refusal(t, txn).None? && txn.Publish? {
      OtherRowsUntouched(t, id, txn.id, txn.result, txn.now, collate);
    } else {
      SameRowsSameReads(t, Commit(t, txn), id, collate);
    }
  }

  lemma SameRowsSameReads(t: Tables, t': Tables, id: string, collate: string -> int)
    requires t'.positions == t.positions && t'.events == t.events && t'.decisions == t.decisions
    ensures DecisionsOf(t', id) == DecisionsOf(t, id) && PositionsOf(t', id, collate) == PositionsOf(t, id, collate)
  {
  }

  lemma EndedStepStays(t: Tables, txn: Transaction, id: string, collate: string -> int)
    requires Sound(t) && id in t.runs
    ensures var t' := Commit(t, txn);
            && id in t'.runs
            && (t.runs[id].status == COMPLETED ==>
                  t'.runs[id] == t.runs[id] && Hydrated(t', id, collate) == Hydrated(t, id, collate))
            && (t.runs[id].status == FAILED ==> t'.runs[id].status == FAILED)
  {
    if t.runs[id].status == COMPLETED {
      CompletedStepStays(t, txn, id, collate);
    }
  }

  /** Whatever is created, published or failed afterwards, a COMPLETED run reads back the same
      for good, and a FAILED one never becomes COMPLETED. */
  lemma {:induction false} EndedStaysEnded(t: Tables, txns: seq<Transaction>, id: string, collate: string -> int)
    requires Sound(t) && id in t.runs
    ensures var t' := Run(t, txns);
            && Sound(t') && id in t'.runs
            && (t.runs[id].status == COMPLETED ==>
                  t'.runs[id] == t.runs[id] && Hydrated(t', id, collate) == Hydrated(t, id, collate))
            && (t.runs[id].status == FAILED ==>
                  t'.runs[id].status == FAILED && Hydrated(t', id, collate).result == None)
  {
    if txns != [] {
      var before := txns[..|txns| - 1];
      EndedStaysEnded(t, before, id, collate);
      CommitIsSound(Run(t, before), txns[|txns| - 1]);
      EndedStepStays(Run(t, before), txns[|txns| - 1], id, collate);
    }
  }

  /** The last time a run is failed among these transactions. */
  function LastFailure(txns: seq<Transaction>, id: string): Option<Transaction> {
    if txns == [] then None
    else
      var last := txns[|txns| - 1];
      if last.Fail? && last.id == id then Some(last) else LastFailure(txns[..|txns| - 1], id)
  }

  function Restated(row: RunRow, failure: Option<Transaction>): RunRow
    requires failure.Some? ==> failure.value.Fail?
  {
    if failure.None? then row
    else
      row.(failureCode := Some(Cut(failure.value.code, 64)), failureReason := Some(Cut(failure.value.reason, 500)),
           updatedAt := failure.value.now)
  }

  lemma {:induction false} LastFailureFails(txns: seq<Transaction>, id: string)
    ensures var f := LastFailure(txns, id);
            f.Some? ==> f.value.Fail? && f.value.id == id && f.value in txns
  {
    if txns != [] {
      LastFailureFails(txns[..|txns| - 1], id);
    }
  }

  /** But a FAILED run may be failed again. Whatever is created, published or failed after it ended,
      its row states the code, the reason and the time of the last failure among all that. */
  lemma {:induction false} LastFailureStands(t: Tables, txns: seq<Transaction>, id: string)
    requires Sound(t) && id in t.runs && t.runs[id].status == FAILED
    ensures var failure := LastFailure(txns, id);
            && (failure.Some? ==> failure.value.Fail?)
            && id in Run(t, txns).runs && Run(t, txns).runs[id] == Restated(t.runs[id], failure)
  {
    LastFailureFails(txns, id);
    if txns != [] {
      LastFailureStands(t, txns[..|txns| - 1], id);
    }
  }

  /** A failure that would write what the row states already. */
  predicate SaysTheSame(row: RunRow, txn: Transaction) {
    txn.Fail? ==> && row.failureCode == Some(Cut(txn.code, 64)) && row.failureReason == Some(Cut(txn.reason, 500))
                  && row.updatedAt == txn.now
  }

  ghost predicate NeverChanges(t: Tables, txns: seq<Transaction>, id: string)
    requires id in t.runs
  {
    forall k | 0 <= k <= |txns| ::
      id in Run(t, txns[..k]).runs && Run(t, txns[..k]).runs[id] == t.runs[id]
  }

  /** So the first terminal transition wins, and the row of a FAILED run stays as it is throughout,
      if and only if no later failure of that run states another code, reason or time; and it ends
      as it began if and only if the last one does not. */
  lemma FirstEndingWinsIff(t: Tables, txns: seq<Transaction>, id: string)
    requires Sound(t) && id in t.runs && t.runs[id].status == FAILED
    ensures NeverChanges(t, txns, id) <==>
            forall k | 0 <= k < |txns| && txns[k].Fail? && txns[k].id == id :: SaysTheSame(t.runs[id], txns[k])
    ensures var failure := LastFailure(txns, id);
            && id in Run(t, txns).runs
            && (Run(t, txns).runs[id] == t.runs[id] <==>
                failure.None? || SaysTheSame(t.runs[id], failure.value))
  {
    LastFailureStands(t, txns, id);
    if NeverChanges(t, txns, id) {
      forall k | 0 <= k < |txns| && txns[k].Fail? && txns[k].id == id ensures SaysTheSame(t.runs[id], txns[k]) {
        FailureIsRead(t, txns, id, k);
      }
    }
    if forall k | 0 <= k < |txns| && txns[k].Fail? && txns[k].id == id :: SaysTheSame(t.runs[id], txns[k]) {
      forall k | 0 <= k <= |txns|
        ensures id in Run(t, txns[..k]).runs && Run(t, txns[..k]).runs[id] == t.runs[id]
      {
        LastFailureStands(t, txns[..k], id);
        LastFailureFails(txns[..k], id);
      }
    }
  }

  lemma FailureIsRead(t: Tables, txns: seq<Transaction>, id: string, k: nat)
    requires Sound(t) && id in t.runs && t.runs[id].status == FAILED && NeverChanges(t, txns, id)
    requires k < |txns| && txns[k].Fail? && txns[k].id == id
    ensures SaysTheSame(t.runs[id], txns[k])
  {
    LastFailureStands(t, txns[..k + 1], id);
    assert txns[..k + 1][..k] == txns[..k];
    assert LastFailure(txns[..k + 1], id) == Some(txns[k]);
  }

  /** A run in which it does not: failed for one reason, and then for another. */
  lemma SecondReasonReplacesTheFirst()
    ensures var facts := RunFacts("run", "attempt", "dataset", 0, 1, "", 0);
            var start := Empty({"dataset"});
            var failed := Commit(Commit(start, CreateRun(facts, RUNNING, 0)), Fail("run", "FIRST", "", 1));
            var again := Commit(failed, Fail("run", "SECOND", "", 2));
            && "run" in failed.runs && failed.runs["run"].status == FAILED
            && failed.runs["run"].failureCode == Some("FIRST")
            && "run" in again.runs && again.runs["run"].failureCode == Some("SECOND")
  {
    var facts := RunFacts("run", "attempt", "dataset", 0, 1, "", 0);
    var start := Empty({"dataset"});
    EveryRunIsSound({"dataset"}, []);
    CreateRefusedIff(start, facts, RUNNING, 0);
    assert Commit(start, CreateRun(facts, RUNNING, 0)) == Created(start, facts, RUNNING, 0);
  }

  // ---------------------------------------------------------------- exactly what is refused

  /** Creating is refused, always as a duplicate, exactly when the id or the attempt key is taken,
      the dataset is unknown, the interval does not run forward, or the run is not a fresh one. */
  lemma CreateRefusedIff(t: Tables, facts: RunFacts, status: Status, updatedAt: int)
    requires Sound(t)
    ensures Refusal(t, CreateRun(facts, status, updatedAt)) == Some(DuplicateRun) <==>
            || facts.id in t.runs
            || (exists id :: id in t.runs && t.runs[id].facts.attemptKey == facts.attemptKey)
            || facts.datasetId !in t.datasets
            || facts.intervalStart >= facts.intervalEnd
            || status in {COMPLETED, FAILED}
    ensures Refusal(t, CreateRun(facts, status, updatedAt)) in {None, Some(DuplicateRun)}
  {
    if facts.id !in t.runs {
      var t' := Created(t, facts, status, updatedAt);
      assert t'.runs[facts.id].facts == facts;
      assert forall id | id in t.runs :: t'.runs[id] == t.runs[id];
      assert PositionsOk(t'.positions, t'.runs) && DecisionsOk(t'.decisions, t'.runs);
      assert RunRowOk(t'.runs[facts.id], t.datasets) <==>
             facts.datasetId in t.datasets && facts.intervalStart < facts.intervalEnd && status !in {COMPLETED, FAILED};
    }
  }

  /** What a position must be like for the schema to take it, and a decision. */
  predicate PositionAcceptable(p: Position, taken: seq<PositionRow>) {
    && |p.id| <= 64 && !Owned(p.id, taken) && 1 <= p.ordinal <= 2_147_483_647
    && (forall e | e in p.events :: 1 <= e.sequence <= 2_147_483_647 && |e.kind| <= 40)
    && Unique(Sequence(), p.events)
  }

  predicate DecisionAcceptable(d: Decision) {
    && 1 <= d.sequence <= 2_147_483_647 && 0 <= d.bars <= 2_147_483_647
    && (d.positionId.Some? ==> |d.positionId.value| <= 64)
  }

  predicate Acceptable(result: RunResult, taken: seq<PositionRow>) {
    && 0 <= result.boundaries <= 2_147_483_647 && |result.digest| <= 64
    && (forall p | p in result.positions :: PositionAcceptable(p, taken))
    && Unique(IdOf(), result.positions) && Unique(PositionOrdinal(), result.positions)
    && (forall d | d in result.decisions :: DecisionAcceptable(d)) && Unique(DecisionNumber(), result.decisions)
  }

  lemma PublishedRunsOk(t: Tables, id: string, result: RunResult, now: int)
    requires Consistent(t) && id in t.runs && t.runs[id].status !in {FAILED, COMPLETED}
    ensures RunsOk(Published(t, id, result, now).runs, t.datasets) <==>
            0 <= result.boundaries <= 2_147_483_647 && |result.digest| <= 64
  {
    var t' := Published(t, id, result, now);
    assert t'.runs.Keys == t.runs.Keys;
    assert RunRowOk(t'.runs[id], t.datasets) <==> 0 <= result.boundaries <= 2_147_483_647 && |result.digest| <= 64;
    assert forall a | a in t.runs :: t'.runs[a].facts == t.runs[a].facts;
  }

  predicate RowAcceptable(p: Position, taken: seq<PositionRow>) {
    |p.id| <= 64 && 1 <= p.ordinal <= 2_147_483_647 && !Owned(p.id, taken)
  }

  lemma NewKeysClashIff(rows: seq<PositionRow>, id: string, ps: seq<Position>, now: int)
    ensures Unique(PositionId(), rows + Map(ToPositionRow(id, now), ps)) <==>
            Unique(PositionId(), rows) && Unique(IdOf(), ps) && forall p | p in ps :: !Owned(p.id, rows)
  {
    var toRow := ToPositionRow(id, now);
    UniqueAppend(PositionId(), rows, Map(toRow, ps));
    UniqueMap(toRow, IdOf(), PositionId(), ps);
    MapAll(toRow, (y: PositionRow) => !Owned(y.id, rows), ps);
    forall y: PositionRow | y in Map(toRow, ps)
      ensures Owned(y.id, rows) <==> exists x :: x in rows && PositionId()(x) == PositionId()(y)
    {
      assert forall x | x in rows :: PositionId()(x) == x.id;
    }
  }

  lemma NewOrdinalsClashIff(rows: seq<PositionRow>, id: string, ps: seq<Position>, now: int)
    requires forall p | p in rows :: p.runId != id
    ensures Unique(RunOrdinal(), rows + Map(ToPositionRow(id, now), ps)) <==>
            Unique(RunOrdinal(), rows) && Unique(PositionOrdinal(), ps)
  {
    var toRow := ToPositionRow(id, now);
    UniqueAppend(RunOrdinal(), rows, Map(toRow, ps));
    UniqueMap(toRow, PositionOrdinal(), RunOrdinal(), ps);
  }

  lemma AppendedPositionsOk(t: Tables, runs': map<string, RunRow>, id: string, ps: seq<Position>, now: int)
    requires PositionsOk(t.positions, t.runs) && runs'.Keys == t.runs.Keys && id in t.runs
    requires forall p | p in t.positions :: p.runId != id
    ensures PositionsOk(t.positions + Map(ToPositionRow(id, now), ps), runs') <==>
            && Unique(IdOf(), ps) && Unique(PositionOrdinal(), ps)
            && forall p | p in ps :: RowAcceptable(p, t.positions)
  {
    NewKeysClashIff(t.positions, id, ps, now);
    NewOrdinalsClashIff(t.positions, id, ps, now);
    MapAll(ToPositionRow(id, now), (p: PositionRow) => PositionRowOk(p) && p.runId in runs', ps);
  }

  lemma CutDecisionOk(id: string, d: Decision)
    ensures DecisionRowOk(ToDecisionRow(id)(d)) <==> DecisionAcceptable(d)
  {
  }

  lemma AppendedDecisionsOk(t: Tables, runs': map<string, RunRow>, id: string, ds: seq<Decision>)
    requires DecisionsOk(t.decisions, t.runs) && runs'.Keys == t.runs.Keys && id in t.runs
    requires forall d | d in t.decisions :: d.runId != id
    ensures DecisionsOk(t.decisions + Map(ToDecisionRow(id), ds), runs') <==>
            Unique(DecisionNumber(), ds) && forall d | d in ds :: DecisionAcceptable(d)
  {
    UniqueAppend(DecisionKey(), t.decisions, Map(ToDecisionRow(id), ds));
    UniqueMap(ToDecisionRow(id), DecisionNumber(), DecisionKey(), ds);
    MapAll(ToDecisionRow(id), (d: DecisionRow) => DecisionRowOk(d) && d.runId in runs', ds);
    forall d | d in ds ensures DecisionRowOk(ToDecisionRow(id)(d)) <==> DecisionAcceptable(d) {
      CutDecisionOk(id, d);
    }
  }

  predicate LedgerAcceptable(p: Position) {
    && (forall e | e in p.events :: 1 <= e.sequence <= 2_147_483_647 && |e.kind| <= 40)
    && Unique(Sequence(), p.events)
  }

  lemma OwnEventsUnique(p: Position)
    ensures Unique(EventKey(), Map(ToEventRow(p.id), p.events)) <==> Unique(Sequence(), p.events)
  {
    UniqueMap(ToEventRow(p.id), Sequence(), EventKey(), p.events);
  }

  lemma {:induction false} FlattenedUnique(ps: seq<Position>)
    requires Unique(IdOf(), ps)
    ensures Unique(EventKey(), Flattened(ps)) <==> forall p | p in ps :: Unique(Sequence(), p.events)
  {
    if ps != [] {
      var p, rest := ps[0], ps[1..];
      var mine := Map(ToEventRow(p.id), p.events);
      assert ps == [p] + rest;
      assert Unique(IdOf(), rest) by {
        UniqueAppend(IdOf(), [p], rest);
      }
      FlattenedUnique(rest);
      OwnEventsUnique(p);
      UniqueAppend(EventKey(), mine, Flattened(rest));
      forall x, y | x in mine && y in Flattened(rest) ensures EventKey()(x) != EventKey()(y) {
        FlattenedOwners(rest, y);
        UniqueAppend(IdOf(), [p], rest);
        assert p in [p];
        var q :| q in rest && q.id == y.positionId;
        assert IdOf()(p) != IdOf()(q);
      }
    }
  }

  /** The new events are rows of the new positions, so they clash with nothing stored. */
  lemma AppendedEventsOk(t: Tables, id: string, ps: seq<Position>, now: int)
    requires EventsOk(t.events, t.positions) && Unique(IdOf(), ps)
    requires forall p | p in ps :: !Owned(p.id, t.positions)
    ensures EventsOk(t.events + Flattened(ps), t.positions + Map(ToPositionRow(id, now), ps)) <==>
            forall p | p in ps :: LedgerAcceptable(p)
  {
    var all := t.positions + Map(ToPositionRow(id, now), ps);
    FlattenedUnique(ps);
    UniqueAppend(EventKey(), t.events, Flattened(ps));
    forall x, y | x in t.events && y in Flattened(ps) ensures EventKey()(x) != EventKey()(y) {
      FlattenedOwners(ps, y);
      var p :| p in ps && p.id == y.positionId;
      assert Owned(x.positionId, t.positions) && !Owned(p.id, t.positions);
    }
    forall e | e in t.events ensures Owned(e.positionId, all) {
      var p :| p in t.positions && p.id == e.positionId;
      assert p in all;
    }
    forall e | e in Flattened(ps) ensures Owned(e.positionId, all) {
      FlattenedOwners(ps, e);
      var p :| p in ps && p.id == e.positionId;
      MapMembers(ToPositionRow(id, now), ps, ToPositionRow(id, now)(p));
      assert ToPositionRow(id, now)(p) in all;
    }
    FlattenedRowsOk(ps);
  }

  lemma FlattenedRowsOk(ps: seq<Position>)
    ensures (forall e | e in Flattened(ps) :: EventRowOk(e)) <==>
            forall p | p in ps :: forall e | e in p.events :: 1 <= e.sequence <= 2_147_483_647 && |e.kind| <= 40
  {
    forall p, e | p in ps && e in p.events ensures EventRow(p.id, e) in Flattened(ps) {
      FlattenedOwners(ps, EventRow(p.id, e));
    }
    forall e | e in Flattened(ps) ensures exists p :: p in ps && e.event in p.events {
      FlattenedOwners(ps, e);
    }
    if forall e | e in Flattened(ps) :: EventRowOk(e) {
      forall p, e | p in ps && e in p.events ensures 1 <= e.sequence <= 2_147_483_647 && |e.kind| <= 40 {
        assert EventRowOk(EventRow(p.id, e));
      }
    }
  }

  lemma AcceptableSplits(result: RunResult, taken: seq<PositionRow>)
    ensures Acceptable(result, taken) <==>
            && 0 <= result.boundaries <= 2_147_483_647 && |result.digest| <= 64
            && Unique(IdOf(), result.positions) && Unique(PositionOrdinal(), result.positions)
            && (forall p | p in result.positions :: RowAcceptable(p, taken))
            && (forall p | p in result.positions :: LedgerAcceptable(p))
            && Unique(DecisionNumber(), result.decisions) && (forall d | d in result.decisions :: DecisionAcceptable(d))
  {
    assert forall p | p in result.positions ::
        PositionAcceptable(p, taken) <==> RowAcceptable(p, taken) && LedgerAcceptable(p);
  }

  /** A run that has not ended takes a result exactly when the result is one the schema can hold
      and none of its position ids is taken by any run: nothing else stored can stand in its way. */
  lemma PublishAcceptedIff(t: Tables, id: string, result: RunResult, now: int)
    requires Sound(t) && id in t.runs && t.runs[id].status !in {FAILED, COMPLETED}
    ensures Refusal(t, Publish(id, result, now)) ==
            if Acceptable(result, t.positions) then None else Some(ConstraintRefused)
  {
    ConsistentIffAcceptable(t, id, result, now);
  }

  lemma ConsistentIffAcceptable(t: Tables, id: string, result: RunResult, now: int)
    requires Sound(t) && id in t.runs && t.runs[id].status !in {FAILED, COMPLETED}
    ensures Consistent(Published(t, id, result, now)) <==> Acceptable(result, t.positions)
  {
    var runs' := Published(t, id, result, now).runs;
    assert runs'.Keys == t.runs.Keys;
    PublishedRunsOk(t, id, result, now);
    AppendedPositionsOk(t, runs', id, result.positions, now);
    AppendedDecisionsOk(t, runs', id, result.decisions);
    AcceptableSplits(result, t.positions);
    if Unique(IdOf(), result.positions) && forall p | p in result.positions :: RowAcceptable(p, t.positions) {
      AppendedEventsOk(t, id, result.positions, now);
    }
  }

  // ---------------------------------------------------------------- the other reads agree

  lemma SortLength<T>(key: T -> int, xs: seq<T>)
    ensures |SortBy(key, xs)| == |xs|
  {
    SortIsPermutation(key, xs);
    assert |multiset(SortBy(key, xs))| == |multiset(xs)|;
  }

  /** The counts a listing shows are the counts of the result a full read returns. */
  lemma HeadAgrees(t: Tables, id: string, collate: string -> int)
    requires Sound(t) && id in t.runs && t.runs[id].status == COMPLETED
    ensures var (run, totals), full := Head(t, id), Hydrated(t, id, collate);
            && run == full.(result := None)
            && totals == Totals(full.result.value.boundaries, full.result.value.firstBoundary,
                                full.result.value.lastBoundary, Some(full.result.value.digest),
                                |full.result.value.decisions|, |full.result.value.positions|)
  {
    SortLength(Ordinal(), Filter(OfRun(id), t.positions));
    SortLength(DecisionSequence(), Filter(DecidedIn(id), t.decisions));
  }

  /** A page of the trace is that stretch of the full result's decisions. */
  lemma TracePageIsSlice(t: Tables, id: string, offset: nat, limit: nat)
    ensures TracePage(t, id, offset, limit) == (Slice(DecisionsOf(t, id), offset, limit), |DecisionsOf(t, id)|)
  {
    var rows := DecisionRowsOf(t, id);
    SortLength(DecisionSequence(), Filter(DecidedIn(id), t.decisions));
    if offset < |rows| {
      MapSlice(DecisionOf(), rows, offset, if offset + limit < |rows| then offset + limit else |rows|);
    }
  }

  /** One position's rows, in sequence order. */
  function LedgerRows(t: Tables, pid: string): seq<EventRow> {
    SortBy(EventSequence(), Filter(OfPosition(pid), t.events))
  }

  function PageAfter(t: Tables, pid: string, limit: nat): int -> seq<LedgerEvent> {
    (after: int) => EventsPage(t, pid, after, limit).0
  }

  /** Every page there is, asked for one after the other from the last sequence seen. */
  function Follow(page: int -> seq<LedgerEvent>, after: int, pages: nat): seq<LedgerEvent>
    decreases pages
  {
    if pages == 0 || page(after) == [] then []
    else page(after) + Follow(page, page(after)[|page(after)| - 1].sequence, pages - 1)
  }

  lemma LedgerRises(t: Tables, pid: string)
    requires Consistent(t)
    ensures Increasing(EventSequence(), LedgerRows(t, pid))
  {
    var mine := Filter(OfPosition(pid), t.events);
    FilterUnique(EventKey(), OfPosition(pid), t.events);
    forall i, j | 0 <= i < j < |mine| ensures EventSequence()(mine[i]) != EventSequence()(mine[j]) {
      FilterMembers(OfPosition(pid), t.events, mine[i]);
      FilterMembers(OfPosition(pid), t.events, mine[j]);
      assert EventKey()(mine[i]) != EventKey()(mine[j]);
    }
    SortDistinct(EventSequence(), mine);
  }

  lemma PageOfLedger(t: Tables, pid: string, after: int, limit: nat)
    ensures EventsPage(t, pid, after, limit).0 == PageOf(LedgerRows(t, pid), after, limit)
  {
    SortThenFilter(EventSequence(), After(after), Filter(OfPosition(pid), t.events));
  }

  lemma FilterOfRising(rows: seq<EventRow>, k: nat, last: int)
    requires Increasing(EventSequence(), rows) && 0 < k <= |rows| && last == rows[k - 1].event.sequence
    ensures Filter(After(last), rows) == rows[k..]
  {
    var keep, seen, rest := After(last), rows[..k], rows[k..];
    assert rows == seen + rest;
    FilterAppend(keep, seen, rest);
    forall e | e in seen ensures !keep(e) {
      var i :| 0 <= i < k && rows[i] == e;
      assert i < k - 1 ==> EventSequence()(rows[i]) < EventSequence()(rows[k - 1]);
    }
    forall e | e in rest ensures keep(e) {
      var i :| 0 <= i < |rest| && rest[i] == e;
      assert EventSequence()(rows[k - 1]) < EventSequence()(rows[k + i]);
    }
    FilterNone(keep, seen);
    FilterAll(keep, rest);
  }

  lemma PageIsNext(ledger: seq<EventRow>, k: nat, k': nat, after: int, limit: nat)
    requires limit >= 1 && k < k' <= |ledger| && Filter(After(after), ledger) == ledger[k..]
    requires k' == if k + limit < |ledger| then k + limit else |ledger|
    ensures PageOf(ledger, after, limit) == Map(EventOf(), ledger)[k..k']
  {
    SliceOfRest(ledger, k, k', limit);
    MapSlice(EventOf(), ledger, k, k');
  }

  lemma SliceOfRest<T>(xs: seq<T>, k: nat, k': nat, limit: nat)
    requires limit >= 1 && k < k' <= |xs| && k' == if k + limit < |xs| then k + limit else |xs|
    ensures Slice(xs[k..], 0, limit) == xs[k..k']
  {
  }

  function PageOf(ledger: seq<EventRow>, after: int, limit: nat): seq<LedgerEvent> {
    Map(EventOf(), Slice(Filter(After(after), ledger), 0, limit))
  }

  lemma FollowStep(page: int -> seq<LedgerEvent>, events: seq<LedgerEvent>, k: nat, k': nat, after: int, pages: nat)
    requires k < k' <= |events| && pages > 0 && page(after) == events[k..k']
    requires Follow(page, events[k' - 1].sequence, pages - 1) == events[k'..]
    ensures Follow(page, after, pages) == events[k..]
  {
    JoinSlices(events, k, k');
  }

  /** Paging on from the last entry seen reads the rest of a ledger, each entry once. */
  lemma {:induction false} PagesReadTheRest(
    page: int -> seq<LedgerEvent>, ledger: seq<EventRow>, k: nat, after: int, limit: nat, pages: nat)
    requires forall a :: page(a) == PageOf(ledger, a, limit)
    requires Increasing(EventSequence(), ledger) && limit >= 1
    requires k <= |ledger| && |ledger| - k <= pages * limit
    requires Filter(After(after), ledger) == ledger[k..]
    ensures Follow(page, after, pages) == Map(EventOf(), ledger)[k..]
    decreases pages
  {
    var events := Map(EventOf(), ledger);
    if k < |ledger| {
      var k' := if k + limit < |ledger| then k + limit else |ledger|;
      FewerPages(|ledger| - k, |ledger| - k', pages, limit);
      PageIsNext(ledger, k, k', after, limit);
      FilterOfRising(ledger, k', events[k' - 1].sequence);
      PagesReadTheRest(page, ledger, k', events[k' - 1].sequence, limit, pages - 1);
      FollowStep(page, events, k, k', after, pages);
    }
  }

  lemma JoinSlices<T>(xs: seq<T>, k: nat, k': nat)
    requires k < k' <= |xs|
    ensures xs[k..] == xs[k..k'] + xs[k'..] && xs[k..k'][k' - k - 1] == xs[k' - 1]
  {
  }

  lemma FewerPages(left: nat, left': nat, pages: nat, limit: nat)
    requires 0 < left <= pages * limit && (left' == 0 || left' == left - limit)
    ensures pages >= 1 && left' <= (pages - 1) * limit
  {
    assert pages >= 1;
    assert (pages - 1) * limit == pages * limit - limit;
    assert 0 <= (pages - 1) * limit;
  }

  /** From the start: sequences begin at one, so asking after zero misses nothing. */
  lemma PagesReadTheLedger(t: Tables, pid: string, limit: nat, pages: nat)
    requires Consistent(t) && limit >= 1 && |LedgerOf(t.events, pid)| <= pages * limit
    ensures Follow(PageAfter(t, pid, limit), 0, pages) == LedgerOf(t.events, pid)
    ensures EventsPage(t, pid, 0, limit).1 == |LedgerOf(t.events, pid)|
  {
    var mine, ledger := Filter(OfPosition(pid), t.events), LedgerRows(t, pid);
    SortMembers(EventSequence(), mine);
    forall e | e in ledger ensures After(0)(e) {
      FilterMembers(OfPosition(pid), t.events, e);
    }
    FilterAll(After(0), ledger);
    LedgerRises(t, pid);
    assert ledger[0..] == ledger;
    forall a ensures PageAfter(t, pid, limit)(a) == PageOf(ledger, a, limit) {
      PageOfLedger(t, pid, a, limit);
    }
    PagesReadTheRest(PageAfter(t, pid, limit), ledger, 0, 0, limit, pages);
  }
}
