/** The backtest run store as the object that holds the tables. Each transaction is one method: it
    builds its rows, and commits them all or none. Follows `SqlAlchemyBacktestStore` of
    backend/app/adapters/persistence/backtest_store.py; what its methods compute is defined and
    studied in `BacktestTables` and `BacktestResults`. */
module BacktestStore {
  import opened Wrappers
  import opened Sorting
  import opened BacktestTables
  import opened BacktestResults
  import opened BacktestReads

  lemma {:induction false} FlattenedGrows(ps: seq<Position>, i: nat)
    requires i < |ps|
    ensures Flattened(ps[..i + 1]) == Flattened(ps[..i]) + Map(ToEventRow(ps[i].id), ps[i].events)
    decreases i
  {
    var mine := Map(ToEventRow(ps[i].id), ps[i].events);
    if i == 0 {
      assert ps[..1] == [ps[0]];
      assert ps[..1][1..] == [] && ps[..0] == [];
      assert mine + [] == mine && [] + mine == mine;
    } else {
      FlattenedGrows(ps[1..], i - 1);
      assert ps[..i + 1][1..] == ps[1..][..i] && ps[..i][1..] == ps[1..][..i - 1];
      assert ps[..i + 1][0] == ps[..i][0] == ps[0];
    }
  }

  lemma FoundAreAsked(t: Tables, ids: set<string>, collate: string -> int)
    ensures forall e | e in EventRowsOf(t, ids, collate) :: e.positionId in ids
  {
    var asked := Filter(OfAny(ids), t.events);
    SortMembers(EventSequence(), asked);
    SortMembers(ByPosition(collate), SortBy(EventSequence(), asked));
    forall e | e in asked ensures e.positionId in ids {
      FilterMembers(OfAny(ids), t.events, e);
    }
  }

  class Store {
    const datasets: set<string>
    const collate: string -> int
    var runs: map<string, RunRow>
    var positions: seq<PositionRow>
    var events: seq<EventRow>
    var decisions: seq<DecisionRow>

    function View(): Tables
      reads this
    {
      Tables(datasets, runs, positions, events, decisions)
    }

    constructor (datasets: set<string>, collate: string -> int)
      ensures View() == Empty(datasets) && this.collate == collate
    {
      this.datasets, this.collate := datasets, collate;
      runs, positions, events, decisions := map[], [], [], [];
    }

    method CreateRun(facts: RunFacts, status: Status, updatedAt: int)
      returns (r: Result<StoredRun, StoreError>)
      modifies this
      ensures View() == Commit(old(View()), Transaction.CreateRun(facts, status, updatedAt))
      ensures r == match Refusal(old(View()), Transaction.CreateRun(facts, status, updatedAt))
                   case Some(e) => Err(e)
                   case None => Ok(StoredRun(facts, status, None, None, None, updatedAt))
    {
      var row := RunRow(facts, status, None, None, 0, None, None, None, updatedAt);
      if facts.id in runs {
        return Err(DuplicateRun);
      }
      if !Consistent(Tables(datasets, runs[facts.id := row], positions, events, decisions)) {
        return Err(DuplicateRun);
      }
      runs := runs[facts.id := row];
      r := Ok(ToRun(runs[facts.id], None));
    }

    /** The whole result and the status change, in one transaction. */
    method Publish(id: string, result: RunResult, now: int) returns (r: Result<StoredRun, StoreError>)
      modifies this
      ensures View() == Commit(old(View()), Transaction.Publish(id, result, now))
      ensures r == match Refusal(old(View()), Transaction.Publish(id, result, now))
                   case Some(e) => Err(e)
                   case None => Ok(Hydrated(View(), id, collate))
    {
      if id !in runs {
        return Err(RunMissing);
      }
      var row := runs[id];
      if row.status in {FAILED, COMPLETED} {
        return Err(Terminal);
      }
      var newPositions := PositionRows(id, result.positions, now);
      var newEvents := EventRows(result.positions);
      var newDecisions := DecisionRows(id, result.decisions);
      row := row.(status := COMPLETED, boundaries := result.boundaries,
                  firstBoundary := result.firstBoundary, lastBoundary := result.lastBoundary,
                  digest := Some(result.digest), updatedAt := now);
      var after := Tables(datasets, runs[id := row], positions + newPositions,
                          events + newEvents, decisions + newDecisions);
      assert after == Published(View(), id, result, now);
      if !Consistent(after) {
        return Err(ConstraintRefused);
      }
      runs, positions, events, decisions := after.runs, after.positions, after.events, after.decisions;
      var run := Hydrate(id);
      r := Ok(run);
    }

    static method PositionRows(id: string, ps: seq<Position>, now: int) returns (rows: seq<PositionRow>)
      ensures rows == Map(ToPositionRow(id, now), ps)
    {
      rows := [];
      for i := 0 to |ps|
        invariant rows == Map(ToPositionRow(id, now), ps[..i])
      {
        rows := rows + [PositionRow(ps[i].id, id, ps[i].ordinal, ps[i].body, now)];
        MapGrows(ToPositionRow(id, now), ps, i);
      }
      assert ps[..|ps|] == ps;
    }

    static method EventRows(ps: seq<Position>) returns (rows: seq<EventRow>)
      ensures rows == Flattened(ps)
    {
      rows := [];
      for i := 0 to |ps|
        invariant rows == Flattened(ps[..i])
      {
        var p := ps[i];
        ghost var before := rows;
        for k := 0 to |p.events|
          invariant rows == before + Map(ToEventRow(p.id), p.events[..k])
        {
          rows := rows + [EventRow(p.id, p.events[k])];
          MapGrows(ToEventRow(p.id), p.events, k);
        }
        assert p.events[..|p.events|] == p.events;
        FlattenedGrows(ps, i);
      }
      assert ps[..|ps|] == ps;
    }

    static method DecisionRows(id: string, ds: seq<Decision>) returns (rows: seq<DecisionRow>)
      ensures rows == Map(ToDecisionRow(id), ds)
    {
      rows := [];
      for i := 0 to |ds|
        invariant rows == Map(ToDecisionRow(id), ds[..i])
      {
        rows := rows + [DecisionRow(id, StoredDecision(ds[i]))];
        MapGrows(ToDecisionRow(id), ds, i);
      }
      assert ds[..|ds|] == ds;
    }

    method FailRun(id: string, code: string, reason: string, now: int) returns (r: Result<StoredRun, StoreError>)
      modifies this
      ensures View() == Commit(old(View()), Transaction.Fail(id, code, reason, now))
      ensures r == match Refusal(old(View()), Transaction.Fail(id, code, reason, now))
                   case Some(e) => Err(e)
                   case None => Ok(ToRun(View().runs[id], None))
      ensures r.Ok? ==> id in old(runs) && ReadsFailed(r.value, old(runs[id].facts), code, reason, now)
    {
      CutIsPrefix(code, 64);
      CutIsPrefix(reason, 500);
      if id !in runs {
        return Err(RunMissing);
      }
      var row := runs[id];
      if row.status == COMPLETED {
        return Err(AlreadyCompleted);
      }
      row := row.(status := FAILED);
      row := row.(failureCode := Some(Cut(code, 64)));
      row := row.(failureReason := Some(Cut(reason, 500)));
      row := row.(updatedAt := now);
      runs := runs[id := row];
      r := Ok(ToRun(runs[id], None));
    }

    // -------------------------------------------------------------- reads

    method Hydrate(id: string) returns (r: StoredRun)
      requires id in runs
      ensures r == Hydrated(View(), id, collate)
    {
      var row := runs[id];
      if row.status != COMPLETED {
        return ToRun(row, None);
      }
      var ps := Positions(id);
      var rows := SortBy(DecisionSequence(), Filter(DecidedIn(id), decisions));
      var ds := Map(DecisionOf(), rows);
      r := ToRun(row, Some(RunResult(row.boundaries, row.firstBoundary, row.lastBoundary, ds, ps,
                                     if row.digest.Some? then row.digest.value else "")));
    }

    /** One query for the positions, one for all their events, then a regrouping in memory. */
    method Positions(id: string) returns (r: seq<Position>)
      ensures r == PositionsOf(View(), id, collate)
    {
      var rows := SortBy(Ordinal(), Filter(OfRun(id), positions));
      if rows == [] {
        return [];
      }
      var found := EventRowsOf(View(), Ids(rows), collate);
      FoundAreAsked(View(), Ids(rows), collate);
      var byPosition := Regroup(Ids(rows), found);
      r := [];
      for i := 0 to |rows|
        invariant r == Map(Regrouped(found), rows[..i])
      {
        r := r + [Position(rows[i].id, rows[i].ordinal, rows[i].body, byPosition[rows[i].id])];
        MapGrows(Regrouped(found), rows, i);
      }
      assert rows[..|rows|] == rows;
    }

    static method Regroup(ids: set<string>, found: seq<EventRow>) returns (ledgers: map<string, seq<LedgerEvent>>)
      requires forall e | e in found :: e.positionId in ids
      ensures ledgers.Keys == ids
      ensures forall id | id in ids :: ledgers[id] == Map(EventOf(), Filter(OfPosition(id), found))
    {
      ledgers := map id | id in ids :: [];
      for i := 0 to |found|
        invariant ledgers.Keys == ids
        invariant forall id | id in ids :: ledgers[id] == Map(EventOf(), Filter(OfPosition(id), found[..i]))
      {
        var e := found[i];
        ledgers := ledgers[e.positionId := ledgers[e.positionId] + [e.event]];
        forall id | id in ids ensures ledgers[id] == Map(EventOf(), Filter(OfPosition(id), found[..i + 1])) {
          FilterGrows(OfPosition(id), found, i);
        }
      }
      assert found[..|found|] == found;
    }

    /** Each position's ledger as the performance fold reads it. */
    method LedgersOf(id: string) returns (ledgers: map<string, seq<LedgerEvent>>)
      ensures ledgers.Keys == Ids(PositionRowsOf(View(), id))
      ensures forall p | p in PositionsOf(View(), id, collate) :: p.id in ledgers && ledgers[p.id] == p.events
      ensures forall pid | pid in ledgers :: ledgers[pid] == LedgerOf(events, pid)
    {
      var rows := SortBy(Ordinal(), Filter(OfRun(id), positions));
      var found := EventRowsOf(View(), Ids(rows), collate);
      FoundAreAsked(View(), Ids(rows), collate);
      ledgers := Regroup(Ids(rows), found);
      forall pid | pid in ledgers ensures ledgers[pid] == LedgerOf(events, pid) {
        RegroupedLedger(View(), Ids(rows), pid, collate);
      }
      forall p | p in PositionsOf(View(), id, collate) ensures p.id in ledgers && ledgers[p.id] == p.events {
        MapMembers(Regrouped(found), rows, p);
      }
    }
  }
}
