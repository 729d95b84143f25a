/** What a reader of the backtest store finds of a run, field by field and in which order, whichever
    way the run ended. Follows the reads of backend/app/adapters/persistence/backtest_store.py and
    its `_to_run`. */
module BacktestReads {
  import opened Wrappers
  import opened Sorting
  import opened BacktestTables
  import opened BacktestResults

  /** The first `n` characters of a text, or all of it if there are fewer. */
  ghost predicate IsCut(r: string, s: string, n: nat) {
    r <= s && |r| == if |s| < n then |s| else n
  }

  lemma CutIsPrefix(s: string, n: nat)
    ensures IsCut(Cut(s, n), s, n)
  {
  }

  // ---------------------------------------------------------------- how a run ended

  ghost predicate ReadsFailed(run: StoredRun, facts: RunFacts, code: string, reason: string, now: int) {
    && run.facts == facts && run.status == FAILED && run.result == None && run.updatedAt == now
    && run.failureCode.Some? && IsCut(run.failureCode.value, code, 64)
    && run.failureReason.Some? && IsCut(run.failureReason.value, reason, 500)
  }

  /** A run that is failed reads back FAILED with the code and the reason it was failed with, each cut
      to its column, and otherwise as it was created; by the full read and by the light one. */
  lemma FailedReadsBack(t: Tables, id: string, code: string, reason: string, now: int, collate: string -> int)
    requires Refusal(t, Fail(id, code, reason, now)).None?
    ensures var t' := Commit(t, Fail(id, code, reason, now));
            && t'.runs.Keys == t.runs.Keys
            && ReadsFailed(Hydrated(t', id, collate), t.runs[id].facts, code, reason, now)
            && ReadsFailed(Head(t', id).0, t.runs[id].facts, code, reason, now)
  {
    CutIsPrefix(code, 64);
    CutIsPrefix(reason, 500);
  }

  /** A run just created reads back as it was handed over, with neither failure nor result. */
  lemma CreatedReadsBack(t: Tables, facts: RunFacts, status: Status, updatedAt: int, collate: string -> int)
    requires Sound(t) && Refusal(t, CreateRun(facts, status, updatedAt)).None?
    ensures var t' := Commit(t, CreateRun(facts, status, updatedAt));
            && facts.id in t'.runs
            && Hydrated(t', facts.id, collate) == StoredRun(facts, status, None, None, None, updatedAt)
            && Head(t', facts.id).0 == StoredRun(facts, status, None, None, None, updatedAt)
  {
    CreateRefusedIff(t, facts, status, updatedAt);
  }

  /** A row states a failure exactly when it is FAILED, and an outcome only when it is COMPLETED. */
  ghost predicate Told(row: RunRow) {
    && (row.failureCode.Some? <==> row.status == FAILED) && (row.failureReason.Some? <==> row.status == FAILED)
    && (row.digest.Some? <==> row.status == COMPLETED)
    && (row.status != COMPLETED ==>
          row.boundaries == 0 && row.firstBoundary == None && row.lastBoundary == None)
  }

  ghost predicate AllTold(t: Tables) {
    Sound(t) && forall id | id in t.runs :: Told(t.runs[id])
  }

  lemma CommitTells(t: Tables, txn: Transaction)
    requires AllTold(t)
    ensures AllTold(Commit(t, txn))
  {
    CommitIsSound(t, txn);
    if txn.CreateRun? {
      CreateRefusedIff(t, txn.facts, txn.status, txn.updatedAt);
    }
  }

  lemma {:induction false} EveryRunTells(datasets: set<string>, txns: seq<Transaction>)
    ensures AllTold(Run(Empty(datasets), txns))
  {
    if txns != [] {
      EveryRunTells(datasets, txns[..|txns| - 1]);
      CommitTells(Run(Empty(datasets), txns[..|txns| - 1]), txns[|txns| - 1]);
    }
  }

  /** After every sequence of transactions, refused or not: a run reads back with a code and a reason
      if it FAILED and with neither otherwise, with a result if it COMPLETED and with none otherwise;
      and the light read says the same, counting nothing for a run without a result. */
  lemma EveryReadTells(datasets: set<string>, txns: seq<Transaction>, id: string, collate: string -> int)
    requires id in Run(Empty(datasets), txns).runs
    ensures var t := Run(Empty(datasets), txns);
            var run, (light, totals) := Hydrated(t, id, collate), Head(t, id);
            && run.facts.id == id && light == run.(result := None)
            && (run.failureCode.Some? <==> run.status == FAILED)
            && (run.failureReason.Some? <==> run.status == FAILED)
            && (run.result.Some? <==> run.status == COMPLETED)
            && (run.status != COMPLETED ==> totals == Totals(0, None, None, None, 0, 0))
  {
    EveryRunTells(datasets, txns);
    var t := Run(Empty(datasets), txns);
    if t.runs[id].status != COMPLETED {
      NoRowsYet(t, id);
    }
  }

  /** What a run was asked to do never changes, nor is a run ever lost. */
  lemma {:induction false} FactsStay(t: Tables, txns: seq<Transaction>, id: string)
    requires id in t.runs
    ensures id in Run(t, txns).runs && Run(t, txns).runs[id].facts == t.runs[id].facts
  {
    if txns != [] {
      FactsStay(t, txns[..|txns| - 1], id);
    }
  }

  /** Every refusal says which it is. */
  lemma RefusalsAreNamed(t: Tables, txn: Transaction)
    requires txn.Publish? || txn.Fail?
    ensures Refusal(t, txn) == Some(RunMissing) <==> txn.id !in t.runs
    ensures Refusal(t, txn) == Some(Terminal) <==>
            txn.Publish? && txn.id in t.runs && t.runs[txn.id].status in {FAILED, COMPLETED}
    ensures Refusal(t, txn) == Some(AlreadyCompleted) <==>
            txn.Fail? && txn.id in t.runs && t.runs[txn.id].status == COMPLETED
    ensures txn.Fail? && txn.id in t.runs && t.runs[txn.id].status != COMPLETED ==> Refusal(t, txn) == None
    ensures Refusal(t, txn).Some? ==> Commit(t, txn) == t
  {
  }

  // ---------------------------------------------------------------- what the result reads like

  /** A decision is kept as it was handed over, its two reasons cut to 500 characters. */
  lemma DecisionIsKept(d: Decision)
    ensures var r := StoredDecision(d);
            && r.sequence == d.sequence && r.asOf == d.asOf && r.bars == d.bars
            && r.positionId == d.positionId && r.detail == d.detail
            && IsCut(r.reason, d.reason, 500)
            && (r.riskReason.Some? <==> d.riskReason.Some?)
            && (r.riskReason.Some? ==> IsCut(r.riskReason.value, d.riskReason.value, 500))
  {
  }

  ghost predicate DecisionsRise(ds: seq<Decision>) {
    forall i, j | 0 <= i < j < |ds| :: ds[i].sequence < ds[j].sequence
  }

  ghost predicate PositionsRise(ps: seq<Position>) {
    forall i, j | 0 <= i < j < |ps| :: ps[i].ordinal < ps[j].ordinal
  }

  ghost predicate EventsRise(es: seq<LedgerEvent>) {
    forall i, j | 0 <= i < j < |es| :: es[i].sequence < es[j].sequence
  }

  lemma ReadDecisionsRise(t: Tables, id: string)
    requires Consistent(t)
    ensures DecisionsRise(DecisionsOf(t, id))
  {
    var mine := Filter(DecidedIn(id), t.decisions);
    FilterUnique(DecisionKey(), DecidedIn(id), t.decisions);
    forall i, j | 0 <= i < j < |mine| ensures DecisionSequence()(mine[i]) != DecisionSequence()(mine[j]) {
      FilterMembers(DecidedIn(id), t.decisions, mine[i]);
      FilterMembers(DecidedIn(id), t.decisions, mine[j]);
      assert DecisionKey()(mine[i]) != DecisionKey()(mine[j]);
    }
    SortDistinct(DecisionSequence(), mine);
    var rows := DecisionRowsOf(t, id);
    forall i, j | 0 <= i < j < |rows| ensures rows[i].decision.sequence < rows[j].decision.sequence {
      assert DecisionSequence()(rows[i]) < DecisionSequence()(rows[j]);
    }
  }

  lemma ReadPositionsRise(t: Tables, id: string, collate: string -> int)
    requires Consistent(t)
    ensures PositionsRise(PositionsOf(t, id, collate))
  {
    var mine := Filter(OfRun(id), t.positions);
    FilterUnique(RunOrdinal(), OfRun(id), t.positions);
    forall i, j | 0 <= i < j < |mine| ensures Ordinal()(mine[i]) != Ordinal()(mine[j]) {
      FilterMembers(OfRun(id), t.positions, mine[i]);
      FilterMembers(OfRun(id), t.positions, mine[j]);
      assert RunOrdinal()(mine[i]) != RunOrdinal()(mine[j]);
    }
    SortDistinct(Ordinal(), mine);
    var rows := PositionRowsOf(t, id);
    forall i, j | 0 <= i < j < |rows| ensures rows[i].ordinal < rows[j].ordinal {
      assert Ordinal()(rows[i]) < Ordinal()(rows[j]);
    }
  }

  lemma ReadEventsRise(t: Tables, pid: string)
    requires Consistent(t)
    ensures EventsRise(LedgerOf(t.events, pid))
  {
    LedgerRises(t, pid);
    var rows := LedgerRows(t, pid);
    forall i, j | 0 <= i < j < |rows| ensures rows[i].event.sequence < rows[j].event.sequence {
      assert EventSequence()(rows[i]) < EventSequence()(rows[j]);
    }
  }

  /** Whatever order it was handed over in, a result reads back with its decisions and its positions
      numbered upwards, and every ledger too. */
  lemma ResultReadsInOrder(t: Tables, id: string, collate: string -> int)
    requires Consistent(t) && id in t.runs && Hydrated(t, id, collate).result.Some?
    ensures var result := Hydrated(t, id, collate).result.value;
            && DecisionsRise(result.decisions) && PositionsRise(result.positions)
            && forall p | p in result.positions :: EventsRise(p.events)
  {
    ReadDecisionsRise(t, id);
    ReadPositionsRise(t, id, collate);
    PositionsHaveTheirLedgers(t, id, collate);
    var ps := PositionsOf(t, id, collate);
    forall p | p in ps ensures EventsRise(p.events) {
      MapMembers(WithLedger(t.events), PositionRowsOf(t, id), p);
      ReadEventsRise(t, p.id);
    }
  }

  /** Decision `offset + k` of the full read is the `k`-th of the page, up to `limit` of them. */
  lemma TracePageIsStretch(t: Tables, id: string, offset: nat, limit: nat)
    ensures var ((page, total), all) := (TracePage(t, id, offset, limit), DecisionsOf(t, id));
            && total == |all|
            && |page| == (if offset >= |all| then 0 else if |all| - offset < limit then |all| - offset else limit)
            && forall k | 0 <= k < |page| :: page[k] == all[offset + k]
  {
    TracePageIsSlice(t, id, offset, limit);
  }
}
