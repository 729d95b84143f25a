/** The backtest run store as values: its four tables, the schema's constraints, and its three
    transactions. Follows backend/app/adapters/persistence/backtest_store.py and
    backend/alembic/versions/0006_backtest.py. `BacktestStore` is the object that runs them. */
module BacktestTables {
  import opened Wrappers
  import opened Sorting

  // ---------------------------------------------------------------- what is stored, and what is handed over

  datatype Status = PENDING | RUNNING | COMPLETED | FAILED

  /** What a run was asked to do. `configuration` stands for every column no rule here reads. */
  datatype RunFacts = RunFacts(
    id: string, attemptKey: string, datasetId: string, intervalStart: int, intervalEnd: int,
    configuration: string, createdAt: int)

  datatype RunRow = RunRow(
    facts: RunFacts, status: Status, failureCode: Option<string>, failureReason: Option<string>,
    boundaries: int, firstBoundary: Option<int>, lastBoundary: Option<int>,
    digest: Option<string>, updatedAt: int)

  /** `body` stands for the encoded spec, approval and product snapshot. */
  datatype PositionRow = PositionRow(id: string, runId: string, ordinal: int, body: string, createdAt: int)

  datatype EventRow = EventRow(positionId: string, event: LedgerEvent)

  datatype DecisionRow = DecisionRow(runId: string, decision: Decision)

  /** `sequence` numbers a position's events from one. */
  datatype LedgerEvent = LedgerEvent(sequence: int, kind: string, marketTime: Option<int>, data: string)

  /** `detail` stands for the outcome, the risk outcome and the direction. */
  datatype Decision = Decision(
    sequence: int, asOf: int, reason: string, riskReason: Option<string>, bars: int,
    positionId: Option<string>, detail: string)

  datatype Position = Position(id: string, ordinal: int, body: string, events: seq<LedgerEvent>)

  datatype RunResult = RunResult(
    boundaries: int, firstBoundary: Option<int>, lastBoundary: Option<int>,
    decisions: seq<Decision>, positions: seq<Position>, digest: string)

  datatype StoredRun = StoredRun(
    facts: RunFacts, status: Status, failureCode: Option<string>, failureReason: Option<string>,
    result: Option<RunResult>, updatedAt: int)

  datatype Totals = Totals(
    boundaries: int, firstBoundary: Option<int>, lastBoundary: Option<int>, digest: Option<string>,
    decisionCount: nat, positionCount: nat)

  datatype StoreError =
    | DuplicateRun      // any integrity violation while creating
    | RunMissing        // reported as the store being unavailable
    | Terminal          // publishing what has already ended
    | AlreadyCompleted  // failing what has a result
    | ConstraintRefused // the database would not take the result; nothing was written

  /** Tables in insertion order. `datasets` are the ids the runs' foreign key may name. */
  datatype Tables = Tables(
    datasets: set<string>, runs: map<string, RunRow>, positions: seq<PositionRow>,
    events: seq<EventRow>, decisions: seq<DecisionRow>)

  // ---------------------------------------------------------------- the schema's constraints

  const MAX_INTEGER := 0x7fff_ffff

  predicate RunRowOk(row: RunRow, datasets: set<string>) {
    && row.facts.datasetId in datasets
    && row.facts.intervalStart < row.facts.intervalEnd
    && 0 <= row.boundaries <= MAX_INTEGER
    && (row.status == COMPLETED ==> row.digest.Some?)
    && (row.status == FAILED ==> row.failureCode.Some?)
    && (row.failureCode.Some? ==> |row.failureCode.value| <= 64)
    && (row.failureReason.Some? ==> |row.failureReason.value| <= 500)
    && (row.digest.Some? ==> |row.digest.value| <= 64)
  }

  predicate PositionRowOk(row: PositionRow) {
    |row.id| <= 64 && 1 <= row.ordinal <= MAX_INTEGER
  }

  predicate EventRowOk(row: EventRow) {
    1 <= row.event.sequence <= MAX_INTEGER && |row.event.kind| <= 40
  }

  predicate DecisionRowOk(row: DecisionRow) {
    var d := row.decision;
    && 1 <= d.sequence <= MAX_INTEGER && 0 <= d.bars <= MAX_INTEGER && |d.reason| <= 500
    && (d.riskReason.Some? ==> |d.riskReason.value| <= 500)
    && (d.positionId.Some? ==> |d.positionId.value| <= 64)
  }

  function PositionId(): PositionRow -> string {
    (p: PositionRow) => p.id
  }

  function RunOrdinal(): PositionRow -> (string, int) {
    (p: PositionRow) => (p.runId, p.ordinal)
  }

  function EventKey(): EventRow -> (string, int) {
    (e: EventRow) => (e.positionId, e.event.sequence)
  }

  function DecisionKey(): DecisionRow -> (string, int) {
    (d: DecisionRow) => (d.runId, d.decision.sequence)
  }

  predicate PositionsOk(rows: seq<PositionRow>, runs: map<string, RunRow>) {
    && (forall p | p in rows :: PositionRowOk(p) && p.runId in runs)
    && Unique(PositionId(), rows) && Unique(RunOrdinal(), rows)
  }

  predicate Owned(id: string, positions: seq<PositionRow>) {
    exists p :: p in positions && p.id == id
  }

  predicate EventsOk(rows: seq<EventRow>, positions: seq<PositionRow>) {
    && (forall e | e in rows :: EventRowOk(e) && Owned(e.positionId, positions))
    && Unique(EventKey(), rows)
  }

  predicate DecisionsOk(rows: seq<DecisionRow>, runs: map<string, RunRow>) {
    && (forall d | d in rows :: DecisionRowOk(d) && d.runId in runs)
    && Unique(DecisionKey(), rows)
  }

  predicate RunsOk(runs: map<string, RunRow>, datasets: set<string>) {
    && (forall id | id in runs :: runs[id].facts.id == id && RunRowOk(runs[id], datasets))
    && (forall a, b | a in runs && b in runs && a != b :: runs[a].facts.attemptKey != runs[b].facts.attemptKey)
  }

  /** Everything the schema insists on. A transaction that would break it is rolled back. */
  predicate Consistent(t: Tables) {
    RunsOk(t.runs, t.datasets) && PositionsOk(t.positions, t.runs)
    && EventsOk(t.events, t.positions) && DecisionsOk(t.decisions, t.runs)
  }

  // ---------------------------------------------------------------- the transactions

  function Cut(s: string, n: nat): string {
    if |s| > n then s[..n] else s
  }

  function CutOption(s: Option<string>, n: nat): Option<string> {
    if s.None? then None else Some(Cut(s.value, n))
  }

  function StoredDecision(d: Decision): Decision {
    d.(reason := Cut(d.reason, 500), riskReason := CutOption(d.riskReason, 500))
  }

  function ToPositionRow(runId: string, now: int): Position -> PositionRow {
    (p: Position) => PositionRow(p.id, runId, p.ordinal, p.body, now)
  }

  function ToEventRow(positionId: string): LedgerEvent -> EventRow {
    (e: LedgerEvent) => EventRow(positionId, e)
  }

  function ToDecisionRow(runId: string): Decision -> DecisionRow {
    (d: Decision) => DecisionRow(runId, StoredDecision(d))
  }

  /** Every position's events, one position after the other. */
  function Flattened(positions: seq<Position>): seq<EventRow> {
    if positions == [] then []
    else Map(ToEventRow(positions[0].id), positions[0].events) + Flattened(positions[1..])
  }

  function Created(t: Tables, facts: RunFacts, status: Status, updatedAt: int): Tables {
    t.(runs := t.runs[facts.id := RunRow(facts, status, None, None, 0, None, None, None, updatedAt)])
  }

  function Published(t: Tables, id: string, result: RunResult, now: int): Tables
    requires id in t.runs
  {
    t.(positions := t.positions + Map(ToPositionRow(id, now), result.positions),
       events := t.events + Flattened(result.positions),
       decisions := t.decisions + Map(ToDecisionRow(id), result.decisions),
       runs := t.runs[id := t.runs[id].(
                 status := COMPLETED, boundaries := result.boundaries,
                 firstBoundary := result.firstBoundary, lastBoundary := result.lastBoundary,
                 digest := Some(result.digest), updatedAt := now)])
  }

  function Failed(t: Tables, id: string, code: string, reason: string, now: int): Tables
    requires id in t.runs
  {
    t.(runs := t.runs[id := t.runs[id].(
         status := FAILED, failureCode := Some(Cut(code, 64)), failureReason := Some(Cut(reason, 500)),
         updatedAt := now)])
  }

  datatype Transaction =
    | CreateRun(facts: RunFacts, status: Status, updatedAt: int)
    | Publish(id: string, result: RunResult, now: int)
    | Fail(id: string, code: string, reason: string, now: int)

  function Refusal(t: Tables, txn: Transaction): Option<StoreError> {
    match txn
    case CreateRun(facts, status, updatedAt) =>
      if facts.id in t.runs || !Consistent(Created(t, facts, status, updatedAt)) then Some(DuplicateRun) else None
    case Publish(id, result, now) =>
      if id !in t.runs then Some(RunMissing)
      else if t.runs[id].status in {FAILED, COMPLETED} then Some(Terminal)
      else if !Consistent(Published(t, id, result, now)) then Some(ConstraintRefused)
      else None
    case Fail(id, _, _, _) =>
      if id !in t.runs then Some(RunMissing)
      else if t.runs[id].status == COMPLETED then Some(AlreadyCompleted)
      else None
  }

  function Commit(t: Tables, txn: Transaction): Tables {
    if Refusal(t, txn).Some? then t
    else
      match txn
      case CreateRun(facts, status, updatedAt) => Created(t, facts, status, updatedAt)
      case Publish(id, result, now) => Published(t, id, result, now)
      case Fail(id, code, reason, now) => Failed(t, id, code, reason, now)
  }

  function Run(t: Tables, txns: seq<Transaction>): Tables {
    if txns == [] then t else Commit(Run(t, txns[..|txns| - 1]), txns[|txns| - 1])
  }

  // ---------------------------------------------------------------- the reads

  function OfRun(id: string): PositionRow -> bool {
    (p: PositionRow) => p.runId == id
  }

  function DecidedIn(id: string): DecisionRow -> bool {
    (d: DecisionRow) => d.runId == id
  }

  function Ordinal(): PositionRow -> int {
    (p: PositionRow) => p.ordinal
  }

  function DecisionSequence(): DecisionRow -> int {
    (d: DecisionRow) => d.decision.sequence
  }

  function EventSequence(): EventRow -> int {
    (e: EventRow) => e.event.sequence
  }

  function ByPosition(collate: string -> int): EventRow -> int {
    (e: EventRow) => collate(e.positionId)
  }

  function OfPosition(id: string): EventRow -> bool {
    (e: EventRow) => e.positionId == id
  }

  function OfAny(ids: set<string>): EventRow -> bool {
    (e: EventRow) => e.positionId in ids
  }

  function EventOf(): EventRow -> LedgerEvent {
    (e: EventRow) => e.event
  }

  function DecisionOf(): DecisionRow -> Decision {
    (d: DecisionRow) => d.decision
  }

  function PositionRowsOf(t: Tables, id: string): seq<PositionRow> {
    SortBy(Ordinal(), Filter(OfRun(id), t.positions))
  }

  function DecisionRowsOf(t: Tables, id: string): seq<DecisionRow> {
    SortBy(DecisionSequence(), Filter(DecidedIn(id), t.decisions))
  }

  function Ids(rows: seq<PositionRow>): set<string> {
    set p | p in rows :: p.id
  }

  /** `ORDER BY position_id, sequence`; `collate` is the database's order of strings. */
  function EventRowsOf(t: Tables, ids: set<string>, collate: string -> int): seq<EventRow> {
    SortBy(ByPosition(collate), SortBy(EventSequence(), Filter(OfAny(ids), t.events)))
  }

  /** One position with the events a regrouping of `events` gives it. */
  function Regrouped(events: seq<EventRow>): PositionRow -> Position {
    (row: PositionRow) =>
      Position(row.id, row.ordinal, row.body, Map(EventOf(), Filter(OfPosition(row.id), events)))
  }

  function PositionsOf(t: Tables, id: string, collate: string -> int): seq<Position> {
    var rows := PositionRowsOf(t, id);
    Map(Regrouped(EventRowsOf(t, Ids(rows), collate)), rows)
  }

  function DecisionsOf(t: Tables, id: string): seq<Decision> {
    Map(DecisionOf(), DecisionRowsOf(t, id))
  }

  function ToRun(row: RunRow, result: Option<RunResult>): StoredRun {
    StoredRun(row.facts, row.status, row.failureCode, row.failureReason, result, row.updatedAt)
  }

  function Hydrated(t: Tables, id: string, collate: string -> int): StoredRun
    requires id in t.runs
  {
    var row := t.runs[id];
    if row.status != COMPLETED then ToRun(row, None)
    else
      ToRun(row, Some(RunResult(
        row.boundaries, row.firstBoundary, row.lastBoundary, DecisionsOf(t, id), PositionsOf(t, id, collate),
        if row.digest.Some? then row.digest.value else "")))
  }

  function Head(t: Tables, id: string): (StoredRun, Totals)
    requires id in t.runs
  {
    var row := t.runs[id];
    (ToRun(row, None),
     Totals(row.boundaries, row.firstBoundary, row.lastBoundary, row.digest,
            |Filter(DecidedIn(id), t.decisions)|, |Filter(OfRun(id), t.positions)|))
  }

  function Slice<T>(xs: seq<T>, offset: nat, limit: nat): seq<T> {
    var end := if offset + limit < |xs| then offset + limit else |xs|;
    if offset >= |xs| then [] else xs[offset..end]
  }

  function TracePage(t: Tables, id: string, offset: nat, limit: nat): (seq<Decision>, nat) {
    (Map(DecisionOf(), Slice(DecisionRowsOf(t, id), offset, limit)), |Filter(DecidedIn(id), t.decisions)|)
  }

  function After(sequence: int): EventRow -> bool {
    (e: EventRow) => e.event.sequence > sequence
  }

  function EventsPage(t: Tables, positionId: string, after: int, limit: nat): (seq<LedgerEvent>, nat) {
    var ledger := Filter(OfPosition(positionId), t.events);
    (Map(EventOf(), Slice(SortBy(EventSequence(), Filter(After(after), ledger)), 0, limit)), |ledger|)
  }

  // ---------------------------------------------------------------- only completed runs have rows

  /** A run has decision or position rows (hence event rows), or a digest, only if COMPLETED. */
  ghost predicate OnlyCompletedHaveRows(t: Tables) {
    && (forall p | p in t.positions :: p.runId in t.runs && t.runs[p.runId].status == COMPLETED)
    && (forall d | d in t.decisions :: d.runId in t.runs && t.runs[d.runId].status == COMPLETED)
    && (forall id | id in t.runs :: t.runs[id].digest.Some? ==> t.runs[id].status == COMPLETED)
  }

  ghost predicate Sound(t: Tables) {
    Consistent(t) && OnlyCompletedHaveRows(t)
  }

  lemma FailIsConsistent(t: Tables, id: string, code: string, reason: string, now: int)
    requires Consistent(t) && id in t.runs && t.runs[id].status != COMPLETED
    ensures Consistent(Failed(t, id, code, reason, now))
  {
    var t' := Failed(t, id, code, reason, now);
    assert t'.runs.Keys == t.runs.Keys;
    assert RunRowOk(t'.runs[id], t.datasets);
  }

  lemma CommitIsSound(t: Tables, txn: Transaction)
    requires Sound(t)
    ensures Sound(Commit(t, txn))
  {
    var t' := Commit(t, txn);
    if Refusal(t, txn).None? {
      match txn
      case CreateRun(facts, status, updatedAt) =>
      case Publish(id, result, now) =>
        forall p | p in Map(ToPositionRow(id, now), result.positions) ensures p.runId == id {}
        forall d | d in Map(ToDecisionRow(id), result.decisions) ensures d.runId == id {}
      case Fail(id, code, reason, now) =>
        FailIsConsistent(t, id, code, reason, now);
    }
  }

  function Empty(datasets: set<string>): Tables {
    Tables(datasets, map[], [], [], [])
  }

  /** Over every sequence of transactions, refused or not. */
  lemma {:induction false} EveryRunIsSound(datasets: set<string>, txns: seq<Transaction>)
    ensures Sound(Run(Empty(datasets), txns))
  {
    if txns != [] {
      EveryRunIsSound(datasets, txns[..|txns| - 1]);
      CommitIsSound(Run(Empty(datasets), txns[..|txns| - 1]), txns[|txns| - 1]);
    }
  }
}
