/** Notes on paper positions, written by any number of people under a version check. Follows
    backend/app/adapters/persistence/journal_store.py and the constraints of
    backend/alembic/versions/0003_paper_journal.py. */
module JournalStore {
  import opened Wrappers

  const MAX_NOTE_LENGTH := 4000
  const MAX_TAGS := 12
  const MAX_INTEGER := 0x7fff_ffff

  datatype Annotation = Annotation(positionId: string, note: Option<string>, tags: seq<string>)

  datatype Row = Row(annotation: Annotation, version: int, createdAt: int, updatedAt: int)

  datatype SaveError =
    | Conflict(expected: int, current: int)
    | UnknownPosition(positionId: string)
    | NotStorable                          // any other integrity or data error, raised as it came

  /** `positions` are the ids the foreign key may name. */
  datatype Tables = Tables(positions: set<string>, rows: map<string, Row>)

  /** What the row's check constraints allow. */
  predicate Storable(a: Annotation) {
    (a.note.Some? ==> |a.note.value| <= MAX_NOTE_LENGTH) && |a.tags| <= MAX_TAGS
  }

  function VersionOf(t: Tables, id: string): int {
    if id in t.rows then t.rows[id].version else 0
  }

  /** What a reader gets. */
  function Read(t: Tables, id: string): Option<Row> {
    if id in t.rows then Some(t.rows[id]) else None
  }

  // ---------------------------------------------------------------- one save

  /** The writing transaction. Checks come first, then the unique key, then the foreign key. */
  function Insert(t: Tables, a: Annotation, now: int): Result<Row, SaveError> {
    if !Storable(a) then Err(NotStorable)
    else if a.positionId in t.rows then Err(Conflict(0, VersionOf(t, a.positionId)))
    else if a.positionId !in t.positions then Err(UnknownPosition(a.positionId))
    else Ok(Row(a, 1, now, now))
  }

  function Update(t: Tables, a: Annotation, expected: int, now: int): Result<Row, SaveError> {
    if a.positionId !in t.rows || t.rows[a.positionId].version != expected then
      Err(Conflict(expected, VersionOf(t, a.positionId)))
    else if !Storable(a) || expected == MAX_INTEGER then Err(NotStorable)
    else Ok(Row(a, expected + 1, t.rows[a.positionId].createdAt, now))
  }

  function Written(t: Tables, a: Annotation, expected: int, now: int): Result<Row, SaveError> {
    if expected == 0 then Insert(t, a, now) else Update(t, a, expected, now)
  }

  function Saved(t: Tables, a: Annotation, expected: int, now: int): Tables {
    var r := Written(t, a, expected, now);
    if r.Ok? then t.(rows := t.rows[a.positionId := r.value]) else t
  }

  class Store {
    var positions: set<string>
    var rows: map<string, Row>

    function View(): Tables
      reads this
    {
      Tables(positions, rows)
    }

    constructor (positions: set<string>)
      ensures View() == Tables(positions, map[])
    {
      this.positions, rows := positions, map[];
    }

    method Get(positionId: string) returns (r: Option<Row>)
      ensures r == Read(View(), positionId)
    {
      r := if positionId in rows then Some(rows[positionId]) else None;
    }

    method CurrentVersion(positionId: string) returns (v: int)
      ensures v == VersionOf(View(), positionId)
    {
      v := if positionId in rows then rows[positionId].version else 0;
    }

    /** Insert at version 1, or update a row still at `expected`. */
    method Save(a: Annotation, expected: int, now: int) returns (r: Result<Row, SaveError>)
      modifies this
      ensures View() == Saved(old(View()), a, expected, now)
      ensures r == Written(old(View()), a, expected, now)
    {
      if expected == 0 {
        r := InsertRow(a, now);
        return;
      }
      if a.positionId !in rows || rows[a.positionId].version != expected {
        var current := CurrentVersion(a.positionId);
        return Err(Conflict(expected, current));
      }
      var row := rows[a.positionId];
      if !Storable(a) || row.version == MAX_INTEGER {
        return Err(NotStorable);
      }
      row := row.(annotation := a, version := row.version + 1, updatedAt := now);
      rows := rows[a.positionId := row];
      r := Ok(row);
    }

    method InsertRow(a: Annotation, now: int) returns (r: Result<Row, SaveError>)
      modifies this
      ensures View() == Saved(old(View()), a, 0, now)
      ensures r == Written(old(View()), a, 0, now)
    {
      if !Storable(a) {
        return Err(NotStorable);
      }
      if a.positionId in rows {
        var current := CurrentVersion(a.positionId);
        return Err(Conflict(0, current));
      }
      if a.positionId !in positions {
        return Err(UnknownPosition(a.positionId));
      }
      rows := rows[a.positionId := Row(a, 1, now, now)];
      r := Ok(rows[a.positionId]);
    }
  }

  // ---------------------------------------------------------------- any number of writers

  /** Whatever commits, in the order it commits: positions appear, people save. */
  datatype Step = AddPosition(positionId: string) | Save(annotation: Annotation, expected: int, now: int)

  function Commit(t: Tables, step: Step): Tables {
    match step
    case AddPosition(id) => t.(positions := t.positions + {id})
    case Save(a, expected, now) => Saved(t, a, expected, now)
  }

  function Run(t: Tables, steps: seq<Step>): Tables {
    if steps == [] then t else Commit(Run(t, steps[..|steps| - 1]), steps[|steps| - 1])
  }

  predicate Succeeds(t: Tables, step: Step, id: string) {
    step.Save? && step.annotation.positionId == id && Written(t, step.annotation, step.expected, step.now).Ok?
  }

  /** The saves of one note that succeeded, in order. */
  function Successes(t: Tables, steps: seq<Step>, id: string): seq<Step> {
    if steps == [] then []
    else
      var before, last := steps[..|steps| - 1], steps[|steps| - 1];
      Successes(t, before, id) + if Succeeds(Run(t, before), last, id) then [last] else []
  }

  function Empty(positions: set<string>): Tables {
    Tables(positions, map[])
  }

  /** The `k`-th save to succeed named version `k - 1` and wrote version `k`: versions run 1, 2, 3,
      ... without a gap, each success replaced exactly the version its writer named, and what is
      stored is what the last success wrote, created when the first one did. */
  lemma {:induction false} VersionsCountSuccesses(positions: set<string>, steps: seq<Step>, id: string)
    ensures var t, log := Run(Empty(positions), steps), Successes(Empty(positions), steps, id);
            && VersionOf(t, id) == |log|
            && (forall k | 0 <= k < |log| :: log[k].Save? && log[k].expected == k)
            && (Read(t, id).Some? <==> log != [])
            && (log != [] ==>
                  var row := Read(t, id).value;
                  && row.annotation == log[|log| - 1].annotation
                  && row.updatedAt == log[|log| - 1].now && row.createdAt == log[0].now)
  {
    if steps != [] {
      VersionsCountSuccesses(positions, steps[..|steps| - 1], id);
    }
  }

  /** Two saves that named the same version never both succeed: no writer's note is lost under
      another's without either having been told. */
  lemma NoVersionIsReplacedTwice(positions: set<string>, steps: seq<Step>, id: string, i: nat, j: nat)
    requires i < j < |steps|
    requires steps[i].Save? && steps[j].Save? && steps[i].expected == steps[j].expected
    ensures !(Succeeds(Run(Empty(positions), steps[..i]), steps[i], id)
              && Succeeds(Run(Empty(positions), steps[..j]), steps[j], id))
  {
    var t := Empty(positions);
    VersionsCountSuccesses(positions, steps[..i], id);
    VersionsCountSuccesses(positions, steps[..i + 1], id);
    VersionsCountSuccesses(positions, steps[..j], id);
    assert steps[..i + 1][..i] == steps[..i];
    SuccessesGrow(t, steps[..j], i + 1, id);
    assert steps[..j][..i + 1] == steps[..i + 1];
  }

  lemma {:induction false} SuccessesGrow(t: Tables, steps: seq<Step>, k: nat, id: string)
    requires k <= |steps|
    ensures Successes(t, steps[..k], id) <= Successes(t, steps, id)
  {
    if k < |steps| {
      SuccessesGrow(t, steps[..|steps| - 1], k, id);
      assert steps[..|steps| - 1][..k] == steps[..k];
    } else {
      assert steps[..k] == steps;
    }
  }

  /** Somebody who named a version they had read at `i` and was refused for it at `j` is told that
      version and a strictly newer one. The source reads the newer one in a transaction of its own,
      later: whenever that is, at `k`, it is newer still. */
  lemma ConflictNamesANewerVersion(
      positions: set<string>, steps: seq<Step>, id: string, i: nat, j: nat, k: nat, a: Annotation, now: int)
    requires i <= j <= k <= |steps| && a.positionId == id
    requires var read := VersionOf(Run(Empty(positions), steps[..i]), id);
             var r := Written(Run(Empty(positions), steps[..j]), a, read, now);
             r.Err? && r.error.Conflict?
    ensures var (read, told) := (VersionOf(Run(Empty(positions), steps[..i]), id),
                                 Written(Run(Empty(positions), steps[..j]), a,
                                         VersionOf(Run(Empty(positions), steps[..i]), id), now).error);
            told.expected == read && told.current > read
    ensures VersionOf(Run(Empty(positions), steps[..k]), id) > VersionOf(Run(Empty(positions), steps[..i]), id)
  {
    var t := Empty(positions);
    VersionsCountSuccesses(positions, steps[..i], id);
    VersionsCountSuccesses(positions, steps[..j], id);
    VersionsCountSuccesses(positions, steps[..k], id);
    SuccessesGrow(t, steps[..j], i, id);
    SuccessesGrow(t, steps[..k], j, id);
    assert steps[..j][..i] == steps[..i] && steps[..k][..j] == steps[..j];
  }

  /** A save that can be stored and names the version in force succeeds: being refused always means
      that somebody else was there first, or that there is no such position. */
  lemma SaveSucceedsIff(t: Tables, a: Annotation, expected: int, now: int)
    requires forall id | id in t.rows :: t.rows[id].version >= 1
    ensures Written(t, a, expected, now).Ok? <==>
            && (a.note.Some? ==> |a.note.value| <= 4000) && |a.tags| <= 12
            && expected == (if a.positionId in t.rows then t.rows[a.positionId].version else 0)
            && (expected == 0 ==> a.positionId in t.positions) && expected != 2_147_483_647
  {
  }

  /** And every refusal says why: a save that named another version than the one in force is told both,
      unless it named none and could not be stored anyway; one for a position nobody has is told so;
      what is left cannot be stored. Whatever is refused leaves every note as it was. */
  lemma RefusalIsNamed(t: Tables, a: Annotation, expected: int, now: int)
    requires forall id | id in t.rows :: t.rows[id].version >= 1
    ensures var r := Written(t, a, expected, now);
            var current := if a.positionId in t.rows then t.rows[a.positionId].version else 0;
            var storable := (a.note.Some? ==> |a.note.value| <= 4000) && |a.tags| <= 12;
            && (r.Err? && r.error.Conflict? <==> expected != current && (expected == 0 ==> storable))
            && (r.Err? && r.error.Conflict? ==> r.error == Conflict(expected, current))
            && (r == Err(UnknownPosition(a.positionId)) <==>
                  expected == current == 0 && storable && a.positionId !in t.positions)
            && (r == Err(NotStorable) <==>
                  if expected == 0 then !storable
                  else expected == current && (!storable || expected == 2_147_483_647))
            && (r.Err? ==> Saved(t, a, expected, now) == t)
            && (r.Ok? ==> Saved(t, a, expected, now).rows == t.rows[a.positionId := r.value])
  {
  }
}
