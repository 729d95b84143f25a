/** Folding a selection of positions in one read. Follows `_fold_positions` of
    backend/app/adapters/performance/paper_source.py. */
module PaperSource {
  import opened Wrappers
  import opened Sorting
  import opened PaperEvents
  import opened PaperLedger

  /** One row of the event table, as the query returns it: financial events only, ordered by
      position and sequence. */
  datatype Row = Row(positionId: string, event: Event)

  function OfPosition(id: string): Row -> bool {
    (r: Row) => r.positionId == id
  }

  function EventOf(): Row -> Event {
    (r: Row) => r.event
  }

  function LedgerOf(id: string, rows: seq<Row>): seq<Event> {
    Map(EventOf(), Filter(OfPosition(id), rows))
  }

  predicate HasRows(id: string, rows: seq<Row>) {
    exists r :: r in rows && r.positionId == id
  }

  /** The position of an id in the selection. */
  function IndexIn(ids: seq<string>, id: string): nat {
    if ids == [] || ids[0] == id then 0 else 1 + IndexIn(ids[1..], id)
  }

  function ByIndex(ids: seq<string>): Outcome -> int {
    (o: Outcome) => IndexIn(ids, o.positionId)
  }

  ghost predicate NoRepeats(ids: seq<string>) {
    forall i, j | 0 <= i < j < |ids| :: ids[i] != ids[j]
  }

  /** The fold of one position's own rows. */
  function Folded(id: string, rows: seq<Row>): Result<Outcome, FoldError> {
    Fold(id, LedgerOf(id, rows))
  }

  /** Every selected position that has rows, in the order of the selection, folded by itself. */
  function FoldEach(ids: seq<string>, rows: seq<Row>): seq<Result<Outcome, FoldError>> {
    if ids == [] then []
    else
      (if HasRows(ids[0], rows) then [Folded(ids[0], rows)] else []) + FoldEach(ids[1..], rows)
  }

  function OfAnExit(): Row -> bool {
    (r: Row) => IsExit(r.event.kind)
  }

  function ExitRows(rows: seq<Row>): nat {
    |Filter(OfAnExit(), rows)|
  }

  /** The count of fills is one for every row that is a target, a stop or a close on request filled. */
  lemma ExitRowsCount(rows: seq<Row>, r: Row)
    ensures ExitRows([]) == 0
    ensures ExitRows(rows + [r]) ==
            ExitRows(rows) + if r.event.kind in {TARGET_FILLED, STOP_FILLED, MANUAL_EXIT_FILLED} then 1 else 0
  {
    FilterAppend(OfAnExit(), rows, [r]);
    assert [r][1..] == [];
  }

  lemma {:induction false} IndexOfNth(ids: seq<string>, i: nat)
    requires NoRepeats(ids) && i < |ids|
    ensures IndexIn(ids, ids[i]) == i
  {
    if i > 0 {
      assert ids[0] != ids[i];
      IndexOfNth(ids[1..], i - 1);
    }
  }

  lemma {:induction false} IndexPoints(ids: seq<string>, id: string)
    requires id in ids
    ensures IndexIn(ids, id) < |ids| && ids[IndexIn(ids, id)] == id
  {
    if ids[0] != id {
      assert ids == [ids[0]] + ids[1..];
      IndexPoints(ids[1..], id);
    }
  }

  lemma FoldKeepsId(id: string, rows: seq<Row>)
    ensures Folded(id, rows).Ok? ==> Folded(id, rows).value.positionId == id
  {
  }

  // ---------------------------------------------------------------- grouping

  lemma RowsGrow(rows: seq<Row>, i: nat)
    requires i < |rows|
    ensures forall id :: HasRows(id, rows[..i + 1]) <==> HasRows(id, rows[..i]) || id == rows[i].positionId
    ensures forall id :: LedgerOf(id, rows[..i + 1]) ==
                         LedgerOf(id, rows[..i]) + if id == rows[i].positionId then [rows[i].event] else []
  {
    assert rows[..i + 1] == rows[..i] + [rows[i]];
    forall id ensures HasRows(id, rows[..i + 1]) <==> HasRows(id, rows[..i]) || id == rows[i].positionId {
      assert rows[i] in rows[..i + 1];
    }
    forall id ensures LedgerOf(id, rows[..i + 1]) ==
                      LedgerOf(id, rows[..i]) + if id == rows[i].positionId then [rows[i].event] else []
    {
      FilterGrows(OfPosition(id), rows, i);
    }
  }

  method Grouped(rows: seq<Row>) returns (keys: seq<string>, grouped: map<string, seq<Event>>)
    ensures NoRepeats(keys) && forall id :: id in grouped <==> id in keys
    ensures forall id :: id in keys <==> HasRows(id, rows)
    ensures forall id | id in keys :: grouped[id] == LedgerOf(id, rows)
  {
    keys, grouped := [], map[];
    for i := 0 to |rows|
      invariant NoRepeats(keys) && forall id :: id in grouped <==> id in keys
      invariant forall id :: id in keys <==> HasRows(id, rows[..i])
      invariant forall id | id in keys :: grouped[id] == LedgerOf(id, rows[..i])
    {
      var row := rows[i];
      RowsGrow(rows, i);
      if row.positionId !in grouped {
        NoLedger(row.positionId, rows[..i]);
        keys := keys + [row.positionId];
        grouped := grouped[row.positionId := []];
      }
      grouped := grouped[row.positionId := grouped[row.positionId] + [row.event]];
    }
    assert rows[..|rows|] == rows;
  }

  lemma NoLedger(id: string, rows: seq<Row>)
    requires !HasRows(id, rows)
    ensures LedgerOf(id, rows) == []
  {
    FilterNone(OfPosition(id), rows);
  }

  // ---------------------------------------------------------------- in the order of the selection

  ghost predicate AllOk(results: seq<Result<Outcome, FoldError>>) {
    forall i | 0 <= i < |results| :: results[i].Ok?
  }

  function Values(results: seq<Result<Outcome, FoldError>>): seq<Outcome>
    requires forall i | 0 <= i < |results| :: results[i].Ok?
  {
    seq(|results|, i requires 0 <= i < |results| => results[i].value)
  }

  lemma {:induction false} FoldEachHas(ids: seq<string>, rows: seq<Row>, r: Result<Outcome, FoldError>)
    ensures r in FoldEach(ids, rows) <==>
            exists id :: id in ids && HasRows(id, rows) && r == Folded(id, rows)
  {
    if ids != [] {
      FoldEachHas(ids[1..], rows, r);
      assert ids == [ids[0]] + ids[1..];
    }
  }

  lemma ValuesSplit(results: seq<Result<Outcome, FoldError>>)
    requires AllOk(results) && results != []
    ensures AllOk(results[1..]) && Values(results) == [results[0].value] + Values(results[1..])
  {
  }

  lemma ConsRises(all: seq<string>, o: Outcome, tail: seq<Outcome>)
    requires Increasing(ByIndex(all), tail) && forall t | t in tail :: ByIndex(all)(o) < ByIndex(all)(t)
    ensures Increasing(ByIndex(all), [o] + tail)
  {
  }

  /** Reading the results in the order of the selection is sorting them by it. */
  lemma {:induction false} FoldEachRises(ids: seq<string>, rows: seq<Row>, all: seq<string>, from: nat)
    requires NoRepeats(all) && from <= |all| && ids == all[from..]
    requires AllOk(FoldEach(ids, rows))
    ensures Increasing(ByIndex(all), Values(FoldEach(ids, rows)))
    ensures forall o | o in Values(FoldEach(ids, rows)) :: ByIndex(all)(o) >= from
    decreases |ids|
  {
    if ids != [] {
      var results, rest := FoldEach(ids, rows), FoldEach(ids[1..], rows);
      if HasRows(ids[0], rows) {
        ValuesSplit(results);
        assert results[1..] == rest;
        FoldEachRises(ids[1..], rows, all, from + 1);
        IndexOfNth(all, from);
        FoldKeepsId(ids[0], rows);
        ConsRises(all, results[0].value, Values(rest));
      } else {
        assert results == rest;
        FoldEachRises(ids[1..], rows, all, from + 1);
      }
    }
  }

  method FoldKeys(ids: seq<string>, rows: seq<Row>, keys: seq<string>, grouped: map<string, seq<Event>>)
    returns (found: Result<seq<Outcome>, FoldError>)
    requires forall id | id in keys :: id in grouped && grouped[id] == LedgerOf(id, rows)
    requires forall id | id in keys :: id in ids && HasRows(id, rows)
    ensures found.Ok? ==>
              |found.value| == |keys| && forall k | 0 <= k < |keys| :: Folded(keys[k], rows) == Ok(found.value[k])
    ensures found.Err? ==> Err(found.error) in FoldEach(ids, rows)
  {
    var records: seq<Outcome> := [];
    for i := 0 to |keys|
      invariant |records| == i
      invariant forall k | 0 <= k < i :: Folded(keys[k], rows) == Ok(records[k])
    {
      assert keys[i] in keys;
      var record := Fold(keys[i], grouped[keys[i]]);
      assert record == Folded(keys[i], rows);
      if record.Err? {
        FoldEachHas(ids, rows, record);
        return Err(record.error);
      }
      records := records + [record.value];
    }
    found := Ok(records);
  }

  lemma NothingSelected(ids: seq<string>, rows: seq<Row>)
    requires forall r | r in rows :: r.positionId in ids
    ensures ids == [] ==> rows == []
  {
    if rows != [] {
      assert rows[0] in rows;
    }
  }

  /** One record for every selected position there is something about, in the order of the
      selection, each folding exactly its own events; or the error of one that cannot be read. */
  method FoldPositions(ids: seq<string>, rows: seq<Row>)
    returns (records: Result<seq<Outcome>, FoldError>, fills: nat)
    requires NoRepeats(ids) && forall r | r in rows :: r.positionId in ids
    ensures records.Ok? <==> AllOk(FoldEach(ids, rows))
    ensures records.Ok? ==> records.value == Values(FoldEach(ids, rows)) && fills == ExitRows(rows)
    ensures records.Err? ==> Err(records.error) in FoldEach(ids, rows)
  {
    if ids == [] {
      NothingSelected(ids, rows);
      return Ok([]), 0;
    }
    var keys, grouped := Grouped(rows);
    forall id | id in keys ensures id in ids && HasRows(id, rows) {}
    var found := FoldKeys(ids, rows, keys, grouped);
    if found.Err? {
      return Err(found.error), 0;
    }
    FoundIsSelection(ids, rows, keys, found.value);
    fills := ExitRows(rows);
    records := Ok(SortBy(ByIndex(ids), found.value));
  }

  lemma FoundIsSelection(ids: seq<string>, rows: seq<Row>, keys: seq<string>, found: seq<Outcome>)
    requires NoRepeats(ids) && NoRepeats(keys) && |found| == |keys|
    requires forall id :: id in keys <==> HasRows(id, rows)
    requires forall id | id in keys :: id in ids
    requires forall k | 0 <= k < |keys| :: Folded(keys[k], rows) == Ok(found[k])
    ensures AllOk(FoldEach(ids, rows)) && SortBy(ByIndex(ids), found) == Values(FoldEach(ids, rows))
  {
    var results := FoldEach(ids, rows);
    forall r | r in results ensures exists k :: 0 <= k < |keys| && r == Ok(found[k]) {
      FoldEachHas(ids, rows, r);
      var id :| id in ids && HasRows(id, rows) && r == Folded(id, rows);
      var k :| 0 <= k < |keys| && keys[k] == id;
    }
    forall i | 0 <= i < |results| ensures results[i].Ok? {
      assert results[i] in results;
    }
    var values := Values(results);
    FoundAreDistinct(ids, rows, keys, found);
    SortDistinct(ByIndex(ids), found);
    SortMembers(ByIndex(ids), found);
    assert ids[0..] == ids;
    FoldEachRises(ids, rows, ids, 0);
    forall o ensures o in found <==> o in values {
      if o in found {
        var k :| 0 <= k < |found| && found[k] == o;
        assert keys[k] in keys;
        FoldEachHas(ids, rows, Ok(o));
        var i :| 0 <= i < |results| && results[i] == Ok(o);
        assert values[i] == o;
      }
      if o in values {
        var i :| 0 <= i < |values| && values[i] == o;
        assert results[i] in results;
      }
    }
    IncreasingIsUnique(ByIndex(ids), SortBy(ByIndex(ids), found), values);
  }

  lemma FoundAreDistinct(ids: seq<string>, rows: seq<Row>, keys: seq<string>, found: seq<Outcome>)
    requires NoRepeats(keys) && |found| == |keys|
    requires forall id | id in keys :: id in ids
    requires forall k | 0 <= k < |keys| :: Folded(keys[k], rows) == Ok(found[k])
    ensures Distinct(ByIndex(ids), found)
  {
    forall i, j | 0 <= i < j < |found| ensures ByIndex(ids)(found[i]) != ByIndex(ids)(found[j]) {
      FoldKeepsId(keys[i], rows);
      FoldKeepsId(keys[j], rows);
      assert keys[i] in keys && keys[j] in keys;
      IndexPoints(ids, keys[i]);
      IndexPoints(ids, keys[j]);
    }
  }

  /** The paper source counts every exit, the backtest source the fills of the records: one count
      for the same ledger exactly when every exit carries a market time. */
  lemma {:induction false} FillCountsAgreeIff(exits: seq<Event>, modelled: bool)
    ensures |FillsOf(exits, modelled)| <= |exits|
    ensures |FillsOf(exits, modelled)| == |exits| <==> forall e | e in exits :: e.time.Some?
  {
    if exits != [] {
      FillCountsAgreeIff(exits[1..], modelled);
      assert exits == [exits[0]] + exits[1..];
    }
  }
}
