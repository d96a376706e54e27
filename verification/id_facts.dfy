/**
 * Check 2 of `validateAll` (`checkIDs`), stated over what the grid shows in a row's ID cell:
 * an empty ID is reported as missing, the first row holding an ID is never reported,
 * and every later row holding the same ID is reported as a duplicate.
 */
module IdFacts {
  import opened Wrappers
  import opened Json
  import opened Rows
  import opened Validator
  import opened Page
  import opened ValidatorFacts
  import opened Seqs

  /** Some row before `r` holds the same trimmed ID as row `r`. */
  ghost predicate SeenBefore(rows: seq<Row>, key: string, r: nat)
    requires r < |rows|
  {
    exists j :: 0 <= j < r && TrimmedId(rows[j], key) == TrimmedId(rows[r], key)
  }

  /** The messages the ID cell of row `r` should carry. */
  ghost function IdMessages(rows: seq<Row>, key: string, r: nat): seq<string>
    requires r < |rows|
  {
    var id := TrimmedId(rows[r], key);
    if id == "" then [MissingIdMessage]
    else if SeenBefore(rows, key, r) then [DuplicateIdPrefix + id]
    else []
  }

  /** A row's non-empty ID is in the `seen` set of every longer prefix. */
  lemma {:induction false} SeenIdsHas(rows: seq<Row>, key: string, j: nat)
    requires j < |rows| && TrimmedId(rows[j], key) != ""
    ensures TrimmedId(rows[j], key) in SeenIds(rows, key)
    decreases |rows|
  {
    var k := |rows| - 1;
    SeenIdsGrow(rows, key);
    if j < k {
      SeenIdsHas(rows[..k], key, j);
      assert rows[..k][j] == rows[j];
    }
  }

  /** The `seen` set only grows, and takes in the last row's non-empty ID. */
  lemma SeenIdsGrow(rows: seq<Row>, key: string)
    requires rows != []
    ensures SeenIds(rows[..|rows| - 1], key) <= SeenIds(rows, key)
    ensures TrimmedId(rows[|rows| - 1], key) != "" ==> TrimmedId(rows[|rows| - 1], key) in SeenIds(rows, key)
  {
  }

  /** Every member of the `seen` set is the non-empty ID of some row already visited. */
  lemma {:induction false} SeenIdsWitness(rows: seq<Row>, key: string, x: string) returns (j: nat)
    requires x in SeenIds(rows, key)
    ensures j < |rows| && TrimmedId(rows[j], key) == x && x != ""
    decreases |rows|
  {
    var k := |rows| - 1;
    if x in SeenIds(rows[..k], key) {
      j := SeenIdsWitness(rows[..k], key, x);
      assert rows[..k][j] == rows[j];
    } else {
      j := k;
    }
  }

  /** One row's verdict, read from its own ID cell. */
  lemma VerdictCell(seen: set<string>, row: Row, i: nat, key: string, e: Entity)
    ensures var id := TrimmedId(row, key);
      GetCellErrors(IdVerdict(seen, row, i, key, e), e, i, key) ==
        if id == "" then [MissingIdMessage] else if id in seen then [DuplicateIdPrefix + id] else []
  {
    var v := IdVerdict(seen, row, i, key, e);
    assert GetCellErrors(v, e, i, key) == GetCellErrors([], e, i, key) +
      (if v != [] then [v[0].message] else []);
  }

  /** A non-empty ID is in the `seen` set exactly when an earlier row holds it. */
  lemma SeenMeansBefore(rows: seq<Row>, key: string, r: nat)
    requires r < |rows| && TrimmedId(rows[r], key) != ""
    ensures TrimmedId(rows[r], key) in SeenIds(rows[..r], key) <==> SeenBefore(rows, key, r)
  {
    var id := TrimmedId(rows[r], key);
    if SeenBefore(rows, key, r) {
      var j :| 0 <= j < r && TrimmedId(rows[j], key) == id;
      assert rows[..r][j] == rows[j];
      SeenIdsHas(rows[..r], key, j);
    }
    if id in SeenIds(rows[..r], key) {
      var j := SeenIdsWitness(rows[..r], key, id);
      assert rows[..r][j] == rows[j];
    }
  }

  /** The verdict for row `r`, read as the messages of its ID cell. */
  lemma VerdictMessages(rows: seq<Row>, key: string, e: Entity, r: nat)
    requires r < |rows|
    ensures GetCellErrors(IdVerdict(SeenIds(rows[..r], key), rows[r], r, key, e), e, r, key) ==
      IdMessages(rows, key, r)
  {
    VerdictCell(SeenIds(rows[..r], key), rows[r], r, key, e);
    if TrimmedId(rows[r], key) != "" {
      SeenMeansBefore(rows, key, r);
    }
  }

  /** Row `r`'s expected messages depend only on the rows up to it. */
  lemma IdMessagesPrefix(rows: seq<Row>, key: string, k: nat, r: nat)
    requires r < k <= |rows|
    ensures IdMessages(rows[..k], key, r) == IdMessages(rows, key, r)
  {
    var init := rows[..k];
    assert init[r] == rows[r];
    if SeenBefore(rows, key, r) {
      var j :| 0 <= j < r && TrimmedId(rows[j], key) == TrimmedId(rows[r], key);
      assert init[j] == rows[j];
    }
    if SeenBefore(init, key, r) {
      var j :| 0 <= j < r && TrimmedId(init[j], key) == TrimmedId(init[r], key);
      assert init[j] == rows[j];
    }
  }

  lemma VerdictRow(seen: set<string>, row: Row, i: nat, key: string, e: Entity)
    ensures forall f :: f in IdVerdict(seen, row, i, key, e) ==> f.row == i
  {
  }

  /** `checkIDs` over one table, read from the ID cell of row `r`. */
  lemma {:induction false} IdFindingsCell(rows: seq<Row>, key: string, e: Entity, r: nat)
    requires r < |rows|
    ensures GetCellErrors(IdFindings(rows, key, e), e, r, key) == IdMessages(rows, key, r)
    decreases |rows|, 1
  {
    if r < |rows| - 1 {
      EarlierIdCell(rows, key, e, r);
    } else {
      LastIdCell(rows, key, e);
    }
  }

  /** An ID cell, read from the rows before the last and from the last row's verdict. */
  lemma IdCellsSplit(rows: seq<Row>, key: string, e: Entity, r: int)
    requires |rows| > 0
    ensures var k := |rows| - 1;
      GetCellErrors(IdFindings(rows, key, e), e, r, key) ==
        GetCellErrors(IdFindings(rows[..k], key, e), e, r, key) +
        GetCellErrors(IdVerdict(SeenIds(rows[..k], key), rows[k], k, key, e), e, r, key)
  {
    var k := |rows| - 1;
    CellErrorsSplit(IdFindings(rows, key, e), IdFindings(rows[..k], key, e),
      IdVerdict(SeenIds(rows[..k], key), rows[k], k, key, e), e, r, key);
  }

  /** The last row's verdict leaves the ID cells of earlier rows alone. */
  lemma {:induction false} EarlierIdCell(rows: seq<Row>, key: string, e: Entity, r: nat)
    requires r < |rows| - 1
    ensures GetCellErrors(IdFindings(rows, key, e), e, r, key) == IdMessages(rows, key, r)
    decreases |rows|, 0
  {
    var k := |rows| - 1;
    var init := rows[..k];
    var v := IdVerdict(SeenIds(init, key), rows[k], k, key, e);
    var before := IdFindings(init, key, e);
    var want := IdMessages(rows, key, r);
    IdCellsSplit(rows, key, e, r);
    assert GetCellErrors(before, e, r, key) == want by {
      IdFindingsCell(init, key, e, r);
      IdMessagesPrefix(rows, key, k, r);
    }
    assert GetCellErrors(v, e, r, key) == [] by {
      VerdictRow(SeenIds(init, key), rows[k], k, key, e);
      CellErrorsNone(v, e, r, key);
    }
    assert want + [] == want;
  }

  /** The ID cell of the last row shows that row's verdict alone. */
  lemma LastIdCell(rows: seq<Row>, key: string, e: Entity)
    requires |rows| > 0
    ensures GetCellErrors(IdFindings(rows, key, e), e, |rows| - 1, key) == IdMessages(rows, key, |rows| - 1)
  {
    var k := |rows| - 1;
    var init := rows[..k];
    var v := IdVerdict(SeenIds(init, key), rows[k], k, key, e);
    var before := IdFindings(init, key, e);
    var want := IdMessages(rows, key, k);
    IdCellsSplit(rows, key, e, k);
    assert GetCellErrors(before, e, k, key) == [] by {
      CellErrorsNone(before, e, k, key);
    }
    assert GetCellErrors(v, e, k, key) == want by {
      VerdictMessages(rows, key, e, k);
    }
    assert [] + want == want;
  }

  /** Check 2 of one table seen from the ID cell of row `r` of table `e`. */
  lemma TableIdCell(d: Dataset, t: Entity, e: Entity, r: nat)
    requires r < |RowsOf(d, e)|
    ensures GetCellErrors(IdFindings(RowsOf(d, t), IdKey(t), t), e, r, IdKey(e)) ==
      if t == e then IdMessages(RowsOf(d, e), IdKey(e), r) else []
  {
    if t == e {
      IdFindingsCell(RowsOf(d, e), IdKey(e), e, r);
    } else {
      CellErrorsNone(IdFindings(RowsOf(d, t), IdKey(t), t), e, r, IdKey(e));
    }
  }

  /** All of check 2 seen from the ID cell of row `r` of table `e`. */
  lemma IdChecksCell(d: Dataset, e: Entity, r: nat)
    requires r < |RowsOf(d, e)|
    ensures GetCellErrors(IdCheckFindings(d), e, r, IdKey(e)) == IdMessages(RowsOf(d, e), IdKey(e), r)
  {
    var i1 := IdFindings(d.clients, "ClientID", Clients);
    var i2 := IdFindings(d.workers, "WorkerID", Workers);
    var i3 := IdFindings(d.tasks, "TaskID", Tasks);
    var col, mine := IdKey(e), IdMessages(RowsOf(d, e), IdKey(e), r);
    assert IdCheckFindings(d) == i1 + i2 + i3;
    CellErrorsAppend(i1 + i2, i3, e, r, col);
    CellErrorsAppend(i1, i2, e, r, col);
    TableIdCell(d, Clients, e, r);
    TableIdCell(d, Workers, e, r);
    TableIdCell(d, Tasks, e, r);
    OneOfThree(e, mine, GetCellErrors(i1, e, r, col), GetCellErrors(i2, e, r, col), GetCellErrors(i3, e, r, col));
  }

  /** Check 2 end to end: the ID cell of row `r` shows "Missing or empty ID" when the
      trimmed ID is empty, "Duplicate ID: id" when an earlier row of the same table holds
      that ID, and nothing otherwise; no other check writes to an ID cell. */
  lemma IdCell(d: Dataset, decode: Decoder, e: Entity, r: nat)
    requires r < |RowsOf(d, e)|
    ensures GetCellErrors(Findings(d, decode), e, r, IdKey(e)) == IdMessages(RowsOf(d, e), IdKey(e), r)
  {
    var ctx := ContextOf(d, decode);
    var hd, ids, rc := HeaderFindings(d), IdCheckFindings(d), RowCheckFindings(d, ctx);
    CellErrorsAppend(hd + ids, rc, e, r, IdKey(e));
    CellErrorsAppend(hd, ids, e, r, IdKey(e));
    assert GetCellErrors(hd, e, r, IdKey(e)) == [] by {
      HeaderShape(d);
      CellErrorsNone(hd, e, r, IdKey(e));
    }
    assert GetCellErrors(rc, e, r, IdKey(e)) == [] by {
      RowCheckShape(d, ctx);
      CellErrorsNone(rc, e, r, IdKey(e));
    }
    IdChecksCell(d, e, r);
  }

  /** The first row holding a non-empty ID is never reported in its ID cell. */
  lemma FirstOccurrenceSilent(d: Dataset, decode: Decoder, e: Entity, r: nat)
    requires r < |RowsOf(d, e)|
    requires TrimmedId(RowsOf(d, e)[r], IdKey(e)) != ""
    requires forall j :: 0 <= j < r ==>
      TrimmedId(RowsOf(d, e)[j], IdKey(e)) != TrimmedId(RowsOf(d, e)[r], IdKey(e))
    ensures GetCellErrors(Findings(d, decode), e, r, IdKey(e)) == []
  {
    IdCell(d, decode, e, r);
  }

  /** Every later row holding an already seen ID carries exactly one duplicate message. */
  lemma RepeatFlagged(d: Dataset, decode: Decoder, e: Entity, j: nat, r: nat)
    requires j < r < |RowsOf(d, e)|
    requires TrimmedId(RowsOf(d, e)[r], IdKey(e)) != ""
    requires TrimmedId(RowsOf(d, e)[j], IdKey(e)) == TrimmedId(RowsOf(d, e)[r], IdKey(e))
    ensures GetCellErrors(Findings(d, decode), e, r, IdKey(e)) ==
      [DuplicateIdPrefix + TrimmedId(RowsOf(d, e)[r], IdKey(e))]
  {
    IdCell(d, decode, e, r);
  }
}
