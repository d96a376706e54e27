/**
 * A data row as the spreadsheet reader and the editors produce it: a plain object whose
 * own keys are the column names, in insertion order, each holding a string. A key the
 * object lacks reads as `undefined`.
 */
module Rows {
  import opened Wrappers

  datatype Record = Record(keys: seq<string>, cells: map<string, string>)

  /** No key occurs twice. */
  predicate NoRepeats(keys: seq<string>)
    decreases |keys|
  {
    keys == [] || (NoRepeats(keys[..|keys| - 1]) && keys[|keys| - 1] !in keys[..|keys| - 1])
  }

  /** Own keys are distinct and are exactly the keys that hold a value. */
  ghost predicate Consistent(r: Record) {
    && (forall k :: k in r.cells <==> k in r.keys)
    && (forall i, j :: 0 <= i < j < |r.keys| ==> r.keys[i] != r.keys[j])
  }

  type Row = r: Record | Consistent(r) witness Record([], map[])

  const EmptyRow: Row := Record([], map[])

  /** Pairwise distinct keys have no repeats. */
  lemma {:induction false} PairwiseNoRepeats(keys: seq<string>)
    requires forall i, j :: 0 <= i < j < |keys| ==> keys[i] != keys[j]
    ensures NoRepeats(keys)
    decreases |keys|
  {
    if keys != [] {
      var init := keys[..|keys| - 1];
      PairwiseNoRepeats(init);
    }
  }
  /** A key not yet present can go last without repeating one. */
  lemma AppendFresh(keys: seq<string>, k: string)
    requires forall i, j :: 0 <= i < j < |keys| ==> keys[i] != keys[j]
    requires k !in keys
    ensures var s := keys + [k]; forall i, j :: 0 <= i < j < |s| ==> s[i] != s[j]
  {
    var s := keys + [k];
    forall i, j | 0 <= i < j < |s| ensures s[i] != s[j] {
      assert s[i] == keys[i];
    }
  }

  /** `row[k]`: the value, or `None` for `undefined`. */
  function Get(row: Row, k: string): Option<string> {
    if k in row.cells then Some(row.cells[k]) else None
  }

  /** `String(row[k])`: `undefined` prints as "undefined". */
  function JsString(c: Option<string>): string {
    match c
    case None => "undefined"
    case Some(s) => s
  }

  /** `String(row[k] ?? '')` and `String(row[k] || '')` (they agree on strings). */
  function OrEmpty(c: Option<string>): string {
    match c
    case None => ""
    case Some(s) => s
  }

  /** `{...row, [k]: v}` and `row[k] = v`: an existing key keeps its place and takes the new
      value; a new key goes last. */
  function Set(row: Row, k: string, v: string): (r: Row)
    ensures Get(r, k) == Some(v)
    ensures forall k' :: k' != k ==> Get(r, k') == Get(row, k')
    ensures k in row.keys ==> r.keys == row.keys
    ensures k !in row.keys ==> r.keys == row.keys + [k]
  {
    if k in row.keys then
      Record(row.keys, row.cells[k := v])
    else
      AppendFresh(row.keys, k);
      Record(row.keys + [k], row.cells[k := v])
  }
}
