
/**
 * The home page (app/page.tsx): three dataset slots, the active tab and the findings of
 * the last validation run, plus the pure helpers the grid uses to show them.
 */
module Page {
  import opened Wrappers
  import opened JsText
  import opened Json
  import opened Rows
  import opened Validator
  import opened Seqs

  /** `getCellErrors(entity, rowIndex, column)`: the messages of the findings about one cell. */
  function GetCellErrors(errors: seq<Finding>, e: Entity, r: int, col: string): (ms: seq<string>)
    ensures |ms| <= |errors|
    decreases |errors|
  {
    if errors == [] then []
    else
      var f := errors[|errors| - 1];
      GetCellErrors(errors[..|errors| - 1], e, r, col) +
        (if f.entity == e && f.row == r && f.column == col then [f.message] else [])
  }

  /** Some finding is about the cell. */
  predicate About(errors: seq<Finding>, e: Entity, r: int, col: string) {
    exists f :: f in errors && f.entity == e && f.row == r && f.column == col
  }

  /** `getCellErrors` has messages exactly when some finding is about the cell. */
  lemma {:induction false} MessagesIffAbout(errors: seq<Finding>, e: Entity, r: int, col: string)
    ensures About(errors, e, r, col) <==> GetCellErrors(errors, e, r, col) != []
    decreases |errors|
  {
    if errors != [] {
      var init := errors[..|errors| - 1];
      MessagesIffAbout(init, e, r, col);
      assert errors == init + [errors[|errors| - 1]];
    }
  }

  /** `hasError(entity, rowIndex, column)`: a cell is highlighted exactly when it has
      messages to show. */
  predicate HasError(errors: seq<Finding>, e: Entity, r: int, col: string)
    ensures HasError(errors, e, r, col) <==> GetCellErrors(errors, e, r, col) != []
  {
    MessagesIffAbout(errors, e, r, col);
    About(errors, e, r, col)
  }

  /** Filtering distributes over concatenation, so `getCellErrors` keeps finding order. */
  lemma {:induction false} CellErrorsAppend(a: seq<Finding>, b: seq<Finding>, e: Entity, r: int, col: string)
    ensures GetCellErrors(a + b, e, r, col) == GetCellErrors(a, e, r, col) + GetCellErrors(b, e, r, col)
    decreases |b|
  {
    if b == [] {
      assert a + b == a;
    } else {
      var init, f := b[..|b| - 1], b[|b| - 1];
      DropLast(a, b);
      CellErrorsAppend(a, init, e, r, col);
      var x, y := GetCellErrors(a, e, r, col), GetCellErrors(init, e, r, col);
      var z := if f.entity == e && f.row == r && f.column == col then [f.message] else [];
      assert GetCellErrors(a + b, e, r, col) == (x + y) + z;
      Assoc(x, y, z);
    }
  }

  /** `CellErrorsAppend` for a list known to be the concatenation of two others. */
  lemma CellErrorsSplit(all: seq<Finding>, a: seq<Finding>, b: seq<Finding>, e: Entity, r: int, col: string)
    requires all == a + b
    ensures GetCellErrors(all, e, r, col) == GetCellErrors(a, e, r, col) + GetCellErrors(b, e, r, col)
  {
    CellErrorsAppend(a, b, e, r, col);
  }

  /** Findings about other cells contribute nothing. */
  lemma {:induction false} CellErrorsNone(errors: seq<Finding>, e: Entity, r: int, col: string)
    requires forall f :: f in errors ==> !(f.entity == e && f.row == r && f.column == col)
    ensures GetCellErrors(errors, e, r, col) == []
    decreases |errors|
  {
    if errors != [] {
      CellErrorsNone(errors[..|errors| - 1], e, r, col);
    }
  }

  /** `getHeaders(data)`: the first row's own keys. */
  function GetHeaders(data: seq<Row>): (headers: seq<string>)
    ensures |data| == 0 ==> headers == []
    ensures |data| > 0 ==> forall k :: k in headers <==> Get(data[0], k).Some?
    ensures forall i, j :: 0 <= i < j < |headers| ==> headers[i] != headers[j]
    ensures |data| > 0 ==> headers == data[0].keys
  {
    if |data| == 0 then []
    else
      data[0].keys
  }

  /** `updateData` inside `handleCellChange`: a copy of the rows with one cell replaced. */
  function UpdateData(prev: seq<Row>, rowIndex: nat, column: string, newValue: string): (data: seq<Row>)
    requires rowIndex < |prev|
    ensures |data| == |prev|
    ensures forall i :: 0 <= i < |prev| && i != rowIndex ==> data[i] == prev[i]
    ensures Get(data[rowIndex], column) == Some(newValue)
    ensures forall k :: k != column ==> Get(data[rowIndex], k) == Get(prev[rowIndex], k)
    ensures GetHeaders(data) == GetHeaders(prev) || (rowIndex == 0 && GetHeaders(data) == GetHeaders(prev) + [column])
  {
    prev[rowIndex := Set(prev[rowIndex], column, newValue)]
  }

  /** The `taskIDs` passed to the rule builder: trimmed `String(TaskID)` of each task, empties dropped. */
  function TaskIds(tasks: seq<Row>): (ids: seq<string>)
    ensures |ids| <= |tasks|
    ensures "" !in ids
    decreases |tasks|
  {
    if tasks == [] then []
    else
      var id := TaskIdOf(tasks[|tasks| - 1]);
      TaskIds(tasks[..|tasks| - 1]) + (if id == "" then [] else [id])
  }

  /** One task contributes its trimmed ID, unless that is empty. */
  lemma TaskIdsOne(t: Row)
    ensures TaskIds([t]) == if TaskIdOf(t) == "" then [] else [TaskIdOf(t)]
  {
  }

  /** The IDs of two task lists, one after the other: task order is kept and a repeated
      ID is listed once per task. */
  lemma {:induction false} TaskIdsAppend(a: seq<Row>, b: seq<Row>)
    ensures TaskIds(a + b) == TaskIds(a) + TaskIds(b)
    decreases |b|
  {
    if b == [] {
      assert a + b == a;
    } else {
      var init, t := b[..|b| - 1], b[|b| - 1];
      DropLast(a, b);
      TaskIdsAppend(a, init);
      var x, y := TaskIds(a), TaskIds(init);
      var z := if TaskIdOf(t) == "" then [] else [TaskIdOf(t)];
      assert TaskIds(a + b) == (x + y) + z;
      Assoc(x, y, z);
    }
  }

  /** The rule builder offers exactly the non-empty IDs the reference check accepts. */
  lemma {:induction false} TaskIdsMatchValidator(tasks: seq<Row>)
    ensures forall id :: id in TaskIds(tasks) <==> id in TaskIdSet(tasks) && id != ""
    decreases |tasks|
  {
    if tasks != [] {
      TaskIdsMatchValidator(tasks[..|tasks| - 1]);
    }
  }

  /** The row label of the validation summary: `err.row === -1 ? 'Header' : err.row + 1`. */
  function RowLabel(row: int): (shown: string)
    ensures row == -1 ==> shown == "Header"
    ensures row >= 0 ==> |shown| > 0 && '0' <= shown[0] <= '9'
  {
    if row == -1 then "Header" else IntToString(row + 1)
  }

  /** A data row's label reads back as its one-based position. */
  lemma RowLabelReadsBack(row: nat)
    ensures ParseInt(RowLabel(row)) == Some(row + 1)
    ensures RowLabel(row) != "Header"
  {
    ParseIntRoundTrip(row + 1);
  }

  /** The page state. `validationErrors` is recomputed after every change of the data
      (the effect that calls `runValidations`). */
  class HomePage {
    var clientData: seq<Row>
    var workerData: seq<Row>
    var taskData: seq<Row>
    var activeTab: Entity
    var validationErrors: seq<Finding>
    /** `JSON.parse`, as the validator sees it. */
    const decode: Decoder

    function Data(): Dataset
      reads this
    {
      Dataset(clientData, workerData, taskData)
    }

    /** The findings on screen belong to the data on screen. */
    ghost predicate Valid()
      reads this
    {
      validationErrors == Findings(Data(), decode)
    }

    constructor(decode: Decoder)
      ensures clientData == [] && workerData == [] && taskData == []
      ensures activeTab == Clients && this.decode == decode
      ensures validationErrors == [] && Valid()
    {
      clientData, workerData, taskData := [], [], [];
      activeTab := Clients;
      this.decode := decode;
      new;
      RunValidations();
    }

    /** `runValidations`. */
    method RunValidations()
      modifies this
      ensures validationErrors == Findings(Data(), decode) && Valid()
      ensures clientData == old(clientData) && workerData == old(workerData) && taskData == old(taskData)
      ensures activeTab == old(activeTab)
    {
      validationErrors := ValidateAll(Data(), decode);
    }

    /** `handleFileUpload(entity, data)`, followed by the re-validation it triggers. */
    method HandleFileUpload(e: Entity, data: seq<Row>)
      modifies this
      ensures Data() == match e
        case Clients => old(Data()).(clients := data)
        case Workers => old(Data()).(workers := data)
        case Tasks => old(Data()).(tasks := data)
      ensures activeTab == e
      ensures Valid()
    {
      match e {
        case Clients => clientData := data; activeTab := Clients;
        case Workers => workerData := data; activeTab := Workers;
        case Tasks => taskData := data; activeTab := Tasks;
      }
      RunValidations();
    }

    /** `handleCellChange(entity, rowIndex, column, newValue)`, followed by the re-validation. */
    method HandleCellChange(e: Entity, rowIndex: nat, column: string, newValue: string)
      requires rowIndex < |RowsOf(Data(), e)|
      modifies this
      ensures Data() == match e
        case Clients => old(Data()).(clients := UpdateData(old(clientData), rowIndex, column, newValue))
        case Workers => old(Data()).(workers := UpdateData(old(workerData), rowIndex, column, newValue))
        case Tasks => old(Data()).(tasks := UpdateData(old(taskData), rowIndex, column, newValue))
      ensures activeTab == old(activeTab)
      ensures Valid()
    {
      match e {
        case Clients => clientData := UpdateData(clientData, rowIndex, column, newValue);
        case Workers => workerData := UpdateData(workerData, rowIndex, column, newValue);
        case Tasks => taskData := UpdateData(taskData, rowIndex, column, newValue);
      }
      RunValidations();
    }
  }
}
