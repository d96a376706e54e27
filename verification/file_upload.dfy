/**
 * The upload card of one table: it reads a spreadsheet or CSV file, cleans the rows the
 * sheet reader returns, and hands them on, or shows why it could not.
 */
module FileUpload {
  import opened Seqs
  import opened Wrappers
  import opened JsText
  import opened Rows

  // ----- row cleaning -----

  /** Columns the sheet reader invents for header cells that are blank. */
  const EmptyColumnPrefix := "__EMPTY"

  predicate IsEmptyColumn(key: string) {
    StartsWith(key, EmptyColumnPrefix)
  }

  /** The `i`-th key of `row` is kept, and is stored under the name `t`. */
  predicate KeptAs(row: Row, i: nat, t: string)
    requires i < |row.keys|
  {
    !IsEmptyColumn(row.keys[i]) && Trim(row.keys[i]) == t
  }

  /** `row[key]` for the `i`-th own key, which always holds a value. */
  function ValueAt(row: Row, i: nat): (v: string)
    requires i < |row.keys|
    ensures Get(row, row.keys[i]) == Some(v)
  {
    row.cells[row.keys[i]]
  }

  /** The `cleaned` object after the `for…in` loop has visited the first `n` keys: a kept key
      is written under its trimmed name, so a later key overwrites an earlier one with the
      same trimmed name. */
  function CleanPrefix(row: Row, n: nat): (cleaned: Row)
    requires n <= |row.keys|
    ensures |cleaned.keys| <= n
    decreases n
  {
    if n == 0 then EmptyRow
    else
      var key := row.keys[n - 1];
      var acc := CleanPrefix(row, n - 1);
      if IsEmptyColumn(key) then acc else Set(acc, Trim(key), ValueAt(row, n - 1))
  }

  /** The cleaned copy of one row. */
  function CleanedRow(row: Row): (cleaned: Row)
    ensures |cleaned.keys| <= |row.keys|
  {
    CleanPrefix(row, |row.keys|)
  }

  /** A key that is dropped or stored under another name leaves the name `t` as it was. */
  lemma OtherKeyStep(row: Row, n: nat, t: string)
    requires 0 < n <= |row.keys| && !KeptAs(row, n - 1, t)
    ensures Get(CleanPrefix(row, n), t) == Get(CleanPrefix(row, n - 1), t)
  {
  }

  /** The key kept under the name `t` sets it to its own value. */
  lemma KeptKeyStep(row: Row, n: nat, t: string)
    requires 0 < n <= |row.keys| && KeptAs(row, n - 1, t)
    ensures Get(CleanPrefix(row, n), t) == Some(ValueAt(row, n - 1))
  {
  }

  /** Every kept key is present after cleaning, under its trimmed name. */
  lemma {:induction false} KeptKeyPresent(row: Row, n: nat, i: nat, t: string)
    requires i < n <= |row.keys| && KeptAs(row, i, t)
    ensures Get(CleanPrefix(row, n), t).Some?
    decreases n
  {
    if KeptAs(row, n - 1, t) {
      KeptKeyStep(row, n, t);
    } else {
      OtherKeyStep(row, n, t);
      KeptKeyPresent(row, n - 1, i, t);
    }
  }

  /** Every name present after cleaning comes from a kept key that trims to it. */
  lemma {:induction false} CleanedNameSource(row: Row, n: nat, t: string) returns (i: nat)
    requires n <= |row.keys| && Get(CleanPrefix(row, n), t).Some?
    ensures i < n && KeptAs(row, i, t)
    decreases n
  {
    assert n > 0;
    if KeptAs(row, n - 1, t) {
      i := n - 1;
    } else {
      OtherKeyStep(row, n, t);
      assert Get(CleanPrefix(row, n - 1), t).Some?;
      i := CleanedNameSource(row, n - 1, t);
    }
  }

  /** Under a name, the cleaned row holds the value of the last kept key that trims to it. */
  lemma {:induction false} LaterKeyWins(row: Row, n: nat, i: nat, t: string)
    requires i < n <= |row.keys| && KeptAs(row, i, t)
    requires forall j :: i < j < n ==> !KeptAs(row, j, t)
    ensures Get(CleanPrefix(row, n), t) == Get(row, row.keys[i])
    decreases n
  {
    if i < n - 1 {
      LaterKeyWins(row, n - 1, i, t);
      OtherKeyStep(row, n, t);
    } else {
      KeptKeyStep(row, n, t);
    }
  }

  /** `for (const key in row)` building `cleaned`. */
  method CleanRow(row: Row) returns (cleaned: Row)
    ensures cleaned == CleanedRow(row)
  {
    cleaned := EmptyRow;
    for i := 0 to |row.keys|
      invariant cleaned == CleanPrefix(row, i)
    {
      var key := row.keys[i];
      if !IsEmptyColumn(key) {
        cleaned := Set(cleaned, Trim(key), ValueAt(row, i));
      }
    }
  }

  /** `Object.values(row).some(val => val !== "" && val != null)`. The reader is asked for
      `""` in place of missing cells, so every value is a string. */
  predicate HasContent(row: Row)
    ensures HasContent(row) ==> row.keys != []
  {
    exists k :: k in row.cells && row.cells[k] != ""
  }

  /** The `map(clean).filter(hasContent)` pipeline over the rows the sheet reader returns. */
  function CleanRows(raw: seq<Row>): (rows: seq<Row>)
    ensures |rows| <= |raw|
    ensures forall r :: r in rows ==> HasContent(r)
    decreases |raw|
  {
    if raw == [] then []
    else
      var cleaned := CleanedRow(raw[|raw| - 1]);
      CleanRows(raw[..|raw| - 1]) + (if HasContent(cleaned) then [cleaned] else [])
  }

  /** The pipeline works row by row: surviving rows keep their order. */
  lemma {:induction false} CleanRowsAppend(a: seq<Row>, b: seq<Row>)
    ensures CleanRows(a + b) == CleanRows(a) + CleanRows(b)
    decreases |b|
  {
    if b == [] {
      assert a + b == a;
    } else {
      var init, cleaned := b[..|b| - 1], CleanedRow(b[|b| - 1]);
      DropLast(a, b);
      CleanRowsAppend(a, init);
      var p, q := CleanRows(a), CleanRows(init);
      var t := if HasContent(cleaned) then [cleaned] else [];
      assert CleanRows(a + b) == (p + q) + t;
      Assoc(p, q, t);
    }
  }

  // ----- reading a file -----

  /** What `FileReader` produced: an array buffer, a text, or `null`. */
  datatype Content = ArrayBuffer(bytes: seq<bv8>) | Text(text: string) | Null

  /** `!data`: `null` and the empty string are falsy; an array buffer never is. */
  predicate Falsy(data: Content) {
    data.Null? || (data.Text? && data.text == "")
  }

  /** `XLSX.read` followed by `sheet_to_json` on the first sheet: the rows, or the message of
      the exception they throw. The spreadsheet library is not part of this model. */
  type SheetReader = Content -> Result<seq<Row>>

  /** How the file is read, decided by its name. */
  datatype ReadMode = AsArrayBuffer | AsText | NoRead

  function ReadModeOf(name: string): (mode: ReadMode)
    ensures mode == AsText <==> EndsWith(name, ".csv")
    ensures mode == AsArrayBuffer <==> EndsWith(name, ".xlsx") || EndsWith(name, ".xls")
  {
    assert EndsWith(name, ".csv") ==> name[|name| - 1] == 'v';
    assert EndsWith(name, ".xlsx") ==> name[|name| - 1] == 'x';
    assert EndsWith(name, ".xls") ==> name[|name| - 1] == 's';
    if EndsWith(name, ".xlsx") || EndsWith(name, ".xls") then AsArrayBuffer
    else if EndsWith(name, ".csv") then AsText
    else NoRead
  }

  /** How the `onload` handler ends. */
  datatype Outcome =
    | Loaded(rows: seq<Row>)
    | EmptyContent
    | SheetFailure(message: string)
    | Unsupported
    | NoData

  const EmptyContentMessage := "File content is empty."
  const UnsupportedMessage := "Unsupported file type. Please upload a .csv or .xlsx file."
  const NoDataMessage :=
    "File parsed successfully, but no valid data or headers were found. Ensure your file is not empty or has correct headers."
  const ReadFailurePrefix := "Failed to read file: "

  /** The `onload` handler's `try` block for the file `name`. */
  function LoadOutcome(name: string, data: Content, read: SheetReader): (o: Outcome)
    ensures Falsy(data) ==> o == EmptyContent
    ensures o.Loaded? ==> |o.rows| > 0 && forall r :: r in o.rows ==> HasContent(r)
    ensures o == Unsupported <==> !Falsy(data) && ReadModeOf(name) == NoRead
    ensures o.Loaded? ==> read(data).Success? && o.rows == CleanRows(read(data).value)
    ensures o == NoData <==>
      !Falsy(data) && ReadModeOf(name) != NoRead && read(data).Success? && CleanRows(read(data).value) == []
  {
    if Falsy(data) then EmptyContent
    else if ReadModeOf(name) == NoRead then Unsupported
    else
      match read(data)
      case Failure(message) => SheetFailure(message)
      case Success(raw) =>
        var rows := CleanRows(raw);
        if |rows| == 0 then NoData else Loaded(rows)
  }

  /** The error line the card shows for a failed load. */
  function ErrorText(name: string, o: Outcome): string
    requires !o.Loaded?
  {
    "Error parsing " + name + ": " +
      match o
      case EmptyContent => EmptyContentMessage
      case SheetFailure(message) => message
      case Unsupported => UnsupportedMessage
      case NoData => NoDataMessage
  }

  /** A name ending in `.xlsx` or `.xls` is read as an array buffer and one ending in
      `.csv` as text; the comparison is case-sensitive, so `.CSV` is not read at all. */
  lemma ExtensionDispatch(stem: string)
    ensures ReadModeOf(stem + ".xlsx") == AsArrayBuffer
    ensures ReadModeOf(stem + ".xls") == AsArrayBuffer
    ensures ReadModeOf(stem + ".csv") == AsText
    ensures ReadModeOf(stem + ".CSV") == NoRead
  {
    assert (stem + ".xlsx")[|stem + ".xlsx"| - 5..] == ".xlsx";
    assert (stem + ".xls")[|stem + ".xls"| - 4..] == ".xls";
    var csv := stem + ".csv";
    assert csv[|csv| - 4..] == ".csv";
    assert !EndsWith(csv, ".xlsx") by {
      assert csv[|csv| - 1] == 'v';
    }
    assert !EndsWith(csv, ".xls") by {
      assert csv[|csv| - 1] == 'v';
    }
    var upper := stem + ".CSV";
    assert upper[|upper| - 1] == 'V';
    assert !EndsWith(upper, ".xlsx") && !EndsWith(upper, ".xls") && !EndsWith(upper, ".csv");
  }

  /** An upload of rows whose every value is empty ends with the no-data error. */
  lemma {:induction false} BlankSheetHasNoData(raw: seq<Row>)
    requires forall r :: r in raw ==> !HasContent(CleanedRow(r))
    ensures CleanRows(raw) == []
    decreases |raw|
  {
    if raw != [] {
      assert raw[|raw| - 1] in raw;
      assert forall r :: r in raw[..|raw| - 1] ==> r in raw;
      BlankSheetHasNoData(raw[..|raw| - 1]);
    }
  }

  /** An upload the card hands on. */
  datatype Upload = Upload(rows: seq<Row>, fileName: string)

  class FileUploadCard {
    var fileName: Option<string>
    var error: Option<string>
    var isParsing: bool
    /** Every call of `onFileUpload`, in order. */
    var uploads: seq<Upload>
    /** The file whose read has started and not yet finished. */
    var reading: Option<string>
    const read: SheetReader

    /** A read in flight belongs to the file on display, was started only because the name
        has a supported extension, and keeps the spinner on. */
    ghost predicate Valid()
      reads this
    {
      reading.Some? ==> fileName == reading && ReadModeOf(reading.value) != NoRead && isParsing
    }

    constructor(read: SheetReader)
      ensures fileName == None && error == None && !isParsing
      ensures uploads == [] && reading == None && this.read == read
      ensures Valid()
    {
      fileName, error, isParsing := None, None, false;
      uploads, reading := [], None;
      this.read := read;
    }

    /** `parseFile(file)`: shows the name, clears the error, turns the spinner on, and starts
        a read only for a supported extension. For any other name the spinner stays on. */
    method ParseFile(name: string)
      modifies this
      ensures fileName == Some(name) && error == None && isParsing
      ensures reading == (if ReadModeOf(name) == NoRead then None else Some(name))
      ensures uploads == old(uploads)
      ensures Valid()
    {
      fileName := Some(name);
      error := None;
      isParsing := true;
      var mode := ReadModeOf(name);
      if mode == AsArrayBuffer {
        reading := Some(name);
      } else if mode == AsText {
        reading := Some(name);
      } else {
        reading := None;
      }
    }

    /** `reader.onload`: hands the cleaned rows on, or shows the error; either way the
        spinner goes off. The unsupported-type branch is never taken here. */
    method OnLoad(data: Content)
      requires Valid() && reading.Some?
      modifies this
      ensures LoadOutcome(old(reading.value), data, read).Loaded? ==>
        uploads == old(uploads) + [Upload(LoadOutcome(old(reading.value), data, read).rows, old(reading.value))] &&
        error == old(error)
      ensures !LoadOutcome(old(reading.value), data, read).Loaded? ==>
        uploads == old(uploads) &&
        error == Some(ErrorText(old(reading.value), LoadOutcome(old(reading.value), data, read)))
      ensures LoadOutcome(old(reading.value), data, read) != Unsupported
      ensures !isParsing && reading == None && fileName == old(fileName)
      ensures Valid()
    {
      var name := reading.value;
      var outcome := LoadOutcome(name, data, read);
      if outcome.Loaded? {
        uploads := uploads + [Upload(outcome.rows, name)];
      } else {
        error := Some(ErrorText(name, outcome));
      }
      isParsing := false;
      reading := None;
    }

    /** `reader.onerror`. */
    method OnError(message: string)
      requires reading.Some?
      modifies this
      ensures error == Some(ReadFailurePrefix + message)
      ensures !isParsing && reading == None
      ensures uploads == old(uploads) && fileName == old(fileName)
      ensures Valid()
    {
      error := Some(ReadFailurePrefix + message);
      isParsing := false;
      reading := None;
    }
  }
}
