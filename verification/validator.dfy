/**
 * The dataset validation engine (`validateAll` in app/lib/validator.tsx): ten fixed checks
 * over the client, worker and task tables, each appending findings to one list.
 * The functions below say which findings each check produces; `ValidateAll` is the
 * imperative pipeline, proved to produce exactly `Findings`.
 */
module Validator {
  import opened Wrappers
  import opened JsText
  import opened Json
  import opened Rows
  import opened Phases

  datatype Entity = Clients | Workers | Tasks

  datatype Severity = Error | Warning

  /** A `ValidationError`; `row` is -1 for a finding about a column header. */
  datatype Finding = Finding(entity: Entity, row: int, column: string, message: string, severity: Severity)

  /** The three uploaded tables. */
  datatype Dataset = Dataset(clients: seq<Row>, workers: seq<Row>, tasks: seq<Row>)

  function RowsOf(d: Dataset, e: Entity): seq<Row> {
    match e
    case Clients => d.clients
    case Workers => d.workers
    case Tasks => d.tasks
  }

  const ClientHeaders: seq<string> :=
    ["ClientID", "ClientName", "PriorityLevel", "RequestedTaskIDs", "GroupTag", "AttributesJSON"]
  const WorkerHeaders: seq<string> :=
    ["WorkerID", "WorkerName", "Skills", "AvailableSlots", "MaxLoadPerPhase", "WorkerGroup", "QualificationLevel"]
  const TaskHeaders: seq<string> :=
    ["TaskID", "TaskName", "Category", "Duration", "RequiredSkills", "PreferredPhases", "MaxConcurrent"]

  // ----- messages -----

  const MissingColumnPrefix := "Missing required column: "
  const MissingIdMessage := "Missing or empty ID"
  const DuplicateIdPrefix := "Duplicate ID: "
  const InvalidJsonMessage := "Invalid JSON format"
  const PriorityMessage := "Must be between 1\U{2013}5"
  const DurationMessage := "Must be >= 1"
  const InvalidSlotsMessage := "Invalid slot array"
  const ExceedsSlotsMessage := "Exceeds available slots"
  const InvalidPhasesMessage := "Invalid format (range or list)"
  const NoSkillMatchMessage := "No matching workers found for required skills"

  function ReferenceMessage(id: string): string {
    "TaskID '" + id + "' not found"
  }

  function ConcurrencyMessage(qualified: nat, max: int): string {
    "Only " + IntToString(qualified) + " workers qualify, but MaxConcurrent is " + IntToString(max)
  }

  // ----- check 1: required columns -----

  function MissingColumn(e: Entity, header: string): Finding {
    Finding(e, -1, header, MissingColumnPrefix + header, Error)
  }

  /** `required.forEach(...)` against the first row's keys. */
  function MissingFrom(keys: seq<string>, required: seq<string>, e: Entity): (r: seq<Finding>)
    ensures forall f :: f in r ==> f == MissingColumn(e, f.column) && f.column in required && f.column !in keys
    decreases |required|
  {
    if required == [] then []
    else
      var h := required[|required| - 1];
      MissingFrom(keys, required[..|required| - 1], e) + (if h in keys then [] else [MissingColumn(e, h)])
  }

  /** Check 1 for one table: an empty table is skipped. */
  function MissingColumns(rows: seq<Row>, required: seq<string>, e: Entity): (r: seq<Finding>)
    ensures forall f :: f in r ==> f == MissingColumn(e, f.column) && f.column in required
  {
    if |rows| == 0 then [] else MissingFrom(rows[0].keys, required, e)
  }

  // ----- check 2: empty and duplicate IDs -----

  /** `String(row[key] ?? '').trim()`. */
  function TrimmedId(row: Row, key: string): string {
    Trim(OrEmpty(Get(row, key)))
  }

  /** The `seen` set after the given rows: their non-empty IDs. */
  function SeenIds(rows: seq<Row>, key: string): (seen: set<string>)
    ensures "" !in seen
    decreases |rows|
  {
    if rows == [] then {}
    else
      var id := TrimmedId(rows[|rows| - 1], key);
      SeenIds(rows[..|rows| - 1], key) + (if id == "" then {} else {id})
  }

  /** What `checkIDs` reports for row `i`, given the IDs seen before it. */
  function IdVerdict(seen: set<string>, row: Row, i: nat, key: string, e: Entity): seq<Finding> {
    var id := TrimmedId(row, key);
    if id == "" then [Finding(e, i, key, MissingIdMessage, Error)]
    else if id in seen then [Finding(e, i, key, DuplicateIdPrefix + id, Error)]
    else []
  }

  /** `checkIDs(rows, key, entity)`. */
  function IdFindings(rows: seq<Row>, key: string, e: Entity): (r: seq<Finding>)
    ensures forall f :: f in r ==> f.entity == e && 0 <= f.row < |rows| && f.column == key && f.severity == Error
    decreases |rows|
  {
    if rows == [] then []
    else
      var k := |rows| - 1;
      IdFindings(rows[..k], key, e) + IdVerdict(SeenIds(rows[..k], key), rows[k], k, key, e)
  }

  // ----- checks 3 to 10: one verdict per row -----

  /** The checks that look at one row at a time, in pipeline order. */
  datatype RowCheck =
    | AttributesJson      // 3
    | PriorityRange       // 4
    | DurationMin         // 5
    | SlotLoad            // 6
    | TaskReferences      // 7
    | PhaseSyntax         // 8
    | SkillCoverage       // 9
    | ConcurrencyLimit    // 10

  /** What the per-row checks need besides the row: the JSON decoder and the values
      `validateAll` derives from the whole dataset before looping. */
  datatype Context = Context(
    decode: Decoder,
    validTaskIds: set<string>,   // check 7: new Set(tasks.map(t => String(t.TaskID).trim()))
    workerSkills: seq<string>,   // check 9: workers.flatMap(w => String(w.Skills || '').split(',').map(trim))
    workers: seq<Row>)           // check 10

  function CheckEntity(c: RowCheck): Entity {
    match c
    case AttributesJson => Clients
    case PriorityRange => Clients
    case TaskReferences => Clients
    case SlotLoad => Workers
    case DurationMin => Tasks
    case PhaseSyntax => Tasks
    case SkillCoverage => Tasks
    case ConcurrencyLimit => Tasks
  }

  /** The columns check `c` can attach findings to. */
  function CheckColumns(c: RowCheck): set<string> {
    match c
    case AttributesJson => {"AttributesJSON"}
    case PriorityRange => {"PriorityLevel"}
    case DurationMin => {"Duration"}
    case SlotLoad => {"AvailableSlots", "MaxLoadPerPhase"}
    case TaskReferences => {"RequestedTaskIDs"}
    case PhaseSyntax => {"PreferredPhases"}
    case SkillCoverage => {"RequiredSkills"}
    case ConcurrencyLimit => {"MaxConcurrent"}
  }

  /** `f` is an error that check `c` attaches to row `i`, in a column the check owns. */
  predicate FromCheck(c: RowCheck, i: nat, f: Finding) {
    f.row == i && f.entity == CheckEntity(c) && f.column in CheckColumns(c) && f.severity == Error
  }

  /** An error of check `c` about column `col` of row `i`. */
  function CheckFinding(c: RowCheck, i: nat, col: string, message: string): (f: Finding)
    requires col in CheckColumns(c)
    ensures FromCheck(c, i, f) && f.message == message
  {
    Finding(CheckEntity(c), i, col, message, Error)
  }

  /** `s.split(',').map(x => x.trim())`. */
  function Tokens(s: string): (r: seq<string>)
    ensures |r| == |Split(s, ',')|
    ensures forall i :: 0 <= i < |r| ==> r[i] == Trim(Split(s, ',')[i])
  {
    var parts := Split(s, ',');
    seq(|parts|, i requires 0 <= i < |parts| => Trim(parts[i]))
  }

  function TaskIdSet(tasks: seq<Row>): set<string>
    decreases |tasks|
  {
    if tasks == [] then {}
    else
      var k := |tasks| - 1;
      TaskIdSet(tasks[..k]) + {TaskIdOf(tasks[k])}
  }

  /** `String(t.TaskID).trim()`. */
  function TaskIdOf(t: Row): string {
    Trim(JsString(Get(t, "TaskID")))
  }

  /** Every task's ID is in the set. */
  lemma {:induction false} TaskIdListed(tasks: seq<Row>, j: nat)
    requires j < |tasks|
    ensures TaskIdOf(tasks[j]) in TaskIdSet(tasks)
    decreases |tasks|
  {
    var k := |tasks| - 1;
    var before := TaskIdSet(tasks[..k]);
    assert TaskIdSet(tasks) == before + {TaskIdOf(tasks[k])};
    if j < k {
      assert TaskIdOf(tasks[j]) in before by {
        TaskIdListed(tasks[..k], j);
        assert tasks[..k][j] == tasks[j];
      }
    }
  }

  /** Every ID in the set is some task's ID. */
  lemma {:induction false} TaskIdSource(tasks: seq<Row>, id: string) returns (j: nat)
    requires id in TaskIdSet(tasks)
    ensures j < |tasks| && TaskIdOf(tasks[j]) == id
    decreases |tasks|
  {
    var k := |tasks| - 1;
    if TaskIdOf(tasks[k]) == id {
      j := k;
    } else {
      j := TaskIdSource(tasks[..k], id);
      assert tasks[..k][j] == tasks[j];
    }
  }

  function WorkerSkillTokens(workers: seq<Row>): (tokens: seq<string>)
    ensures |tokens| >= |workers|
    decreases |workers|
  {
    if workers == [] then []
    else
      var k := |workers| - 1;
      WorkerSkillTokens(workers[..k]) + Tokens(OrEmpty(Get(workers[k], "Skills")))
  }

  function ContextOf(d: Dataset, decode: Decoder): Context {
    Context(decode, TaskIdSet(d.tasks), WorkerSkillTokens(d.workers), d.workers)
  }

  /** Check 6's load comparison `slots.length < maxLoad`; a `NaN` bound compares false. */
  function LoadFinding(slotCount: nat, maxLoad: Option<int>, i: nat): (r: seq<Finding>)
    ensures forall f :: f in r ==> f.row == i && f.entity == Workers && f.column == "MaxLoadPerPhase" && f.severity == Error
  {
    if maxLoad.Some? && slotCount < maxLoad.value
    then [Finding(Workers, i, "MaxLoadPerPhase", ExceedsSlotsMessage, Error)]
    else []
  }

  /** Check 6: a string that does not decode is reported and leaves `slots` at `[]`; a
      missing cell or a decoded non-array skips the load comparison. */
  function SlotFindings(row: Row, i: nat, decode: Decoder): (r: seq<Finding>)
    ensures forall f :: f in r ==> FromCheck(SlotLoad, i, f)
  {
    var maxLoad := ParseInt(JsString(Get(row, "MaxLoadPerPhase")));
    match Get(row, "AvailableSlots")
    case None => []
    case Some(s) =>
      match decode(s) {
        case None => [Finding(Workers, i, "AvailableSlots", InvalidSlotsMessage, Error)] + LoadFinding(0, maxLoad, i)
        case Some(JArray(items)) => LoadFinding(|items|, maxLoad, i)
        case Some(_) => []
      }
  }

  /** Check 7's inner `ids.forEach`: one finding per requested ID not among the tasks. */
  function UnknownReferences(ids: seq<string>, valid: set<string>, i: nat): (r: seq<Finding>)
    ensures forall f :: f in r ==>
      f.row == i && f.entity == Clients && f.column == "RequestedTaskIDs" && f.severity == Error
    decreases |ids|
  {
    if ids == [] then []
    else
      var id := ids[|ids| - 1];
      UnknownReferences(ids[..|ids| - 1], valid, i) +
        (if id in valid then [] else [Finding(Clients, i, "RequestedTaskIDs", ReferenceMessage(id), Error)])
  }

  /** Worker `w` can take on a task needing `required`: its `String(Skills)` contains every
      required token as a substring. */
  predicate Qualifies(w: Row, required: seq<string>) {
    forall rs :: rs in required ==> Includes(JsString(Get(w, "Skills")), rs)
  }

  /** Check 10's `workers.filter(w => reqSkills.every(rs => String(w.Skills).includes(rs))).length`. */
  function QualifiedCount(workers: seq<Row>, required: seq<string>): (n: nat)
    ensures n <= |workers|
    decreases |workers|
  {
    if workers == [] then 0
    else
      QualifiedCount(workers[..|workers| - 1], required) +
        (if Qualifies(workers[|workers| - 1], required) then 1 else 0)
  }

  /** Check 3: `JSON.parse(row.AttributesJSON)` throws. */
  function AttributesFindings(row: Row, i: nat, decode: Decoder): (r: seq<Finding>)
    ensures forall f :: f in r ==> FromCheck(AttributesJson, i, f)
  {
    if decode(JsString(Get(row, "AttributesJSON"))).None?
    then [Finding(Clients, i, "AttributesJSON", InvalidJsonMessage, Error)] else []
  }

  /** Check 4: `parseInt(row.PriorityLevel)` is `NaN` or outside 1..5. */
  function PriorityFindings(row: Row, i: nat): (r: seq<Finding>)
    ensures forall f :: f in r ==> FromCheck(PriorityRange, i, f)
  {
    var n := ParseInt(JsString(Get(row, "PriorityLevel")));
    if n.None? || n.value < 1 || n.value > 5
    then [Finding(Clients, i, "PriorityLevel", PriorityMessage, Error)] else []
  }

  /** Check 5: `parseInt(row.Duration)` is `NaN` or below 1. */
  function DurationFindings(row: Row, i: nat): (r: seq<Finding>)
    ensures forall f :: f in r ==> FromCheck(DurationMin, i, f)
  {
    var n := ParseInt(JsString(Get(row, "Duration")));
    if n.None? || n.value < 1
    then [Finding(Tasks, i, "Duration", DurationMessage, Error)] else []
  }

  /** Check 7 for one client. */
  function ReferenceFindings(row: Row, i: nat, valid: set<string>): (r: seq<Finding>)
    ensures forall f :: f in r ==> FromCheck(TaskReferences, i, f)
  {
    UnknownReferences(Tokens(OrEmpty(Get(row, "RequestedTaskIDs"))), valid, i)
  }

  /** Check 8: `parsePhases(row.PreferredPhases)` is empty. */
  function PhaseFindings(row: Row, i: nat, decode: Decoder): (r: seq<Finding>)
    ensures forall f :: f in r ==> FromCheck(PhaseSyntax, i, f)
  {
    if |ParsePhases(Get(row, "PreferredPhases"), decode)| == 0
    then [Finding(Tasks, i, "PreferredPhases", InvalidPhasesMessage, Error)] else []
  }

  /** `String(t.RequiredSkills || '').split(',').map(s => s.trim())`. */
  function RequiredSkills(row: Row): (skills: seq<string>)
    ensures |skills| >= 1
  {
    Tokens(OrEmpty(Get(row, "RequiredSkills")))
  }

  /** Check 9: no required skill is among the workers' skills. */
  function SkillFindings(row: Row, i: nat, workerSkills: seq<string>): (r: seq<Finding>)
    ensures forall f :: f in r ==> FromCheck(SkillCoverage, i, f)
  {
    if exists skill :: skill in RequiredSkills(row) && skill in workerSkills then []
    else [Finding(Tasks, i, "RequiredSkills", NoSkillMatchMessage, Error)]
  }

  /** Check 10's comparison, once `parseInt(MaxConcurrent)` and the qualified count are known;
      `NaN` compares false. */
  function ConcurrencyVerdict(i: nat, max: Option<int>, qualified: nat): (r: seq<Finding>)
    ensures forall f :: f in r ==> FromCheck(ConcurrencyLimit, i, f)
  {
    if max.Some? && max.value > qualified
    then [CheckFinding(ConcurrencyLimit, i, "MaxConcurrent", ConcurrencyMessage(qualified, max.value))] else []
  }

  /** Check 10: `MaxConcurrent` exceeds the number of qualified workers. */
  function ConcurrencyFindings(row: Row, i: nat, workers: seq<Row>): (r: seq<Finding>)
    ensures forall f :: f in r ==> FromCheck(ConcurrencyLimit, i, f)
  {
    ConcurrencyVerdict(i, ParseInt(JsString(Get(row, "MaxConcurrent"))), QualifiedCount(workers, RequiredSkills(row)))
  }

  /** What check `c` reports for row `row` at index `i`. */
  function RowFindings(c: RowCheck, ctx: Context, row: Row, i: nat): (r: seq<Finding>)
    ensures forall f :: f in r ==> FromCheck(c, i, f)
  {
    match c
    case AttributesJson => AttributesFindings(row, i, ctx.decode)
    case PriorityRange => PriorityFindings(row, i)
    case DurationMin => DurationFindings(row, i)
    case SlotLoad => SlotFindings(row, i, ctx.decode)
    case TaskReferences => ReferenceFindings(row, i, ctx.validTaskIds)
    case PhaseSyntax => PhaseFindings(row, i, ctx.decode)
    case SkillCoverage => SkillFindings(row, i, ctx.workerSkills)
    case ConcurrencyLimit => ConcurrencyFindings(row, i, ctx.workers)
  }

  /** `rows.forEach((row, i) => ...)` for check `c`. */
  function PerRow(c: RowCheck, ctx: Context, rows: seq<Row>): (r: seq<Finding>)
    ensures forall f :: f in r ==>
      0 <= f.row < |rows| && f.entity == CheckEntity(c) && f.column in CheckColumns(c) && f.severity == Error
    decreases |rows|
  {
    if rows == [] then []
    else
      var k := |rows| - 1;
      PerRow(c, ctx, rows[..k]) + RowFindings(c, ctx, rows[k], k)
  }

  /** Check 1 over the three tables. */
  function HeaderFindings(d: Dataset): seq<Finding> {
    MissingColumns(d.clients, ClientHeaders, Clients) +
    MissingColumns(d.workers, WorkerHeaders, Workers) +
    MissingColumns(d.tasks, TaskHeaders, Tasks)
  }

  /** Check 2 over the three tables. */
  function IdCheckFindings(d: Dataset): seq<Finding> {
    IdFindings(d.clients, "ClientID", Clients) +
    IdFindings(d.workers, "WorkerID", Workers) +
    IdFindings(d.tasks, "TaskID", Tasks)
  }

  /** Checks 3 to 10, in pipeline order. */
  function RowCheckFindings(d: Dataset, ctx: Context): seq<Finding> {
    PerRow(AttributesJson, ctx, d.clients) +
    PerRow(PriorityRange, ctx, d.clients) +
    PerRow(DurationMin, ctx, d.tasks) +
    PerRow(SlotLoad, ctx, d.workers) +
    PerRow(TaskReferences, ctx, d.clients) +
    PerRow(PhaseSyntax, ctx, d.tasks) +
    PerRow(SkillCoverage, ctx, d.tasks) +
    PerRow(ConcurrencyLimit, ctx, d.tasks)
  }

  /** Everything `validateAll` reports, in the order it reports it. */
  function Findings(d: Dataset, decode: Decoder): (r: seq<Finding>)
    ensures d.clients == [] && d.workers == [] && d.tasks == [] ==> r == []
  {
    HeaderFindings(d) + IdCheckFindings(d) + RowCheckFindings(d, ContextOf(d, decode))
  }

  // ----- the imperative pipeline -----

  lemma IdFindingsStep(rows: seq<Row>, key: string, e: Entity, i: nat)
    requires i < |rows|
    ensures IdFindings(rows[..i + 1], key, e) ==
      IdFindings(rows[..i], key, e) + IdVerdict(SeenIds(rows[..i], key), rows[i], i, key, e)
    ensures SeenIds(rows[..i + 1], key) ==
      SeenIds(rows[..i], key) + (if TrimmedId(rows[i], key) == "" then {} else {TrimmedId(rows[i], key)})
  {
    assert rows[..i + 1][..i] == rows[..i];
  }

  /** The `seen` set after one more row, in the shape the loop updates it. */
  lemma SeenIdsStep(rows: seq<Row>, key: string, i: nat)
    requires i < |rows|
    ensures var id, seen := TrimmedId(rows[i], key), SeenIds(rows[..i], key);
      SeenIds(rows[..i + 1], key) == if id == "" || id in seen then seen else seen + {id}
  {
    var id, seen := TrimmedId(rows[i], key), SeenIds(rows[..i], key);
    assert rows[..i + 1][..i] == rows[..i];
    assert SeenIds(rows[..i + 1], key) == seen + (if id == "" then {} else {id});
    if id == "" {
      assert seen + {} == seen;
    } else if id in seen {
      assert seen + {id} == seen;
    }
  }

  lemma AppendAssoc(a: seq<Finding>, b: seq<Finding>, c: seq<Finding>)
    ensures (a + b) + c == a + (b + c)
  {
  }

  lemma AppendAssoc3(a: seq<Finding>, x: seq<Finding>, y: seq<Finding>, z: seq<Finding>)
    ensures ((a + x) + y) + z == a + (x + y + z)
  {
  }

  /** The eight per-row passes, appended one after the other, append `RowCheckFindings`. */
  lemma RowChecksInOrder(ids: seq<Finding>, d: Dataset, ctx: Context)
    ensures ids + PerRow(AttributesJson, ctx, d.clients) + PerRow(PriorityRange, ctx, d.clients) +
      PerRow(DurationMin, ctx, d.tasks) + PerRow(SlotLoad, ctx, d.workers) +
      PerRow(TaskReferences, ctx, d.clients) + PerRow(PhaseSyntax, ctx, d.tasks) +
      PerRow(SkillCoverage, ctx, d.tasks) + PerRow(ConcurrencyLimit, ctx, d.tasks)
      == ids + RowCheckFindings(d, ctx)
  {
    var p1, p2 := PerRow(AttributesJson, ctx, d.clients), PerRow(PriorityRange, ctx, d.clients);
    var p3, p4 := PerRow(DurationMin, ctx, d.tasks), PerRow(SlotLoad, ctx, d.workers);
    var p5, p6 := PerRow(TaskReferences, ctx, d.clients), PerRow(PhaseSyntax, ctx, d.tasks);
    var p7, p8 := PerRow(SkillCoverage, ctx, d.tasks), PerRow(ConcurrencyLimit, ctx, d.tasks);
    AppendAssoc(ids, p1, p2);
    AppendAssoc(ids, p1 + p2, p3);
    AppendAssoc(ids, p1 + p2 + p3, p4);
    AppendAssoc(ids, p1 + p2 + p3 + p4, p5);
    AppendAssoc(ids, p1 + p2 + p3 + p4 + p5, p6);
    AppendAssoc(ids, p1 + p2 + p3 + p4 + p5 + p6, p7);
    AppendAssoc(ids, p1 + p2 + p3 + p4 + p5 + p6 + p7, p8);
  }

  /** One more row of a per-row pass, appended after the findings so far. */
  lemma PerRowStep(errors: seq<Finding>, c: RowCheck, ctx: Context, rows: seq<Row>, i: nat)
    requires i < |rows|
    ensures errors + PerRow(c, ctx, rows[..i + 1]) ==
      (errors + PerRow(c, ctx, rows[..i])) + RowFindings(c, ctx, rows[i], i)
  {
    assert rows[..i + 1][..i] == rows[..i];
    AppendAssoc(errors, PerRow(c, ctx, rows[..i]), RowFindings(c, ctx, rows[i], i));
  }

  lemma MissingFromPrefix(keys: seq<string>, required: seq<string>, j: nat, e: Entity)
    requires j < |required|
    ensures MissingFrom(keys, required[..j + 1], e) == MissingFrom(keys, required[..j], e) +
      (if required[j] in keys then [] else [MissingColumn(e, required[j])])
  {
    assert required[..j + 1][..j] == required[..j];
  }

  /** Check 1 for one table: `required.forEach(header => { if (!actualHeaders.includes(header)) errors.push(...) })`. */
  method PushMissingColumns(errors: seq<Finding>, rows: seq<Row>, required: seq<string>, e: Entity)
    returns (out: seq<Finding>)
    ensures out == errors + MissingColumns(rows, required, e)
  {
    out := errors;
    if |rows| == 0 {
      return;
    }
    var actualHeaders := rows[0].keys;
    var j := 0;
    while j < |required|
      invariant 0 <= j <= |required|
      invariant out == errors + MissingFrom(actualHeaders, required[..j], e)
    {
      var header := required[j];
      ghost var step := if header in actualHeaders then [] else [MissingColumn(e, header)];
      MissingFromPrefix(actualHeaders, required, j, e);
      AppendAssoc(errors, MissingFrom(actualHeaders, required[..j], e), step);
      if header !in actualHeaders {
        out := out + [MissingColumn(e, header)];
      } else {
        assert out + [] == out;
      }
      j := j + 1;
    }
    assert required[..|required|] == required;
  }

  /** `checkIDs(rows, key, entity)`: the `seen` set grows row by row. */
  method CheckIds(errors: seq<Finding>, rows: seq<Row>, key: string, e: Entity) returns (out: seq<Finding>)
    ensures out == errors + IdFindings(rows, key, e)
  {
    out := errors;
    var seen: set<string> := {};
    var i := 0;
    while i < |rows|
      invariant 0 <= i <= |rows|
      invariant seen == SeenIds(rows[..i], key)
      invariant out == errors + IdFindings(rows[..i], key, e)
    {
      ghost var verdict := IdVerdict(seen, rows[i], i, key, e);
      assert errors + IdFindings(rows[..i + 1], key, e) == out + verdict by {
        IdFindingsStep(rows, key, e, i);
        AppendAssoc(errors, IdFindings(rows[..i], key, e), verdict);
      }
      SeenIdsStep(rows, key, i);
      var id := TrimmedId(rows[i], key);
      if id == "" {
        out := out + [Finding(e, i, key, MissingIdMessage, Error)];
      } else if id in seen {
        out := out + [Finding(e, i, key, DuplicateIdPrefix + id, Error)];
      } else {
        out := out + [];
        seen := seen + {id};
      }
      i := i + 1;
    }
    assert rows[..|rows|] == rows;
  }

  /** `rows.forEach((row, i) => ...)` for one of checks 3 to 10. */
  method ForEachRow(errors: seq<Finding>, c: RowCheck, ctx: Context, rows: seq<Row>) returns (out: seq<Finding>)
    ensures out == errors + PerRow(c, ctx, rows)
  {
    out := errors;
    var i := 0;
    while i < |rows|
      invariant 0 <= i <= |rows|
      invariant out == errors + PerRow(c, ctx, rows[..i])
    {
      PerRowStep(errors, c, ctx, rows, i);
      out := out + RowFindings(c, ctx, rows[i], i);
      i := i + 1;
    }
    assert rows[..|rows|] == rows;
  }

  /** Check 1 of `validateAll`, over the three tables. */
  method CheckHeaders(d: Dataset) returns (errors: seq<Finding>)
    ensures errors == HeaderFindings(d)
  {
    ghost var m1 := MissingColumns(d.clients, ClientHeaders, Clients);
    ghost var m2 := MissingColumns(d.workers, WorkerHeaders, Workers);
    ghost var m3 := MissingColumns(d.tasks, TaskHeaders, Tasks);
    errors := PushMissingColumns([], d.clients, ClientHeaders, Clients);
    assert errors == m1;
    errors := PushMissingColumns(errors, d.workers, WorkerHeaders, Workers);
    errors := PushMissingColumns(errors, d.tasks, TaskHeaders, Tasks);
    assert errors == m1 + m2 + m3;
  }

  /** Check 2 of `validateAll`: `checkIDs` on the three tables. */
  method CheckAllIds(errors: seq<Finding>, d: Dataset) returns (out: seq<Finding>)
    ensures out == errors + IdCheckFindings(d)
  {
    out := CheckIds(errors, d.clients, "ClientID", Clients);
    out := CheckIds(out, d.workers, "WorkerID", Workers);
    out := CheckIds(out, d.tasks, "TaskID", Tasks);
    AppendAssoc3(errors, IdFindings(d.clients, "ClientID", Clients),
      IdFindings(d.workers, "WorkerID", Workers), IdFindings(d.tasks, "TaskID", Tasks));
  }

  /** Checks 3 to 10 of `validateAll`, one `forEach` pass each. */
  method CheckAllRows(errors: seq<Finding>, d: Dataset, ctx: Context) returns (out: seq<Finding>)
    ensures out == errors + RowCheckFindings(d, ctx)
  {
    out := ForEachRow(errors, AttributesJson, ctx, d.clients);
    out := ForEachRow(out, PriorityRange, ctx, d.clients);
    out := ForEachRow(out, DurationMin, ctx, d.tasks);
    out := ForEachRow(out, SlotLoad, ctx, d.workers);
    out := ForEachRow(out, TaskReferences, ctx, d.clients);
    out := ForEachRow(out, PhaseSyntax, ctx, d.tasks);
    out := ForEachRow(out, SkillCoverage, ctx, d.tasks);
    out := ForEachRow(out, ConcurrencyLimit, ctx, d.tasks);
    RowChecksInOrder(errors, d, ctx);
  }

  /** `validateAll(data)`. */
  method ValidateAll(d: Dataset, decode: Decoder) returns (errors: seq<Finding>)
    ensures errors == Findings(d, decode)
  {
    errors := CheckHeaders(d);
    errors := CheckAllIds(errors, d);
    var ctx := Context(decode, TaskIdSet(d.tasks), WorkerSkillTokens(d.workers), d.workers);
    errors := CheckAllRows(errors, d, ctx);
  }
}
