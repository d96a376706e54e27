/**
 * Checks 3 to 10 of `validateAll`, one cell at a time: for each check, the messages the
 * grid shows in the column it owns, stated in terms of the cell's own text.
 */
module CheckFacts {
  import opened Wrappers
  import opened JsText
  import opened Json
  import opened Rows
  import opened Phases
  import opened Validator
  import opened Page
  import opened ValidatorFacts

  /** A list holding at most one finding about a cell shows that finding's message alone. */
  lemma OneMessage(r: seq<Finding>, e: Entity, i: nat, col: string, msg: string, bad: bool)
    requires r == if bad then [Finding(e, i, col, msg, Error)] else []
    ensures GetCellErrors(r, e, i, col) == if bad then [msg] else []
  {
    if bad {
      assert r[..0] == [];
    }
  }

  /** Check 3: the cell shows "Invalid JSON format" exactly when `JSON.parse` rejects it. */
  lemma AttributesCell(d: Dataset, decode: Decoder, i: nat)
    requires i < |d.clients|
    ensures GetCellErrors(Findings(d, decode), Clients, i, "AttributesJSON") ==
      if decode(JsString(Get(d.clients[i], "AttributesJSON"))).None? then [InvalidJsonMessage] else []
  {
    var row := d.clients[i];
    CheckCell(d, decode, AttributesJson, d.clients, i, "AttributesJSON");
    assert RowFindings(AttributesJson, ContextOf(d, decode), row, i) == AttributesFindings(row, i, decode);
    OneMessage(AttributesFindings(row, i, decode), Clients, i, "AttributesJSON", InvalidJsonMessage,
      decode(JsString(Get(row, "AttributesJSON"))).None?);
  }

  /** Check 4: the cell shows the range message exactly when `parseInt` gives `NaN` or a
      value outside 1..5. */
  lemma PriorityCell(d: Dataset, decode: Decoder, i: nat)
    requires i < |d.clients|
    ensures var n := ParseInt(JsString(Get(d.clients[i], "PriorityLevel")));
      GetCellErrors(Findings(d, decode), Clients, i, "PriorityLevel") ==
        if n.None? || n.value < 1 || n.value > 5 then [PriorityMessage] else []
  {
    var row := d.clients[i];
    var n := ParseInt(JsString(Get(row, "PriorityLevel")));
    CheckCell(d, decode, PriorityRange, d.clients, i, "PriorityLevel");
    assert RowFindings(PriorityRange, ContextOf(d, decode), row, i) == PriorityFindings(row, i);
    OneMessage(PriorityFindings(row, i), Clients, i, "PriorityLevel", PriorityMessage,
      n.None? || n.value < 1 || n.value > 5);
  }

  /** A priority written as an integer numeral is accepted exactly when it lies in 1..5. */
  lemma PriorityOfNumeral(d: Dataset, decode: Decoder, i: nat, n: int)
    requires i < |d.clients| && Get(d.clients[i], "PriorityLevel") == Some(IntToString(n))
    ensures GetCellErrors(Findings(d, decode), Clients, i, "PriorityLevel") == [] <==> 1 <= n <= 5
  {
    PriorityCell(d, decode, i);
    ParseIntRoundTrip(n);
  }

  /** Check 5: the cell shows "Must be >= 1" exactly when `parseInt` gives `NaN` or less than 1. */
  lemma DurationCell(d: Dataset, decode: Decoder, i: nat)
    requires i < |d.tasks|
    ensures var n := ParseInt(JsString(Get(d.tasks[i], "Duration")));
      GetCellErrors(Findings(d, decode), Tasks, i, "Duration") ==
        if n.None? || n.value < 1 then [DurationMessage] else []
  {
    var row := d.tasks[i];
    var n := ParseInt(JsString(Get(row, "Duration")));
    CheckCell(d, decode, DurationMin, d.tasks, i, "Duration");
    assert RowFindings(DurationMin, ContextOf(d, decode), row, i) == DurationFindings(row, i);
    OneMessage(DurationFindings(row, i), Tasks, i, "Duration", DurationMessage, n.None? || n.value < 1);
  }

  /** A duration written as an integer numeral is accepted exactly when it is at least 1. */
  lemma DurationOfNumeral(d: Dataset, decode: Decoder, i: nat, n: int)
    requires i < |d.tasks| && Get(d.tasks[i], "Duration") == Some(IntToString(n))
    ensures GetCellErrors(Findings(d, decode), Tasks, i, "Duration") == [] <==> n >= 1
  {
    DurationCell(d, decode, i);
    ParseIntRoundTrip(n);
  }

  /** Check 8: the cell shows the format message exactly when `parsePhases` yields nothing. */
  lemma PhaseCell(d: Dataset, decode: Decoder, i: nat)
    requires i < |d.tasks|
    ensures GetCellErrors(Findings(d, decode), Tasks, i, "PreferredPhases") ==
      if |ParsePhases(Get(d.tasks[i], "PreferredPhases"), decode)| == 0 then [InvalidPhasesMessage] else []
  {
    var row := d.tasks[i];
    CheckCell(d, decode, PhaseSyntax, d.tasks, i, "PreferredPhases");
    assert RowFindings(PhaseSyntax, ContextOf(d, decode), row, i) == PhaseFindings(row, i, decode);
    OneMessage(PhaseFindings(row, i, decode), Tasks, i, "PreferredPhases", InvalidPhasesMessage,
      |ParsePhases(Get(row, "PreferredPhases"), decode)| == 0);
  }

  /** A range "a-b" of decimal numerals is accepted exactly when it is ascending and short
      enough to become an array. */
  lemma RangeCell(d: Dataset, decode: Decoder, i: nat, a: nat, b: nat)
    requires i < |d.tasks| && Get(d.tasks[i], "PreferredPhases") == Some(NatToString(a) + "-" + NatToString(b))
    ensures GetCellErrors(Findings(d, decode), Tasks, i, "PreferredPhases") == [] <==>
      a <= b && b - a < MaxArrayLength
  {
    PhaseCell(d, decode, i);
    ParsePhasesRange(a, b, decode);
  }

  /** Check 10 for one row, whatever the rest of the dataset. */
  lemma ConcurrencyRow(row: Row, i: nat, workers: seq<Row>)
    ensures var max := ParseInt(JsString(Get(row, "MaxConcurrent")));
      var qualified := QualifiedCount(workers, RequiredSkills(row));
      GetCellErrors(ConcurrencyFindings(row, i, workers), Tasks, i, "MaxConcurrent") ==
        if max.Some? && max.value > qualified then [ConcurrencyMessage(qualified, max.value)] else []
  {
    ConcurrencyVerdictCell(i, ParseInt(JsString(Get(row, "MaxConcurrent"))), QualifiedCount(workers, RequiredSkills(row)));
  }

  /** The verdict of check 10, seen from the `MaxConcurrent` cell. */
  lemma ConcurrencyVerdictCell(i: nat, max: Option<int>, qualified: nat)
    ensures GetCellErrors(ConcurrencyVerdict(i, max, qualified), Tasks, i, "MaxConcurrent") ==
      if max.Some? && max.value > qualified then [ConcurrencyMessage(qualified, max.value)] else []
  {
    var r := ConcurrencyVerdict(i, max, qualified);
    if max.Some? && max.value > qualified {
      OneMessage(r, Tasks, i, "MaxConcurrent", ConcurrencyMessage(qualified, max.value), true);
    } else {
      OneMessage(r, Tasks, i, "MaxConcurrent", "", false);
    }
  }

  /** Check 10: the cell shows the shortfall message exactly when `parseInt(MaxConcurrent)`
      exceeds the number of workers whose skills contain every required token. */
  lemma ConcurrencyCell(d: Dataset, decode: Decoder, i: nat)
    requires i < |d.tasks|
    ensures var max := ParseInt(JsString(Get(d.tasks[i], "MaxConcurrent")));
      var qualified := QualifiedCount(d.workers, RequiredSkills(d.tasks[i]));
      GetCellErrors(Findings(d, decode), Tasks, i, "MaxConcurrent") ==
        if max.Some? && max.value > qualified then [ConcurrencyMessage(qualified, max.value)] else []
  {
    CheckCell(d, decode, ConcurrencyLimit, d.tasks, i, "MaxConcurrent");
    assert RowFindings(ConcurrencyLimit, ContextOf(d, decode), d.tasks[i], i) == ConcurrencyFindings(d.tasks[i], i, d.workers);
    ConcurrencyRow(d.tasks[i], i, d.workers);
  }

  /** Asking for more concurrent workers than there are workers is always reported. */
  lemma BeyondWorkforce(d: Dataset, decode: Decoder, i: nat)
    requires i < |d.tasks|
    requires var max := ParseInt(JsString(Get(d.tasks[i], "MaxConcurrent")));
      max.Some? && max.value > |d.workers|
    ensures |GetCellErrors(Findings(d, decode), Tasks, i, "MaxConcurrent")| == 1
  {
    ConcurrencyCell(d, decode, i);
  }

  /** The qualified count is 0 exactly when no worker qualifies. */
  lemma {:induction false} NoneQualified(workers: seq<Row>, required: seq<string>)
    ensures QualifiedCount(workers, required) == 0 <==>
      forall j :: 0 <= j < |workers| ==> !Qualifies(workers[j], required)
    decreases |workers|
  {
    if workers != [] {
      var k := |workers| - 1;
      NoneQualified(workers[..k], required);
      assert forall j :: 0 <= j < k ==> workers[..k][j] == workers[j];
    }
  }

  /** The qualified count is the number of workers exactly when every worker qualifies. */
  lemma {:induction false} AllQualified(workers: seq<Row>, required: seq<string>)
    ensures QualifiedCount(workers, required) == |workers| <==>
      forall j :: 0 <= j < |workers| ==> Qualifies(workers[j], required)
    decreases |workers|
  {
    if workers != [] {
      var k := |workers| - 1;
      AllQualified(workers[..k], required);
      assert forall j :: 0 <= j < k ==> workers[..k][j] == workers[j];
    }
  }

  /** Cutting a four-part text after its first part, or before its last. */
  lemma FourParts(a: string, b: string, c: string, t: string)
    ensures (a + b + c + t)[|a|..] == b + (c + t)
    ensures (a + b + c + t)[|a + b + c + t| - |t|..] == t
  {
    assert a + b + c + t == a + (b + (c + t));
  }

  /** The shortfall message carries both numbers in decimal: the qualified count right after
      "Only ", and `MaxConcurrent` at the very end. */
  lemma ConcurrencyMessageNumbers(qualified: nat, max: int)
    ensures var m := ConcurrencyMessage(qualified, max);
      |m| >= 5 + |IntToString(max)| &&
      ParseInt(m[5..]) == Some(qualified) &&
      ParseInt(m[|m| - |IntToString(max)|..]) == Some(max)
  {
    var q, tail := IntToString(qualified), IntToString(max);
    var middle := " workers qualify, but MaxConcurrent is ";
    FourParts("Only ", q, middle, tail);
    assert ParseInt(q + (middle + tail)) == Some(qualified) by {
      ParseIntOfIntToString(qualified, middle + tail);
    }
    ParseIntRoundTrip(max);
  }

  lemma LoadFindingCells(count: nat, maxLoad: Option<int>, i: nat)
    ensures GetCellErrors(LoadFinding(count, maxLoad, i), Workers, i, "AvailableSlots") == []
    ensures GetCellErrors(LoadFinding(count, maxLoad, i), Workers, i, "MaxLoadPerPhase") ==
      if maxLoad.Some? && count < maxLoad.value then [ExceedsSlotsMessage] else []
  {
    CellErrorsNone(LoadFinding(count, maxLoad, i), Workers, i, "AvailableSlots");
  }

  /** A rejected slot string: its own message, then the load compared against no slots. */
  lemma RejectedSlotCells(maxLoad: Option<int>, i: nat)
    ensures var r := [Finding(Workers, i, "AvailableSlots", InvalidSlotsMessage, Error)] + LoadFinding(0, maxLoad, i);
      && GetCellErrors(r, Workers, i, "AvailableSlots") == [InvalidSlotsMessage]
      && GetCellErrors(r, Workers, i, "MaxLoadPerPhase") ==
           if maxLoad.Some? && 0 < maxLoad.value then [ExceedsSlotsMessage] else []
  {
    var bad := Finding(Workers, i, "AvailableSlots", InvalidSlotsMessage, Error);
    LoadFindingCells(0, maxLoad, i);
    CellErrorsAppend([bad], LoadFinding(0, maxLoad, i), Workers, i, "AvailableSlots");
    CellErrorsAppend([bad], LoadFinding(0, maxLoad, i), Workers, i, "MaxLoadPerPhase");
    assert [bad][..0] == [];
  }

  lemma SlotFindingCells(row: Row, i: nat, decode: Decoder)
    ensures var cell := Get(row, "AvailableSlots");
      var maxLoad := ParseInt(JsString(Get(row, "MaxLoadPerPhase")));
      && GetCellErrors(SlotFindings(row, i, decode), Workers, i, "AvailableSlots") ==
           (if cell.Some? && decode(cell.value).None? then [InvalidSlotsMessage] else [])
      && GetCellErrors(SlotFindings(row, i, decode), Workers, i, "MaxLoadPerPhase") ==
           match cell {
             case None => []
             case Some(s) =>
               match decode(s) {
                 case None => if maxLoad.Some? && 0 < maxLoad.value then [ExceedsSlotsMessage] else []
                 case Some(JArray(items)) =>
                   if maxLoad.Some? && |items| < maxLoad.value then [ExceedsSlotsMessage] else []
                 case Some(_) => []
               }
           }
  {
    var maxLoad := ParseInt(JsString(Get(row, "MaxLoadPerPhase")));
    match Get(row, "AvailableSlots") {
      case None =>
      case Some(s) =>
        match decode(s) {
          case None =>
            RejectedSlotCells(maxLoad, i);
          case Some(v) =>
            if v.JArray? {
              LoadFindingCells(|v.items|, maxLoad, i);
            }
        }
    }
  }

  /** Check 6, first half: a string `AvailableSlots` that `JSON.parse` rejects is reported;
      a missing cell or one that decodes is not. */
  lemma SlotArrayCell(d: Dataset, decode: Decoder, i: nat)
    requires i < |d.workers|
    ensures var cell := Get(d.workers[i], "AvailableSlots");
      GetCellErrors(Findings(d, decode), Workers, i, "AvailableSlots") ==
        if cell.Some? && decode(cell.value).None? then [InvalidSlotsMessage] else []
  {
    CheckCell(d, decode, SlotLoad, d.workers, i, "AvailableSlots");
    assert RowFindings(SlotLoad, ContextOf(d, decode), d.workers[i], i) == SlotFindings(d.workers[i], i, decode);
    SlotFindingCells(d.workers[i], i, decode);
  }

  /** Check 6, second half: after a rejected slot string the slot list stays empty, so any
      load of 1 or more is reported; a missing cell or a decoded non-array skips the
      comparison; a decoded array is compared by length. A `NaN` load is never reported. */
  lemma LoadCell(d: Dataset, decode: Decoder, i: nat)
    requires i < |d.workers|
    ensures var cell := Get(d.workers[i], "AvailableSlots");
      var maxLoad := ParseInt(JsString(Get(d.workers[i], "MaxLoadPerPhase")));
      var shown := GetCellErrors(Findings(d, decode), Workers, i, "MaxLoadPerPhase");
      && (cell.None? ==> shown == [])
      && (cell.Some? && decode(cell.value).None? ==>
            shown == if maxLoad.Some? && maxLoad.value >= 1 then [ExceedsSlotsMessage] else [])
      && (cell.Some? && decode(cell.value).Some? && decode(cell.value).value.JArray? ==>
            shown == if maxLoad.Some? && |decode(cell.value).value.items| < maxLoad.value
                     then [ExceedsSlotsMessage] else [])
      && (cell.Some? && decode(cell.value).Some? && !decode(cell.value).value.JArray? ==> shown == [])
      && (maxLoad.None? ==> shown == [])
  {
    CheckCell(d, decode, SlotLoad, d.workers, i, "MaxLoadPerPhase");
    assert RowFindings(SlotLoad, ContextOf(d, decode), d.workers[i], i) == SlotFindings(d.workers[i], i, decode);
    SlotFindingCells(d.workers[i], i, decode);
  }

  /** How often `x` occurs in `s`. */
  function Count<T(==)>(s: seq<T>, x: T): (n: nat)
    ensures n <= |s|
    decreases |s|
  {
    if s == [] then 0 else Count(s[..|s| - 1], x) + (if s[|s| - 1] == x then 1 else 0)
  }

  /** Different IDs give different "not found" messages. */
  lemma ReferenceMessageInjective(x: string, y: string)
    requires ReferenceMessage(x) == ReferenceMessage(y)
    ensures x == y
  {
    var pre, post := "TaskID '", "' not found";
    assert ReferenceMessage(x) == pre + x + post;
    assert ReferenceMessage(y) == pre + y + post;
    assert |x| == |y|;
    assert x == ReferenceMessage(x)[|pre|..|pre| + |x|];
    assert y == ReferenceMessage(y)[|pre|..|pre| + |y|];
  }

  /** The inner `ids.forEach`: one message per occurrence of an unknown ID. */
  lemma {:induction false} UnknownReferenceCount(ids: seq<string>, valid: set<string>, i: nat, x: string)
    ensures Count(GetCellErrors(UnknownReferences(ids, valid, i), Clients, i, "RequestedTaskIDs"), ReferenceMessage(x)) ==
      if x in valid then 0 else Count(ids, x)
    decreases |ids|
  {
    if ids != [] {
      var init, id := ids[..|ids| - 1], ids[|ids| - 1];
      UnknownReferenceCount(init, valid, i, x);
      var before := GetCellErrors(UnknownReferences(init, valid, i), Clients, i, "RequestedTaskIDs");
      var step := if id in valid then [] else [Finding(Clients, i, "RequestedTaskIDs", ReferenceMessage(id), Error)];
      CellErrorsAppend(UnknownReferences(init, valid, i), step, Clients, i, "RequestedTaskIDs");
      if id !in valid {
        var all := before + [ReferenceMessage(id)];
        assert all[..|all| - 1] == before;
        if ReferenceMessage(id) == ReferenceMessage(x) {
          ReferenceMessageInjective(id, x);
        }
      } else {
        assert before + [] == before;
      }
    }
  }

  /** Check 7: every occurrence of a requested ID that trims to no task's ID gives one
      "not found" message, and a known ID gives none. */
  lemma ReferenceCell(d: Dataset, decode: Decoder, i: nat, x: string)
    requires i < |d.clients|
    ensures Count(GetCellErrors(Findings(d, decode), Clients, i, "RequestedTaskIDs"), ReferenceMessage(x)) ==
      if x in TaskIdSet(d.tasks) then 0 else Count(Tokens(OrEmpty(Get(d.clients[i], "RequestedTaskIDs"))), x)
  {
    CheckCell(d, decode, TaskReferences, d.clients, i, "RequestedTaskIDs");
    assert RowFindings(TaskReferences, ContextOf(d, decode), d.clients[i], i) == ReferenceFindings(d.clients[i], i, TaskIdSet(d.tasks));
    UnknownReferenceCount(Tokens(OrEmpty(Get(d.clients[i], "RequestedTaskIDs"))), TaskIdSet(d.tasks), i, x);
  }

  /** An empty text splits into one empty token. */
  lemma TokensOfEmpty()
    ensures Tokens("") == [""]
  {
    SplitWithoutSeparator("", ',');
    assert Trim("") == "";
  }

  /** Check 7 for a row whose request list is empty. */
  lemma EmptyRequestRow(row: Row, i: nat, valid: set<string>)
    requires OrEmpty(Get(row, "RequestedTaskIDs")) == ""
    ensures GetCellErrors(ReferenceFindings(row, i, valid), Clients, i, "RequestedTaskIDs") ==
      if "" in valid then [] else [ReferenceMessage("")]
  {
    TokensOfEmpty();
    var r := UnknownReferences([""], valid, i);
    assert r == UnknownReferences([], valid, i) +
      (if "" in valid then [] else [Finding(Clients, i, "RequestedTaskIDs", ReferenceMessage(""), Error)]);
    assert GetCellErrors(r, Clients, i, "RequestedTaskIDs") ==
      GetCellErrors([], Clients, i, "RequestedTaskIDs") + (if r == [] then [] else [r[0].message]);
  }

  /** An empty or missing `RequestedTaskIDs` still requests the ID '' and is reported,
      unless some task's ID trims to ''. */
  lemma EmptyRequestCell(d: Dataset, decode: Decoder, i: nat)
    requires i < |d.clients| && OrEmpty(Get(d.clients[i], "RequestedTaskIDs")) == ""
    ensures GetCellErrors(Findings(d, decode), Clients, i, "RequestedTaskIDs") ==
      if "" in TaskIdSet(d.tasks) then [] else [ReferenceMessage("")]
  {
    CheckCell(d, decode, TaskReferences, d.clients, i, "RequestedTaskIDs");
    assert RowFindings(TaskReferences, ContextOf(d, decode), d.clients[i], i) == ReferenceFindings(d.clients[i], i, TaskIdSet(d.tasks));
    EmptyRequestRow(d.clients[i], i, TaskIdSet(d.tasks));
  }

  /** Worker `w`'s `Skills` cell, split on commas and trimmed, contains `t`. */
  predicate Lists(w: Row, t: string) {
    t in Tokens(OrEmpty(Get(w, "Skills")))
  }

  predicate SomeWorkerLists(workers: seq<Row>, t: string) {
    exists j :: 0 <= j < |workers| && Lists(workers[j], t)
  }

  /** `allWorkerSkills` holds a token exactly when some worker lists it. */
  lemma {:induction false} WorkerSkillTokensSpec(workers: seq<Row>, t: string)
    ensures t in WorkerSkillTokens(workers) <==> SomeWorkerLists(workers, t)
    decreases |workers|
  {
    if workers != [] {
      var k := |workers| - 1;
      WorkerSkillTokensSpec(workers[..k], t);
      SomeWorkerListsLast(workers, t);
      assert WorkerSkillTokens(workers) ==
        WorkerSkillTokens(workers[..k]) + Tokens(OrEmpty(Get(workers[k], "Skills")));
    }
  }

  /** Some worker lists `t` exactly when an earlier one or the last one does. */
  lemma SomeWorkerListsLast(workers: seq<Row>, t: string)
    requires workers != []
    ensures var k := |workers| - 1;
      SomeWorkerLists(workers, t) <==> SomeWorkerLists(workers[..k], t) || Lists(workers[k], t)
  {
    var k := |workers| - 1;
    var init := workers[..k];
    if SomeWorkerLists(workers, t) && !Lists(workers[k], t) {
      var j :| 0 <= j < |workers| && Lists(workers[j], t);
      assert init[j] == workers[j];
    }
    if SomeWorkerLists(init, t) {
      var j :| 0 <= j < |init| && Lists(init[j], t);
      assert workers[j] == init[j];
    }
  }

  /** Check 9 for one row, whatever the rest of the dataset. */
  lemma SkillRow(row: Row, i: nat, skills: seq<string>)
    ensures GetCellErrors(SkillFindings(row, i, skills), Tasks, i, "RequiredSkills") ==
      if exists t :: t in RequiredSkills(row) && t in skills then [] else [NoSkillMatchMessage]
  {
    var r := SkillFindings(row, i, skills);
    assert GetCellErrors(r, Tasks, i, "RequiredSkills") ==
      GetCellErrors([], Tasks, i, "RequiredSkills") + (if r == [] then [] else [r[0].message]);
  }

  /** Some required token is among the workers' tokens exactly when some worker lists it. */
  lemma SomeSkillListed(required: seq<string>, workers: seq<Row>)
    ensures (exists t :: t in required && t in WorkerSkillTokens(workers)) <==>
      (exists t :: t in required && SomeWorkerLists(workers, t))
  {
    forall t | t in required
      ensures t in WorkerSkillTokens(workers) <==> SomeWorkerLists(workers, t)
    {
      WorkerSkillTokensSpec(workers, t);
    }
  }

  /** Check 9: a task is reported exactly when none of its required tokens is listed by any worker. */
  lemma SkillCell(d: Dataset, decode: Decoder, i: nat)
    requires i < |d.tasks|
    ensures GetCellErrors(Findings(d, decode), Tasks, i, "RequiredSkills") ==
      if exists t :: t in RequiredSkills(d.tasks[i]) && SomeWorkerLists(d.workers, t) then []
      else [NoSkillMatchMessage]
  {
    CheckCell(d, decode, SkillCoverage, d.tasks, i, "RequiredSkills");
    assert RowFindings(SkillCoverage, ContextOf(d, decode), d.tasks[i], i) == SkillFindings(d.tasks[i], i, WorkerSkillTokens(d.workers));
    SkillRow(d.tasks[i], i, WorkerSkillTokens(d.workers));
    SomeSkillListed(RequiredSkills(d.tasks[i]), d.workers);
  }
}
