/**
 * What `validateAll` promises, stated over the messages the grid shows for one cell
 * (`getCellErrors`) and over the list as a whole.
 */
module ValidatorFacts {
  import opened Wrappers
  import opened JsText
  import opened Json
  import opened Rows
  import opened Phases
  import opened Validator
  import opened Page

  // ----- the shape of the whole list -----

  function RequiredHeaders(e: Entity): seq<string> {
    match e
    case Clients => ClientHeaders
    case Workers => WorkerHeaders
    case Tasks => TaskHeaders
  }

  function IdKey(e: Entity): string {
    match e
    case Clients => "ClientID"
    case Workers => "WorkerID"
    case Tasks => "TaskID"
  }

  lemma HeaderShape(d: Dataset)
    ensures forall f :: f in HeaderFindings(d) ==>
      f == MissingColumn(f.entity, f.column) && f.column in RequiredHeaders(f.entity)
  {
  }

  lemma IdShape(d: Dataset)
    ensures forall f :: f in IdCheckFindings(d) ==>
      0 <= f.row < |RowsOf(d, f.entity)| && f.column == IdKey(f.entity) && f.severity == Error
  {
  }

  /** `f` is an error about a row of its own table, in a column other than that table's
      ID column. */
  ghost predicate InRange(d: Dataset, f: Finding) {
    0 <= f.row < |RowsOf(d, f.entity)| && f.severity == Error && f.column != IdKey(f.entity)
  }

  /** Every finding of `fs` is in range. */
  ghost predicate RowsInRange(d: Dataset, fs: seq<Finding>) {
    forall f :: f in fs ==> InRange(d, f)
  }

  /** A finding of one per-row pass is in range. */
  lemma PassFindingInRange(c: RowCheck, ctx: Context, d: Dataset, rows: seq<Row>, f: Finding)
    requires rows == RowsOf(d, CheckEntity(c)) && f in PerRow(c, ctx, rows)
    ensures InRange(d, f)
  {
    ColumnsAreNotIds(c, f.column);
  }

  /** A member of eight appended lists is a member of one of them. */
  lemma InOneOfEight(f: Finding, p1: seq<Finding>, p2: seq<Finding>, p3: seq<Finding>, p4: seq<Finding>,
                     p5: seq<Finding>, p6: seq<Finding>, p7: seq<Finding>, p8: seq<Finding>)
    requires f in p1 + p2 + p3 + p4 + p5 + p6 + p7 + p8
    ensures f in p1 || f in p2 || f in p3 || f in p4 || f in p5 || f in p6 || f in p7 || f in p8
  {
  }

  /** Checks 3 and 4. */
  lemma ClientPassesInRange(d: Dataset, ctx: Context, f: Finding)
    requires f in PerRow(AttributesJson, ctx, d.clients) || f in PerRow(PriorityRange, ctx, d.clients)
    ensures InRange(d, f)
  {
    if f in PerRow(AttributesJson, ctx, d.clients) {
      PassFindingInRange(AttributesJson, ctx, d, d.clients, f);
    } else {
      PassFindingInRange(PriorityRange, ctx, d, d.clients, f);
    }
  }

  /** Checks 5 and 6. */
  lemma LoadPassesInRange(d: Dataset, ctx: Context, f: Finding)
    requires f in PerRow(DurationMin, ctx, d.tasks) || f in PerRow(SlotLoad, ctx, d.workers)
    ensures InRange(d, f)
  {
    if f in PerRow(DurationMin, ctx, d.tasks) {
      PassFindingInRange(DurationMin, ctx, d, d.tasks, f);
    } else {
      PassFindingInRange(SlotLoad, ctx, d, d.workers, f);
    }
  }

  /** Checks 7 and 8. */
  lemma ReferencePassesInRange(d: Dataset, ctx: Context, f: Finding)
    requires f in PerRow(TaskReferences, ctx, d.clients) || f in PerRow(PhaseSyntax, ctx, d.tasks)
    ensures InRange(d, f)
  {
    if f in PerRow(TaskReferences, ctx, d.clients) {
      PassFindingInRange(TaskReferences, ctx, d, d.clients, f);
    } else {
      PassFindingInRange(PhaseSyntax, ctx, d, d.tasks, f);
    }
  }

  /** Checks 9 and 10. */
  lemma CapacityPassesInRange(d: Dataset, ctx: Context, f: Finding)
    requires f in PerRow(SkillCoverage, ctx, d.tasks) || f in PerRow(ConcurrencyLimit, ctx, d.tasks)
    ensures InRange(d, f)
  {
    if f in PerRow(SkillCoverage, ctx, d.tasks) {
      PassFindingInRange(SkillCoverage, ctx, d, d.tasks, f);
    } else {
      PassFindingInRange(ConcurrencyLimit, ctx, d, d.tasks, f);
    }
  }

  /** A finding of checks 3 to 10 comes from one of the eight passes. */
  lemma RowCheckFindingInRange(d: Dataset, ctx: Context, f: Finding)
    requires f in RowCheckFindings(d, ctx)
    ensures InRange(d, f)
  {
    var p1, p2 := PerRow(AttributesJson, ctx, d.clients), PerRow(PriorityRange, ctx, d.clients);
    var p3, p4 := PerRow(DurationMin, ctx, d.tasks), PerRow(SlotLoad, ctx, d.workers);
    var p5, p6 := PerRow(TaskReferences, ctx, d.clients), PerRow(PhaseSyntax, ctx, d.tasks);
    var p7, p8 := PerRow(SkillCoverage, ctx, d.tasks), PerRow(ConcurrencyLimit, ctx, d.tasks);
    InOneOfEight(f, p1, p2, p3, p4, p5, p6, p7, p8);
    if f in p1 || f in p2 {
      ClientPassesInRange(d, ctx, f);
    } else if f in p3 || f in p4 {
      LoadPassesInRange(d, ctx, f);
    } else if f in p5 || f in p6 {
      ReferencePassesInRange(d, ctx, f);
    } else {
      CapacityPassesInRange(d, ctx, f);
    }
  }

  lemma RowCheckShape(d: Dataset, ctx: Context)
    ensures RowsInRange(d, RowCheckFindings(d, ctx))
  {
    forall f | f in RowCheckFindings(d, ctx) ensures InRange(d, f) {
      RowCheckFindingInRange(d, ctx, f);
    }
  }

  /** Every finding is an error; row -1 marks exactly the missing-column findings, and
      every other row indexes its own table. */
  lemma FindingsShape(d: Dataset, decode: Decoder)
    ensures forall f :: f in Findings(d, decode) ==> f.severity == Error
    ensures forall f :: f in Findings(d, decode) && f.row == -1 ==>
      f.message == MissingColumnPrefix + f.column && f.column in RequiredHeaders(f.entity)
    ensures forall f :: f in Findings(d, decode) && f.row != -1 ==> 0 <= f.row < |RowsOf(d, f.entity)|
  {
    HeaderShape(d);
    IdShape(d);
    RowCheckShape(d, ContextOf(d, decode));
  }

  // ----- from the whole list down to one check -----

  /** Appending the findings about row `k` to findings about earlier rows: a cell of an
      earlier row sees only the former, a cell of row `k` only the latter. */
  lemma EarlierOrLast(before: seq<Finding>, last: seq<Finding>, k: nat, e: Entity, i: nat, col: string)
    requires forall f :: f in before ==> f.row < k
    requires forall f :: f in last ==> f.row == k
    requires i <= k
    ensures GetCellErrors(before + last, e, i, col) ==
      if i < k then GetCellErrors(before, e, i, col) else GetCellErrors(last, e, i, col)
  {
    CellErrorsAppend(before, last, e, i, col);
    if i < k {
      CellErrorsNone(last, e, i, col);
      assert GetCellErrors(before, e, i, col) + [] == GetCellErrors(before, e, i, col);
    } else {
      CellErrorsNone(before, e, i, col);
      assert [] + GetCellErrors(last, e, i, col) == GetCellErrors(last, e, i, col);
    }
  }

  /** The findings a per-row pass attaches to row `i` are those of row `i` alone. */
  lemma {:induction false} PerRowCell(c: RowCheck, ctx: Context, rows: seq<Row>, i: nat, col: string)
    requires i < |rows|
    ensures GetCellErrors(PerRow(c, ctx, rows), CheckEntity(c), i, col) ==
      GetCellErrors(RowFindings(c, ctx, rows[i], i), CheckEntity(c), i, col)
    decreases |rows|
  {
    var k := |rows| - 1;
    var init := rows[..k];
    var before, last := PerRow(c, ctx, init), RowFindings(c, ctx, rows[k], k);
    assert PerRow(c, ctx, rows) == before + last;
    EarlierOrLast(before, last, k, CheckEntity(c), i, col);
    if i < k {
      PerRowCell(c, ctx, init, i, col);
      assert init[i] == rows[i];
    }
  }

  /** A pass other than `c` never touches the columns `c` reports on. */
  lemma OtherPassSilent(c: RowCheck, c': RowCheck, ctx: Context, rows: seq<Row>, i: int, col: string)
    requires col in CheckColumns(c) && c' != c
    ensures GetCellErrors(PerRow(c', ctx, rows), CheckEntity(c), i, col) == []
  {
    CellErrorsNone(PerRow(c', ctx, rows), CheckEntity(c), i, col);
  }

  lemma {:induction false} CellErrorsConcat(p1: seq<Finding>, p2: seq<Finding>, p3: seq<Finding>, p4: seq<Finding>,
                                            p5: seq<Finding>, p6: seq<Finding>, p7: seq<Finding>, p8: seq<Finding>,
                                            e: Entity, i: int, col: string)
    ensures GetCellErrors(p1 + p2 + p3 + p4 + p5 + p6 + p7 + p8, e, i, col) ==
      GetCellErrors(p1, e, i, col) + GetCellErrors(p2, e, i, col) + GetCellErrors(p3, e, i, col) +
      GetCellErrors(p4, e, i, col) + GetCellErrors(p5, e, i, col) + GetCellErrors(p6, e, i, col) +
      GetCellErrors(p7, e, i, col) + GetCellErrors(p8, e, i, col)
  {
    CellErrorsAppend(p1, p2, e, i, col);
    CellErrorsAppend(p1 + p2, p3, e, i, col);
    CellErrorsAppend(p1 + p2 + p3, p4, e, i, col);
    CellErrorsAppend(p1 + p2 + p3 + p4, p5, e, i, col);
    CellErrorsAppend(p1 + p2 + p3 + p4 + p5, p6, e, i, col);
    CellErrorsAppend(p1 + p2 + p3 + p4 + p5 + p6, p7, e, i, col);
    CellErrorsAppend(p1 + p2 + p3 + p4 + p5 + p6 + p7, p8, e, i, col);
  }

  /** What pass `c'` shows in a cell that check `c` owns. */
  lemma PassCell(c': RowCheck, c: RowCheck, ctx: Context, rows': seq<Row>, rows: seq<Row>, i: nat, col: string)
    requires col in CheckColumns(c) && i < |rows|
    requires c' == c ==> rows' == rows
    ensures GetCellErrors(PerRow(c', ctx, rows'), CheckEntity(c), i, col) ==
      if c' == c then GetCellErrors(RowFindings(c, ctx, rows[i], i), CheckEntity(c), i, col) else []
  {
    if c' == c {
      PerRowCell(c, ctx, rows, i, col);
    } else {
      OtherPassSilent(c, c', ctx, rows', i, col);
    }
  }

  /** Eight passes of which exactly the one for `c` shows `mine`. */
  lemma SumOfOne(c: RowCheck, mine: seq<string>, g1: seq<string>, g2: seq<string>, g3: seq<string>, g4: seq<string>,
                 g5: seq<string>, g6: seq<string>, g7: seq<string>, g8: seq<string>)
    requires g1 == (if AttributesJson == c then mine else []) && g2 == (if PriorityRange == c then mine else [])
    requires g3 == (if DurationMin == c then mine else []) && g4 == (if SlotLoad == c then mine else [])
    requires g5 == (if TaskReferences == c then mine else []) && g6 == (if PhaseSyntax == c then mine else [])
    requires g7 == (if SkillCoverage == c then mine else []) && g8 == (if ConcurrencyLimit == c then mine else [])
    ensures g1 + g2 + g3 + g4 + g5 + g6 + g7 + g8 == mine
  {
    match c {
      case AttributesJson => assert g1 + g2 + g3 + g4 + g5 + g6 + g7 + g8 == mine + [];
      case PriorityRange => assert g1 + g2 + g3 + g4 + g5 + g6 + g7 + g8 == [] + mine + [];
      case DurationMin => assert g1 + g2 + g3 + g4 + g5 + g6 + g7 + g8 == [] + mine + [];
      case SlotLoad => assert g1 + g2 + g3 + g4 + g5 + g6 + g7 + g8 == [] + mine + [];
      case TaskReferences => assert g1 + g2 + g3 + g4 + g5 + g6 + g7 + g8 == [] + mine + [];
      case PhaseSyntax => assert g1 + g2 + g3 + g4 + g5 + g6 + g7 + g8 == [] + mine + [];
      case SkillCoverage => assert g1 + g2 + g3 + g4 + g5 + g6 + g7 + g8 == [] + mine + [];
      case ConcurrencyLimit => assert g1 + g2 + g3 + g4 + g5 + g6 + g7 + g8 == [] + mine;
    }
  }

  /** Eight passes of which only the one for `c` shows anything in a cell: the cell shows
      what that pass shows. */
  lemma CellOfEight(c: RowCheck, mine: seq<string>, p1: seq<Finding>, p2: seq<Finding>, p3: seq<Finding>,
                    p4: seq<Finding>, p5: seq<Finding>, p6: seq<Finding>, p7: seq<Finding>, p8: seq<Finding>,
                    e: Entity, i: int, col: string)
    requires GetCellErrors(p1, e, i, col) == (if AttributesJson == c then mine else [])
    requires GetCellErrors(p2, e, i, col) == (if PriorityRange == c then mine else [])
    requires GetCellErrors(p3, e, i, col) == (if DurationMin == c then mine else [])
    requires GetCellErrors(p4, e, i, col) == (if SlotLoad == c then mine else [])
    requires GetCellErrors(p5, e, i, col) == (if TaskReferences == c then mine else [])
    requires GetCellErrors(p6, e, i, col) == (if PhaseSyntax == c then mine else [])
    requires GetCellErrors(p7, e, i, col) == (if SkillCoverage == c then mine else [])
    requires GetCellErrors(p8, e, i, col) == (if ConcurrencyLimit == c then mine else [])
    ensures GetCellErrors(p1 + p2 + p3 + p4 + p5 + p6 + p7 + p8, e, i, col) == mine
  {
    CellErrorsConcat(p1, p2, p3, p4, p5, p6, p7, p8, e, i, col);
    SumOfOne(c, mine,
      GetCellErrors(p1, e, i, col), GetCellErrors(p2, e, i, col), GetCellErrors(p3, e, i, col),
      GetCellErrors(p4, e, i, col), GetCellErrors(p5, e, i, col), GetCellErrors(p6, e, i, col),
      GetCellErrors(p7, e, i, col), GetCellErrors(p8, e, i, col));
  }

  /** What checks 3 to 6 show in a cell that check `c` owns. */
  lemma FrontCells(d: Dataset, ctx: Context, c: RowCheck, rows: seq<Row>, i: nat, col: string)
    requires rows == RowsOf(d, CheckEntity(c)) && i < |rows| && col in CheckColumns(c)
    ensures var e, mine := CheckEntity(c), GetCellErrors(RowFindings(c, ctx, rows[i], i), CheckEntity(c), i, col);
      && GetCellErrors(PerRow(AttributesJson, ctx, d.clients), e, i, col) == (if AttributesJson == c then mine else [])
      && GetCellErrors(PerRow(PriorityRange, ctx, d.clients), e, i, col) == (if PriorityRange == c then mine else [])
      && GetCellErrors(PerRow(DurationMin, ctx, d.tasks), e, i, col) == (if DurationMin == c then mine else [])
      && GetCellErrors(PerRow(SlotLoad, ctx, d.workers), e, i, col) == (if SlotLoad == c then mine else [])
  {
    PassCell(AttributesJson, c, ctx, d.clients, rows, i, col);
    PassCell(PriorityRange, c, ctx, d.clients, rows, i, col);
    PassCell(DurationMin, c, ctx, d.tasks, rows, i, col);
    PassCell(SlotLoad, c, ctx, d.workers, rows, i, col);
  }

  /** What checks 7 to 10 show in a cell that check `c` owns. */
  lemma BackCells(d: Dataset, ctx: Context, c: RowCheck, rows: seq<Row>, i: nat, col: string)
    requires rows == RowsOf(d, CheckEntity(c)) && i < |rows| && col in CheckColumns(c)
    ensures var e, mine := CheckEntity(c), GetCellErrors(RowFindings(c, ctx, rows[i], i), CheckEntity(c), i, col);
      && GetCellErrors(PerRow(TaskReferences, ctx, d.clients), e, i, col) == (if TaskReferences == c then mine else [])
      && GetCellErrors(PerRow(PhaseSyntax, ctx, d.tasks), e, i, col) == (if PhaseSyntax == c then mine else [])
      && GetCellErrors(PerRow(SkillCoverage, ctx, d.tasks), e, i, col) == (if SkillCoverage == c then mine else [])
      && GetCellErrors(PerRow(ConcurrencyLimit, ctx, d.tasks), e, i, col) == (if ConcurrencyLimit == c then mine else [])
  {
    PassCell(TaskReferences, c, ctx, d.clients, rows, i, col);
    PassCell(PhaseSyntax, c, ctx, d.tasks, rows, i, col);
    PassCell(SkillCoverage, c, ctx, d.tasks, rows, i, col);
    PassCell(ConcurrencyLimit, c, ctx, d.tasks, rows, i, col);
  }

  /** Among checks 3 to 10, only `c` itself speaks about the columns it owns. */
  lemma RowChecksCell(d: Dataset, ctx: Context, c: RowCheck, rows: seq<Row>, i: nat, col: string)
    requires rows == RowsOf(d, CheckEntity(c)) && i < |rows| && col in CheckColumns(c)
    ensures GetCellErrors(RowCheckFindings(d, ctx), CheckEntity(c), i, col) ==
      GetCellErrors(RowFindings(c, ctx, rows[i], i), CheckEntity(c), i, col)
  {
    var e := CheckEntity(c);
    var p1, p2 := PerRow(AttributesJson, ctx, d.clients), PerRow(PriorityRange, ctx, d.clients);
    var p3, p4 := PerRow(DurationMin, ctx, d.tasks), PerRow(SlotLoad, ctx, d.workers);
    var p5, p6 := PerRow(TaskReferences, ctx, d.clients), PerRow(PhaseSyntax, ctx, d.tasks);
    var p7, p8 := PerRow(SkillCoverage, ctx, d.tasks), PerRow(ConcurrencyLimit, ctx, d.tasks);
    assert RowCheckFindings(d, ctx) == p1 + p2 + p3 + p4 + p5 + p6 + p7 + p8;
    FrontCells(d, ctx, c, rows, i, col);
    BackCells(d, ctx, c, rows, i, col);
    CellOfEight(c, GetCellErrors(RowFindings(c, ctx, rows[i], i), e, i, col), p1, p2, p3, p4, p5, p6, p7, p8, e, i, col);
  }

  lemma ColumnsAreNotIds(c: RowCheck, col: string)
    requires col in CheckColumns(c)
    ensures col != IdKey(CheckEntity(c))
  {
  }

  /** Below the header row, a column that check `c` owns shows exactly what `c` says about
      that row: no other check writes there. */
  lemma CheckCell(d: Dataset, decode: Decoder, c: RowCheck, rows: seq<Row>, i: nat, col: string)
    requires rows == RowsOf(d, CheckEntity(c)) && i < |rows| && col in CheckColumns(c)
    ensures GetCellErrors(Findings(d, decode), CheckEntity(c), i, col) ==
      GetCellErrors(RowFindings(c, ContextOf(d, decode), rows[i], i), CheckEntity(c), i, col)
  {
    var e := CheckEntity(c);
    var ctx := ContextOf(d, decode);
    var h, ids, r := HeaderFindings(d), IdCheckFindings(d), RowCheckFindings(d, ctx);
    CellErrorsAppend(h + ids, r, e, i, col);
    CellErrorsAppend(h, ids, e, i, col);
    assert GetCellErrors(h, e, i, col) == [] by {
      HeaderShape(d);
      CellErrorsNone(h, e, i, col);
    }
    assert GetCellErrors(ids, e, i, col) == [] by {
      IdShape(d);
      ColumnsAreNotIds(c, col);
      CellErrorsNone(ids, e, i, col);
    }
    RowChecksCell(d, ctx, c, rows, i, col);
  }

  // ----- check 1 -----

  lemma ClientHeadersDistinct()
    ensures NoRepeats(ClientHeaders)
  {
    PairwiseNoRepeats(ClientHeaders);
  }

  lemma WorkerHeadersDistinct()
    ensures NoRepeats(WorkerHeaders)
  {
    PairwiseNoRepeats(WorkerHeaders);
  }

  lemma TaskHeadersDistinct()
    ensures NoRepeats(TaskHeaders)
  {
    PairwiseNoRepeats(TaskHeaders);
  }

  lemma HeadersDistinct(e: Entity)
    ensures NoRepeats(RequiredHeaders(e))
  {
    match e
    case Clients => ClientHeadersDistinct();
    case Workers => WorkerHeadersDistinct();
    case Tasks => TaskHeadersDistinct();
  }

  /** The last header's own contribution to check 1, seen from one header cell. */
  lemma StepCell(keys: seq<string>, last: string, e: Entity, h: string)
    ensures GetCellErrors(if last in keys then [] else [MissingColumn(e, last)], e, -1, h) ==
      if h == last && last !in keys then [MissingColumnPrefix + h] else []
  {
    var step := if last in keys then [] else [MissingColumn(e, last)];
    assert GetCellErrors(step, e, -1, h) == GetCellErrors([], e, -1, h) +
      (if step != [] && step[0].column == h then [step[0].message] else []);
  }

  lemma InLastSplit(s: seq<string>, h: string)
    requires s != []
    ensures h in s <==> h in s[..|s| - 1] || h == s[|s| - 1]
  {
    assert s == s[..|s| - 1] + [s[|s| - 1]];
  }

  /** Without repeats, the last header is not among the earlier ones. */
  lemma NoRepeatsLast(s: seq<string>)
    requires s != [] && NoRepeats(s)
    ensures NoRepeats(s[..|s| - 1]) && s[|s| - 1] !in s[..|s| - 1]
  {
  }

  /** Check 1 seen from one header cell, one required header at a time. */
  lemma MissingFromStep(keys: seq<string>, required: seq<string>, e: Entity, h: string)
    requires required != []
    ensures var last := required[|required| - 1];
      GetCellErrors(MissingFrom(keys, required, e), e, -1, h) ==
        GetCellErrors(MissingFrom(keys, required[..|required| - 1], e), e, -1, h) +
        (if h == last && last !in keys then [MissingColumnPrefix + h] else [])
  {
    var init, last := required[..|required| - 1], required[|required| - 1];
    var step := if last in keys then [] else [MissingColumn(e, last)];
    assert MissingFrom(keys, required, e) == MissingFrom(keys, init, e) + step;
    StepCell(keys, last, e, h);
    CellErrorsAppend(MissingFrom(keys, init, e), step, e, -1, h);
  }

  /** With distinct required headers, each absent one is reported once. */
  lemma {:induction false} MissingFromCell(keys: seq<string>, required: seq<string>, e: Entity, h: string)
    requires NoRepeats(required)
    ensures GetCellErrors(MissingFrom(keys, required, e), e, -1, h) ==
      if h in required && h !in keys then [MissingColumnPrefix + h] else []
    decreases |required|
  {
    if required != [] {
      var init, last := required[..|required| - 1], required[|required| - 1];
      NoRepeatsLast(required);
      MissingFromCell(keys, init, e, h);
      MissingFromStep(keys, required, e, h);
      InLastSplit(required, h);
      var a := GetCellErrors(MissingFrom(keys, init, e), e, -1, h);
      if h == last {
        assert a == [] && [] + [MissingColumnPrefix + h] == [MissingColumnPrefix + h];
      } else {
        assert a + [] == a;
      }
    }
  }

  /** Check 1 for one table, seen from a header cell of table `e`. */
  lemma TableHeaderCell(d: Dataset, t: Entity, e: Entity, h: string)
    ensures GetCellErrors(MissingColumns(RowsOf(d, t), RequiredHeaders(t), t), e, -1, h) ==
      if t == e then
        (if |RowsOf(d, e)| > 0 && h in RequiredHeaders(e) && h !in RowsOf(d, e)[0].keys
         then [MissingColumnPrefix + h] else [])
      else []
  {
    var m := MissingColumns(RowsOf(d, t), RequiredHeaders(t), t);
    if t != e {
      CellErrorsNone(m, e, -1, h);
    } else if |RowsOf(d, t)| > 0 {
      HeadersDistinct(t);
      MissingFromCell(RowsOf(d, t)[0].keys, RequiredHeaders(t), t, h);
    }
  }

  /** All of check 1, seen from a header cell of table `e`. */
  lemma HeaderCell(d: Dataset, e: Entity, h: string)
    ensures GetCellErrors(HeaderFindings(d), e, -1, h) ==
      if |RowsOf(d, e)| > 0 && h in RequiredHeaders(e) && h !in RowsOf(d, e)[0].keys
      then [MissingColumnPrefix + h] else []
  {
    var m1 := MissingColumns(d.clients, ClientHeaders, Clients);
    var m2 := MissingColumns(d.workers, WorkerHeaders, Workers);
    var m3 := MissingColumns(d.tasks, TaskHeaders, Tasks);
    var g1, g2, g3 := GetCellErrors(m1, e, -1, h), GetCellErrors(m2, e, -1, h), GetCellErrors(m3, e, -1, h);
    assert GetCellErrors(HeaderFindings(d), e, -1, h) == (g1 + g2) + g3 by {
      assert HeaderFindings(d) == m1 + m2 + m3;
      CellErrorsAppend(m1 + m2, m3, e, -1, h);
      CellErrorsAppend(m1, m2, e, -1, h);
    }
    var want := if |RowsOf(d, e)| > 0 && h in RequiredHeaders(e) && h !in RowsOf(d, e)[0].keys
      then [MissingColumnPrefix + h] else [];
    TableHeaderCell(d, Clients, e, h);
    TableHeaderCell(d, Workers, e, h);
    TableHeaderCell(d, Tasks, e, h);
    OneOfThree(e, want, g1, g2, g3);
  }

  /** Exactly one of three parts, the one of table `e`, may be non-empty. */
  lemma OneOfThree(e: Entity, want: seq<string>, g1: seq<string>, g2: seq<string>, g3: seq<string>)
    requires g1 == (if e == Clients then want else [])
    requires g2 == (if e == Workers then want else [])
    requires g3 == (if e == Tasks then want else [])
    ensures (g1 + g2) + g3 == want
  {
    match e
    case Clients => assert (g1 + g2) + g3 == g1;
    case Workers => assert (g1 + g2) + g3 == g2;
    case Tasks => assert (g1 + g2) + g3 == g3;
  }

  /** Check 1: a header cell shows "Missing required column: h" exactly when the table has
      rows, `h` is required, and the first row lacks it; and then only once. */
  lemma MissingColumnCell(d: Dataset, decode: Decoder, e: Entity, h: string)
    ensures GetCellErrors(Findings(d, decode), e, -1, h) ==
      if |RowsOf(d, e)| > 0 && h in RequiredHeaders(e) && h !in RowsOf(d, e)[0].keys
      then [MissingColumnPrefix + h] else []
  {
    var ctx := ContextOf(d, decode);
    var hd, ids, r := HeaderFindings(d), IdCheckFindings(d), RowCheckFindings(d, ctx);
    CellErrorsAppend(hd + ids, r, e, -1, h);
    CellErrorsAppend(hd, ids, e, -1, h);
    assert GetCellErrors(r, e, -1, h) == [] by {
      RowCheckShape(d, ctx);
      CellErrorsNone(r, e, -1, h);
    }
    assert GetCellErrors(ids, e, -1, h) == [] by {
      IdShape(d);
      CellErrorsNone(ids, e, -1, h);
    }
    HeaderCell(d, e, h);
  }
}
