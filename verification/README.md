# excel_parser_ai — the validation engine and its state logic, in Dafny

This project models the core of a Next.js application. Users upload three spreadsheets: clients, workers and tasks. They edit the cells in a grid, see validation findings per cell, and build a rule set that is exported as `rules.json`.

The centre of the model is `validateAll`. It runs ten fixed checks over the three tables of row maps and appends one `ValidationError` per problem found:

1. required headers;
2. empty or duplicate IDs;
3. JSON attributes;
4. the priority range;
5. the minimum duration;
6. slot and load consistency;
7. client-to-task references;
8. the phase-list syntax (`parsePhases`);
9. skill coverage;
10. `MaxConcurrent` feasibility.

Around it sits the state logic of the page and its components:

- the three dataset slots of the home page, re-validated after every change;
- the editable grid, which writes cells on shared row objects;
- the upload card, which cleans the rows the spreadsheet reader returns and dispatches on the file extension;
- the rule builder with its co-run and slot-restriction forms;
- the multi-select;
- the prioritisation sliders.

## Layout

- `wrappers.dfy`, `json.dfy`, `rows.dfy`: the basics.
  - `Option` stands for `undefined` and `NaN`.
  - A JSON value is what `JSON.parse` yields. The decoder itself is a parameter.
  - A row is a map with its own key order.
- `jstext.dfy`: the JavaScript string primitives the code relies on: `trim`, `split`, `startsWith`/`endsWith`/`includes`, `parseInt`, `Number` and number-to-string.
- `phases.dfy`: `parsePhases`.
- `validator.dfy`:
  - one specification function per check;
  - `Findings`, the whole list in check order;
  - the imperative pipeline (`ValidateAll`, `CheckIds`, `ForEachRow`, …), proved to produce exactly `Findings`.
- `validator_facts.dfy`, `id_facts.dfy`, `check_facts.dfy`: what each check promises, read from the messages the grid shows for one cell (`getCellErrors`). Each check is stated in terms of that cell's own text.
- `page.dfy`: the page's pure helpers, and the `HomePage` class whose `validationErrors` always equal `Findings` of the data on screen.
- `grid.dfy`, `file_upload.dfy`, `rules.dfy`, `corun.dfy`, `slots.dfy`, `sliders.dfy`, `weights.dfy`, `multiselect.dfy`, `seqs.dfy`: the components.

## Model

| member | source | states |
|---|---|---|
| Phases.ParsePhases | app/lib/validator.tsx:12-23 | a missing cell yields `[]`; outside the `[` branch, every element is a number. The `[` branch yields whatever array `JSON.parse` returns |
| Phases.Range | app/lib/validator.tsx:17 | `Array.from` of length end−start+1: element i is start+i; the result is empty when end < start and when the length exceeds the array limit, where the `RangeError` is caught |
| Phases.ListPhases | app/lib/validator.tsx:19 | the comma branch yields only numbers, at most one per token |
| Phases.ListPhasesMembers | app/lib/validator.tsx:19 | a number is listed exactly when some token's trimmed `parseInt` gives it: failing tokens are dropped and nothing else is |
| Phases.DashBranch | app/lib/validator.tsx:15-16 | a text not starting with `[` that contains `-` splits into at least two parts and takes the range branch on the first two |
| Phases.ListBranch | app/lib/validator.tsx:19 | a text with neither `[` first nor `-` takes the comma-list branch |
| Phases.ParsePhasesRange | app/lib/validator.tsx:15-17 | "a-b" of decimal numerals yields the ascending integers a..b, that is b−a+1 of them, and nothing when b < a; this is exact for bounds below 2^53 |
| Phases.DashYieldsConsecutive | app/lib/validator.tsx:15-17 | whatever the text, the range branch yields consecutive integers |
| Phases.ParsePhasesFailures | app/lib/validator.tsx:12-23 | a missing cell, or a `[` literal that does not decode, yields the empty list instead of throwing |
| Phases.ListPhasesSnoc | app/lib/validator.tsx:19 | a token that parses adds exactly its number at the end |
| Phases.ListPhasesSnocDrop | app/lib/validator.tsx:19 | a token whose `parseInt` is `NaN` adds nothing |
| Phases.ListOfNumerals | app/lib/validator.tsx:19 | a comma list of decimal numerals yields those numbers in order |
| Phases.ExampleRange | app/lib/validator.tsx:15-17 | "1-3" yields 1, 2, 3 |
| Phases.ExampleReversedRange | app/lib/validator.tsx:15-17 | "5-3" yields nothing |
| Phases.ExampleList | app/lib/validator.tsx:19 | "2,4,5" yields 2, 4, 5 |
| Phases.ExampleGarbage | app/lib/validator.tsx:19 | "abc" yields nothing: its one token does not parse |
| JsText.Trim | app/lib/validator.tsx:50 | `trim` as `trimStart` then `trimEnd`. It carries no contract of its own; the four lemmas below state what it does |
| JsText.TrimEnds | app/lib/validator.tsx:50 | the trimmed text neither starts nor ends with whitespace |
| JsText.TrimIdempotent | app/lib/validator.tsx:50 | trimming twice is trimming once |
| JsText.TrimStartIsSuffix | app/lib/validator.tsx:50 | `trimStart` removes only leading whitespace |
| JsText.TrimEndIsPrefix | app/lib/validator.tsx:50 | `trimEnd` removes only trailing whitespace |
| JsText.Split | app/lib/validator.tsx:93 | `split` with a one-character separator never returns an empty list |
| JsText.SplitJoin | app/lib/validator.tsx:93 | joining the parts of `split` with the separator gives back the text |
| JsText.SplitPartsExcludeSeparator | app/lib/validator.tsx:93 | no part of a split contains the separator |
| JsText.SplitWithoutSeparator | app/lib/validator.tsx:93 | a text without the separator splits into itself alone |
| JsText.SplitAtFirst | app/lib/validator.tsx:93 | the first separator ends the first part |
| JsText.SplitWithSeparator | app/lib/validator.tsx:16 | a text containing the separator splits into at least two parts |
| JsText.ParseInt | app/lib/validator.tsx:69 | `parseInt` without a radix. It carries no contract of its own; `ParseIntRoundTrip`, `ParseIntOfIntToString` and `NumberAgreesWithParseInt` state what it reads |
| JsText.DigitPrefixLength | app/lib/validator.tsx:69 | the digit run `parseInt` reads is the longest prefix of digits in the radix |
| JsText.ParseIntOfIntToString | app/lib/validator.tsx:118 | `parseInt` reads the decimal text of any integer back when a non-digit follows it; the one exception is an `x` or `X` right after a lone `0`, which would start a hexadecimal literal |
| JsText.ParseIntRoundTrip | app/lib/validator.tsx:69 | `parseInt` of an integer's decimal text gives that integer |
| JsText.DigitsValueOfNatToString | app/lib/validator.tsx:69 | the digits of a natural number read back as that number |
| JsText.IntToString | app/lib/validator.tsx:118 | the number-to-text conversion is never empty and starts with `-` exactly for a negative number; this is exact for magnitudes below 1e21 |
| JsText.ToNumber | app/lib/validator.tsx:16 | `Number`: blank text is 0, where `parseInt` gives NaN; a negative result comes from a text starting with `-` |
| JsText.NumberLiteral | app/lib/validator.tsx:16 | a negative literal starts with `-` |
| JsText.NumberAgreesWithParseInt | app/lib/validator.tsx:16 | wherever `Number` reads a non-blank text, `parseInt` reads the same value, so `Number` accepts a subset of `parseInt`'s inputs |
| JsText.ToNumberOfNatToString | app/lib/validator.tsx:16 | `Number` of a natural number's decimal text gives that number; this is exact below 2^53 |
| Validator.MissingFrom | app/lib/validator.tsx:39-43 | every finding reports a required header that is absent from the first row's keys, with row −1 |
| Validator.MissingColumns | app/lib/validator.tsx:36-43 | check 1 for one table reports only required headers, with row −1 |
| Validator.SeenIds | app/lib/validator.tsx:48-53 | the `seen` set never holds the empty ID, because line 51 reports and skips it first |
| Validator.IdFindings | app/lib/validator.tsx:47-55 | every `checkIDs` finding is an error about a row of that table, in its ID column |
| Validator.CheckColumns | app/lib/validator.tsx:61-119 | the columns each of checks 3 to 10 writes to |
| Validator.Tokens | app/lib/validator.tsx:93 | `split(',').map(trim)`: one trimmed token per part |
| Validator.TaskIdSet | app/lib/validator.tsx:91 | `validTaskIDs`. It carries no contract of its own; the two lemmas below state that it holds exactly the tasks' trimmed IDs |
| Validator.TaskIdListed | app/lib/validator.tsx:91 | every task's trimmed `String(TaskID)` is in the set of valid IDs |
| Validator.TaskIdSource | app/lib/validator.tsx:91 | every valid ID is some task's trimmed `String(TaskID)` |
| Validator.LoadFinding | app/lib/validator.tsx:87 | the load finding is about `MaxLoadPerPhase` of that worker row |
| Validator.SlotFindings | app/lib/validator.tsx:80-88 | check 6 reports only on that worker's `AvailableSlots` and `MaxLoadPerPhase` cells |
| Validator.UnknownReferences | app/lib/validator.tsx:94-96 | every reference finding is about that client's `RequestedTaskIDs` cell |
| Validator.WorkerSkillTokens | app/lib/validator.tsx:106 | `allWorkerSkills`: every worker contributes at least one token, since `split` never returns an empty list |
| Validator.RequiredSkills | app/lib/validator.tsx:107 | a task always has at least one required token; an empty cell gives the token '' |
| Validator.QualifiedCount | app/lib/validator.tsx:117 | the qualified count never exceeds the number of workers |
| Validator.AttributesFindings | app/lib/validator.tsx:62-65 | check 3 reports only on that client's `AttributesJSON` cell |
| Validator.PriorityFindings | app/lib/validator.tsx:68-71 | check 4 reports only on that client's `PriorityLevel` cell |
| Validator.DurationFindings | app/lib/validator.tsx:74-77 | check 5 reports only on that task's `Duration` cell |
| Validator.ReferenceFindings | app/lib/validator.tsx:92-97 | check 7 reports only on that client's `RequestedTaskIDs` cell |
| Validator.PhaseFindings | app/lib/validator.tsx:100-103 | check 8 reports only on that task's `PreferredPhases` cell |
| Validator.SkillFindings | app/lib/validator.tsx:107-111 | check 9 reports only on that task's `RequiredSkills` cell |
| Validator.ConcurrencyVerdict | app/lib/validator.tsx:118 | check 10's comparison reports only on `MaxConcurrent` of that row |
| Validator.ConcurrencyFindings | app/lib/validator.tsx:114-119 | check 10 reports only on that task's `MaxConcurrent` cell |
| Validator.RowFindings | app/lib/validator.tsx:61-119 | a per-row check reports only errors about that row, in columns it owns |
| Validator.PerRow | app/lib/validator.tsx:61-119 | a `forEach` pass reports only errors about rows of its own table, in columns it owns |
| Validator.PushMissingColumns | app/lib/validator.tsx:35-43 | the `required.forEach` loop appends exactly check 1's findings for one table, in header order |
| Validator.CheckIds | app/lib/validator.tsx:47-55 | the `checkIDs` loop, with its growing `seen` set, appends exactly `IdFindings` |
| Validator.ForEachRow | app/lib/validator.tsx:61-119 | a `rows.forEach` loop appends exactly its check's findings, row by row |
| Validator.CheckHeaders | app/lib/validator.tsx:34-44 | check 1 over the three tables produces exactly the header findings |
| Validator.CheckAllIds | app/lib/validator.tsx:57-59 | check 2 over the three tables appends exactly the ID findings |
| Validator.CheckAllRows | app/lib/validator.tsx:61-119 | checks 3 to 10, in that order, append exactly their findings |
| Validator.Findings | app/lib/validator.tsx:25-121 | the specification `ValidateAll` is proved equal to: check 1's findings, then check 2's, then checks 3 to 10 in row order. With no data uploaded it is empty |
| Validator.ValidateAll | app/lib/validator.tsx:25-121 | `validateAll` returns exactly `Findings`: checks 1 to 10 in order |
| ValidatorFacts.HeaderShape | app/lib/validator.tsx:41 | missing-column findings carry row −1, their own message and a required header |
| ValidatorFacts.IdShape | app/lib/validator.tsx:51-52 | ID findings are errors about a row of their table, in its ID column |
| ValidatorFacts.RowCheckShape | app/lib/validator.tsx:61-119 | findings of checks 3 to 10 are errors about a row of their own table, never in its ID column |
| ValidatorFacts.FindingsShape | app/lib/validator.tsx:25-121 | every finding is an error; row −1 marks exactly the missing-column findings; any other row indexes its own table |
| ValidatorFacts.PerRowCell | app/lib/validator.tsx:61-119 | a pass shows in row i's cell what it says about row i alone |
| ValidatorFacts.RowChecksCell | app/lib/validator.tsx:61-119 | among checks 3 to 10, only the owner of a column writes into it |
| ValidatorFacts.CheckCell | app/lib/validator.tsx:25-121 | below the header row, a column owned by check c shows exactly what c says about that row |
| ValidatorFacts.HeadersDistinct | app/lib/validator.tsx:28-32 | each table's required headers are pairwise distinct |
| ValidatorFacts.MissingFromCell | app/lib/validator.tsx:39-43 | each required header absent from the keys is reported exactly once, and nothing else is |
| ValidatorFacts.HeaderCell | app/lib/validator.tsx:34-44 | check 1 over the three tables, seen from a header cell of one table |
| ValidatorFacts.MissingColumnCell | app/lib/validator.tsx:34-44 | a header cell shows "Missing required column: h" once exactly when the table has rows, h is required and the first row lacks it; an empty table shows nothing |
| IdFacts.SeenIdsHas | app/lib/validator.tsx:53 | every row's non-empty ID ends up in `seen` |
| IdFacts.SeenIdsWitness | app/lib/validator.tsx:53 | everything in `seen` is the non-empty ID of a row already visited |
| IdFacts.SeenMeansBefore | app/lib/validator.tsx:52 | a non-empty ID is in `seen` exactly when an earlier row holds it |
| IdFacts.VerdictMessages | app/lib/validator.tsx:50-53 | one row's verdict shows the expected message for that row |
| IdFacts.IdFindingsCell | app/lib/validator.tsx:47-55 | `checkIDs` over one table shows in row r's ID cell exactly the message expected of row r |
| IdFacts.IdChecksCell | app/lib/validator.tsx:57-59 | the three `checkIDs` calls never write into another table's ID cells |
| IdFacts.IdCell | app/lib/validator.tsx:47-59 | an ID cell shows "Missing or empty ID" for an empty trimmed ID, "Duplicate ID: id" when an earlier row holds it, and nothing else |
| IdFacts.FirstOccurrenceSilent | app/lib/validator.tsx:52-53 | the first row holding a non-empty ID is never reported |
| IdFacts.RepeatFlagged | app/lib/validator.tsx:52 | every later row holding the same ID carries exactly one duplicate message |
| CheckFacts.AttributesCell | app/lib/validator.tsx:62-65 | the cell shows "Invalid JSON format" exactly when `JSON.parse` of `String(AttributesJSON)` throws |
| CheckFacts.PriorityCell | app/lib/validator.tsx:68-71 | the cell shows the range message exactly when `parseInt` gives NaN or a value outside 1..5 |
| CheckFacts.PriorityOfNumeral | app/lib/validator.tsx:69-70 | a priority written as an integer is accepted exactly when it lies in 1..5 |
| CheckFacts.DurationCell | app/lib/validator.tsx:74-77 | the cell shows "Must be >= 1" exactly when `parseInt` gives NaN or less than 1 |
| CheckFacts.DurationOfNumeral | app/lib/validator.tsx:75-76 | a duration written as an integer is accepted exactly when it is at least 1 |
| CheckFacts.SlotFindingCells | app/lib/validator.tsx:80-88 | check 6 for one row: what it shows in each of its two cells, case by case |
| CheckFacts.SlotArrayCell | app/lib/validator.tsx:82-83 | "Invalid slot array" shows exactly when a present `AvailableSlots` text fails to decode |
| CheckFacts.LoadCell | app/lib/validator.tsx:81-87 | after a failed decode `slots` stays empty, so any load ≥ 1 is reported; a missing cell or a non-array skips the check; an array is compared by length; a NaN load is never reported |
| CheckFacts.ReferenceMessageInjective | app/lib/validator.tsx:95 | different IDs give different "not found" messages |
| CheckFacts.UnknownReferenceCount | app/lib/validator.tsx:94-96 | one "not found" message per occurrence of an unknown ID, none for a known one |
| CheckFacts.ReferenceCell | app/lib/validator.tsx:91-97 | the cell holds `TaskID 'x' not found` as often as the trimmed token x occurs, unless x is a task's trimmed ID |
| CheckFacts.TokensOfEmpty | app/lib/validator.tsx:93 | the empty text splits into the one token '' |
| CheckFacts.EmptyRequestCell | app/lib/validator.tsx:93-96 | an empty or missing request list is reported for the ID '', unless some task's ID trims to '' |
| CheckFacts.PhaseCell | app/lib/validator.tsx:100-103 | the cell shows the format message exactly when `parsePhases` yields nothing |
| CheckFacts.RangeCell | app/lib/validator.tsx:100-103 | a range "a-b" of decimals is accepted exactly when a ≤ b and the run fits in an array; this is exact for bounds below 2^53 |
| CheckFacts.WorkerSkillTokensSpec | app/lib/validator.tsx:106 | `allWorkerSkills` holds a token exactly when some worker's trimmed `Skills` tokens include it |
| CheckFacts.SkillRow | app/lib/validator.tsx:107-111 | check 9 for one row reports exactly when no required token is among the workers' tokens |
| CheckFacts.SomeSkillListed | app/lib/validator.tsx:109 | some required token is among the workers' tokens exactly when some worker lists one |
| CheckFacts.SkillCell | app/lib/validator.tsx:106-111 | a task is reported exactly when none of its required tokens is listed by any worker |
| CheckFacts.ConcurrencyVerdictCell | app/lib/validator.tsx:118 | the comparison shows the message exactly when the max is a number above the qualified count |
| CheckFacts.ConcurrencyRow | app/lib/validator.tsx:114-119 | check 10 for one row, whatever the rest of the dataset |
| CheckFacts.ConcurrencyCell | app/lib/validator.tsx:114-119 | the cell shows the shortfall message exactly when `parseInt(MaxConcurrent)` exceeds the number of workers whose `String(Skills)` contains every required token |
| CheckFacts.NoneQualified | app/lib/validator.tsx:117 | the qualified count is 0 exactly when no worker's `String(Skills)` contains every required token |
| CheckFacts.AllQualified | app/lib/validator.tsx:117 | the qualified count equals the number of workers exactly when every worker's `String(Skills)` contains every required token |
| CheckFacts.BeyondWorkforce | app/lib/validator.tsx:117-118 | asking for more concurrent workers than there are workers is always reported, once |
| CheckFacts.ConcurrencyMessageNumbers | app/lib/validator.tsx:118 | the message carries the qualified count after "Only " and `MaxConcurrent` at its end, both in decimal; this is exact for values below 1e21 |
| Rows.Set | app/page.tsx:70-73 | the spread update sets the one key, leaves every other key alone, keeps an existing key's place and puts a new key last |
| Page.GetCellErrors | app/page.tsx:96-100 | `getCellErrors` returns at most one message per finding |
| Page.MessagesIffAbout | app/page.tsx:96-100 | `getCellErrors` is non-empty exactly when some finding is about the cell |
| Page.HasError | app/page.tsx:90-94 | `hasError` holds exactly when `getCellErrors` is non-empty, so a cell is highlighted exactly when it has messages to show |
| Page.CellErrorsAppend | app/page.tsx:96-100 | the filter distributes over concatenation, so messages come in finding order |
| Page.CellErrorsNone | app/page.tsx:96-100 | findings about other cells contribute no message |
| Page.GetHeaders | app/page.tsx:102-105 | `[]` for no rows, otherwise exactly the first row's keys in their order, which have no repeats |
| Page.UpdateData | app/page.tsx:68-75 | same length; only the chosen cell of the chosen row takes the new value; other rows and columns are unchanged; the headers grow only by a new column of row 0 |
| Page.TaskIds | app/page.tsx:30 | at most one ID per task, never the empty string |
| Page.TaskIdsOne | app/page.tsx:30 | a single task yields its trimmed ID, or nothing when that ID is empty |
| Page.TaskIdsAppend | app/page.tsx:30 | the IDs of two task lists are the IDs of the first followed by those of the second: task order is kept and a repeated ID is listed once per task |
| Page.TaskIdsMatchValidator | app/page.tsx:30 | the IDs offered to the rule builder are exactly the non-empty IDs check 7 accepts |
| Page.RowLabel | app/page.tsx:281 | row −1 is labelled "Header"; a data row gets a decimal label |
| Page.RowLabelReadsBack | app/page.tsx:281 | a data row's label reads back as its one-based position |
| Page.HomePage.constructor | app/page.tsx:18-32 | three empty tables, the clients tab, no findings |
| Page.HomePage.RunValidations | app/page.tsx:34-38 | the findings become `validateAll` of the data on screen; nothing else changes |
| Page.HomePage.HandleFileUpload | app/page.tsx:45-60 | only the named table is replaced, the tab switches to it, and the findings are those of the new data |
| Page.HomePage.HandleCellChange | app/page.tsx:62-88 | only the named table gets `updateData`; the tab is kept; the findings are those of the new data |
| Grid.EditableGrid.Headers | app/components/Grid.tsx:25-27 | the grid's headers are the page's `getHeaders` of its rows |
| Grid.EditableGrid.constructor | app/components/Grid.tsx:16 | the `rows` state starts as the very array of the `data` prop |
| Grid.EditableGrid.HandleChange | app/components/Grid.tsx:18-23 | the cell is written on the shared row object, so the `data` prop sees it too; other row objects are unchanged; `onUpdate` receives the new state array |
| Grid.EditMatchesPage | app/components/Grid.tsx:18-23 | when no row object is held twice, a grid edit equals the page's `updateData` |
| FileUpload.CleanPrefix | app/components/FileUploader.tsx:53-60 | after visiting n keys, the cleaned object has at most n keys |
| FileUpload.CleanedRow | app/components/FileUploader.tsx:53-61 | cleaning never adds columns. `KeptKeyPresent`, `CleanedNameSource` and `LaterKeyWins` state which columns it keeps |
| FileUpload.CleanRow | app/components/FileUploader.tsx:53-61 | the `for…in` loop builds exactly the cleaned row |
| FileUpload.KeptKeyPresent | app/components/FileUploader.tsx:55-58 | every key not starting with `__EMPTY` is present after cleaning under its trimmed name |
| FileUpload.CleanedNameSource | app/components/FileUploader.tsx:55-58 | every name in the cleaned row is the trim of a kept key |
| FileUpload.LaterKeyWins | app/components/FileUploader.tsx:57 | under a trimmed name, the value of the last kept key with that name wins |
| FileUpload.HasContent | app/components/FileUploader.tsx:62-66 | a row with some non-empty value has at least one column |
| FileUpload.CleanRows | app/components/FileUploader.tsx:52-66 | no more rows than read, each holding some non-empty value |
| FileUpload.CleanRowsAppend | app/components/FileUploader.tsx:62-66 | cleaning works row by row, so surviving rows keep their order |
| FileUpload.BlankSheetHasNoData | app/components/FileUploader.tsx:62-66 | rows whose every value is empty all drop out |
| FileUpload.LoadOutcome | app/components/FileUploader.tsx:37-106 | empty content is an error; loaded rows are non-empty and each has content; the unsupported-type error arises exactly for a name with no known extension; loaded rows are exactly the cleaned rows of the sheet; the no-data error arises exactly when a supported, non-empty file reads without failure and cleans to no rows |
| FileUpload.ReadModeOf | app/components/FileUploader.tsx:122-126 | a name is read as text exactly when it ends in `.csv`, and as an array buffer exactly when it ends in `.xlsx` or `.xls`; the three endings exclude each other |
| FileUpload.ExtensionDispatch | app/components/FileUploader.tsx:122-126 | `.xlsx` and `.xls` are read as array buffers and `.csv` as text; the test is case-sensitive, so `.CSV` is not read |
| FileUpload.FileUploadCard.constructor | app/components/FileUploader.tsx:22-24 | no file, no error, no spinner, no upload |
| FileUpload.FileUploadCard.ParseFile | app/components/FileUploader.tsx:26-127 | shows the name, clears the error, turns the spinner on, and starts a read only for a supported extension, so for any other name the spinner stays on |
| FileUpload.FileUploadCard.OnLoad | app/components/FileUploader.tsx:33-115 | on success `onFileUpload` is called once with the cleaned rows and the name; otherwise the error line is set and nothing is handed on; the unsupported branch is never reached; the spinner goes off either way |
| FileUpload.FileUploadCard.OnError | app/components/FileUploader.tsx:117-120 | shows "Failed to read file: " and the message; the spinner goes off |
| Rules.RemoveAt | app/components/rules/RuleBuilder.tsx:20 | a valid index drops exactly that rule; any other index keeps the list |
| Rules.RemoveAtShape | app/components/rules/RuleBuilder.tsx:19-21 | deleting shortens the list by one and keeps the other rules in order |
| Rules.RemoveLastAdded | app/components/rules/RuleBuilder.tsx:15-21 | deleting the rule just added gives the list back |
| Rules.RuleBuilder.constructor | app/components/rules/RuleBuilder.tsx:12-13 | no rules, and the empty weights record |
| Rules.RuleBuilder.HandleAddRule | app/components/rules/RuleBuilder.tsx:15-17 | any rule, unchecked, goes last |
| Rules.RuleBuilder.HandleDeleteRule | app/components/rules/RuleBuilder.tsx:19-21 | the rule list becomes `RemoveAt` of the old one; the weights are kept |
| Rules.RuleBuilder.SetPriorityWeights | app/components/rules/RuleBuilder.tsx:47 | the weights record is replaced wholesale; the rules are kept |
| Rules.RuleBuilder.HandleExportRules | app/components/rules/RuleBuilder.tsx:23-28 | the snapshot is exactly the current rules and weights, and exporting changes nothing |
| Rules.ExportFresh | app/components/rules/RuleBuilder.tsx:23-28 | an export before any rule or slider move is `{rules: [], priorities: {}}` |
| CoRun.CoRunForm.constructor | app/components/rules/coRunForm.tsx:16 | nothing selected |
| CoRun.CoRunForm.Toggle | app/components/rules/coRunForm.tsx:38 | the selection becomes the multi-select's toggled list |
| CoRun.CoRunForm.HandleAddRule | app/components/rules/coRunForm.tsx:18-24 | with two or more tasks selected, emits the co-run rule in selection order and clears the selection; otherwise nothing changes |
| Slots.SlotRule | app/components/rules/slotRestriction.tsx:20-22 | a rule exists exactly when the group is non-empty and `parseInt` of the count is a number ≥ 0; the group is kept untrimmed and the count is that parsed number |
| Slots.SlotRuleOfNumeral | app/components/rules/slotRestriction.tsx:20-22 | a count typed as decimal digits is read back exactly |
| Slots.SlotRestrictionForm.constructor | app/components/rules/slotRestriction.tsx:16-17 | both fields start empty |
| Slots.SlotRestrictionForm.SetGroup | app/components/rules/slotRestriction.tsx:39 | the group field takes the typed text; the count is kept |
| Slots.SlotRestrictionForm.SetMinSlots | app/components/rules/slotRestriction.tsx:50 | the count field takes the typed text; the group is kept |
| Slots.SlotRestrictionForm.HandleAdd | app/components/rules/slotRestriction.tsx:19-26 | a usable input emits the rule and resets both fields; a rejected one changes nothing |
| Weights.With | app/components/priority/prioritySliders.tsx:31 | the spread update sets one key and leaves the other four unchanged |
| Weights.Extensional | app/components/priority/prioritySliders.tsx:9-15 | records agreeing on the five keys are equal |
| Weights.DefaultsInRange | app/components/priority/prioritySliders.tsx:22-28 | all five weights start at 5, inside the slider range |
| Weights.WithIdempotent | app/components/priority/prioritySliders.tsx:30-31 | applying the same key and value twice is applying it once |
| Weights.WithKeepsRange | app/components/priority/prioritySliders.tsx:47-52 | a slider value in 0..10 keeps every weight in 0..10 |
| Weights.WithCurrent | app/components/priority/prioritySliders.tsx:31 | setting a key to its current value changes nothing |
| Sliders.PrioritySliders.constructor | app/components/priority/prioritySliders.tsx:22-28 | the weights start at the defaults |
| Sliders.PrioritySliders.HandleSliderChange | app/components/priority/prioritySliders.tsx:30-34 | stores the record with one key replaced and hands that same record to the rule builder |
| MultiSelect.Without | app/components/ui/MultiSelect.tsx:22 | the filter removes every copy of the option and keeps everything else |
| MultiSelect.ToggleOption | app/components/ui/MultiSelect.tsx:20-26 | the option ends up selected exactly when it was not selected before, and every other option keeps its membership |
| MultiSelect.TogglePresent | app/components/ui/MultiSelect.tsx:21-22 | a selected option is removed, every copy of it, and nothing else is |
| MultiSelect.ToggleAbsent | app/components/ui/MultiSelect.tsx:23-24 | an unselected option goes last and the rest stays as it was |
| MultiSelect.WithoutShorter | app/components/ui/MultiSelect.tsx:22 | removing a present option shortens the list |
| MultiSelect.WithoutAbsent | app/components/ui/MultiSelect.tsx:22 | filtering out an absent option changes nothing |
| MultiSelect.WithoutAppend | app/components/ui/MultiSelect.tsx:22 | the filter distributes over concatenation |
| MultiSelect.WithoutTwice | app/components/ui/MultiSelect.tsx:22 | filtering twice is filtering once |
| MultiSelect.OthersKeepOrder | app/components/ui/MultiSelect.tsx:20-26 | with the option filtered out, the selection before and after a toggle is the same list |
| MultiSelect.ToggleTwiceAbsent | app/components/ui/MultiSelect.tsx:20-26 | ticking an unselected option and unticking it again gives the original selection |
| MultiSelect.WithoutNoDuplicates | app/components/ui/MultiSelect.tsx:22 | filtering keeps a duplicate-free list duplicate-free |
| MultiSelect.ToggleKeepsNoDuplicates | app/components/ui/MultiSelect.tsx:20-26 | a duplicate-free selection stays duplicate-free, and the option ends up selected exactly when it was not before |

## Left out

- The AI helpers are not part of this model: `app/lib/ai/gemini.tsx`, `app/lib/ai/ai-insights.tsx`, `app/components/rules/aiPromptForm.tsx` and `app/components/dataInsights.tsx`. They are network calls to a language model. A rule they suggest reaches the rule builder unchecked, which `Rules.Generated` and `Rules.RuleBuilder.HandleAddRule` cover.
- `JSON.parse` is a parameter (`Json.Decoder`): `None` stands for the `SyntaxError` it throws. Decoding itself, RFC 8259 syntax included, is library code.
- `XLSX.read` followed by `sheet_to_json` is the parameter `FileUpload.SheetReader`. `FileReader` is reduced to the `onload` and `onerror` calls.
- The upload card models one read in flight at a time. A read that a later `parseFile` overtakes is not modelled.
- `console.error`, the Blob/URL/anchor download of `rules.json` and `JSON.stringify` are output only and left out. `Rules.RuleBuilder.HandleExportRules` returns the snapshot that would be serialised.
- React's state scheduling is not modelled. The `useEffect` that re-runs `runValidations` after a data change is modelled as a direct call at the end of each handler.
- Cell values are strings or absent. The sheet reader is asked for text values with `""` for blanks, so a number, `null` or array cell does not occur. The `typeof row.AvailableSlots === 'string'` test and the `typeof parsedData[0] !== 'object'` test are therefore always true in the model.
- JavaScript enumerates integer-like object keys in ascending order before the others. Rows here keep plain insertion order for every key, which affects `Rows.Set`, `FileUpload.CleanRow` and `Page.GetHeaders` only for such keys.
- JsText.ParseInt: integers are unbounded. JavaScript's `parseInt` loses precision beyond 2^53, and the model does not reproduce that.
- JsText.ToNumber: reads the value exactly. JavaScript's `Number` rounds to the nearest double, so a text above 2^53 can read as a different integer. For example, "9007199254740993" reads as 9007199254740992.
- JsText.ToNumberOfNatToString: the exact read-back holds in JavaScript only below 2^53, for the rounding reason given for `JsText.ToNumber`.
- Phases.ParsePhasesRange: exact only for bounds below 2^53. Beyond that, JavaScript rounds both bounds before it computes the length. For example, "9007199254740993-9007199254740992" yields one phase there, and nothing in the model.
- CheckFacts.RangeCell: inherits the gap of `Phases.ParsePhasesRange`. For example, "9007199254740993-9007199254740992" passes check 8 in JavaScript and is reported here.
- JsText.IntToString: prints every digit. JavaScript's template literal prints 1e21 and above in exponent form (`1e+21`), and a numeral of 309 or more digits becomes `Infinity`. The model prints neither form.
- CheckFacts.ConcurrencyMessageNumbers: holds as stated only while `MaxConcurrent` is below 1e21, because of the printing gap of `JsText.IntToString`.
- JsText.ToNumber: only integer literals are read: decimal with an optional sign, or `0x`/`0X` hexadecimal, plus the empty text as 0. Fractions, exponents, `Infinity` and the `0b`/`0o` prefixes give `NaN` here, so a fractional phase bound is treated as `NaN` (an empty range).
- Json.Json: numbers carry integers only. A fractional number in a decoded slot or phase array is not represented.
- Page.UpdateData: requires the row index to lie inside the table. JavaScript would grow the array with holes for a larger index, but the grid never sends one.
- Page.HomePage.HandleCellChange: the same row-index requirement as `Page.UpdateData`.
- Sliders.PrioritySliders.HandleSliderChange: accepts any integer. The slider's 0..10 bound is the precondition of `Weights.WithKeepsRange` rather than a requirement of the handler, as in the source.
- Grid.EditableGrid.HandleChange: requires the row index to lie inside the grid, which holds for every input the grid renders.
