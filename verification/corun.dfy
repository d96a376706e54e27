/**
 * The co-run form: a multi-select of task IDs and a button that emits a co-run rule once
 * at least two tasks are selected.
 */
module CoRun {
  import opened MultiSelect
  import opened Rules

  /** The fewest tasks a co-run rule may name. */
  const MinCoRunTasks := 2

  class CoRunForm {
    var selectedTasks: seq<string>
    /** The rule list that `onAddRule` appends to. */
    const builder: RuleBuilder

    constructor(builder: RuleBuilder)
      ensures selectedTasks == [] && this.builder == builder
    {
      selectedTasks := [];
      this.builder := builder;
    }

    /** The multi-select's `onChange` is `setSelectedTasks`: a tick or an untick. */
    method Toggle(option: string)
      modifies this
      ensures selectedTasks == ToggleOption(old(selectedTasks), option)
    {
      selectedTasks := ToggleOption(selectedTasks, option);
    }

    /** `handleAddRule`: with two or more tasks selected, emits `{type: 'coRun', tasks}` in
        selection order and clears the selection; otherwise does nothing. */
    method HandleAddRule()
      modifies this, builder
      ensures |old(selectedTasks)| >= MinCoRunTasks ==>
        builder.rules == old(builder.rules) + [CoRun(old(selectedTasks))] && selectedTasks == []
      ensures |old(selectedTasks)| < MinCoRunTasks ==>
        builder.rules == old(builder.rules) && selectedTasks == old(selectedTasks)
      ensures builder.priorityWeights == old(builder.priorityWeights)
      ensures builder.rules == old(builder.rules) || FormRule(builder.rules[|builder.rules| - 1])
    {
      if |selectedTasks| >= MinCoRunTasks {
        builder.HandleAddRule(CoRun(selectedTasks));
        selectedTasks := [];
      }
    }
  }
}
