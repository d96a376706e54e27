/**
 * The rule collection of the rule builder: an ordered list of rules with append and
 * delete-by-position, the prioritisation weights last reported by the sliders, and the
 * configuration snapshot that is exported as `rules.json`.
 */
module Rules {
  import opened Wrappers
  import opened Json
  import opened Weights

  /** A rule as the forms build it. A rule suggested from a prompt is any JSON value:
      nothing checks its shape before it joins the list. */
  datatype Rule =
    | CoRun(tasks: seq<string>)
    | SlotRestriction(group: string, minCommonSlots: int)
    | Generated(value: Json)

  /** What the two forms check before emitting a rule. */
  predicate FormRule(rule: Rule) {
    match rule
    case CoRun(tasks) => |tasks| >= 2
    case SlotRestriction(group, minCommonSlots) => group != "" && minCommonSlots >= 0
    case Generated(_) => false
  }

  /** The exported configuration `{ rules, priorities }`. The weights start as the empty
      record `{}`, written `None` here. */
  datatype ExportData = ExportData(rules: seq<Rule>, priorities: Option<Weights>)

  /** `rules.filter((_, i) => i !== index)`. */
  function RemoveAt(rules: seq<Rule>, index: int): (r: seq<Rule>)
    ensures 0 <= index < |rules| ==> r == rules[..index] + rules[index + 1..]
    ensures !(0 <= index < |rules|) ==> r == rules
    decreases |rules|
  {
    if rules == [] then []
    else
      var k := |rules| - 1;
      var kept := RemoveAt(rules[..k], index);
      assert index == k ==> kept == rules[..k];
      assert index > k ==> kept == rules[..k];
      kept + (if k == index then [] else [rules[k]])
  }

  /** Deleting at a valid position shortens the list by one and keeps the others in order. */
  lemma RemoveAtShape(rules: seq<Rule>, index: int)
    requires 0 <= index < |rules|
    ensures |RemoveAt(rules, index)| == |rules| - 1
    ensures forall j :: 0 <= j < index ==> RemoveAt(rules, index)[j] == rules[j]
    ensures forall j :: index <= j < |rules| - 1 ==> RemoveAt(rules, index)[j] == rules[j + 1]
  {
  }

  /** Deleting a rule just added gives the list back. */
  lemma RemoveLastAdded(rules: seq<Rule>, rule: Rule)
    ensures RemoveAt(rules + [rule], |rules|) == rules
  {
    assert (rules + [rule])[..|rules|] == rules;
    assert (rules + [rule])[|rules| + 1..] == [];
  }

  /** The state of the rule builder. */
  class RuleBuilder {
    var rules: seq<Rule>
    var priorityWeights: Option<Weights>

    constructor()
      ensures rules == [] && priorityWeights == None
    {
      rules := [];
      priorityWeights := None;
    }

    /** `handleAddRule(rule)`: the rule goes last, unchecked. */
    method HandleAddRule(rule: Rule)
      modifies this
      ensures rules == old(rules) + [rule]
      ensures priorityWeights == old(priorityWeights)
    {
      rules := rules + [rule];
    }

    /** `handleDeleteRule(index)`: drops the rule at `index`; any other index changes nothing. */
    method HandleDeleteRule(index: int)
      modifies this
      ensures rules == RemoveAt(old(rules), index)
      ensures priorityWeights == old(priorityWeights)
    {
      rules := RemoveAt(rules, index);
    }

    /** `setPriorityWeights(weights)`, the sliders' `onChange`: replaces the record wholesale. */
    method SetPriorityWeights(weights: Weights)
      modifies this
      ensures priorityWeights == Some(weights)
      ensures rules == old(rules)
    {
      priorityWeights := Some(weights);
    }

    /** The snapshot `handleExportRules` serialises; exporting changes no state. */
    method HandleExportRules() returns (snapshot: ExportData)
      ensures snapshot.rules == rules && snapshot.priorities == priorityWeights
    {
      snapshot := ExportData(rules, priorityWeights);
    }
  }

  /** An export before any slider move carries no weights. */
  method ExportFresh() returns (snapshot: ExportData)
    ensures snapshot == ExportData([], None)
  {
    var builder := new RuleBuilder();
    snapshot := builder.HandleExportRules();
  }
}
