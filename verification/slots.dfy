/**
 * The slot-restriction form: a group name and a minimum slot count typed as text, and a
 * button that emits a slot-restriction rule when both are usable.
 */
module Slots {
  import opened Wrappers
  import opened JsText
  import opened Rules

  /** The rule `handleAdd` would emit for the two text fields, if any: the group must be
      non-empty and `parseInt` of the count must give a number that is not negative. The
      group is taken as typed, untrimmed. */
  function SlotRule(group: string, minSlots: string): (r: Option<Rule>)
    ensures r.Some? ==> r.value.SlotRestriction? && FormRule(r.value) && r.value.group == group
    ensures r.Some? <==> group != "" && ParseInt(minSlots).Some? && ParseInt(minSlots).value >= 0
    ensures r.Some? ==> r.value.minCommonSlots == ParseInt(minSlots).value
  {
    var parsedSlots := ParseInt(minSlots);
    if group != "" && parsedSlots.Some? && parsedSlots.value >= 0 then
      Some(SlotRestriction(group, parsedSlots.value))
    else None
  }

  /** A count typed as its decimal digits is read back exactly. */
  lemma SlotRuleOfNumeral(group: string, n: int)
    ensures SlotRule(group, IntToString(n)) ==
      if group != "" && n >= 0 then Some(SlotRestriction(group, n)) else None
  {
    ParseIntRoundTrip(n);
  }

  class SlotRestrictionForm {
    var group: string
    var minSlots: string
    /** The rule list that `onAddRule` appends to. */
    const builder: RuleBuilder

    constructor(builder: RuleBuilder)
      ensures group == "" && minSlots == "" && this.builder == builder
    {
      group, minSlots := "", "";
      this.builder := builder;
    }

    /** The group input's `onChange`. */
    method SetGroup(value: string)
      modifies this
      ensures group == value && minSlots == old(minSlots)
    {
      group := value;
    }

    /** The count input's `onChange`. */
    method SetMinSlots(value: string)
      modifies this
      ensures minSlots == value && group == old(group)
    {
      minSlots := value;
    }

    /** `handleAdd`: emits the rule and resets both fields when the input is usable; leaves
        everything as it was otherwise. */
    method HandleAdd()
      modifies this, builder
      ensures SlotRule(old(group), old(minSlots)).Some? ==>
        builder.rules == old(builder.rules) + [SlotRule(old(group), old(minSlots)).value] &&
        group == "" && minSlots == ""
      ensures SlotRule(old(group), old(minSlots)).None? ==>
        builder.rules == old(builder.rules) && group == old(group) && minSlots == old(minSlots)
      ensures builder.priorityWeights == old(builder.priorityWeights)
    {
      var parsedSlots := ParseInt(minSlots);
      if group != "" && parsedSlots.Some? && parsedSlots.value >= 0 {
        builder.HandleAddRule(SlotRestriction(group, parsedSlots.value));
        group, minSlots := "", "";
      }
    }
  }
}
