/**
 * The prioritisation sliders: five weights, each moved independently, every move
 * reported to the rule builder.
 */
module Sliders {
  import opened Wrappers
  import opened Weights
  import opened Rules

  class PrioritySliders {
    var weights: Weights
    /** The rule builder whose `setPriorityWeights` is the `onChange` callback. */
    const builder: RuleBuilder

    constructor(builder: RuleBuilder)
      ensures weights == DefaultWeights && this.builder == builder
    {
      weights := DefaultWeights;
      this.builder := builder;
    }

    /** `handleSliderChange(key, value)`: stores the record with one key replaced and hands
        that same record to the rule builder. */
    method HandleSliderChange(key: WeightKey, value: int)
      modifies this, builder
      ensures weights == With(old(weights), key, value)
      ensures builder.priorityWeights == Some(weights)
      ensures builder.rules == old(builder.rules)
    {
      var newWeights := With(weights, key, value);
      weights := newWeights;
      builder.SetPriorityWeights(newWeights);
    }
  }
}
