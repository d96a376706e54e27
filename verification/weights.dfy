/**
 * The prioritisation weights record edited by the sliders: five named weights, each an
 * integer slider position.
 */
module Weights {

  datatype Weights = Weights(
    priorityLevel: int,
    taskFulfillment: int,
    fairness: int,
    workloadBalance: int,
    phaseEfficiency: int)

  /** `keyof PriorityWeights`. */
  datatype WeightKey = PriorityLevel | TaskFulfillment | Fairness | WorkloadBalance | PhaseEfficiency

  /** The slider range and starting position. */
  const MinWeight := 0
  const MaxWeight := 10
  const DefaultWeight := 5

  /** The record the sliders start from. */
  const DefaultWeights := Weights(DefaultWeight, DefaultWeight, DefaultWeight, DefaultWeight, DefaultWeight)

  /** `weights[key]`. */
  function WeightOf(w: Weights, k: WeightKey): int {
    match k
    case PriorityLevel => w.priorityLevel
    case TaskFulfillment => w.taskFulfillment
    case Fairness => w.fairness
    case WorkloadBalance => w.workloadBalance
    case PhaseEfficiency => w.phaseEfficiency
  }

  /** `{ ...weights, [key]: value }`. */
  function With(w: Weights, k: WeightKey, v: int): (r: Weights)
    ensures WeightOf(r, k) == v
    ensures forall other :: other != k ==> WeightOf(r, other) == WeightOf(w, other)
  {
    match k
    case PriorityLevel => w.(priorityLevel := v)
    case TaskFulfillment => w.(taskFulfillment := v)
    case Fairness => w.(fairness := v)
    case WorkloadBalance => w.(workloadBalance := v)
    case PhaseEfficiency => w.(phaseEfficiency := v)
  }

  /** Every weight is a slider position. */
  predicate InRange(w: Weights) {
    forall k :: MinWeight <= WeightOf(w, k) <= MaxWeight
  }

  /** Two records that agree on every key are the same record. */
  lemma Extensional(a: Weights, b: Weights)
    requires forall k :: WeightOf(a, k) == WeightOf(b, k)
    ensures a == b
  {
    assert WeightOf(a, PriorityLevel) == WeightOf(b, PriorityLevel);
    assert WeightOf(a, TaskFulfillment) == WeightOf(b, TaskFulfillment);
    assert WeightOf(a, Fairness) == WeightOf(b, Fairness);
    assert WeightOf(a, WorkloadBalance) == WeightOf(b, WorkloadBalance);
    assert WeightOf(a, PhaseEfficiency) == WeightOf(b, PhaseEfficiency);
  }

  /** Every weight starts at the middle of the slider. */
  lemma DefaultsInRange()
    ensures forall k :: WeightOf(DefaultWeights, k) == DefaultWeight
    ensures InRange(DefaultWeights)
  {
    forall k ensures WeightOf(DefaultWeights, k) == DefaultWeight {
      match k
      case PriorityLevel =>
      case TaskFulfillment =>
      case Fairness =>
      case WorkloadBalance =>
      case PhaseEfficiency =>
    }
  }

  /** Setting the same key to the same value twice is the same as once. */
  lemma WithIdempotent(w: Weights, k: WeightKey, v: int)
    ensures With(With(w, k, v), k, v) == With(w, k, v)
  {
    Extensional(With(With(w, k, v), k, v), With(w, k, v));
  }

  /** Setting a key to a slider position keeps every weight a slider position. */
  lemma WithKeepsRange(w: Weights, k: WeightKey, v: int)
    requires InRange(w) && MinWeight <= v <= MaxWeight
    ensures InRange(With(w, k, v))
  {
    forall other ensures MinWeight <= WeightOf(With(w, k, v), other) <= MaxWeight {
      if other != k {
        assert WeightOf(With(w, k, v), other) == WeightOf(w, other);
      }
    }
  }

  /** Setting a key to the value it already holds changes nothing. */
  lemma WithCurrent(w: Weights, k: WeightKey)
    ensures With(w, k, WeightOf(w, k)) == w
  {
    Extensional(With(w, k, WeightOf(w, k)), w);
  }
}
