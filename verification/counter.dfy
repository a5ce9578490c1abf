/** The ±1 counter widget (src/components/ui/counter.tsx): its two guarded
    buttons, which emit `onChange(newValue, description)`, and its critical
    and dead display predicates. The `label` prop is `caption` here. */
module Counter {
  import opened Common

  datatype Button = Minus | Plus

  /** One call of `onChange(newValue, description)`. */
  datatype Change = Change(value: int, description: string)

  /** `${label} : ${from} → ${to}`. */
  function StepDescription(caption: string, from: int, to: int): (d: string)
    ensures |d| > 0
  {
    caption + " : " + IntToString(from) + " → " + IntToString(to)
  }

  /** `handleDecrement`: emits `value - 1` only while `value > min`. */
  function Decrement(caption: string, value: int, min: int): (r: Option<Change>)
    ensures r.Some? <==> value > min
    ensures r.Some? ==> r.value.value == value - 1 && r.value.value >= min
    ensures r.Some? ==> r.value.description == StepDescription(caption, value, value - 1)
  {
    if value > min then Some(Change(value - 1, StepDescription(caption, value, value - 1))) else None
  }

  /** `handleIncrement`: emits `value + 1` only while `value < max`. */
  function Increment(caption: string, value: int, max: int): (r: Option<Change>)
    ensures r.Some? <==> value < max
    ensures r.Some? ==> r.value.value == value + 1 && r.value.value <= max
    ensures r.Some? ==> r.value.description == StepDescription(caption, value, value + 1)
  {
    if value < max then Some(Change(value + 1, StepDescription(caption, value, value + 1))) else None
  }

  /** A press of one of the two buttons: minus emits exactly while the value
      is above `min`, plus exactly while it is below `max`, each moving the
      value one step its way. */
  function Press(caption: string, value: int, min: int, max: int, b: Button): (r: Option<Change>)
    ensures b == Minus ==> (r.Some? <==> value > min)
    ensures b == Plus ==> (r.Some? <==> value < max)
    ensures r.Some? && b == Minus ==> r.value.value == value - 1
    ensures r.Some? && b == Plus ==> r.value.value == value + 1
    ensures r.Some? ==> r.value.description == StepDescription(caption, value, r.value.value)
  {
    match b
    case Minus => Decrement(caption, value, min)
    case Plus => Increment(caption, value, max)
  }

  /** From a value inside `[min, max]`, every emitted value is inside it too,
      one step away, and comes with a non-empty description; at a bound the
      button towards it emits nothing. */
  lemma PressStaysInRange(caption: string, value: int, min: int, max: int, b: Button)
    requires min <= value <= max
    ensures var r := Press(caption, value, min, max, b);
            r.Some? ==> min <= r.value.value <= max && (r.value.value == value - 1 || r.value.value == value + 1)
    ensures var r := Press(caption, value, min, max, b);
            r.Some? ==> r.value.description != ""
    ensures value == min ==> Press(caption, value, min, max, Minus) == None
    ensures value == max ==> Press(caption, value, min, max, Plus) == None
  {
  }

  /** `isCritical`: a threshold and an initial value are given, the initial
      value is positive and `value / initialValue` is below the threshold. */
  function IsCritical(value: int, initialValue: Option<int>, threshold: Option<real>): (r: bool)
    ensures r ==> threshold.Some? && initialValue.Some? && initialValue.value > 0
    ensures threshold.Some? && initialValue.Some? && initialValue.value > 0 ==>
      (r <==> (value as real) < threshold.value * (initialValue.value as real))
  {
    && threshold.Some? && initialValue.Some? && initialValue.value > 0
    && (RatioBelow(value as real, initialValue.value as real, threshold.value);
        (value as real) / (initialValue.value as real) < threshold.value)
  }

  /** `isDead`: the value is at or below zero on a counter whose minimum
      is 0. */
  predicate IsDead(value: int, min: int) {
    value <= 0 && min == 0
  }
}
