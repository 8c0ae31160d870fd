/** The two traffic ramps: controllers/scaling/linear.go, controllers/scaling/geometric.go
    and the dispatch in controllers/scaling.go. */
module Scaling {
  import opened Base
  import opened Types

  /** The step a strategy would take if nothing limited it, in uint32 arithmetic. */
  function RawNext(current: uint32, r: Release): uint32 {
    match r.strategy
    case Linear => (current + r.increment) % TWO_TO_THE_32
    case Geometric => if current < r.start then r.start else (current * r.factor) % TWO_TO_THE_32
    case Other => current
  }

  function LinearNextIncrement(current: uint32, r: Release, max: uint32): uint32 {
    if max <= 0 then 0
    else
      var max := if r.max < max then r.max else max;
      if current > max then max
      else
        var next := (current + r.increment) % TWO_TO_THE_32;
        if next > max then max else next
  }

  function GeometricNextIncrement(current: uint32, r: Release, max: uint32): uint32 {
    if max <= 0 then 0
    else
      var max := if r.max < max then r.max else max;
      if current > max then max
      else
        var next := (current * r.factor) % TWO_TO_THE_32;
        var next := if current < r.start then r.start else next;
        if next > max then max else next
  }

  function NextIncrement(current: uint32, r: Release, max: uint32): uint32 {
    match r.strategy
    case Linear => LinearNextIncrement(current, r, max)
    case Geometric => GeometricNextIncrement(current, r, max)
    case Other => current
  }

  /** Both strategies clamp the raw step between the ceiling and zero. */
  lemma NextIncrementIsClamped(current: uint32, r: Release, max: uint32)
    requires r.strategy != Other
    ensures NextIncrement(current, r, max) <= Min(max, r.max)
    ensures max > 0 && current <= Min(max, r.max) ==>
              NextIncrement(current, r, max) == Min(RawNext(current, r), Min(max, r.max))
    ensures current > Min(max, r.max) ==> NextIncrement(current, r, max) == Min(max, r.max)
  {
  }

  /** Asking with less room never asks for more, as long as the answer is growth. */
  lemma GrowthIsMonotone(current: uint32, r: Release, max: uint32, roomier: uint32)
    requires max <= roomier
    requires NextIncrement(current, r, max) > current
    ensures NextIncrement(current, r, max) <= NextIncrement(current, r, roomier)
  {
  }

  /** A raw step that has not wrapped around and does not shrink. */
  predicate Grows(current: uint32, r: Release) { RawNext(current, r) >= current }

  /** The defaults of api/v1alpha1/source_defaults.go leave no zero settings. */
  predicate DefaultsApplied(r: Release) {
    r.strategy != Other && r.max > 0 && r.increment > 0 && r.start > 0 && r.factor > 0
  }
}
