/** The speed slider: two segments of a million units each, between the minimum, the recommended and the maximum
    priority fee. */
module Slider {
  import opened Wrappers
  import opened Quantities
  import opened Fees

  const SCALE: nat := 1_000_000

  function Minimum(info: Info): nat {
    if info.recommendedPriorityFee / 2 >= MINIMUM_PRIORITY_FEE then info.recommendedPriorityFee / 2
    else MINIMUM_PRIORITY_FEE
  }

  function Maximum(info: Info): nat {
    if info.highPriorityFee * 2 <= MAX_UINT256 then info.highPriorityFee * 2 else MAX_UINT256
  }

  predicate IsUsable(info: Info) {
    && IsUInt256(Minimum(info)) && IsUInt256(info.recommendedPriorityFee) && IsUInt256(Maximum(info))
    && Minimum(info) <= info.recommendedPriorityFee <= Maximum(info)
  }

  /** An info whose recommended fee is at most its high one makes a slider exactly when it recommends something. */
  lemma UsableWhenRecommending(info: Info)
    requires info.recommendedPriorityFee <= info.highPriorityFee && IsUInt256(info.recommendedPriorityFee)
    ensures IsUsable(info) <==> info.recommendedPriorityFee >= MINIMUM_PRIORITY_FEE
  {
  }

  function InterpolatedOffset(distance: nat, units: nat): nat {
    distance * units / SCALE
  }

  /** The priority fee at a slider position, counted in units from the minimum. */
  function InterpolatedFee(units: nat, info: Info): (fee: Option<nat>)
    ensures fee.Some? <==> units <= 2 * SCALE && IsUsable(info)
    ensures fee.Some? ==> Minimum(info) <= fee.value <= Maximum(info)
  {
    var minimum, recommended, maximum := Minimum(info), info.recommendedPriorityFee, Maximum(info);
    if units > 2 * SCALE || !IsUsable(info) then None
    else if units == 0 then Some(minimum)
    else if units == SCALE then Some(recommended)
    else if units == 2 * SCALE then Some(maximum)
    else if units < SCALE then
      InterpolateIsExact(minimum, recommended, units);
      Interpolate(minimum, recommended, units)
    else
      InterpolateIsExact(recommended, maximum, units - SCALE);
      Interpolate(recommended, maximum, units - SCALE)
  }

  function Interpolate(lower: nat, upper: nat, units: nat): Option<nat> {
    var result := if lower <= upper then lower + InterpolatedOffset(upper - lower, units) else 0;
    if units > SCALE || lower > upper || !IsUInt256(result) then None
    else Some(if result <= upper then result else upper)
  }

  /** Between two valid fees neither the clamp to the upper one nor the check of the result ever matters. */
  lemma InterpolateIsExact(lower: nat, upper: nat, units: nat)
    requires lower <= upper && IsUInt256(upper) && units <= SCALE
    ensures Interpolate(lower, upper, units) == Some(lower + InterpolatedOffset(upper - lower, units))
    ensures lower <= Interpolate(lower, upper, units).value <= upper
  {
    OffsetBound(upper - lower, units);
  }

  lemma OffsetBound(distance: nat, units: nat)
    requires units <= SCALE
    ensures 0 <= InterpolatedOffset(distance, units) <= distance
    ensures units == 0 ==> InterpolatedOffset(distance, units) == 0
    ensures units == SCALE ==> InterpolatedOffset(distance, units) == distance
  {
    assert distance * units <= distance * SCALE;
    DivideMonotone(distance * units, distance * SCALE);
  }

  lemma DivideMonotone(a: nat, b: nat)
    requires a <= b
    ensures 0 <= a / SCALE <= b / SCALE
  {
  }

  lemma OffsetMonotone(distance: nat, a: nat, b: nat)
    requires a <= b
    ensures InterpolatedOffset(distance, a) <= InterpolatedOffset(distance, b)
  {
    assert distance * a <= distance * b;
    DivideMonotone(distance * a, distance * b);
  }

  /** Neighbouring positions are at most ⌈distance / SCALE⌉ apart. */
  lemma OffsetStep(distance: nat, units: nat)
    ensures InterpolatedOffset(distance, units + 1) - InterpolatedOffset(distance, units)
         <= (distance + SCALE - 1) / SCALE
  {
    assert distance * (units + 1) == distance * units + distance;
    StepOf(distance * units, distance);
  }

  lemma StepOf(a: nat, d: nat)
    ensures (a + d) / SCALE - a / SCALE <= (d + SCALE - 1) / SCALE
  {
  }

  function Distance(a: nat, b: nat): nat {
    if a >= b then a - b else b - a
  }

  lemma {:induction false} InterpolationIsMonotone(a: nat, b: nat, info: Info)
    requires a <= b <= 2 * SCALE && IsUsable(info)
    ensures InterpolatedFee(a, info).value <= InterpolatedFee(b, info).value
  {
    var minimum, recommended, maximum := Minimum(info), info.recommendedPriorityFee, Maximum(info);
    if b <= SCALE {
      OffsetMonotone(recommended - minimum, a, b);
      OffsetBound(recommended - minimum, b);
      OffsetBound(recommended - minimum, a);
    } else if a >= SCALE {
      OffsetMonotone(maximum - recommended, a - SCALE, b - SCALE);
      OffsetBound(maximum - recommended, b - SCALE);
      OffsetBound(maximum - recommended, a - SCALE);
    } else {
      OffsetBound(recommended - minimum, a);
      OffsetBound(maximum - recommended, b - SCALE);
    }
  }

  /** No position of a segment has an offset nearer to `numerator`. */
  predicate IsNearest(units: nat, numerator: nat, denominator: nat) {
    forall v :: 0 <= v <= SCALE ==>
      Distance(InterpolatedOffset(denominator, units), numerator)
        <= Distance(InterpolatedOffset(denominator, v), numerator)
  }

  /** Binary search for the position whose offset is nearest to `numerator`, among all of them. */
  method ClosestSliderUnits(numerator: nat, denominator: nat) returns (units: nat)
    ensures units <= SCALE && IsNearest(units, numerator, denominator)
    ensures numerator <= denominator ==>
      2 * Distance(InterpolatedOffset(denominator, units), numerator) <= (denominator + SCALE - 1) / SCALE
    ensures numerator <= denominator <= SCALE ==> InterpolatedOffset(denominator, units) == numerator
  {
    if denominator == 0 || numerator >= denominator {
      forall v | 0 <= v <= SCALE ensures InterpolatedOffset(denominator, v) <= denominator {
        OffsetBound(denominator, v);
      }
      OffsetBound(denominator, SCALE);
      return SCALE;
    }
    OffsetBound(denominator, 0);
    OffsetBound(denominator, SCALE);
    var lower: nat, upper: nat := 0, SCALE;
    while lower < upper
      invariant lower <= upper <= SCALE
      invariant lower > 0 ==> InterpolatedOffset(denominator, lower - 1) < numerator
      invariant InterpolatedOffset(denominator, upper) >= numerator
    {
      var midpoint := lower + (upper - lower) / 2;
      if InterpolatedOffset(denominator, midpoint) < numerator {
        lower := midpoint + 1;
      } else {
        upper := midpoint;
      }
    }
    forall v | 0 <= v <= SCALE
      ensures v >= lower ==> InterpolatedOffset(denominator, v) >= InterpolatedOffset(denominator, lower)
      ensures v < lower ==> InterpolatedOffset(denominator, v) <= InterpolatedOffset(denominator, lower - 1)
    {
      if v >= lower {
        OffsetMonotone(denominator, lower, v);
      } else {
        OffsetMonotone(denominator, v, lower - 1);
      }
    }
    if lower == 0 {
      return lower;
    }
    var lowerFee := InterpolatedOffset(denominator, lower - 1);
    var upperFee := InterpolatedOffset(denominator, lower);
    OffsetStep(denominator, lower - 1);
    units := if numerator - lowerFee <= upperFee - numerator then lower - 1 else lower;
  }

  /** The position shown for a fee: no position is nearer, and a fee the slider can produce is hit exactly. */
  method SliderPosition(current: nat, info: Info) returns (units: nat)
    ensures units <= 2 * SCALE
    ensures !IsUsable(info) ==> units == 0
    ensures IsUsable(info) ==> forall v :: 0 <= v <= 2 * SCALE ==>
      Distance(InterpolatedFee(units, info).value, current) <= Distance(InterpolatedFee(v, info).value, current)
    ensures forall v :: 0 <= v <= 2 * SCALE && InterpolatedFee(v, info) == Some(current) ==>
      InterpolatedFee(units, info) == Some(current)
  {
    var minimum, recommended, maximum := Minimum(info), info.recommendedPriorityFee, Maximum(info);
    if !IsUsable(info) {
      return 0;
    }
    if current == recommended {
      units := SCALE;
    } else if current <= minimum {
      units := 0;
    } else if current >= maximum {
      units := 2 * SCALE;
    } else if current < recommended {
      units := ClosestSliderUnits(current - minimum, recommended - minimum);
      NearestInLowerSegment(current, info, units);
    } else {
      units := ClosestSliderUnits(current - recommended, maximum - recommended);
      NearestInUpperSegment(current, info, units);
      units := SCALE + units;
    }
  }

  lemma NearestInLowerSegment(current: nat, info: Info, units: nat)
    requires IsUsable(info) && Minimum(info) < current < info.recommendedPriorityFee && units <= SCALE
    requires IsNearest(units, current - Minimum(info), info.recommendedPriorityFee - Minimum(info))
    ensures forall v :: 0 <= v <= 2 * SCALE ==>
      Distance(InterpolatedFee(units, info).value, current) <= Distance(InterpolatedFee(v, info).value, current)
  {
    var d := info.recommendedPriorityFee - Minimum(info);
    OffsetBound(d, units);
    OffsetBound(d, SCALE);
    forall v | 0 <= v <= 2 * SCALE
      ensures Distance(InterpolatedFee(units, info).value, current) <= Distance(InterpolatedFee(v, info).value, current)
    {
      if v <= SCALE {
        OffsetBound(d, v);
      } else {
        InterpolationIsMonotone(SCALE, v, info);
      }
    }
  }

  lemma NearestInUpperSegment(current: nat, info: Info, units: nat)
    requires IsUsable(info) && info.recommendedPriorityFee < current < Maximum(info) && units <= SCALE
    requires IsNearest(units, current - info.recommendedPriorityFee, Maximum(info) - info.recommendedPriorityFee)
    ensures forall v :: 0 <= v <= 2 * SCALE ==>
      Distance(InterpolatedFee(SCALE + units, info).value, current)
        <= Distance(InterpolatedFee(v, info).value, current)
  {
    var d := Maximum(info) - info.recommendedPriorityFee;
    OffsetBound(d, units);
    OffsetBound(d, 0);
    forall v | 0 <= v <= 2 * SCALE
      ensures Distance(InterpolatedFee(SCALE + units, info).value, current)
           <= Distance(InterpolatedFee(v, info).value, current)
    {
      if v >= SCALE {
        OffsetBound(d, v - SCALE);
      } else {
        InterpolationIsMonotone(v, SCALE, info);
      }
    }
  }

  /** The three marks of the slider: half the recommended fee but at least a wei, the recommended fee, and twice the
      high one as far as 256 bits go. In between, each segment rises in equal steps, rounded down to whole wei. */
  lemma {:induction false} SliderIsLinear(units: nat, info: Info)
    requires IsUsable(info) && units <= 2 * SCALE
    ensures var fee, recommended := InterpolatedFee(units, info).value, info.recommendedPriorityFee;
      && Minimum(info) == Largest(1, recommended / 2)
      && Maximum(info) == Smallest(MAX_UINT256, 2 * info.highPriorityFee)
      && (units <= SCALE ==> IsShare(fee - Minimum(info), recommended - Minimum(info), units))
      && (units >= SCALE ==> IsShare(fee - recommended, Maximum(info) - recommended, units - SCALE))
  {
    hide InterpolatedOffset, IsShare, Interpolate;
    var minimum, recommended, maximum := Minimum(info), info.recommendedPriorityFee, Maximum(info);
    if units <= SCALE {
      InterpolateIsExact(minimum, recommended, units);
      OffsetIsShare(recommended - minimum, units);
    }
    if units >= SCALE {
      InterpolateIsExact(recommended, maximum, units - SCALE);
      OffsetIsShare(maximum - recommended, units - SCALE);
    }
  }

  function Largest(a: nat, b: nat): nat {
    if a >= b then a else b
  }

  function Smallest(a: nat, b: nat): nat {
    if a <= b then a else b
  }

  /** `part` is the share of `units` millionths in `whole`, rounded down. */
  predicate IsShare(part: int, whole: int, units: int) {
    SCALE * part <= whole * units < SCALE * (part + 1)
  }

  lemma OffsetIsShare(distance: nat, units: nat)
    ensures IsShare(InterpolatedOffset(distance, units), distance, units)
    ensures units == 0 ==> InterpolatedOffset(distance, units) == 0
    ensures units == SCALE ==> InterpolatedOffset(distance, units) == distance
  {
  }
}
