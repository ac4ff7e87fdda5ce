/** What the fee service derives from a node's fee history, and how far the fees it suggests stay sufficient. */
module FeeHistory {
  import opened Wrappers
  import opened Quantities
  import opened Fees
  import opened Slider

  const BLOCK_COUNT: nat := 10
  const PERCENTILES: nat := 2

  datatype History = History(baseFeePerGas: seq<string>, reward: Option<seq<seq<string>>>)

  function ValidQuantity(text: string): Option<nat> {
    ParseUInt256(text, false)
  }

  predicate AllQuantities(texts: seq<string>) {
    forall i :: 0 <= i < |texts| ==> ValidQuantity(texts[i]).Some?
  }

  function Parsed(texts: seq<string>): (values: seq<nat>)
    requires AllQuantities(texts)
    ensures |values| == |texts|
    ensures forall i :: 0 <= i < |values| ==> IsUInt256(values[i])
  {
    seq(|texts|, i requires 0 <= i < |texts| => ValidQuantity(texts[i]).value)
  }

  /** Quantities of a history need their prefix. */
  lemma {:induction false} HistoryNeedsPrefixes(text: string)
    ensures ValidQuantity(text).Some? <==> ("0x" <= text || "0X" <= text) && ParseUInt256(text, true).Some?
    ensures ValidQuantity(text).Some? ==> ValidQuantity(text) == ParseUInt256(text, true)
  {
    QuantityIsRead(text, false);
    QuantityIsRead(text, true);
    hide ParseUInt256;
  }

  // ----- order statistics

  predicate IsSorted(values: seq<nat>) {
    forall i, j :: 0 <= i < j < |values| ==> values[i] <= values[j]
  }

  predicate AtMost(a: seq<nat>, b: seq<nat>) {
    |a| == |b| && forall i :: 0 <= i < |a| ==> a[i] <= b[i]
  }

  function Insert(x: nat, values: seq<nat>): (inserted: seq<nat>)
    ensures |inserted| == |values| + 1
    ensures multiset(inserted) == multiset(values) + multiset{x}
  {
    if values == [] || x <= values[0] then [x] + values
    else
      assert values == [values[0]] + values[1..];
      [values[0]] + Insert(x, values[1..])
  }

  function Sorted(values: seq<nat>): (sorted: seq<nat>)
    ensures |sorted| == |values|
    ensures multiset(sorted) == multiset(values)
  {
    if values == [] then [] else
      assert values == [values[0]] + values[1..];
      Insert(values[0], Sorted(values[1..]))
  }

  lemma {:induction false} InsertKeepsOrder(x: nat, values: seq<nat>)
    requires IsSorted(values)
    ensures IsSorted(Insert(x, values))
  {
    if values != [] && x > values[0] {
      InsertKeepsOrder(x, values[1..]);
      InsertIsAtLeast(x, values[1..], values[0]);
    }
  }

  lemma {:induction false} InsertIsAtLeast(x: nat, values: seq<nat>, least: nat)
    requires x >= least && forall i :: 0 <= i < |values| ==> values[i] >= least
    ensures forall i :: 0 <= i <= |values| ==> Insert(x, values)[i] >= least
  {
    if values != [] && x > values[0] {
      InsertIsAtLeast(x, values[1..], least);
    }
  }

  lemma {:induction false} SortedIsSorted(values: seq<nat>)
    ensures IsSorted(Sorted(values))
  {
    if values != [] {
      SortedIsSorted(values[1..]);
      InsertKeepsOrder(values[0], Sorted(values[1..]));
    }
  }

  lemma {:induction false} InsertIsMonotone(x: nat, y: nat, a: seq<nat>, b: seq<nat>)
    requires x <= y && AtMost(a, b) && IsSorted(a) && IsSorted(b)
    ensures AtMost(Insert(x, a), Insert(y, b))
    decreases |a|
  {
    if a != [] {
      TailsAreOrdered(a, b);
      hide Insert, AtMost, IsSorted;
      InsertIsMonotone(Larger(x, a[0]), Larger(y, b[0]), a[1..], b[1..]);
      InsertStep(x, a);
      InsertStep(y, b);
      HeadsAndTails(Smaller(x, a[0]), Smaller(y, b[0]),
                    Insert(Larger(x, a[0]), a[1..]), Insert(Larger(y, b[0]), b[1..]));
    }
  }

  lemma {:induction false} TailsAreOrdered(a: seq<nat>, b: seq<nat>)
    requires a != [] && AtMost(a, b) && IsSorted(a) && IsSorted(b)
    ensures |a| == |b| && a[0] <= b[0] && AtMost(a[1..], b[1..]) && IsSorted(a[1..]) && IsSorted(b[1..])
  {
  }

  lemma {:induction false} HeadsAndTails(x: nat, y: nat, a: seq<nat>, b: seq<nat>)
    requires x <= y && AtMost(a, b)
    ensures AtMost([x] + a, [y] + b)
  {
  }

  function Smaller(x: nat, y: nat): nat {
    if x <= y then x else y
  }

  function Larger(x: nat, y: nat): nat {
    if x <= y then y else x
  }

  /** The smaller of the two heads comes first, and the other one is inserted into the tail. */
  lemma {:induction false} InsertStep(x: nat, values: seq<nat>)
    requires values != [] && IsSorted(values)
    ensures Insert(x, values) == [Smaller(x, values[0])] + Insert(Larger(x, values[0]), values[1..])
  {
    if x <= values[0] {
      assert values == [values[0]] + values[1..];
      assert Insert(values[0], values[1..]) == values;
    }
  }

  /** Every order statistic of a column grows with the column. */
  lemma {:induction false} SortingIsMonotone(a: seq<nat>, b: seq<nat>)
    requires AtMost(a, b)
    ensures AtMost(Sorted(a), Sorted(b))
  {
    if a != [] {
      SortingIsMonotone(a[1..], b[1..]);
      SortedIsSorted(a[1..]);
      SortedIsSorted(b[1..]);
      InsertIsMonotone(a[0], b[0], Sorted(a[1..]), Sorted(b[1..]));
    }
  }

  function CountBelow(values: seq<nat>, bound: nat): (count: nat)
    ensures count <= |values|
  {
    if values == [] then 0 else (if values[0] < bound then 1 else 0) + CountBelow(values[1..], bound)
  }

  /** One of the values; no more than half of them are smaller, and more than half are at most as large. */
  predicate IsUpperMedian(median: nat, values: seq<nat>) {
    median in values && CountBelow(values, median) <= |values| / 2 < CountBelow(values, median + 1)
  }

  function UpperMedian(values: seq<nat>): (median: nat)
    requires values != []
    ensures IsUpperMedian(median, values)
  {
    MiddleIsMedian(values);
    Sorted(values)[|values| / 2]
  }

  /** The counts leave no choice. */
  lemma {:induction false} UpperMedianIsUnique(a: nat, b: nat, values: seq<nat>)
    requires IsUpperMedian(a, values) && IsUpperMedian(b, values)
    ensures a == b
  {
    if a < b {
      CountIsMonotone(values, a + 1, b);
    } else if b < a {
      CountIsMonotone(values, b + 1, a);
    }
  }

  lemma {:induction false} CountIsMonotone(values: seq<nat>, a: nat, b: nat)
    requires a <= b
    ensures CountBelow(values, a) <= CountBelow(values, b)
  {
    if values != [] {
      CountIsMonotone(values[1..], a, b);
    }
  }

  lemma {:induction false} MiddleIsMedian(values: seq<nat>)
    requires values != []
    ensures IsUpperMedian(Sorted(values)[|values| / 2], values)
  {
    hide Sorted, IsSorted, CountBelow;
    var sorted, middle := Sorted(values), |values| / 2;
    SortedIsSorted(values);
    assert multiset(sorted) == multiset(values) && sorted[middle] in multiset(sorted);
    CountSorted(values, sorted[middle]);
    CountSorted(values, sorted[middle] + 1);
    CountInOrder(sorted, middle);
  }

  lemma {:induction false} CountSorted(values: seq<nat>, bound: nat)
    ensures CountBelow(Sorted(values), bound) == CountBelow(values, bound)
  {
    if values != [] {
      CountSorted(values[1..], bound);
      CountInserted(values[0], Sorted(values[1..]), bound);
    }
  }

  lemma {:induction false} CountInserted(x: nat, values: seq<nat>, bound: nat)
    ensures CountBelow(Insert(x, values), bound) == (if x < bound then 1 else 0) + CountBelow(values, bound)
  {
    if values != [] && x > values[0] {
      CountInserted(x, values[1..], bound);
    }
  }

  /** What stands before an element of a sorted sequence is at most as large, what comes after it is no smaller. */
  lemma {:induction false} CountInOrder(values: seq<nat>, i: nat)
    requires i < |values| && IsSorted(values)
    ensures CountBelow(values, values[i]) <= i < CountBelow(values, values[i] + 1)
  {
    if i == 0 {
      NoneBelow(values, values[0]);
    } else {
      CountInOrder(values[1..], i - 1);
    }
  }

  lemma {:induction false} NoneBelow(values: seq<nat>, bound: nat)
    requires forall i :: 0 <= i < |values| ==> values[i] >= bound
    ensures CountBelow(values, bound) == 0
  {
    if values != [] {
      NoneBelow(values[1..], bound);
    }
  }

  function Column(rows: seq<seq<nat>>, column: nat): (values: seq<nat>)
    requires forall i :: 0 <= i < |rows| ==> column < |rows[i]|
    ensures |values| == |rows|
  {
    seq(|rows|, i requires 0 <= i < |rows| => rows[i][column])
  }

  function AtLeastMinimum(fee: nat): nat {
    if fee >= MINIMUM_PRIORITY_FEE then fee else MINIMUM_PRIORITY_FEE
  }

  // ----- reading the history

  /** A reward for each block the history covers: the 50th and the 95th percentile, in this order. */
  predicate IsRewardRow(row: seq<string>) {
    |row| == PERCENTILES && AllQuantities(row) && Parsed(row)[0] <= Parsed(row)[1]
  }

  predicate HasRewards(history: History) {
    && history.reward.Some? && history.reward.value != []
    && |history.baseFeePerGas| == |history.reward.value| + 1
    && forall i :: 0 <= i < |history.reward.value| ==> IsRewardRow(history.reward.value[i])
  }

  function Rewards(history: History, column: nat): (values: seq<nat>)
    requires HasRewards(history) && column < PERCENTILES
    ensures values != []
  {
    seq(|history.reward.value|, i requires 0 <= i < |history.reward.value| =>
      Parsed(history.reward.value[i])[column])
  }

  /** The priority fees of a history: there are some whenever it has rewards, as the median of the lower percentile
      never exceeds that of the upper one, and they always make a usable slider. */
  method PriorityInfo(history: History) returns (info: Option<Info>)
    ensures info.Some? <==> HasRewards(history)
    ensures info.Some? ==>
      && info.value.recommendedPriorityFee == AtLeastMinimum(UpperMedian(Rewards(history, 0)))
      && info.value.highPriorityFee == AtLeastMinimum(UpperMedian(Rewards(history, 1)))
      && info.value.recommendedPriorityFee <= info.value.highPriorityFee
      && IsUsable(info.value)
  {
    hide IsUpperMedian, UpperMedian, Slider.IsUsable, Parsed;
    if history.reward.None? || history.reward.value == []
       || |history.baseFeePerGas| != |history.reward.value| + 1 {
      return None;
    }
    var rows := RewardRows(history.reward.value);
    if rows.None? {
      return None;
    }
    var percentileValues := Percentiles(rows.value);
    assert Column(rows.value, 0) == Rewards(history, 0);
    assert Column(rows.value, 1) == Rewards(history, 1);
    var recommended, high := percentileValues[0], percentileValues[1];
    MediansAreOrdered(history);
    if recommended > high {
      return None;
    }
    UsableWhenRecommending(Info(recommended, high));
    return Some(Info(recommended, high));
  }

  method RewardRows(reward: seq<seq<string>>) returns (result: Option<seq<seq<nat>>>)
    ensures result.Some? <==> forall i :: 0 <= i < |reward| ==> IsRewardRow(reward[i])
    ensures result.Some? ==> |result.value| == |reward|
    ensures result.Some? ==> forall i :: 0 <= i < |reward| ==> result.value[i] == Parsed(reward[i])
  {
    var rows: seq<seq<nat>> := [];
    for i := 0 to |reward|
      invariant |rows| == i
      invariant forall k :: 0 <= k < i ==> IsRewardRow(reward[k]) && rows[k] == Parsed(reward[k])
    {
      if |reward[i]| != PERCENTILES || !AllQuantities(reward[i]) {
        return None;
      }
      var values := Parsed(reward[i]);
      if values[0] > values[1] {
        return None;
      }
      rows := rows + [values];
    }
    return Some(rows);
  }

  method Percentiles(rows: seq<seq<nat>>) returns (values: seq<nat>)
    requires rows != [] && forall i :: 0 <= i < |rows| ==> |rows[i]| == PERCENTILES
    ensures |values| == PERCENTILES
    ensures forall k :: 0 <= k < PERCENTILES ==> values[k] == AtLeastMinimum(UpperMedian(Column(rows, k)))
    ensures forall k, m :: 0 <= k < PERCENTILES && IsUpperMedian(m, Column(rows, k)) ==>
      values[k] >= m && values[k] >= MINIMUM_PRIORITY_FEE && (values[k] == m || values[k] == MINIMUM_PRIORITY_FEE)
  {
    values := [];
    for column := 0 to PERCENTILES
      invariant |values| == column
      invariant forall k :: 0 <= k < column ==> values[k] == AtLeastMinimum(UpperMedian(Column(rows, k)))
    {
      values := values + [AtLeastMinimum(UpperMedian(Column(rows, column)))];
    }
    forall k, m | 0 <= k < PERCENTILES && IsUpperMedian(m, Column(rows, k))
      ensures m == UpperMedian(Column(rows, k))
    {
      UpperMedianIsUnique(m, UpperMedian(Column(rows, k)), Column(rows, k));
    }
  }

  lemma {:induction false} MediansAreOrdered(history: History)
    requires HasRewards(history)
    ensures UpperMedian(Rewards(history, 0)) <= UpperMedian(Rewards(history, 1))
    ensures IsUInt256(UpperMedian(Rewards(history, 0)))
  {
    var lower, upper := Rewards(history, 0), Rewards(history, 1);
    SortingIsMonotone(lower, upper);
    var median := UpperMedian(lower);
    assert median in multiset(Sorted(lower));
    assert median in lower;
  }

  method BaseFees(history: History) returns (fees: Option<(nat, nat)>)
    ensures fees.Some? <==>
      2 <= |history.baseFeePerGas| <= 11 && AllQuantities(history.baseFeePerGas)
    ensures fees.Some? ==>
      var values, n := Parsed(history.baseFeePerGas), |history.baseFeePerGas|;
      fees.value == (values[n - 2], values[n - 1])
  {
    var count := |history.baseFeePerGas|;
    if !(2 <= count <= BLOCK_COUNT + 1) {
      return None;
    }
    var parsed: seq<nat> := [];
    for i := 0 to count
      invariant |parsed| == i
      invariant forall k :: 0 <= k < i ==> ValidQuantity(history.baseFeePerGas[k]) == Some(parsed[k])
    {
      var fee := ValidQuantity(history.baseFeePerGas[i]);
      if fee.None? {
        return None;
      }
      parsed := parsed + [fee.value];
    }
    return Some((parsed[count - 2], parsed[count - 1]));
  }

  // ----- how long a suggested fee lasts

  /** The steepest rise of the base fee from one block to the next (EIP-1559). */
  function Rise(baseFee: nat): nat {
    baseFee + if baseFee / 8 >= 1 then baseFee / 8 else 1
  }

  function Rises(baseFee: nat, blocks: nat): nat {
    if blocks == 0 then baseFee else Rise(Rises(baseFee, blocks - 1))
  }

  /** The recommended fee pays its full priority fee exactly as long as the base fee is at most twice the quoted one. */
  lemma {:induction false} RecommendedFeeKeepsItsPriority(baseFee: nat, priorityFee: nat, later: nat)
    requires RecommendedEip1559(baseFee, priorityFee).Some? && IsUInt256(later)
    ensures RecommendedEip1559(baseFee, priorityFee).value.EffectivePriorityFee(later) == Some(priorityFee)
       <==> later <= 2 * baseFee
  {
  }

  /** So it does through five maximal rises, exactly from a base fee of 5 wei on. */
  lemma {:induction false} RecommendedFeeOutlastsFiveRises(baseFee: nat, priorityFee: nat)
    requires RecommendedEip1559(baseFee, priorityFee).Some?
    requires IsUInt256(Rises(baseFee, 5))
    ensures RecommendedEip1559(baseFee, priorityFee).value.EffectivePriorityFee(Rises(baseFee, 5))
              == Some(priorityFee)
       <==> baseFee >= 5
  {
    FiveRisesAtMostDouble(baseFee);
    RecommendedFeeKeepsItsPriority(baseFee, priorityFee, Rises(baseFee, 5));
  }

  lemma {:induction false} FiveRisesAtMostDouble(baseFee: nat)
    ensures Rises(baseFee, 5) <= 2 * baseFee <==> baseFee >= 5
  {
    var one := Rise(baseFee);
    var two := Rise(one);
    var three := Rise(two);
    var four := Rise(three);
    assert Rises(baseFee, 1) == Rise(Rises(baseFee, 0)) == one;
    assert Rises(baseFee, 2) == two;
    assert Rises(baseFee, 3) == three;
    assert Rises(baseFee, 4) == four;
    assert Rises(baseFee, 5) == Rise(four);
  }

  /** A suggested legacy price survives the steepest rise exactly when it has a priority fee, or an eighth of the base
      fee is not nothing. */
  lemma {:induction false} SuggestedPriceCoversTheNextBlock(baseFee: nat, priorityFee: nat)
    requires SuggestedLegacyGasPrice(baseFee, priorityFee).Some?
    ensures SuggestedLegacyGasPrice(baseFee, priorityFee).value >= Rise(baseFee) <==> priorityFee >= 1 || baseFee >= 8
  {
  }
}
