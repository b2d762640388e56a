/**
 The reward arithmetic of PRIME: leave-one-out baselines over groups of rollouts, returns, the
 backward recurrence of the process reward model, and its batch normalisation. Numbers are reals.
 */
module Prime {
  import opened Basics

  /** The sum of the marked entries. */
  function MaskedSum(s: seq<real>, mask: seq<bool>): real
    requires |s| == |mask|
    decreases |s|
  {
    if s == [] then 0.0 else
    var n := |s| - 1;
    MaskedSum(s[..n], mask[..n]) + (if mask[n] then s[n] else 0.0)
  }

  /** The mean of the marked entries of a row. */
  function Mean(s: seq<real>, mask: seq<bool>): real
    requires |s| == |mask| && Count(mask) > 0
  {
    MaskedSum(s, mask) / (Count(mask) as real)
  }

  // ---------------------------------------------------------------- leave-one-out

  /** A reward, or the NaN that is the mean of nothing. */
  datatype Num = NaN | Val(value: real)
  {
    function Plus(other: Num): Num { if NaN? || other.NaN? then NaN else Val(value + other.value) }

    function Scaled(factor: real): Num { if NaN? then NaN else Val(value * factor) }

    function Over(d: real): Num
      requires d != 0.0
    {
      if NaN? then NaN else Val(value / d)
    }

    function Less(other: Num): Num { if NaN? || other.NaN? then NaN else Val(value - other.value) }
  }

  ghost predicate Shaped(rows: seq<seq<real>>, masks: seq<seq<bool>>, cols: nat) {
    && |rows| == |masks|
    && forall i :: 0 <= i < |rows| ==> |rows[i]| == |masks[i]| == cols
  }

  /** The first row of the group of row i, in groups of n. */
  function GroupStart(i: nat, n: nat): (start: nat)
    requires n > 0
    ensures start <= i < start + n && Rem(start, n) == 0
  {
    if i < n then 0 else GroupStart(i - n, n) + n
  }

  lemma {:induction false} SameGroup(start: nat, i: nat, n: nat)
    requires n > 0 && Rem(start, n) == 0 && start <= i < start + n
    ensures GroupStart(i, n) == start && Rem(start + n, n) == 0
  {
    if start > 0 { SameGroup(start - n, i - n, n); }
  }

  /** The n rows from `start` are all there, and each has a marked entry. */
  predicate Clean(masks: seq<seq<bool>>, start: nat, n: nat) {
    start + n <= |masks| && forall i :: start <= i < start + n ==> Count(masks[i]) > 0
  }

  function GroupMeans(rows: seq<seq<real>>, masks: seq<seq<bool>>, cols: nat, start: nat, n: nat): (r: seq<real>)
    requires Shaped(rows, masks, cols) && Clean(masks, start, n)
    ensures |r| == n
  {
    seq(n, k requires 0 <= k < n => Mean(rows[start + k], masks[start + k]))
  }

  /** A row after `masked_rloo`: scaled, less the group's baseline, and zero where unmarked. */
  function Adjusted(row: seq<real>, mask: seq<bool>, scale: real, baseline: real): (r: seq<real>)
    requires |row| == |mask|
    ensures |r| == |row|
  {
    seq(|row|, j requires 0 <= j < |row| => if mask[j] then row[j] * scale - baseline else 0.0)
  }

  function Scale(n: nat): real
    requires n > 1
  {
    (n as real) / ((n - 1) as real)
  }

  function Baseline(means: seq<real>, n: nat): real
    requires n > 1
  {
    Sum(means) / ((n - 1) as real)
  }

  /** What `masked_rloo` makes of row i of a clean group. */
  function Rloo(rows: seq<seq<real>>, masks: seq<seq<bool>>, cols: nat, n: nat, i: nat): (r: seq<real>)
    requires Shaped(rows, masks, cols) && n > 1 && i < |rows| && Clean(masks, GroupStart(i, n), n)
    ensures |r| == cols
  {
    Adjusted(rows[i], masks[i], Scale(n), Baseline(GroupMeans(rows, masks, cols, GroupStart(i, n), n), n))
  }

  /** One entry of the result: NaN where marked in a group that is not clean. */
  function RlooAt(rows: seq<seq<real>>, masks: seq<seq<bool>>, cols: nat, n: nat, i: nat, j: nat): Num
    requires Shaped(rows, masks, cols) && n > 1 && i < |rows| && j < cols
  {
    if !masks[i][j] then Val(0.0)
    else if Clean(masks, GroupStart(i, n), n) then Val(Rloo(rows, masks, cols, n, i)[j])
    else NaN
  }

  lemma {:induction false} CountSome(mask: seq<bool>)
    ensures Count(mask) > 0 <==> true in mask
  {
    if mask != [] { CountSome(mask[..|mask| - 1]); }
  }

  /** Which entries are NaN, and what the others are: zero where unmarked, and otherwise the scaled
      reward less the sum of the group's masked means over n - 1. */
  lemma RlooExactly(rows: seq<seq<real>>, masks: seq<seq<bool>>, cols: nat, n: nat, i: nat, j: nat)
    requires Shaped(rows, masks, cols) && n > 1 && i < |rows| && j < cols
    ensures var at, start := RlooAt(rows, masks, cols, n, i, j), GroupStart(i, n);
            && (!masks[i][j] ==> at == Val(0.0))
            && (masks[i][j] ==>
                  (at.NaN? <==> start + n > |rows| || exists k :: start <= k < start + n && true !in masks[k]))
            && (masks[i][j] && at.Val? ==>
                  && Clean(masks, start, n)
                  && at.value == rows[i][j] * ((n as real) / ((n - 1) as real))
                                 - Sum(GroupMeans(rows, masks, cols, start, n)) / ((n - 1) as real))
  {
    hide Count, Sum, Mean, GroupStart;
    forall k | 0 <= k < |masks| ensures Count(masks[k]) > 0 <==> true in masks[k] { CountSome(masks[k]); }
  }

  // ---------------------------------------------------------------- the in-place loop

  // The mean over rows pos to pos: NaN past the last row and for a row without a marked entry.
  function MeanAt(rows: seq<seq<real>>, masks: seq<seq<bool>>, cols: nat, pos: nat): Num
    requires Shaped(rows, masks, cols)
  {
    if pos < |rows| && Count(masks[pos]) > 0 then Val(Mean(rows[pos], masks[pos])) else NaN
  }

  function Total(rows: seq<seq<real>>, masks: seq<seq<bool>>, cols: nat, start: nat, n: nat): Num
    requires Shaped(rows, masks, cols)
  {
    if n == 0 then Val(0.0)
    else Total(rows, masks, cols, start, n - 1).Plus(MeanAt(rows, masks, cols, start + n - 1))
  }

  lemma {:induction false} TotalIsSum(rows: seq<seq<real>>, masks: seq<seq<bool>>, cols: nat, start: nat, n: nat)
    requires Shaped(rows, masks, cols) && start <= |rows|
    ensures Total(rows, masks, cols, start, n) ==
            if Clean(masks, start, n) then Val(Sum(GroupMeans(rows, masks, cols, start, n))) else NaN
  {
    hide Mean, Count;
    if n > 0 {
      TotalIsSum(rows, masks, cols, start, n - 1);
      if Clean(masks, start, n) {
        assert GroupMeans(rows, masks, cols, start, n)[..n - 1] == GroupMeans(rows, masks, cols, start, n - 1);
      }
    }
  }

  ghost function Row(a: array2<Num>, i: nat): (r: seq<Num>)
    requires i < a.Length0
    reads a
    ensures |r| == a.Length1
  {
    seq(a.Length1, j requires 0 <= j < a.Length1 reads a => a[i, j])
  }

  // Row i still holds the marked rewards and zeros.
  ghost predicate Holds(a: array2<Num>, i: nat, row: seq<real>, mask: seq<bool>)
    requires i < a.Length0 && |row| == |mask| == a.Length1
    reads a
  {
    forall j :: 0 <= j < |row| ==> a[i, j] == Val(if mask[j] then row[j] else 0.0)
  }

  ghost predicate Untouched(a: array2<Num>, rows: seq<seq<real>>, masks: seq<seq<bool>>, cols: nat, from: nat)
    requires Shaped(rows, masks, cols) && a.Length0 == |rows| && a.Length1 == cols
    reads a
  {
    forall i :: from <= i < |rows| ==> Holds(a, i, rows[i], masks[i])
  }

  method RowMean(a: array2<Num>, i: nat, mask: seq<bool>, ghost row: seq<real>) returns (mean: Num)
    requires i < a.Length0 && |row| == |mask| == a.Length1 && Holds(a, i, row, mask)
    ensures mean == if Count(mask) > 0 then Val(Mean(row, mask)) else NaN
  {
    var sum, count := Val(0.0), 0;
    for j := 0 to |mask|
      invariant sum == Val(MaskedSum(row[..j], mask[..j])) && count == Count(mask[..j])
    {
      assert row[..j + 1][..j] == row[..j] && mask[..j + 1][..j] == mask[..j];
      if mask[j] {
        sum := sum.Plus(a[i, j]);
        count := count + 1;
      }
    }
    assert row[..|mask|] == row && mask[..|mask|] == mask;
    mean := if count > 0 then Val(sum.value / (count as real)) else NaN;
  }

  method GroupSum(a: array2<Num>, masks: seq<seq<bool>>, start: nat, n: nat, ghost rows: seq<seq<real>>, ghost cols: nat)
    returns (sum: Num)
    requires Shaped(rows, masks, cols) && a.Length0 == |rows| && a.Length1 == cols && start <= |rows|
    requires Untouched(a, rows, masks, cols, start)
    ensures sum == Total(rows, masks, cols, start, n)
  {
    sum := Val(0.0);
    for pos := start to start + n
      invariant sum == Total(rows, masks, cols, start, pos - start)
    {
      var mean := NaN;
      if pos < |masks| { mean := RowMean(a, pos, masks[pos], rows[pos]); }
      sum := sum.Plus(mean);
    }
  }

  method AdjustRow(a: array2<Num>, i: nat, mask: seq<bool>, scale: real, baseline: Num)
    requires i < a.Length0 && |mask| == a.Length1
    modifies a
    ensures forall j :: 0 <= j < a.Length1 ==>
              a[i, j] == if mask[j] then old(a[i, j]).Scaled(scale).Less(baseline) else old(a[i, j])
    ensures forall k, j :: 0 <= k < a.Length0 && k != i && 0 <= j < a.Length1 ==> a[k, j] == old(a[k, j])
  {
    for j := 0 to |mask|
      invariant forall l :: 0 <= l < j ==>
                  a[i, l] == if mask[l] then old(a[i, l]).Scaled(scale).Less(baseline) else old(a[i, l])
      invariant forall l :: j <= l < a.Length1 ==> a[i, l] == old(a[i, l])
      invariant forall k, l :: 0 <= k < a.Length0 && k != i && 0 <= l < a.Length1 ==> a[k, l] == old(a[k, l])
    {
      if mask[j] { a[i, j] := a[i, j].Scaled(scale).Less(baseline); }
    }
  }

  function AdjustedAt(row: seq<real>, mask: seq<bool>, scale: real, baseline: Num, j: nat): Num
    requires j < |row| == |mask|
  {
    if mask[j] then Val(row[j]).Scaled(scale).Less(baseline) else Val(0.0)
  }

  method AdjustGroup(a: array2<Num>, masks: seq<seq<bool>>, start: nat, n: nat, scale: real, baseline: Num,
                     ghost rows: seq<seq<real>>, ghost cols: nat)
    requires Shaped(rows, masks, cols) && a.Length0 == |rows| && a.Length1 == cols && start < |rows|
    requires Untouched(a, rows, masks, cols, start)
    modifies a
    ensures forall i, j :: 0 <= i < start && 0 <= j < cols ==> a[i, j] == old(a[i, j])
    ensures forall i, j :: start <= i < start + n && i < |rows| && 0 <= j < cols ==>
              a[i, j] == AdjustedAt(rows[i], masks[i], scale, baseline, j)
    ensures Untouched(a, rows, masks, cols, start + n)
  {
    for pos := start to if start + n <= |masks| then start + n else |masks|
      invariant forall i, j :: 0 <= i < start && 0 <= j < cols ==> a[i, j] == old(a[i, j])
      invariant forall i, j :: start <= i < pos && 0 <= j < cols ==>
                  a[i, j] == AdjustedAt(rows[i], masks[i], scale, baseline, j)
      invariant Untouched(a, rows, masks, cols, pos)
    {
      assert Holds(a, pos, rows[pos], masks[pos]);
      AdjustRow(a, pos, masks[pos], scale, baseline);
    }
  }

  // The adjusted entry is the specified one.
  lemma AdjustedIsRloo(rows: seq<seq<real>>, masks: seq<seq<bool>>, cols: nat, n: nat, start: nat, i: nat, j: nat)
    requires Shaped(rows, masks, cols) && n > 1 && Rem(start, n) == 0 && start <= i < start + n && i < |rows| && j < cols
    ensures AdjustedAt(rows[i], masks[i], Scale(n), Total(rows, masks, cols, start, n).Over((n - 1) as real), j)
            == RlooAt(rows, masks, cols, n, i, j)
  {
    hide Sum, Mean, Total, Count;
    SameGroup(start, i, n);
    TotalIsSum(rows, masks, cols, start, n);
  }

  /** `masked_rloo` on a copy of the rewards; None is the ValueError of a step of 0 or the
      ZeroDivisionError of a group of one. */
  method MaskedRloo(rows: seq<seq<real>>, masks: seq<seq<bool>>, cols: nat, n: nat) returns (r: Option<array2<Num>>)
    requires Shaped(rows, masks, cols)
    ensures r.None? <==> n == 0 || (n == 1 && rows != [])
    ensures r.Some? ==> r.value.Length0 == |rows| && r.value.Length1 == cols
    ensures r.Some? ==> forall i, j :: 0 <= i < |rows| && 0 <= j < cols ==>
              r.value[i, j] == RlooAt(rows, masks, cols, n, i, j)
  {
    if n == 0 { return None; }
    var a := new Num[|rows|, cols]((i, j) requires 0 <= i < |rows| && 0 <= j < cols && Shaped(rows, masks, cols) =>
      Val(if masks[i][j] then rows[i][j] else 0.0));
    hide RlooAt, AdjustedAt, Total, Scale;
    var start := 0;
    while start < |rows|
      invariant Rem(start, n) == 0 && (start > 0 ==> n > 1)
      invariant n > 1 ==> forall i, j :: 0 <= i < start && i < |rows| && 0 <= j < cols ==>
                  a[i, j] == RlooAt(rows, masks, cols, n, i, j)
      invariant Untouched(a, rows, masks, cols, start)
    {
      SameGroup(start, start, n);
      var sum := GroupSum(a, masks, start, n, rows, cols);
      if n == 1 { return None; }
      var baseline := sum.Over((n - 1) as real);
      AdjustGroup(a, masks, start, n, Scale(n), baseline, rows, cols);
      forall i, j | start <= i < start + n && i < |rows| && 0 <= j < cols
        ensures a[i, j] == RlooAt(rows, masks, cols, n, i, j)
      {
        AdjustedIsRloo(rows, masks, cols, n, start, i, j);
      }
      start := start + n;
    }
    return Some(a);
  }

  // ---------------------------------------------------------------- what leave-one-out means

  lemma {:induction false} AdjustedSum(row: seq<real>, mask: seq<bool>, scale: real, baseline: real)
    requires |row| == |mask|
    ensures MaskedSum(Adjusted(row, mask, scale, baseline), mask) ==
            scale * MaskedSum(row, mask) - baseline * (Count(mask) as real)
    decreases |row|
  {
    var n := |row| - 1;
    if n >= 0 {
      AdjustedSum(row[..n], mask[..n], scale, baseline);
      assert Adjusted(row, mask, scale, baseline)[..n] == Adjusted(row[..n], mask[..n], scale, baseline);
    }
  }

  lemma DivideAffine(total: real, s: real, c: real, scale: real, baseline: real)
    requires c > 0.0 && total == scale * s - baseline * c
    ensures total / c == scale * (s / c) - baseline
  {
    var q := s / c;
    assert s == q * c;
    assert scale * s == (scale * q) * c;
  }

  lemma MeanOfAdjusted(row: seq<real>, mask: seq<bool>, scale: real, baseline: real)
    requires |row| == |mask| && Count(mask) > 0
    ensures Mean(Adjusted(row, mask, scale, baseline), mask) == scale * Mean(row, mask) - baseline
  {
    hide MaskedSum, Adjusted, Count;
    AdjustedSum(row, mask, scale, baseline);
    DivideAffine(MaskedSum(Adjusted(row, mask, scale, baseline), mask), MaskedSum(row, mask), Count(mask) as real, scale, baseline);
  }

  // The average of the group's means without this one.
  function OthersAverage(means: seq<real>, mean: real, n: nat): real
    requires n > 1
  {
    (Sum(means) - mean) / ((n - 1) as real)
  }

  lemma LeaveOneOutAlgebra(means: seq<real>, mean: real, n: nat)
    requires n > 1
    ensures Scale(n) * mean - Baseline(means, n) == mean - OthersAverage(means, mean, n)
  {
    hide Sum;
    var d := (n - 1) as real;
    assert (n as real) / d == 1.0 + 1.0 / d;
    assert (Sum(means) - mean) / d == Sum(means) / d - mean / d;
    assert (1.0 + 1.0 / d) * mean == mean + mean / d;
  }

  /** Row i's mean becomes its own mean less the average mean of the n - 1 other rows of its group. */
  lemma LeavesOneOut(rows: seq<seq<real>>, masks: seq<seq<bool>>, cols: nat, n: nat, i: nat)
    requires Shaped(rows, masks, cols) && n > 1 && i < |rows| && Clean(masks, GroupStart(i, n), n)
    ensures var group := GroupMeans(rows, masks, cols, GroupStart(i, n), n);
            var mean := Mean(rows[i], masks[i]);
            && mean == group[i - GroupStart(i, n)]
            && Mean(Rloo(rows, masks, cols, n, i), masks[i]) == mean - OthersAverage(group, mean, n)
  {
    hide Mean, Sum, Scale, Baseline, OthersAverage, Adjusted, Count;
    var group := GroupMeans(rows, masks, cols, GroupStart(i, n), n);
    MeanOfAdjusted(rows[i], masks[i], Scale(n), Baseline(group, n));
    LeaveOneOutAlgebra(group, Mean(rows[i], masks[i]), n);
  }

  lemma {:induction false} SumAffine(a: seq<real>, b: seq<real>, scale: real, baseline: real)
    requires |a| == |b| && forall k :: 0 <= k < |a| ==> a[k] == scale * b[k] - baseline
    ensures Sum(a) == scale * Sum(b) - (|a| as real) * baseline
    decreases |a|
  {
    if a != [] {
      var n := |a| - 1;
      SumAffine(a[..n], b[..n], scale, baseline);
      assert ((n + 1) as real) * baseline == (n as real) * baseline + baseline;
    }
  }

  lemma BaselineAlgebra(means: seq<real>, n: nat)
    requires n > 1
    ensures Scale(n) * Sum(means) - (n as real) * Baseline(means, n) == 0.0
  {
    hide Sum;
    var d, x := (n - 1) as real, Sum(means);
    assert ((n as real) / d) * x == (n as real) * (x / d);
  }

  /** The row means of a group that is clean, after `masked_rloo`. */
  function MeansAfter(rows: seq<seq<real>>, masks: seq<seq<bool>>, cols: nat, n: nat, start: nat): (r: seq<real>)
    requires Shaped(rows, masks, cols) && n > 1 && Rem(start, n) == 0 && Clean(masks, start, n)
    ensures |r| == n
  {
    seq(n, k requires 0 <= k < n =>
      SameGroup(start, start + k, n);
      Mean(Rloo(rows, masks, cols, n, start + k), masks[start + k]))
  }

  lemma MeansAfterAt(rows: seq<seq<real>>, masks: seq<seq<bool>>, cols: nat, n: nat, start: nat, k: nat)
    requires Shaped(rows, masks, cols) && n > 1 && Rem(start, n) == 0 && Clean(masks, start, n) && k < n
    ensures start + k < |rows| == |masks| && |rows[start + k]| == |masks[start + k]| && Count(masks[start + k]) > 0
    ensures var row, mask, b := rows[start + k], masks[start + k], GroupMeans(rows, masks, cols, start, n);
            && b[k] == Mean(row, mask)
            && MeansAfter(rows, masks, cols, n, start)[k] == Mean(Adjusted(row, mask, Scale(n), Baseline(b, n)), mask)
  {
    hide Mean, Sum, Scale, Baseline, Count, Adjusted, Rem;
    SameGroup(start, start + k, n);
  }

  lemma MeanAfter(rows: seq<seq<real>>, masks: seq<seq<bool>>, cols: nat, n: nat, start: nat, k: nat)
    requires Shaped(rows, masks, cols) && n > 1 && Rem(start, n) == 0 && Clean(masks, start, n) && k < n
    ensures var b := GroupMeans(rows, masks, cols, start, n);
            MeansAfter(rows, masks, cols, n, start)[k] == Scale(n) * b[k] - Baseline(b, n)
  {
    hide *;
    MeansAfterAt(rows, masks, cols, n, start, k);
    MeanOfAdjusted(rows[start + k], masks[start + k], Scale(n), Baseline(GroupMeans(rows, masks, cols, start, n), n));
  }

  /** The means of every clean group add up to zero afterwards. */
  lemma GroupSumsToZero(rows: seq<seq<real>>, masks: seq<seq<bool>>, cols: nat, n: nat, start: nat)
    requires Shaped(rows, masks, cols) && n > 1 && Rem(start, n) == 0 && Clean(masks, start, n)
    ensures Sum(MeansAfter(rows, masks, cols, n, start)) == 0.0
  {
    hide *;
    var a, b := MeansAfter(rows, masks, cols, n, start), GroupMeans(rows, masks, cols, start, n);
    forall k: nat | k < n ensures a[k] == Scale(n) * b[k] - Baseline(b, n) {
      MeanAfter(rows, masks, cols, n, start, k);
    }
    SumAffine(a, b, Scale(n), Baseline(b, n));
    BaselineAlgebra(b, n);
  }

  // ---------------------------------------------------------------- returns

  function Flip(s: seq<real>): seq<real> { seq(|s|, t requires 0 <= t < |s| => s[|s| - 1 - t]) }

  /** `cumsum`: entry t is the sum of the first t + 1 entries. */
  function Cumsum(s: seq<real>): seq<real> { seq(|s|, t requires 0 <= t < |s| => Sum(s[..t + 1])) }

  function Masked(s: seq<real>, mask: seq<bool>): seq<real>
    requires |s| == |mask|
  {
    seq(|s|, t requires 0 <= t < |s| => if mask[t] then s[t] else 0.0)
  }

  /** `(rewards * mask).flip.cumsum.flip`. */
  function Returns(rewards: seq<real>, mask: seq<bool>): seq<real>
    requires |rewards| == |mask|
  {
    Flip(Cumsum(Flip(Masked(rewards, mask))))
  }

  /** The discounted sum of the entries from t on: the sum over k >= t of rate^(k - t) * s[k]. */
  function Tail(s: seq<real>, rate: real, t: nat): real
    requires t <= |s|
    decreases |s| - t
  {
    if t == |s| then 0.0 else s[t] + rate * Tail(s, rate, t + 1)
  }

  lemma {:induction false} FlippedSum(s: seq<real>, t: nat)
    requires t <= |s|
    ensures Sum(Flip(s)[..|s| - t]) == Tail(s, 1.0, t)
    decreases |s| - t
  {
    if t < |s| {
      FlippedSum(s, t + 1);
      var n := |s| - t - 1;
      assert Flip(s)[..n + 1][..n] == Flip(s)[..n];
    }
  }

  /** The return at t is the sum of the marked rewards from t on. */
  lemma ReturnsAreSuffixSums(rewards: seq<real>, mask: seq<bool>, t: nat)
    requires |rewards| == |mask| && t < |rewards|
    ensures |Returns(rewards, mask)| == |rewards|
    ensures Returns(rewards, mask)[t] ==
            Tail(seq(|rewards|, k requires 0 <= k < |rewards| => if mask[k] then rewards[k] else 0.0), 1.0, t)
  {
    var marked := seq(|rewards|, k requires 0 <= k < |rewards| => if mask[k] then rewards[k] else 0.0);
    assert Masked(rewards, mask) == marked;
    FlippedSum(Masked(rewards, mask), t);
  }

  // ---------------------------------------------------------------- process rewards

  function Cut(s: seq<real>, last: nat): (r: seq<real>)
    ensures |r| == |s|
  {
    seq(|s|, t requires 0 <= t < |s| => if t < last then s[t] else 0.0)
  }

  function Scaled(s: seq<real>, beta: real): (r: seq<real>)
    ensures |r| == |s|
  {
    seq(|s|, t requires 0 <= t < |s| => s[t] * beta)
  }

  /** The rewards before the recurrence: q times beta up to the last valid token. With ground truth
      the last valid entry is replaced so that the row adds up to `acc`. */
  function Adapted(q: seq<real>, last: nat, acc: real, beta: real, useGt: bool): (r: seq<real>)
    requires last <= |q|
    ensures |r| == |q|
  {
    var s := Scaled(Cut(q, last), beta);
    if useGt && last > 0 then s[last - 1 := acc - Sum(s[..last - 1])] else s
  }

  method ZeroFrom(a: array<real>, last: nat)
    requires last <= a.Length
    modifies a
    ensures a[..] == Cut(old(a[..]), last)
  {
    for t := last to a.Length
      invariant forall k :: 0 <= k < a.Length ==> a[k] == if last <= k < t then 0.0 else old(a[k])
    {
      a[t] := 0.0;
    }
  }

  /** `a[index] = acc - a[:index].sum()`. */
  method FillIn(a: array<real>, index: nat, acc: real)
    requires index < a.Length
    modifies a
    ensures a[..] == old(a[..])[index := acc - Sum(old(a[..index]))]
  {
    var sum := 0.0;
    for t := 0 to index
      invariant sum == Sum(a[..t]) && a[..] == old(a[..])
    {
      assert a[..t + 1][..t] == a[..t];
      sum := sum + a[t];
    }
    a[index] := acc - sum;
  }

  /** The reward part of `_forward_micro_batch` for one row: q is cut off in place and r[t] is the
      tail of the adapted rewards at rate lam. With lam = 0 the ground truth is not used. A row
      without a valid token indexes its last entry with -1, and is zeroed afterwards. */
  method ProcessRewards(q: array<real>, last: nat, acc: real, lam: real, beta: real, useGt: bool) returns (r: array<real>)
    requires last <= q.Length && q.Length > 0
    modifies q
    ensures q[..] == Cut(old(q[..]), last)
    ensures fresh(r) && r.Length == q.Length
    ensures forall t :: 0 <= t < r.Length ==>
              r[t] == Tail(Adapted(old(q[..]), last, acc, beta, useGt && lam != 0.0), lam, t)
  {
    ghost var before := q[..];
    ZeroFrom(q, last);
    var cut := q[..];
    var adapted := new real[|cut|](t requires 0 <= t < |cut| => cut[t] * beta);
    assert adapted[..] == Scaled(cut, beta);
    if lam == 0.0 {
      return adapted;
    }
    if useGt { FillIn(adapted, if last == 0 then adapted.Length - 1 else last - 1, acc); }
    ZeroFrom(adapted, last);
    assert adapted[..] == Adapted(before, last, acc, beta, useGt);
    r := Recurrence(adapted, lam);
  }

  /** The adapted rewards: beta times q on the valid tokens, zero behind them, and with ground truth the
      last valid one makes the row add up to the outcome. */
  lemma AdaptedRewards(q: seq<real>, last: nat, acc: real, beta: real, useGt: bool)
    requires last <= |q|
    ensures var a := Adapted(q, last, acc, beta, useGt);
            && (forall k :: last <= k < |q| ==> a[k] == 0.0)
            && (forall k :: 0 <= k < last && (useGt ==> k < last - 1) ==> a[k] == q[k] * beta)
            && (useGt && last > 0 ==> Sum(a[..last]) == acc)
  {
    var a, s := Adapted(q, last, acc, beta, useGt), Scaled(Cut(q, last), beta);
    if useGt && last > 0 {
      assert a[..last][..last - 1] == s[..last - 1] && a[..last][last - 1] == a[last - 1];
    }
  }

  method Recurrence(s: array<real>, lam: real) returns (r: array<real>)
    ensures fresh(r) && r.Length == s.Length
    ensures forall t :: 0 <= t < r.Length ==> r[t] == Tail(s[..], lam, t)
  {
    r := new real[s.Length];
    var gae := 0.0;
    for t := s.Length downto 0
      invariant gae == Tail(s[..], lam, t)
      invariant forall k :: t <= k < r.Length ==> r[k] == Tail(s[..], lam, k)
    {
      gae := s[t] + lam * gae;
      r[t] := gae;
    }
  }

  function Power(x: real, k: nat): real { if k == 0 then 1.0 else x * Power(x, k - 1) }

  /** The terms rate^k * s[t + k]. */
  function Discounted(s: seq<real>, rate: real, t: nat): (r: seq<real>)
    requires t <= |s|
    ensures |r| == |s| - t
  {
    seq(|s| - t, k requires 0 <= k < |s| - t => Power(rate, k) * s[t + k])
  }

  lemma {:induction false} SumFront(s: seq<real>)
    requires s != []
    ensures Sum(s) == s[0] + Sum(s[1..])
    decreases |s|
  {
    var n := |s| - 1;
    if n > 0 {
      SumFront(s[..n]);
      assert s[..n][1..] == s[1..][..n - 1];
    } else {
      assert s[..0] == [] && s[1..] == [];
    }
  }

  lemma DiscountedStep(s: seq<real>, rate: real, t: nat)
    requires t < |s|
    ensures Discounted(s, rate, t)[0] == s[t]
    ensures Sum(Discounted(s, rate, t)[1..]) == rate * Sum(Discounted(s, rate, t + 1))
  {
    hide Sum;
    var here, next := Discounted(s, rate, t), Discounted(s, rate, t + 1);
    forall k | 0 <= k < |next| ensures here[1..][k] == rate * next[k] - 0.0 {
      PowerStep(rate, k, s[t + 1 + k]);
      assert here[1..][k] == Power(rate, k + 1) * s[t + 1 + k];
    }
    SumAffine(here[1..], next, rate, 0.0);
  }

  /** The recurrence in closed form: the sum over k of rate^k * s[t + k]. */
  lemma {:induction false} TailIsDiscounted(s: seq<real>, rate: real, t: nat)
    requires t <= |s|
    ensures Tail(s, rate, t) == Sum(Discounted(s, rate, t))
    decreases |s| - t
  {
    if t < |s| {
      hide Discounted;
      TailIsDiscounted(s, rate, t + 1);
      DiscountedStep(s, rate, t);
      SumFront(Discounted(s, rate, t));
    }
  }

  lemma PowerStep(rate: real, k: nat, x: real)
    ensures Power(rate, k + 1) * x == rate * (Power(rate, k) * x)
  {
  }

  lemma {:induction false} TailSum(s: seq<real>, n: nat)
    requires n <= |s| && forall k :: n <= k < |s| ==> s[k] == 0.0
    ensures Tail(s, 1.0, 0) == Sum(s[..n])
    decreases |s| - n
  {
    if n == |s| {
      FlippedSum(Flip(s), 0);
      TailOfPrefix(s, |s|);
    } else {
      TailSum(s, n + 1);
      assert s[..n + 1][..n] == s[..n];
    }
  }

  lemma {:induction false} TailOfPrefix(s: seq<real>, n: nat)
    requires n <= |s|
    ensures Tail(s, 1.0, 0) == Sum(s[..n]) + Tail(s, 1.0, n)
  {
    if n > 0 {
      TailOfPrefix(s, n - 1);
      assert s[..n][..n - 1] == s[..n - 1];
    }
  }

  /** With ground truth and lam = 1 the first process reward is the outcome, exactly when the row has
      a valid token (or the outcome is 0). */
  lemma GroundTruthReturn(q: seq<real>, last: nat, acc: real, beta: real)
    requires last <= |q|
    ensures Tail(Adapted(q, last, acc, beta, true), 1.0, 0) == acc <==> last > 0 || acc == 0.0
  {
    var a := Adapted(q, last, acc, beta, true);
    TailSum(a, last);
    if last > 0 {
      assert a[..last][..last - 1] == Scaled(Cut(q, last), beta)[..last - 1];
    }
  }

  // ---------------------------------------------------------------- batch normalisation

  const EPSILON := 0.000001

  function Abs(x: real): real { if x < 0.0 then -x else x }

  /** The largest absolute value of a tail of a row, and of all rows. */
  function RowPeak(row: seq<real>, t: nat): (m: real)
    requires t <= |row|
    ensures m >= 0.0 && forall k :: t <= k < |row| ==> Abs(Tail(row, 1.0, k)) <= m
    decreases |row| - t
  {
    if t == |row| then 0.0 else
    var rest, here := RowPeak(row, t + 1), Abs(Tail(row, 1.0, t));
    if here > rest then here else rest
  }

  /** Some suffix sum of the row, from t on, has this absolute value. */
  ghost predicate Reached(row: seq<real>, t: nat, m: real) {
    exists k :: t <= k < |row| && (Tail(row, 1.0, k) == m || Tail(row, 1.0, k) == -m)
  }

  lemma {:induction false} RowPeakReached(row: seq<real>, t: nat)
    requires t < |row|
    ensures Reached(row, t, RowPeak(row, t))
    decreases |row| - t
  {
    var here := Tail(row, 1.0, t);
    if t + 1 < |row| {
      RowPeakReached(row, t + 1);
      var k :| t + 1 <= k < |row| && (Tail(row, 1.0, k) == RowPeak(row, t + 1) || Tail(row, 1.0, k) == -RowPeak(row, t + 1));
    } else {
      assert RowPeak(row, t + 1) == 0.0;
    }
  }

  lemma {:induction false} PeakReached(rows: seq<seq<real>>)
    requires exists i :: 0 <= i < |rows| && rows[i] != []
    ensures exists i :: 0 <= i < |rows| && Reached(rows[i], 0, Peak(rows))
  {
    var n := |rows| - 1;
    if rows[n] != [] { RowPeakReached(rows[n], 0); }
    if exists i :: 0 <= i < n && rows[..n][i] != [] {
      PeakReached(rows[..n]);
      var i :| 0 <= i < n && Reached(rows[..n][i], 0, Peak(rows[..n]));
      assert rows[i] == rows[..n][i];
    } else {
      NothingReached(rows[..n]);
      assert forall i :: 0 <= i < n ==> rows[..n][i] == rows[i];
    }
    assert Reached(rows[n], 0, Peak(rows)) || Peak(rows) == Peak(rows[..n]);
  }

  lemma {:induction false} NothingReached(rows: seq<seq<real>>)
    requires forall i :: 0 <= i < |rows| ==> rows[i] == []
    ensures Peak(rows) == 0.0
  {
    if rows != [] { NothingReached(rows[..|rows| - 1]); }
  }

  lemma PeakIs(rows: seq<seq<real>>, m: real)
    requires forall i, k :: 0 <= i < |rows| && 0 <= k < |rows[i]| ==> -m <= Tail(rows[i], 1.0, k) <= m
    requires exists i :: 0 <= i < |rows| && Reached(rows[i], 0, m)
    ensures Peak(rows) == m
  {
    hide Tail, RowPeak, Peak;
    var i :| 0 <= i < |rows| && Reached(rows[i], 0, m);
    var k :| 0 <= k < |rows[i]| && (Tail(rows[i], 1.0, k) == m || Tail(rows[i], 1.0, k) == -m);
    assert Abs(Tail(rows[i], 1.0, k)) <= Peak(rows);
    PeakReached(rows);
    var j :| 0 <= j < |rows| && Reached(rows[j], 0, Peak(rows));
    var l :| 0 <= l < |rows[j]| && (Tail(rows[j], 1.0, l) == Peak(rows) || Tail(rows[j], 1.0, l) == -Peak(rows));
    assert -m <= Tail(rows[j], 1.0, l) <= m;
  }

  /** `prime_norm` divides every reward by 1e-6 more than the largest absolute suffix sum of all rows. */
  lemma NormDivides(rows: seq<seq<real>>, m: real)
    requires forall i, k :: 0 <= i < |rows| && 0 <= k < |rows[i]| ==> -m <= Tail(rows[i], 1.0, k) <= m
    requires exists i :: 0 <= i < |rows| && Reached(rows[i], 0, m)
    ensures |PrimeNorm(rows)| == |rows|
    ensures forall i :: 0 <= i < |rows| ==> |PrimeNorm(rows)[i]| == |rows[i]|
    ensures m >= 0.0 && forall i, t :: 0 <= i < |rows| && 0 <= t < |rows[i]| ==>
              PrimeNorm(rows)[i][t] == rows[i][t] / (m + 0.000001)
  {
    PeakIs(rows, m);
    hide Tail, RowPeak, Peak, Reached;
  }

  function Peak(rows: seq<seq<real>>): (m: real)
    ensures m >= 0.0
    ensures forall i, k :: 0 <= i < |rows| && 0 <= k < |rows[i]| ==> Abs(Tail(rows[i], 1.0, k)) <= m
  {
    if rows == [] then 0.0 else
    var n := |rows| - 1;
    var rest, last := Peak(rows[..n]), RowPeak(rows[n], 0);
    assert forall i :: 0 <= i < n ==> rows[..n][i] == rows[i];
    if last > rest then last else rest
  }

  /** `prime_norm` with batch_norm. */
  function PrimeNorm(rows: seq<seq<real>>): (r: seq<seq<real>>) {
    var c := Peak(rows) + EPSILON;
    seq(|rows|, i requires 0 <= i < |rows| =>
      seq(|rows[i]|, t requires 0 <= t < |rows[i]| => rows[i][t] / c))
  }

  lemma {:induction false} TailDivides(a: seq<real>, b: seq<real>, c: real, t: nat)
    requires t <= |a| == |b| && c > 0.0 && forall k :: 0 <= k < |a| ==> a[k] == b[k] / c
    ensures Tail(a, 1.0, t) == Tail(b, 1.0, t) / c
    decreases |a| - t
  {
    if t < |a| {
      TailDivides(a, b, c, t + 1);
      assert b[t] / c + Tail(b, 1.0, t + 1) / c == (b[t] + Tail(b, 1.0, t + 1)) / c;
    }
  }

  /** After normalisation every reward-to-go of every row lies strictly between -1 and 1. */
  lemma NormBoundsTails(rows: seq<seq<real>>, i: nat, t: nat)
    requires i < |rows| && t < |rows[i]|
    ensures -1.0 < Tail(PrimeNorm(rows)[i], 1.0, t) < 1.0
  {
    var c := Peak(rows) + EPSILON;
    TailDivides(PrimeNorm(rows)[i], rows[i], c, t);
    assert Abs(Tail(rows[i], 1.0, t)) < c;
    BelowOne(Tail(rows[i], 1.0, t), c);
  }

  lemma SignOfProduct(a: real, c: real)
    requires c > 0.0 && a * c > 0.0
    ensures a > 0.0
  {
  }

  lemma BelowOne(x: real, c: real)
    requires c > 0.0 && Abs(x) < c
    ensures -1.0 < x / c < 1.0
  {
    var q := x / c;
    assert q * c == x;
    assert (q + 1.0) * c == x + c && (1.0 - q) * c == c - x;
    SignOfProduct(q + 1.0, c);
    SignOfProduct(1.0 - q, c);
  }
}
