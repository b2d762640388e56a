/**
 The forward pass of the vocabulary-parallel KL loss, for one token. Every rank holds one shard of
 the logits and works on it in place; the ranks meet in three all-reduces. Numbers are reals and
 the exponential and the logarithm are parameters.
 */
module KlLoss {
  import opened Basics

  datatype Math = Math(exp: real -> real, log: real -> real)

  ghost predicate Positive(m: Math) { forall x :: m.exp(x) > 0.0 }

  ghost predicate Exponential(m: Math) {
    Positive(m) && forall x, y :: m.exp(x + y) == m.exp(x) * m.exp(y)
  }

  /** The number added to a probability before its logarithm is taken. */
  const TINY := 0.00000000000000000001

  // ---------------------------------------------------------------- the loss on one device

  function MaxOf(s: seq<real>): (m: real)
    requires s != []
    ensures IsMax(s, m)
  {
    var n := |s| - 1;
    if n == 0 then s[0] else
    var rest := MaxOf(s[..n]);
    assert forall i :: 0 <= i < n ==> s[i] == s[..n][i];
    if s[n] > rest then s[n] else rest
  }

  ghost predicate IsMax(s: seq<real>, m: real) {
    m in s && forall i :: 0 <= i < |s| ==> s[i] <= m
  }

  /** e to the power of every logit minus the largest. */
  function Exps(m: Math, logits: seq<real>, max: real): (r: seq<real>)
    ensures |r| == |logits|
  {
    seq(|logits|, i requires 0 <= i < |logits| => m.exp(logits[i] - max))
  }

  /** The probability the student gives to token i. */
  function Prob(m: Math, logits: seq<real>, i: nat): real
    requires i < |logits| && Positive(m)
  {
    var exps := Exps(m, logits, MaxOf(logits));
    SumPositive(exps);
    exps[i] / Sum(exps)
  }

  /** A target token inside the vocabulary adds p * (log p - log q); any other adds nothing. */
  function Term(m: Math, logits: seq<real>, logp: real, index: int): real
    requires Positive(m)
  {
    if 0 <= index < |logits| then m.exp(logp) * (logp - m.log(TINY + Prob(m, logits, index))) else 0.0
  }

  function Loss(m: Math, logits: seq<real>, logps: seq<real>, indices: seq<int>): real
    requires Positive(m) && |logps| == |indices|
  {
    Sum(seq(|logps|, k requires 0 <= k < |logps| => Term(m, logits, logps[k], indices[k])))
  }

  // ---------------------------------------------------------------- sums and maxima

  lemma {:induction false} SumPositive(s: seq<real>)
    requires s != [] && forall i :: 0 <= i < |s| ==> s[i] > 0.0
    ensures Sum(s) > 0.0
  {
    var n := |s| - 1;
    if n > 0 { SumPositive(s[..n]); } else { assert s[..n] == []; }
  }

  lemma {:induction false} SumAppend(a: seq<real>, b: seq<real>)
    ensures Sum(a + b) == Sum(a) + Sum(b)
    decreases |b|
  {
    if b == [] {
      assert a + b == a;
    } else {
      var n := |b| - 1;
      assert (a + b)[..|a| + n] == a + b[..n];
      SumAppend(a, b[..n]);
    }
  }

  lemma {:induction false} SumAdds(a: seq<real>, b: seq<real>, c: seq<real>)
    requires |a| == |b| == |c| && forall k :: 0 <= k < |c| ==> c[k] == a[k] + b[k]
    ensures Sum(c) == Sum(a) + Sum(b)
    decreases |c|
  {
    if c != [] { SumAdds(a[..|a| - 1], b[..|b| - 1], c[..|c| - 1]); }
  }

  lemma {:induction false} SumScales(a: seq<real>, b: seq<real>, x: real)
    requires |a| == |b| && forall k :: 0 <= k < |a| ==> a[k] == x * b[k]
    ensures Sum(a) == x * Sum(b)
    decreases |a|
  {
    if a != [] { SumScales(a[..|a| - 1], b[..|b| - 1], x); }
  }

  // ---------------------------------------------------------------- shards

  /** The whole vocabulary: shard after shard. */
  function Whole(shards: seq<seq<real>>): seq<real> {
    if shards == [] then [] else Whole(shards[..|shards| - 1]) + shards[|shards| - 1]
  }

  ghost predicate Even(shards: seq<seq<real>>, w: nat) {
    forall r :: 0 <= r < |shards| ==> |shards[r]| == w
  }

  lemma {:induction false} WholeAt(shards: seq<seq<real>>, w: nat, r: nat, j: nat)
    requires Even(shards, w) && r < |shards| && j < w
    ensures |Whole(shards)| == Times(|shards|, w) && Times(r, w) + j < Times(|shards|, w)
    ensures Whole(shards)[Times(r, w) + j] == shards[r][j]
  {
    var n := |shards| - 1;
    WholeLength(shards[..n], w);
    assert Times(n + 1, w) == Times(n, w) + w;
    if r < n { WholeAt(shards[..n], w, r, j); }
  }

  lemma {:induction false} WholeLength(shards: seq<seq<real>>, w: nat)
    requires Even(shards, w)
    ensures |Whole(shards)| == Times(|shards|, w)
  {
    if shards != [] {
      var n := |shards| - 1;
      WholeLength(shards[..n], w);
      assert Times(n + 1, w) == Times(n, w) + w;
    }
  }

  lemma {:induction false} WholeMax(shards: seq<seq<real>>, w: nat, maxes: seq<real>)
    requires Even(shards, w) && w > 0 && shards != [] && |maxes| == |shards|
    requires forall r :: 0 <= r < |shards| ==> maxes[r] == MaxOf(shards[r])
    ensures Whole(shards) != [] && MaxOf(maxes) == MaxOf(Whole(shards))
  {
    hide Whole;
    var whole, top := Whole(shards), MaxOf(maxes);
    var r :| 0 <= r < |maxes| && maxes[r] == top;
    var j :| 0 <= j < w && shards[r][j] == top;
    WholeAt(shards, w, r, j);
    assert whole[Times(r, w) + j] == top;
    forall i | 0 <= i < |whole| ensures whole[i] <= top {
      var s := Locate(i, |shards|, w);
      WholeAt(shards, w, s, i - Times(s, w));
      assert shards[s][i - Times(s, w)] <= maxes[s];
    }
  }

  lemma {:induction false} WholeSum(shards: seq<seq<real>>, sums: seq<real>)
    requires |sums| == |shards| && forall r :: 0 <= r < |shards| ==> sums[r] == Sum(shards[r])
    ensures Sum(sums) == Sum(Whole(shards))
    decreases |shards|
  {
    if shards != [] {
      var n := |shards| - 1;
      WholeSum(shards[..n], sums[..n]);
      SumAppend(Whole(shards[..n]), shards[n]);
    }
  }

  /** Exponentiating every shard exponentiates the whole. */
  lemma {:induction false} WholeExps(m: Math, shards: seq<seq<real>>, exps: seq<seq<real>>, w: nat, max: real)
    requires Even(shards, w) && |exps| == |shards|
    requires forall r :: 0 <= r < |shards| ==> exps[r] == Exps(m, shards[r], max)
    ensures Whole(exps) == Exps(m, Whole(shards), max)
  {
    hide Whole, Times;
    WholeLength(shards, w);
    WholeLength(exps, w);
    var a, b := Whole(exps), Exps(m, Whole(shards), max);
    forall i | 0 <= i < Times(|shards|, w) ensures a[i] == b[i] {
      var r := Locate(i, |shards|, w);
      WholeAt(shards, w, r, i - Times(r, w));
      WholeAt(exps, w, r, i - Times(r, w));
    }
    assert a == b;
  }

  // ---------------------------------------------------------------- the ranks

  method LocalMax(a: array<real>) returns (max: real)
    requires a.Length > 0
    ensures max == MaxOf(a[..])
  {
    max := a[0];
    for j := 1 to a.Length
      invariant IsMax(a[..j], max)
    {
      assert a[..j + 1] == a[..j] + [a[j]];
      if a[j] > max { max := a[j]; }
    }
    assert a[..a.Length] == a[..];
  }

  /** `logits -= max`, `exp_()` and the local sum. */
  method LocalExp(m: Math, a: array<real>, max: real) returns (sum: real)
    modifies a
    ensures a[..] == Exps(m, old(a[..]), max)
    ensures sum == Sum(a[..])
  {
    sum := 0.0;
    for j := 0 to a.Length
      invariant forall i :: 0 <= i < j ==> a[i] == m.exp(old(a[i]) - max)
      invariant forall i :: j <= i < a.Length ==> a[i] == old(a[i])
      invariant sum == Sum(a[..j])
    {
      ghost var before := a[..j];
      a[j] := a[j] - max;
      a[j] := m.exp(a[j]);
      sum := sum + a[j];
      assert a[..j] == before && a[..j + 1][..j] == before;
    }
    assert a[..a.Length] == a[..];
  }

  /** `div_(sum_exp_logits)`. */
  method LocalDivide(a: array<real>, z: real)
    requires z != 0.0
    modifies a
    ensures forall j :: 0 <= j < a.Length ==> a[j] == old(a[j]) / z
  {
    for j := 0 to a.Length
      invariant forall i :: 0 <= i < j ==> a[i] == old(a[i]) / z
      invariant forall i :: j <= i < a.Length ==> a[i] == old(a[i])
    {
      a[j] := a[j] / z;
    }
  }

  // The terms of the targets in a rank's range; the others are zero.
  ghost function LocalTerms(m: Math, logits: seq<real>, logps: seq<real>, indices: seq<int>, from: nat, to: nat): seq<real>
    requires Positive(m) && |logps| == |indices|
  {
    seq(|logps|, k requires 0 <= k < |logps| =>
      if from <= indices[k] < to then Term(m, logits, logps[k], indices[k]) else 0.0)
  }

  /** One rank's share of the loss: targets outside its range are masked. */
  method LocalLoss(m: Math, probs: array<real>, start: nat, logps: seq<real>, indices: seq<int>, ghost logits: seq<real>)
    returns (loss: real)
    requires Positive(m) && |logps| == |indices| && probs.Length > 0 && start + probs.Length <= |logits|
    requires forall j :: 0 <= j < probs.Length ==> probs[j] == Prob(m, logits, start + j)
    ensures loss == Sum(LocalTerms(m, logits, logps, indices, start, start + probs.Length))
  {
    ghost var terms := LocalTerms(m, logits, logps, indices, start, start + probs.Length);
    loss := 0.0;
    for k := 0 to |logps|
      invariant loss == Sum(terms[..k])
    {
      var inVocab := start <= indices[k] < start + probs.Length;
      var index := indices[k] - start;
      if !inVocab { index := 0; }
      var p := m.exp(logps[k]);
      if !inVocab { p := 0.0; }
      var logp := logps[k];
      if !inVocab { logp := 0.0; }
      var logq := m.log(TINY + probs[index]);
      if !inVocab { logq := 0.0; }
      var term := p * (logp - logq);
      assert term == terms[k] by {
        if inVocab { assert probs[index] == Prob(m, logits, indices[k]); }
      }
      loss := loss + term;
      assert terms[..k + 1][..k] == terms[..k];
    }
    assert terms[..|terms|] == terms;
  }

  // The all-reduces: every rank gets the largest, or the sum, of the ranks' numbers.
  method ReduceMax(values: seq<real>) returns (max: real)
    requires values != []
    ensures max == MaxOf(values)
  {
    max := values[0];
    for r := 1 to |values|
      invariant IsMax(values[..r], max)
    {
      assert values[..r + 1] == values[..r] + [values[r]];
      if values[r] > max { max := values[r]; }
    }
    assert values[..|values|] == values;
  }

  method ReduceSum(values: seq<real>) returns (sum: real)
    ensures sum == Sum(values)
  {
    sum := 0.0;
    for r := 0 to |values|
      invariant sum == Sum(values[..r])
    {
      assert values[..r + 1][..r] == values[..r];
      sum := sum + values[r];
    }
    assert values[..|values|] == values;
  }

  // ---------------------------------------------------------------- the forward pass

  ghost function Contents(shards: seq<array<real>>): (r: seq<seq<real>>)
    reads set a | a in shards
    ensures |r| == |shards| && forall k :: 0 <= k < |r| ==> r[k] == shards[k][..]
  {
    if shards == [] then [] else
    var n := |shards| - 1;
    Contents(shards[..n]) + [shards[n][..]]
  }

  ghost predicate Ranks(shards: seq<array<real>>, w: nat) {
    && shards != [] && w > 0
    && (forall r :: 0 <= r < |shards| ==> shards[r].Length == w)
    && (forall r, s :: 0 <= r < s < |shards| ==> shards[r] != shards[s])
  }

  /** The divergence over the targets, q being the probabilities of the whole vocabulary: a target p
      inside it adds p * (log p - log(1e-20 + q)), any other adds nothing. */
  ghost function Divergence(m: Math, q: seq<real>, logps: seq<real>, indices: seq<int>): real
    requires |logps| == |indices|
  {
    Sum(seq(|logps|, k requires 0 <= k < |logps| =>
      if 0 <= indices[k] < |q| then m.exp(logps[k]) * (logps[k] - m.log(0.00000000000000000001 + q[indices[k]])) else 0.0))
  }

  lemma {:induction false} LossFormula(m: Math, logits: seq<real>, probs: seq<seq<real>>, w: nat, logps: seq<real>, indices: seq<int>)
    requires Positive(m) && Even(probs, w) && |logits| == Times(|probs|, w) && |logps| == |indices|
    requires forall r, j :: 0 <= r < |probs| && 0 <= j < w && Times(r, w) + j < Times(|probs|, w) ==>
               probs[r][j] == Prob(m, logits, Times(r, w) + j)
    ensures |Whole(probs)| == |logits|
    ensures Loss(m, logits, logps, indices) == Divergence(m, Whole(probs), logps, indices)
  {
    hide Sum, Prob, Whole;
    var q := Whole(probs);
    WholeLength(probs, w);
    forall i | 0 <= i < |logits| ensures q[i] == Prob(m, logits, i) {
      var r := Locate(i, |probs|, w);
      WholeAt(probs, w, r, i - Times(r, w));
    }
    var terms := seq(|logps|, k requires 0 <= k < |logps| => Term(m, logits, logps[k], indices[k]));
    var formula := seq(|logps|, k requires 0 <= k < |logps| =>
      if 0 <= indices[k] < |q| then m.exp(logps[k]) * (logps[k] - m.log(0.00000000000000000001 + q[indices[k]])) else 0.0);
    forall k | 0 <= k < |logps| ensures terms[k] == formula[k] {
      assert 0 <= indices[k] < |q| ==> q[indices[k]] == Prob(m, logits, indices[k]);
    }
    assert terms == formula;
  }

  /** Any number of ranks computes the loss of the whole vocabulary, and leaves its probabilities q
      in the shards for the backward pass. */
  method Forward(m: Math, shards: seq<array<real>>, w: nat, logps: seq<real>, indices: seq<int>) returns (loss: real)
    requires Positive(m) && Ranks(shards, w) && |logps| == |indices|
    modifies set a | a in shards
    ensures |Whole(old(Contents(shards)))| == Times(|shards|, w)
    ensures loss == Loss(m, Whole(old(Contents(shards))), logps, indices)
    ensures loss == Divergence(m, Whole(Contents(shards)), logps, indices)
    ensures forall r, j :: 0 <= r < |shards| && 0 <= j < w && Times(r, w) + j < Times(|shards|, w) ==>
              shards[r][j] == Prob(m, Whole(old(Contents(shards))), Times(r, w) + j)
  {
    ghost var before := Contents(shards);
    ghost var logits := Whole(before);
    WholeLength(before, w);
    var max := GlobalMax(shards, w);
    var z := ExpAll(m, shards, w, max);
    DivideAll(m, shards, w, before, z);
    loss := SumLosses(m, shards, w, logps, indices, logits);
    hide Loss, Divergence, Prob, Whole;
    LossFormula(m, logits, Contents(shards), w, logps, indices);
  }

  method GlobalMax(shards: seq<array<real>>, w: nat) returns (max: real)
    requires Ranks(shards, w)
    ensures Whole(Contents(shards)) != [] && max == MaxOf(Whole(Contents(shards)))
  {
    var maxes := [];
    for r := 0 to |shards|
      invariant |maxes| == r && forall k :: 0 <= k < r ==> maxes[k] == MaxOf(shards[k][..])
    {
      var local := LocalMax(shards[r]);
      maxes := maxes + [local];
    }
    max := ReduceMax(maxes);
    WholeMax(Contents(shards), w, maxes);
  }

  method ExpAll(m: Math, shards: seq<array<real>>, w: nat, max: real) returns (z: real)
    requires Ranks(shards, w)
    modifies set a | a in shards
    ensures z == Sum(Exps(m, Whole(old(Contents(shards))), max))
    ensures forall r :: 0 <= r < |shards| ==> shards[r][..] == Exps(m, old(shards[r][..]), max)
  {
    hide Whole, Sum, Exps;
    ghost var before := Contents(shards);
    var sums := [];
    for r := 0 to |shards|
      invariant |sums| == r && forall k :: 0 <= k < r ==> sums[k] == Sum(shards[k][..])
      invariant forall k :: 0 <= k < r ==> shards[k][..] == Exps(m, before[k], max)
      invariant forall k :: r <= k < |shards| ==> shards[k][..] == before[k]
    {
      var local := LocalExp(m, shards[r], max);
      sums := sums + [local];
    }
    z := ReduceSum(sums);
    WholeSum(Contents(shards), sums);
    WholeExps(m, before, Contents(shards), w, max);
  }

  method DivideAll(m: Math, shards: seq<array<real>>, w: nat, ghost before: seq<seq<real>>, z: real)
    requires Positive(m) && Ranks(shards, w) && |before| == |shards| && Even(before, w) && Whole(before) != []
    requires forall r :: 0 <= r < |shards| ==> shards[r][..] == Exps(m, before[r], MaxOf(Whole(before)))
    requires z == Sum(Exps(m, Whole(before), MaxOf(Whole(before))))
    modifies set a | a in shards
    ensures |Whole(before)| == Times(|shards|, w)
    ensures forall r, j :: 0 <= r < |shards| && 0 <= j < w && Times(r, w) + j < Times(|shards|, w) ==>
              shards[r][j] == Prob(m, Whole(before), Times(r, w) + j)
  {
    hide Prob, Whole, Sum, MaxOf, Even;
    WholeLength(before, w);
    NotZero(m, Whole(before), MaxOf(Whole(before)));
    for r := 0 to |shards|
      invariant forall k, j :: 0 <= k < r && 0 <= j < w && Times(k, w) + j < Times(|shards|, w) ==>
                  shards[k][j] == Prob(m, Whole(before), Times(k, w) + j)
      invariant forall k :: r <= k < |shards| ==> shards[k][..] == Exps(m, before[k], MaxOf(Whole(before)))
    {
      LocalDivide(shards[r], z);
      forall j | 0 <= j < w && Times(r, w) + j < Times(|shards|, w)
        ensures shards[r][j] == Prob(m, Whole(before), Times(r, w) + j)
      {
        ProbAt(m, before, w, r, j);
      }
    }
  }

  lemma NotZero(m: Math, logits: seq<real>, max: real)
    requires Positive(m) && logits != []
    ensures Sum(Exps(m, logits, max)) > 0.0
  {
    SumPositive(Exps(m, logits, max));
  }

  lemma ProbAt(m: Math, before: seq<seq<real>>, w: nat, r: nat, j: nat)
    requires Positive(m) && Even(before, w) && r < |before| && j < w && Whole(before) != []
    ensures Times(r, w) + j < |Whole(before)| && Sum(Exps(m, Whole(before), MaxOf(Whole(before)))) != 0.0
    ensures |before[r]| == w && Prob(m, Whole(before), Times(r, w) + j) ==
            Exps(m, before[r], MaxOf(Whole(before)))[j] / Sum(Exps(m, Whole(before), MaxOf(Whole(before))))
  {
    hide Sum, MaxOf, Whole;
    WholeAt(before, w, r, j);
    NotZero(m, Whole(before), MaxOf(Whole(before)));
  }

  method SumLosses(m: Math, shards: seq<array<real>>, w: nat, logps: seq<real>, indices: seq<int>, ghost logits: seq<real>)
    returns (loss: real)
    requires Positive(m) && Ranks(shards, w) && |logps| == |indices| && |logits| == Times(|shards|, w)
    requires forall r, j :: 0 <= r < |shards| && 0 <= j < w && Times(r, w) + j < Times(|shards|, w) ==>
               shards[r][j] == Prob(m, logits, Times(r, w) + j)
    ensures loss == Loss(m, logits, logps, indices)
  {
    hide Prob, Positive;
    SumZeros(LocalTerms(m, logits, logps, indices, 0, 0));
    var losses := [];
    for r := 0 to |shards|
      invariant |losses| == r && Sum(losses) == Sum(LocalTerms(m, logits, logps, indices, 0, Times(r, w)))
    {
      assert Times(r + 1, w) == Times(r, w) + w;
      if r + 1 < |shards| { TimesGrows(r, |shards|, w); }
      var local := LocalLoss(m, shards[r], Times(r, w), logps, indices, logits);
      SumAdds(LocalTerms(m, logits, logps, indices, 0, Times(r, w)),
              LocalTerms(m, logits, logps, indices, Times(r, w), Times(r, w) + w),
              LocalTerms(m, logits, logps, indices, 0, Times(r + 1, w)));
      assert (losses + [local])[..r] == losses;
      losses := losses + [local];
    }
    loss := ReduceSum(losses);
    assert LocalTerms(m, logits, logps, indices, 0, |logits|) ==
           seq(|logps|, k requires 0 <= k < |logps| => Term(m, logits, logps[k], indices[k]));
  }

  lemma {:induction false} SumZeros(s: seq<real>)
    requires forall i :: 0 <= i < |s| ==> s[i] == 0.0
    ensures Sum(s) == 0.0
    decreases |s|
  {
    if s != [] { SumZeros(s[..|s| - 1]); }
  }

  // ---------------------------------------------------------------- softmax

  lemma ExpMinus(m: Math, a: real, b: real)
    requires Exponential(m)
    ensures m.exp(a - b) == m.exp(0.0 - b) * m.exp(a)
  {
    assert a - b == (0.0 - b) + a;
  }

  lemma ShiftedExps(m: Math, logits: seq<real>, max: real)
    requires Exponential(m)
    ensures Sum(Exps(m, logits, max)) == m.exp(0.0 - max) * Sum(Exps(m, logits, 0.0))
    ensures forall k :: 0 <= k < |logits| ==>
              Exps(m, logits, max)[k] == m.exp(0.0 - max) * Exps(m, logits, 0.0)[k] == m.exp(0.0 - max) * m.exp(logits[k])
  {
    hide Sum, Exponential;
    var shifted, plain, x := Exps(m, logits, max), Exps(m, logits, 0.0), m.exp(0.0 - max);
    forall k | 0 <= k < |logits| ensures plain[k] == m.exp(logits[k]) && shifted[k] == x * plain[k] {
      ExpMinus(m, logits[k], max);
      assert logits[k] - 0.0 == logits[k];
    }
    SumScales(shifted, plain, x);
  }

  lemma PlainExps(m: Math, logits: seq<real>)
    ensures Exps(m, logits, 0.0) == seq(|logits|, k requires 0 <= k < |logits| => m.exp(logits[k]))
  {
    var plain := seq(|logits|, k requires 0 <= k < |logits| => m.exp(logits[k]));
    forall k | 0 <= k < |logits| ensures Exps(m, logits, 0.0)[k] == plain[k] {
      assert logits[k] - 0.0 == logits[k];
    }
    assert Exps(m, logits, 0.0) == plain;
  }

  /** With a true exponential, taking the largest logit away changes nothing: the probabilities are
      the softmax of the logits. */
  lemma ProbIsSoftmax(m: Math, logits: seq<real>, i: nat)
    requires Exponential(m) && i < |logits|
    ensures Sum(Exps(m, logits, 0.0)) > 0.0
    ensures Exps(m, logits, 0.0) == seq(|logits|, k requires 0 <= k < |logits| => m.exp(logits[k]))
    ensures Prob(m, logits, i) == m.exp(logits[i]) / Sum(Exps(m, logits, 0.0))
  {
    hide Sum, MaxOf, Exps;
    PlainExps(m, logits);
    ShiftedExps(m, logits, MaxOf(logits));
    NotZero(m, logits, 0.0);
    Cancel(m.exp(0.0 - MaxOf(logits)), m.exp(logits[i]), Sum(Exps(m, logits, 0.0)));
  }

  /** The probabilities of the whole vocabulary add up to one. */
  lemma ProbsSumToOne(m: Math, logits: seq<real>)
    requires Positive(m) && logits != []
    ensures Sum(seq(|logits|, k requires 0 <= k < |logits| => Prob(m, logits, k))) == 1.0
  {
    hide Sum, MaxOf, Exps;
    var exps := Exps(m, logits, MaxOf(logits));
    var z := Sum(exps);
    NotZero(m, logits, MaxOf(logits));
    var probs := seq(|logits|, k requires 0 <= k < |logits| => Prob(m, logits, k));
    forall k | 0 <= k < |logits| ensures probs[k] == (1.0 / z) * exps[k] {
      Reciprocal(exps[k], z);
    }
    SumScales(probs, exps, 1.0 / z);
    Reciprocal(z, z);
  }

  lemma Reciprocal(a: real, z: real)
    requires z != 0.0
    ensures a / z == (1.0 / z) * a && (1.0 / z) * z == 1.0
  {
  }

  lemma Cancel(x: real, a: real, b: real)
    requires x > 0.0 && b > 0.0
    ensures x * b != 0.0 && (x * a) / (x * b) == a / b
  {
    var q := a / b;
    assert q * b == a;
    assert q * (x * b) == x * a;
  }
}
