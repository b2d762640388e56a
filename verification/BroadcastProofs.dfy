/** Sender and receiver agree, every tensor arrives, and few broadcasts are needed. */
module BroadcastProofs {
  import opened Basics
  import opened Broadcast

  // ---------------------------------------------------------------- agreement

  function Contents(groups: seq<Group>): seq<Weight> {
    if groups == [] then [] else
    Contents(groups[..|groups| - 1])
    + (match groups[|groups| - 1] case Direct(w) => [w] case Bucket(ws) => ws)
  }

  lemma ContentsAppend(groups: seq<Group>, g: Group)
    ensures Contents(groups + [g]) == Contents(groups) + (match g case Direct(w) => [w] case Bucket(ws) => ws)
  {
    assert (groups + [g])[..|groups|] == groups;
  }

  function Counts(wire: seq<seq<Elem>>): (counts: seq<nat>)
    ensures |counts| == |wire| && forall i :: 0 <= i < |wire| ==> counts[i] == |wire[i]|
  {
    seq(|wire|, i requires 0 <= i < |wire| => |wire[i]|)
  }

  /** Where the receiver stands when the sender's plan is `plan`. */
  ghost predicate InStep(r: Reception, plan: Plan, wire: seq<seq<Elem>>) {
    && |plan.groups| <= |wire|
    && r == Reception(Counts(wire[..|plan.groups|]), Contents(plan.groups), Keys(plan.open), Shapes(plan.open))
  }

  lemma {:induction false} OpenFits(ws: seq<Weight>, capacity: nat)
    ensures Size(Pack(ws, capacity).open) <= capacity
  {
    if ws != [] {
      OpenFits(ws[..|ws| - 1], capacity);
      SizeAppend(Pack(ws[..|ws| - 1], capacity).open, ws[|ws| - 1]);
      SizeAppend([], ws[|ws| - 1]);
    }
  }

  lemma FlushInStep(r: Reception, plan: Plan, capacity: nat, wire: seq<seq<Elem>>)
    requires InStep(r, plan, wire) && Size(plan.open) <= capacity
    requires CarriesAll(wire, plan.groups + [Bucket(plan.open)], capacity)
    ensures InStep(Flush(r, capacity, wire), Plan(plan.groups + [Bucket(plan.open)], []), wire)
  {
    hide Numel;
    var k := |plan.groups|;
    var payload := wire[k];
    assert Carries(payload, (plan.groups + [Bucket(plan.open)])[k], capacity);
    CutFlat(plan.open, payload);
    ContentsAppend(plan.groups, Bucket(plan.open));
    assert Counts(wire[..k + 1]) == Counts(wire[..k]) + [|payload|];
  }

  lemma ReceiveInStep(r: Reception, plan: Plan, w: Weight, capacity: nat, wire: seq<seq<Elem>>)
    requires InStep(r, plan, wire) && Size(plan.open) <= capacity
    requires CarriesAll(wire, Decide(plan, w, capacity).groups, capacity)
    ensures InStep(ReceiveInfo(r, Info(w.key, w.shape), capacity, wire), Decide(plan, w, capacity), wire)
  {
    hide Numel;
    var k := |plan.groups|;
    if |w.data| > capacity {
      assert Carries(wire[k], (plan.groups + [Direct(w)])[k], capacity);
      ContentsAppend(plan.groups, Direct(w));
      assert Counts(wire[..k + 1]) == Counts(wire[..k]) + [|wire[k]|];
    } else {
      var open := plan.open;
      if Size(plan.open) + |w.data| > capacity {
        FlushInStep(r, plan, capacity, wire);
        open := [];
      }
      assert Keys(open + [w]) == Keys(open) + [w.key] && Shapes(open + [w]) == Shapes(open) + [w.shape];
      assert [] + [w] == [w];
    }
  }

  lemma {:induction false} GroupsGrow(ws: seq<Weight>, k: nat, capacity: nat)
    requires k <= |ws|
    ensures Pack(ws[..k], capacity).groups <= Pack(ws, capacity).groups <= Groups(ws, capacity)
  {
    if k == |ws| {
      assert ws[..k] == ws;
    } else {
      GroupsGrow(ws[..|ws| - 1], k, capacity);
      assert ws[..|ws| - 1][..k] == ws[..k];
    }
  }

  lemma CarriesPrefix(ws: seq<Weight>, k: nat, capacity: nat, wire: seq<seq<Elem>>)
    requires k <= |ws| && CarriesAll(wire, Groups(ws, capacity), capacity)
    ensures CarriesAll(wire, Pack(ws[..k], capacity).groups, capacity)
  {
    hide Numel, Pack, Groups, Carries;
    GroupsGrow(ws, k, capacity);
  }

  lemma {:induction false} AllInStep(ws: seq<Weight>, k: nat, capacity: nat, wire: seq<seq<Elem>>)
    requires k <= |ws| && CarriesAll(wire, Groups(ws, capacity), capacity)
    ensures InStep(ReceiveInfos(Infos(ws[..k]), capacity, wire), Pack(ws[..k], capacity), wire)
  {
    hide Numel, Cut, Flush, Decide, ReceiveInfo, Groups, CarriesAll;
    if k == 0 {
      assert wire[..0] == [];
    } else {
      AllInStep(ws, k - 1, capacity, wire);
      OpenFits(ws[..k - 1], capacity);
      PackStep(ws, k - 1, capacity);
      CarriesPrefix(ws, k, capacity, wire);
      assert Infos(ws[..k])[..k - 1] == Infos(ws[..k - 1]);
      ReceiveInStep(ReceiveInfos(Infos(ws[..k - 1]), capacity, wire), Pack(ws[..k - 1], capacity), ws[k - 1],
                    capacity, wire);
      hide InStep, Pack;
    }
  }

  /** Given what the actor sends, the rollout worker issues exactly the actor's broadcasts, one by
      one with the same element counts, and yields exactly the tensors the groups hold. */
  lemma SidesAgree(ws: seq<Weight>, capacity: nat, wire: seq<seq<Elem>>)
    requires |wire| == |Groups(ws, capacity)| && CarriesAll(wire, Groups(ws, capacity), capacity)
    ensures var r := Receive(Infos(ws), capacity, wire);
            && r.Reception?
            && r.counts == Counts(wire)
            && r.delivered == Contents(Groups(ws, capacity))
    ensures forall k :: 0 <= k <= |ws| ==>
              var r := ReceiveInfos(Infos(ws[..k]), capacity, wire);
              r.Reception? && Total(r.shapes) == Size(Pack(ws[..k], capacity).open) <= capacity
  {
    hide Numel;
    forall k | 0 <= k <= |ws|
      ensures var r := ReceiveInfos(Infos(ws[..k]), capacity, wire);
              r.Reception? && Total(r.shapes) == Size(Pack(ws[..k], capacity).open) <= capacity
    {
      AllInStep(ws, k, capacity, wire);
      OpenFits(ws[..k], capacity);
    }
    var plan := Pack(ws, capacity);
    AllInStep(ws, |ws|, capacity, wire);
    assert ws[..|ws|] == ws;
    OpenFits(ws, capacity);
    var r := ReceiveInfos(Infos(ws), capacity, wire);
    if Size(plan.open) > 0 {
      FlushInStep(r, plan, capacity, wire);
    }
    assert wire[..|wire|] == wire;
  }

  // ---------------------------------------------------------------- delivery

  /** The tensors that go through the buffer, or those that do not, in order. */
  function Select(ws: seq<Weight>, capacity: nat, small: bool): seq<Weight> {
    if ws == [] then [] else
    Select(ws[..|ws| - 1], capacity, small)
    + (if (|ws[|ws| - 1].data| <= capacity) == small then [ws[|ws| - 1]] else [])
  }

  lemma SelectAppend(ws: seq<Weight>, w: Weight, capacity: nat, small: bool)
    ensures Select(ws + [w], capacity, small) ==
            Select(ws, capacity, small) + (if (|w.data| <= capacity) == small then [w] else [])
  {
    assert (ws + [w])[..|ws|] == ws;
  }

  lemma NothingSelected(capacity: nat, small: bool)
    ensures Select([], capacity, small) == []
  {
  }

  lemma {:induction false} SelectConcat(a: seq<Weight>, b: seq<Weight>, capacity: nat, small: bool)
    ensures Select(a + b, capacity, small) == Select(a, capacity, small) + Select(b, capacity, small)
  {
    hide *;
    if b == [] {
      assert a + b == a;
      NothingSelected(capacity, small);
    } else {
      var front, w := b[..|b| - 1], b[|b| - 1];
      SelectConcat(a, front, capacity, small);
      assert a + b == (a + front) + [w] && b == front + [w];
      SelectAppend(a + front, w, capacity, small);
      SelectAppend(front, w, capacity, small);
    }
  }

  lemma SelectLast(ws: seq<Weight>, capacity: nat)
    requires ws != []
    ensures var front, w := ws[..|ws| - 1], ws[|ws| - 1];
            && Select(ws, capacity, true) ==
               (if |w.data| <= capacity then Select(front, capacity, true) + [w] else Select(front, capacity, true))
            && Select(ws, capacity, false) ==
               (if |w.data| <= capacity then Select(front, capacity, false) else Select(front, capacity, false) + [w])
  {
  }

  /** Buffered tensors keep their order among themselves, and so do oversized ones. */
  ghost predicate SameByClass(a: seq<Weight>, b: seq<Weight>, capacity: nat) {
    Select(a, capacity, true) == Select(b, capacity, true) && Select(a, capacity, false) == Select(b, capacity, false)
  }

  // Everything handled so far, sent or still in the open bucket.
  function Handled(plan: Plan): seq<Weight> { Contents(plan.groups) + plan.open }

  lemma DecideHandles(plan: Plan, w: Weight, capacity: nat)
    ensures Handled(Decide(plan, w, capacity)) ==
            if |w.data| > capacity then Contents(plan.groups) + [w] + plan.open else Handled(plan) + [w]
  {
    hide Numel;
    ContentsAppend(plan.groups, Direct(w));
    ContentsAppend(plan.groups, Bucket(plan.open));
    assert Contents(plan.groups) + (plan.open + [w]) == Handled(plan) + [w];
  }

  lemma DecideKeepsWeights(plan: Plan, w: Weight, capacity: nat, small: bool)
    requires Select(plan.open, capacity, false) == []
    ensures Select(Handled(Decide(plan, w, capacity)), capacity, small) ==
            Select(Handled(plan), capacity, small) + (if (|w.data| <= capacity) == small then [w] else [])
  {
    hide Numel;
    var sent := Contents(plan.groups);
    DecideHandles(plan, w, capacity);
    if |w.data| > capacity {
      SelectConcat(sent + [w], plan.open, capacity, small);
      SelectAppend(sent, w, capacity, small);
      SelectConcat(sent, plan.open, capacity, small);
    } else {
      SelectAppend(Handled(plan), w, capacity, small);
    }
  }

  lemma {:induction false} OpenIsSmall(ws: seq<Weight>, capacity: nat)
    ensures Select(Pack(ws, capacity).open, capacity, false) == []
  {
    if ws != [] {
      var front, w := ws[..|ws| - 1], ws[|ws| - 1];
      OpenIsSmall(front, capacity);
      SelectAppend(Pack(front, capacity).open, w, capacity, false);
      SelectAppend([], w, capacity, false);
      assert [] + [w] == [w];
    }
  }

  lemma {:induction false} PlanKeepsWeights(ws: seq<Weight>, capacity: nat, small: bool)
    ensures Select(Handled(Pack(ws, capacity)), capacity, small) == Select(ws, capacity, small)
  {
    if ws != [] {
      var front, w := ws[..|ws| - 1], ws[|ws| - 1];
      PlanKeepsWeights(front, capacity, small);
      OpenIsSmall(front, capacity);
      DecideKeepsWeights(Pack(front, capacity), w, capacity, small);
    }
  }

  lemma OneMore<T>(a: seq<T>, b: seq<T>, whole: seq<T>, x: T)
    requires multiset(a) + multiset(b) == multiset(whole)
    ensures multiset(a + [x]) + multiset(b) == multiset(whole + [x]) == multiset(a) + multiset(b + [x])
  {
  }

  lemma {:induction false} SelectSplits(ws: seq<Weight>, capacity: nat)
    ensures multiset(Select(ws, capacity, true)) + multiset(Select(ws, capacity, false)) == multiset(ws)
  {
    hide *;
    if ws == [] {
      NothingSelected(capacity, true);
      NothingSelected(capacity, false);
    } else {
      var front, w := ws[..|ws| - 1], ws[|ws| - 1];
      var small, large := Select(front, capacity, true), Select(front, capacity, false);
      assert ws == front + [w];
      SelectSplits(front, capacity);
      SelectLast(ws, capacity);
      OneMore(small, large, front, w);
    }
  }

  /** Some tensor goes through the buffer, but all that do have no element. */
  predicate OnlyEmptyBuffered(ws: seq<Weight>, capacity: nat) {
    Select(ws, capacity, true) != [] && Size(Select(ws, capacity, true)) == 0
  }

  // The open bucket is empty, or without elements, exactly when all buffered so far is.
  lemma {:induction false} OpenBucket(ws: seq<Weight>, capacity: nat)
    ensures var open, buffered := Pack(ws, capacity).open, Select(ws, capacity, true);
            (open == [] <==> buffered == []) && (Size(open) == 0 <==> Size(buffered) == 0)
  {
    if ws != [] {
      var front, w := ws[..|ws| - 1], ws[|ws| - 1];
      OpenBucket(front, capacity);
      OpenFits(front, capacity);
      SizeAppend(Pack(front, capacity).open, w);
      SelectLast(ws, capacity);
      SizeAppend(Select(front, capacity, true), w);
      SizeOne(w);
    }
  }

  lemma SizeOne(w: Weight)
    ensures Size([]) == 0 && Size([w]) == |w.data|
  {
    SizeAppend([], w);
    assert Shapes([]) == [] && [] + [w] == [w];
  }

  lemma FlushedDelivery(ws: seq<Weight>, capacity: nat)
    requires !OnlyEmptyBuffered(ws, capacity)
    ensures Contents(Groups(ws, capacity)) == Handled(Pack(ws, capacity))
  {
    var plan := Pack(ws, capacity);
    OpenBucket(ws, capacity);
    ContentsAppend(plan.groups, Bucket(plan.open));
    if plan.open == [] { assert Contents(plan.groups) + plan.open == Contents(plan.groups); }
  }

  /** Everything is delivered, each tensor as often as it was sent and in order within its class,
      if and only if not all buffered tensors are empty; otherwise only the oversized ones arrive. */
  lemma DeliveredExactlyOnce(ws: seq<Weight>, capacity: nat)
    ensures var delivered := Contents(Groups(ws, capacity));
            if OnlyEmptyBuffered(ws, capacity)
            then delivered == Select(ws, capacity, false) && |delivered| < |ws|
            else SameByClass(delivered, ws, capacity) && multiset(delivered) == multiset(ws)
  {
    var plan := Pack(ws, capacity);
    OpenBucket(ws, capacity);
    if OnlyEmptyBuffered(ws, capacity) {
      NoFlushWhileEmpty(ws, capacity);
    } else {
      FlushedDelivery(ws, capacity);
      PlanKeepsWeights(ws, capacity, true);
      PlanKeepsWeights(ws, capacity, false);
      SelectSplits(ws, capacity);
      SelectSplits(Contents(Groups(ws, capacity)), capacity);
    }
  }

  // As long as the open bucket has no element nothing was flushed.
  lemma {:induction false} NoFlushWhileEmpty(ws: seq<Weight>, capacity: nat)
    requires Size(Pack(ws, capacity).open) == 0
    ensures Contents(Pack(ws, capacity).groups) == Select(ws, capacity, false)
    ensures |Contents(Pack(ws, capacity).groups)| + |Pack(ws, capacity).open| == |ws|
  {
    if ws != [] {
      var front, w := ws[..|ws| - 1], ws[|ws| - 1];
      var plan := Pack(front, capacity);
      OpenFits(front, capacity);
      SizeAppend(plan.open, w);
      SizeAppend([], w);
      NoFlushWhileEmpty(front, capacity);
      ContentsAppend(plan.groups, Direct(w));
    }
  }

  // ---------------------------------------------------------------- how many broadcasts

  function Buckets(groups: seq<Group>): nat {
    if groups == [] then 0 else
    Buckets(groups[..|groups| - 1]) + (if groups[|groups| - 1].Bucket? then 1 else 0)
  }

  lemma BucketsAppend(groups: seq<Group>, g: Group)
    ensures Buckets(groups + [g]) == Buckets(groups) + (if g.Bucket? then 1 else 0)
  {
    assert (groups + [g])[..|groups|] == groups;
  }

  // What n flushed buckets are known to weigh: a pair of neighbours exceeds the capacity.
  function PairsWeight(n: nat, capacity: nat): nat { (n + 1) / 2 * (capacity + 1) }

  lemma NextPair(n: nat, capacity: nat)
    ensures PairsWeight(n + 1, capacity) == PairsWeight(n, capacity) + (if n % 2 == 0 then capacity + 1 else 0)
  {
    if n % 2 == 0 {
      assert (n + 2) / 2 == (n + 1) / 2 + 1;
      var k := (n + 1) / 2;
      assert (k + 1) * (capacity + 1) == k * (capacity + 1) + (capacity + 1);
    }
  }

  // An even number of flushed buckets pairs up; an odd one pairs its last with the open bucket.
  ghost predicate Paired(flushed: nat, open: nat, n: nat, capacity: nat) {
    && flushed + (if n % 2 == 0 then 0 else open) >= PairsWeight(n, capacity)
    && (n > 0 ==> open > 0)
  }

  lemma PairedFlush(flushed: nat, open: nat, n: nat, numel: nat, capacity: nat)
    requires Paired(flushed, open, n, capacity) && open <= capacity < open + numel
    ensures Paired(flushed + open, numel, n + 1, capacity)
  {
    NextPair(n, capacity);
  }

  lemma PairedGrow(flushed: nat, open: nat, n: nat, numel: nat, capacity: nat)
    requires Paired(flushed, open, n, capacity)
    ensures Paired(flushed, open + numel, n, capacity)
  {
    hide PairsWeight;
  }

  lemma PairedStart(capacity: nat)
    ensures Paired(0, 0, 0, capacity)
  {
    assert PairsWeight(0, capacity) == 0;
  }

  // What the buckets of a plan weigh when `total` elements went through the buffer.
  ghost predicate PlanPaired(plan: Plan, total: nat, capacity: nat) {
    Size(plan.open) <= total && Paired(total - Size(plan.open), Size(plan.open), Buckets(plan.groups), capacity)
  }

  lemma DecideKeepsPairs(plan: Plan, total: nat, w: Weight, capacity: nat)
    requires PlanPaired(plan, total, capacity) && Size(plan.open) <= capacity
    ensures PlanPaired(Decide(plan, w, capacity), if |w.data| > capacity then total else total + |w.data|, capacity)
  {
    hide Paired, Size, Buckets;
    var open := Size(plan.open);
    if |w.data| > capacity {
      BucketsAppend(plan.groups, Direct(w));
    } else if open + |w.data| > capacity {
      SizeOne(w);
      BucketsAppend(plan.groups, Bucket(plan.open));
      PairedFlush(total - open, open, Buckets(plan.groups), |w.data|, capacity);
    } else {
      SizeAppend(plan.open, w);
      PairedGrow(total - open, open, Buckets(plan.groups), |w.data|, capacity);
    }
  }

  lemma {:induction false} BucketsArePaired(ws: seq<Weight>, capacity: nat)
    ensures PlanPaired(Pack(ws, capacity), Size(Select(ws, capacity, true)), capacity)
  {
    if ws == [] {
      PairedStart(capacity);
    } else {
      hide PlanPaired, Size;
      var front, w := ws[..|ws| - 1], ws[|ws| - 1];
      BucketsArePaired(front, capacity);
      OpenFits(front, capacity);
      SelectLast(ws, capacity);
      SizeAppend(Select(front, capacity, true), w);
      DecideKeepsPairs(Pack(front, capacity), Size(Select(front, capacity, true)), w, capacity);
    }
  }

  /** Fewer than twice the least possible number of bucket broadcasts. */
  lemma FewBroadcasts(ws: seq<Weight>, capacity: nat)
    requires capacity >= 1
    ensures var total, n := Size(Select(ws, capacity, true)), Buckets(Groups(ws, capacity));
            if total == 0 then n == 0 else n <= 2 * CeilDiv(total, capacity) - 1
  {
    var plan, total := Pack(ws, capacity), Size(Select(ws, capacity, true));
    var n := Buckets(plan.groups);
    BucketsArePaired(ws, capacity);
    OpenBucket(ws, capacity);
    BucketsAppend(plan.groups, Bucket(plan.open));
    hide Size, Select, Buckets, Pack, PairsWeight, CeilDiv;
    if total > 0 { FewPairs(n, total, Size(plan.open), capacity); }
  }

  lemma FewPairs(n: nat, total: nat, open: nat, capacity: nat)
    requires capacity >= 1 && 0 < open <= total && Paired(total - open, open, n, capacity)
    ensures n + 1 <= 2 * CeilDiv(total, capacity) - 1
  {
    var k := (n + 1) / 2;
    hide CeilDiv;
    assert k * (capacity + 1) == k * capacity + k;
    CeilDivAbove(k, total, capacity);
  }
}
