/**
 Dynamic sampling in DAPO: generation batches are filtered to the prompts whose rollouts differ in
 the metric and accumulated until there are enough of them for an update.
 */
module Dapo {
  import opened Basics

  /** One rollout: the uid of its prompt and its metric. */
  datatype Row = Row(uid: int, metric: real)

  /** A prompt and the metrics of its rollouts. */
  datatype Group = Group(uid: int, metrics: seq<real>)

  datatype Outcome = Returned | OutOfData | TooManyGenerations

  // ---------------------------------------------------------------- rows and groups

  function GroupRows(g: Group): seq<Row> {
    seq(|g.metrics|, k requires 0 <= k < |g.metrics| => Row(g.uid, g.metrics[k]))
  }

  function RowsOf(groups: seq<Group>): seq<Row> {
    if groups == [] then [] else RowsOf(groups[..|groups| - 1]) + GroupRows(groups[|groups| - 1])
  }

  /** Rollouts of n each, and uids that are new for every prompt. */
  ghost predicate Fresh(groups: seq<Group>, n: nat) {
    && (forall i :: 0 <= i < |groups| ==> |groups[i].metrics| == n)
    && (forall i, j :: 0 <= i < j < |groups| ==> groups[i].uid != groups[j].uid)
  }

  predicate Differs(vals: seq<real>) { exists i, j :: 0 <= i < j < |vals| && vals[i] != vals[j] }

  /** Two rollouts differ in the metric, or there is only one. */
  predicate Worthwhile(vals: seq<real>) { Differs(vals) || |vals| == 1 }

  /** The groups worth training on. */
  function Kept(groups: seq<Group>): seq<Group> {
    if groups == [] then [] else
    var g := groups[|groups| - 1];
    Kept(groups[..|groups| - 1]) + (if Worthwhile(g.metrics) then [g] else [])
  }

  /** The groups `kept` are the worthwhile ones, in their order: `at` says where each of them was. */
  ghost predicate Positions(groups: seq<Group>, kept: seq<Group>, at: seq<nat>) {
    && |at| == |kept|
    && (forall i :: 0 <= i < |at| ==> at[i] < |groups| && kept[i] == groups[at[i]])
    && (forall i, j :: 0 <= i < j < |at| ==> at[i] < at[j])
    && (forall g :: 0 <= g < |groups| ==> (g in at <==> Worthwhile(groups[g].metrics)))
  }

  lemma PositionsMore(groups: seq<Group>, g: Group, kept: seq<Group>, at: seq<nat>)
    requires Positions(groups, kept, at)
    ensures if Worthwhile(g.metrics) then Positions(groups + [g], kept + [g], at + [|groups|])
            else Positions(groups + [g], kept, at)
  {
    hide Worthwhile;
    var all := groups + [g];
    assert all[|groups|] == g && forall i :: 0 <= i < |groups| ==> all[i] == groups[i];
    if Worthwhile(g.metrics) {
      var more := at + [|groups|];
      assert more[|at|] == |groups| && forall i :: 0 <= i < |at| ==> more[i] == at[i];
      forall i | 0 <= i < |all| ensures i in more <==> Worthwhile(all[i].metrics) {
        assert i in more <==> i in at || i == |groups|;
      }
    }
  }

  lemma {:induction false} KeptInOrder(groups: seq<Group>) returns (at: seq<nat>)
    ensures Positions(groups, Kept(groups), at)
  {
    hide Worthwhile, Positions;
    if groups == [] {
      at := [];
      NoPositions();
    } else {
      var last := |groups| - 1;
      var g := groups[last];
      var before := KeptInOrder(groups[..last]);
      PositionsMore(groups[..last], g, Kept(groups[..last]), before);
      assert groups == groups[..last] + [g];
      at := if Worthwhile(g.metrics) then before + [last] else before;
      if !Worthwhile(g.metrics) { assert Kept(groups) == Kept(groups[..last]) + [] == Kept(groups[..last]); }
    }
  }

  lemma NoPositions()
    ensures Positions([], [], [])
  {
  }

  function KeptOf(gens: seq<seq<Group>>): seq<Group> {
    if gens == [] then [] else KeptOf(gens[..|gens| - 1]) + Kept(gens[|gens| - 1])
  }

  /** The groups kept of several generation batches come batch by batch. */
  lemma {:induction false} KeptOfAppend(a: seq<seq<Group>>, b: seq<seq<Group>>)
    ensures KeptOf(a + b) == KeptOf(a) + KeptOf(b)
    ensures |b| == 1 ==> KeptOf(b) == Kept(b[0])
    decreases |b|
  {
    hide Kept;
    if b == [] {
      assert a + b == a;
    } else {
      var last := |b| - 1;
      KeptOfAppend(a, b[..last]);
      assert (a + b)[..|a + b| - 1] == a + b[..last];
      Assoc(KeptOf(a), KeptOf(b[..last]), Kept(b[last]));
    }
  }

  lemma Assoc(a: seq<Group>, b: seq<Group>, c: seq<Group>)
    ensures (a + b) + c == a + (b + c)
  {
  }

  // ---------------------------------------------------------------- the standard deviation

  function Mean(vals: seq<real>): real
    requires vals != []
  {
    Sum(vals) / (|vals| as real)
  }

  function Squared(x: real): real { x * x }

  function SquaredDeviations(vals: seq<real>): (r: seq<real>)
    requires vals != []
    ensures |r| == |vals|
  {
    seq(|vals|, i requires 0 <= i < |vals| => Squared(vals[i] - Mean(vals)))
  }

  /** The square of `np.std`. */
  function Variance(vals: seq<real>): real
    requires vals != []
  {
    Sum(SquaredDeviations(vals)) / (|vals| as real)
  }

  /** The filter's test on the metrics of a prompt: `std > 0 or len == 1`. */
  predicate Informative(vals: seq<real>) {
    (vals != [] && Variance(vals) > 0.0) || |vals| == 1
  }

  lemma {:induction false} SumOfSame(vals: seq<real>, v: real)
    requires forall i :: 0 <= i < |vals| ==> vals[i] == v
    ensures Sum(vals) == (|vals| as real) * v
    decreases |vals|
  {
    if vals != [] {
      SumOfSame(vals[..|vals| - 1], v);
      assert ((|vals| - 1) as real) * v + v == (|vals| as real) * v;
    }
  }

  lemma {:induction false} SumPositive(vals: seq<real>)
    requires forall i :: 0 <= i < |vals| ==> vals[i] >= 0.0
    ensures Sum(vals) >= 0.0
    ensures (exists i :: 0 <= i < |vals| && vals[i] > 0.0) ==> Sum(vals) > 0.0
    decreases |vals|
  {
    if vals != [] {
      var init, last := vals[..|vals| - 1], vals[|vals| - 1];
      SumPositive(init);
      if last <= 0.0 && exists i :: 0 <= i < |vals| && vals[i] > 0.0 {
        var i :| 0 <= i < |vals| && vals[i] > 0.0;
        assert init[i] == vals[i];
      }
    }
  }

  lemma MeanOfSame(vals: seq<real>, v: real)
    requires vals != [] && forall i :: 0 <= i < |vals| ==> vals[i] == v
    ensures Mean(vals) == v
  {
    SumOfSame(vals, v);
    hide Sum;
    QuotientOfProduct(Sum(vals), |vals| as real, v);
  }

  lemma QuotientOfProduct(p: real, n: real, v: real)
    requires n > 0.0 && p == n * v
    ensures p / n == v
  {
  }

  lemma SameMean(vals: seq<real>)
    requires vals != [] && !Differs(vals)
    ensures Variance(vals) == 0.0
  {
    assert forall i :: 1 <= i < |vals| ==> vals[i] == vals[0];
    assert Squared(0.0) == 0.0;
    hide Differs, Squared, Sum, Mean;
    MeanOfSame(vals, vals[0]);
    var n := |vals| as real;
    SumOfSame(SquaredDeviations(vals), 0.0);
    QuotientOfProduct(Sum(SquaredDeviations(vals)), n, 0.0);
  }

  lemma SquaredNegated(x: real)
    ensures Squared(-x) == Squared(x)
  {
  }

  lemma PositiveProduct(a: real, b: real, p: real)
    requires a > 0.0 && b > 0.0 && p == a * b
    ensures p > 0.0
  {
  }

  lemma SquaredSign(x: real)
    ensures Squared(x) >= 0.0 && (x != 0.0 ==> Squared(x) > 0.0)
  {
    assert x == 0.0 ==> Squared(x) == 0.0;
    SquaredNegated(x);
    if x < 0.0 { PositiveProduct(-x, -x, Squared(-x)); }
    if x > 0.0 { PositiveProduct(x, x, Squared(x)); }
  }

  lemma DifferentMean(vals: seq<real>)
    requires Differs(vals)
    ensures vals != [] && Variance(vals) > 0.0
  {
    var i, j :| 0 <= i < j < |vals| && vals[i] != vals[j];
    hide Squared, Sum, Mean;
    var k := if vals[i] != Mean(vals) then i else j;
    var squares := SquaredDeviations(vals);
    forall l | 0 <= l < |vals| ensures squares[l] >= 0.0 && (l == k ==> squares[l] > 0.0) {
      SquaredSign(vals[l] - Mean(vals));
    }
    assert squares[k] > 0.0;
    SumPositive(squares);
    PositiveQuotient(Sum(squares), |vals| as real);
  }

  lemma PositiveQuotient(a: real, b: real)
    requires a > 0.0 && b > 0.0
    ensures a / b > 0.0
  {
  }

  /** The standard deviation is positive exactly when two values differ. */
  lemma InformativeIsWorthwhile(vals: seq<real>)
    ensures Informative(vals) <==> Worthwhile(vals)
    ensures vals != [] ==> (Variance(vals) > 0.0 <==> Differs(vals))
  {
    if Differs(vals) {
      DifferentMean(vals);
    } else if vals != [] {
      SameMean(vals);
    }
  }

  // ---------------------------------------------------------------- the filter on rows

  /** `prompt_uid2metric_vals[uid]`. */
  function ValuesOf(rows: seq<Row>, uid: int): seq<real> {
    if rows == [] then [] else
    var r := rows[|rows| - 1];
    ValuesOf(rows[..|rows| - 1], uid) + (if r.uid == uid then [r.metric] else [])
  }

  function Select(rows: seq<Row>, uids: set<int>): seq<Row> {
    if rows == [] then [] else
    var r := rows[|rows| - 1];
    Select(rows[..|rows| - 1], uids) + (if r.uid in uids then [r] else [])
  }

  function Uids(rows: seq<Row>): set<int> {
    if rows == [] then {} else Uids(rows[..|rows| - 1]) + {rows[|rows| - 1].uid}
  }

  function KeptUids(rows: seq<Row>): set<int> {
    set u | u in Uids(rows) && Informative(ValuesOf(rows, u))
  }

  lemma OneRowMore(rows: seq<Row>, i: nat)
    requires i < |rows|
    ensures Uids(rows[..i + 1]) == Uids(rows[..i]) + {rows[i].uid}
    ensures forall u :: ValuesOf(rows[..i + 1], u) ==
              if rows[i].uid == u then ValuesOf(rows[..i], u) + [rows[i].metric] else ValuesOf(rows[..i], u)
  {
    assert rows[..i + 1][..i] == rows[..i];
  }

  method CollectMetrics(rows: seq<Row>) returns (vals: map<int, seq<real>>)
    ensures vals.Keys == Uids(rows) && forall u :: u in vals ==> vals[u] == ValuesOf(rows, u)
  {
    assert Uids(rows[..0]) == {} && forall u :: ValuesOf(rows[..0], u) == [];
    hide Uids, ValuesOf;
    vals := map[];
    for i := 0 to |rows|
      invariant vals.Keys == Uids(rows[..i])
      invariant forall u :: ValuesOf(rows[..i], u) == if u in vals then vals[u] else []
    {
      var r := rows[i];
      OneRowMore(rows, i);
      vals := vals[r.uid := (if r.uid in vals then vals[r.uid] else []) + [r.metric]];
    }
    assert rows[..|rows|] == rows;
  }

  /** The filter of a generation batch: the rows it keeps, and how many prompts. */
  method FilterGroups(rows: seq<Row>) returns (kept: seq<Row>, prompts: nat)
    ensures kept == Select(rows, KeptUids(rows)) && prompts == |KeptUids(rows)|
  {
    var vals := CollectMetrics(rows);
    var uids := set u | u in vals && Informative(vals[u]);
    assert uids == KeptUids(rows);
    kept := [];
    for i := 0 to |rows|
      invariant kept == Select(rows[..i], uids)
    {
      assert rows[..i + 1][..i] == rows[..i];
      if rows[i].uid in uids { kept := kept + [rows[i]]; }
    }
    assert rows[..|rows|] == rows;
    prompts := |uids|;
  }

  lemma {:induction false} ValuesAppend(a: seq<Row>, b: seq<Row>, uid: int)
    ensures ValuesOf(a + b, uid) == ValuesOf(a, uid) + ValuesOf(b, uid)
    decreases |b|
  {
    if b == [] {
      assert a + b == a;
    } else {
      assert (a + b)[..|a + b| - 1] == a + b[..|b| - 1];
      ValuesAppend(a, b[..|b| - 1], uid);
    }
  }

  lemma {:induction false} SelectAppend(a: seq<Row>, b: seq<Row>, uids: set<int>)
    ensures Select(a + b, uids) == Select(a, uids) + Select(b, uids)
    decreases |b|
  {
    if b == [] {
      assert a + b == a;
    } else {
      assert (a + b)[..|a + b| - 1] == a + b[..|b| - 1];
      SelectAppend(a, b[..|b| - 1], uids);
    }
  }

  lemma {:induction false} OneUid(rows: seq<Row>, uid: int, u: int)
    requires forall k :: 0 <= k < |rows| ==> rows[k].uid == uid
    ensures |ValuesOf(rows, u)| == (if u == uid then |rows| else 0)
    ensures u == uid ==> forall k :: 0 <= k < |rows| ==> ValuesOf(rows, u)[k] == rows[k].metric
  {
    if rows != [] { OneUid(rows[..|rows| - 1], uid, u); }
  }

  lemma {:induction false} SelectOneUid(rows: seq<Row>, uid: int, uids: set<int>)
    requires forall k :: 0 <= k < |rows| ==> rows[k].uid == uid
    ensures Select(rows, uids) == if uid in uids then rows else []
  {
    if rows != [] {
      var front, last := rows[..|rows| - 1], rows[|rows| - 1];
      SelectOneUid(front, uid, uids);
      assert Select(rows, uids) == Select(front, uids) + (if last.uid in uids then [last] else []);
      hide Select;
      assert front + [last] == rows;
    }
  }

  ghost predicate HasUid(groups: seq<Group>, u: int) { exists i :: 0 <= i < |groups| && groups[i].uid == u }

  lemma {:induction false} NoValues(groups: seq<Group>, u: int)
    requires !HasUid(groups, u)
    ensures ValuesOf(RowsOf(groups), u) == [] && u !in Uids(RowsOf(groups))
  {
    if groups != [] {
      var m := |groups| - 1;
      assert groups[m].uid != u && forall i :: 0 <= i < m ==> groups[..m][i] == groups[i];
      NoValues(groups[..m], u);
      ValuesAppend(RowsOf(groups[..m]), GroupRows(groups[m]), u);
      OneUid(GroupRows(groups[m]), groups[m].uid, u);
      UidsAppend(RowsOf(groups[..m]), GroupRows(groups[m]), groups[m].uid);
    }
  }

  lemma {:induction false} UidsAppend(a: seq<Row>, b: seq<Row>, uid: int)
    requires forall k :: 0 <= k < |b| ==> b[k].uid == uid
    ensures Uids(a + b) == Uids(a) + (if b == [] then {} else {uid})
    decreases |b|
  {
    if b == [] {
      assert a + b == a;
    } else {
      assert (a + b)[..|a + b| - 1] == a + b[..|b| - 1];
      UidsAppend(a, b[..|b| - 1], uid);
    }
  }

  lemma FreshInit(groups: seq<Group>, n: nat)
    requires Fresh(groups, n) && groups != []
    ensures var m := |groups| - 1;
            && Fresh(groups[..m], n) && |groups[m].metrics| == n && !HasUid(groups[..m], groups[m].uid)
            && forall i :: 0 <= i < m ==> groups[..m][i] == groups[i] && groups[i].uid != groups[m].uid
  {
  }

  /** The metrics collected for a prompt are those of its group. */
  lemma {:induction false} GroupValues(groups: seq<Group>, n: nat, i: nat)
    requires Fresh(groups, n) && i < |groups|
    ensures ValuesOf(RowsOf(groups), groups[i].uid) == groups[i].metrics
    ensures n > 0 ==> groups[i].uid in Uids(RowsOf(groups))
  {
    var m := |groups| - 1;
    var u, last := groups[i].uid, groups[m];
    FreshInit(groups, n);
    LastRows(groups, u);
    hide RowsOf, ValuesOf, Uids, Fresh;
    if i < m {
      GroupValues(groups[..m], n, i);
      assert groups[..m][i] == groups[i];
      assert groups[i].metrics + [] == groups[i].metrics;
    } else {
      NoValues(groups[..m], u);
      assert [] + last.metrics == last.metrics;
    }
  }

  // What the last group adds to the metrics of a uid and to the uids.
  lemma LastRows(groups: seq<Group>, u: int)
    requires groups != []
    ensures var m := |groups| - 1;
            && ValuesOf(RowsOf(groups), u) ==
               ValuesOf(RowsOf(groups[..m]), u) + (if groups[m].uid == u then groups[m].metrics else [])
            && Uids(RowsOf(groups)) ==
               Uids(RowsOf(groups[..m])) + (if groups[m].metrics == [] then {} else {groups[m].uid})
  {
    var m := |groups| - 1;
    var before, last := RowsOf(groups[..m]), GroupRows(groups[m]);
    assert RowsOf(groups) == before + last;
    hide RowsOf, Uids;
    ValuesAppend(before, last, u);
    OneUid(last, groups[m].uid, u);
    UidsAppend(before, last, groups[m].uid);
    hide ValuesOf;
    assert ValuesOf(last, u) == if groups[m].uid == u then groups[m].metrics else [];
  }

  lemma {:induction false} SelectGroups(groups: seq<Group>, uids: set<int>)
    requires forall i :: 0 <= i < |groups| ==> (groups[i].uid in uids <==> Worthwhile(groups[i].metrics))
    ensures Select(RowsOf(groups), uids) == RowsOf(Kept(groups))
  {
    if groups != [] {
      hide Worthwhile;
      var m := |groups| - 1;
      var g := groups[m];
      assert forall i :: 0 <= i < m ==> groups[..m][i] == groups[i];
      SelectGroups(groups[..m], uids);
      SelectAppend(RowsOf(groups[..m]), GroupRows(g), uids);
      SelectOneUid(GroupRows(g), g.uid, uids);
      if Worthwhile(g.metrics) {
        assert Kept(groups)[..|Kept(groups[..m])|] == Kept(groups[..m]);
      } else {
        assert Kept(groups) == Kept(groups[..m]);
        assert Select(GroupRows(g), uids) == [];
      }
    }
  }

  function GroupUids(groups: seq<Group>): set<int> {
    if groups == [] then {} else GroupUids(groups[..|groups| - 1]) + {groups[|groups| - 1].uid}
  }

  ghost predicate HasKept(groups: seq<Group>, u: int) {
    exists i :: 0 <= i < |groups| && groups[i].uid == u && Worthwhile(groups[i].metrics)
  }

  lemma {:induction false} KeptGroupUids(groups: seq<Group>, u: int)
    ensures u in GroupUids(Kept(groups)) <==> HasKept(groups, u)
  {
    if groups != [] {
      hide Worthwhile;
      var m := |groups| - 1;
      var before := Kept(groups[..m]);
      KeptGroupUids(groups[..m], u);
      assert (before + [groups[m]])[..|before|] == before && before + [] == before;
      assert HasKept(groups, u) <==> HasKept(groups[..m], u) || (groups[m].uid == u && Worthwhile(groups[m].metrics)) by {
        assert forall i :: 0 <= i < m ==> groups[..m][i] == groups[i];
      }
    }
  }

  lemma OneUidMore(before: seq<Group>, g: Group)
    ensures GroupUids(before + [g]) == GroupUids(before) + {g.uid}
  {
    assert (before + [g])[..|before|] == before;
  }

  lemma {:induction false} KeptCount(groups: seq<Group>, n: nat)
    requires Fresh(groups, n)
    ensures |GroupUids(Kept(groups))| == |Kept(groups)|
  {
    if groups != [] {
      var m := |groups| - 1;
      var g, before := groups[m], Kept(groups[..m]);
      FreshInit(groups, n);
      assert Kept(groups) == before + (if Worthwhile(g.metrics) then [g] else []) && before + [] == before;
      hide Worthwhile, Kept, GroupUids, Fresh;
      KeptCount(groups[..m], n);
      KeptGroupUids(groups[..m], g.uid);
      OneUidMore(before, g);
    }
  }

  /** On rollouts of fresh prompts the filter keeps exactly the worthwhile groups, whole and in
      order, and counts them. */
  lemma FilterKeepsGroups(groups: seq<Group>, n: nat)
    requires Fresh(groups, n)
    ensures Select(RowsOf(groups), KeptUids(RowsOf(groups))) == RowsOf(Kept(groups))
    ensures |KeptUids(RowsOf(groups))| == |Kept(groups)|
  {
    var rows := RowsOf(groups);
    forall i | 0 <= i < |groups| ensures groups[i].uid in KeptUids(rows) <==> Worthwhile(groups[i].metrics) {
      GroupValues(groups, n, i);
      InformativeIsWorthwhile(groups[i].metrics);
    }
    SelectGroups(groups, KeptUids(rows));
    KeptCount(groups, n);
    forall u: int ensures u in KeptUids(rows) <==> u in GroupUids(Kept(groups)) {
      KeptGroupUids(groups, u);
      if HasUid(groups, u) {
        var i :| 0 <= i < |groups| && groups[i].uid == u;
        GroupValues(groups, n, i);
        InformativeIsWorthwhile(groups[i].metrics);
      } else {
        NoValues(groups, u);
      }
    }
    assert KeptUids(rows) == GroupUids(Kept(groups));
  }

  // ---------------------------------------------------------------- the training loop

  lemma {:induction false} RowsAppend(a: seq<Group>, b: seq<Group>)
    ensures RowsOf(a + b) == RowsOf(a) + RowsOf(b)
    decreases |b|
  {
    hide GroupRows;
    if b == [] {
      assert a + b == a && RowsOf(a) + [] == RowsOf(a);
    } else {
      var last := |b| - 1;
      assert (a + b)[..|a + b| - 1] == a + b[..last] && (a + b)[|a + b| - 1] == b[last];
      RowsAppend(a, b[..last]);
      assert RowsOf(a + b) == (RowsOf(a) + RowsOf(b[..last])) + GroupRows(b[last]);
    }
  }

  ghost predicate Sized(groups: seq<Group>, n: nat) { forall i :: 0 <= i < |groups| ==> |groups[i].metrics| == n }

  /** Rows of groups of n are the groups one after the other, n rows each. */
  lemma {:induction false} RowsLength(groups: seq<Group>, n: nat)
    requires Sized(groups, n)
    ensures |RowsOf(groups)| == Times(|groups|, n)
  {
    if groups != [] {
      RowsLength(groups[..|groups| - 1], n);
      assert Times(|groups|, n) == Times(|groups| - 1, n) + n;
    }
  }

  lemma RowsPrefix(groups: seq<Group>, n: nat, k: nat)
    requires Sized(groups, n) && k <= |groups|
    ensures |RowsOf(groups)| >= Times(k, n) && RowsOf(groups)[..Times(k, n)] == RowsOf(groups[..k])
  {
    assert groups == groups[..k] + groups[k..];
    RowsAppend(groups[..k], groups[k..]);
    RowsLength(groups[..k], n);
  }

  lemma {:induction false} KeptAreWorthwhile(groups: seq<Group>, n: nat)
    requires Sized(groups, n)
    ensures Sized(Kept(groups), n) && forall i :: 0 <= i < |Kept(groups)| ==> Worthwhile(Kept(groups)[i].metrics)
  {
    if groups != [] {
      hide Worthwhile;
      KeptAreWorthwhile(groups[..|groups| - 1], n);
    }
  }

  lemma {:induction false} AllWorthwhile(gens: seq<seq<Group>>, n: nat)
    requires forall g :: 0 <= g < |gens| ==> Sized(gens[g], n)
    ensures Sized(KeptOf(gens), n) && forall i :: 0 <= i < |KeptOf(gens)| ==> Worthwhile(KeptOf(gens)[i].metrics)
  {
    if gens != [] {
      hide Worthwhile;
      AllWorthwhile(gens[..|gens| - 1], n);
      KeptAreWorthwhile(gens[|gens| - 1], n);
    }
  }

  datatype Config = Config(n: nat, trainBatchSize: nat, maxGenBatches: int, totalSteps: nat, filter: bool)

  /** The generation batches `from` to `to - 1` are what one update takes: with filtering, just enough
      of them, and never more than the limit when there is one. */
  ghost predicate Window(c: Config, gens: seq<seq<Group>>, from: nat, to: nat) {
    && from < to <= |gens|
    && if !c.filter then to == from + 1 else
       && |KeptOf(gens[from..to])| >= c.trainBatchSize
       && (to - 1 > from ==> |KeptOf(gens[from..to - 1])| < c.trainBatchSize)
       && (c.maxGenBatches > 0 ==> to - from <= c.maxGenBatches)
  }

  /** The batch of that update: whole groups, the first `trainBatchSize` kept ones. */
  ghost function UpdateOf(c: Config, gens: seq<seq<Group>>, from: nat, to: nat): seq<Row>
    requires Window(c, gens, from, to)
  {
    RowsOf(if c.filter then KeptOf(gens[from..to])[..c.trainBatchSize] else gens[from])
  }

  class DapoTrainer {
    const c: Config
    var batch: Option<seq<Row>>
    var numPrompts: nat
    var numGens: nat
    var globalSteps: nat
    var updates: seq<seq<Row>>

    ghost predicate Clear()
      reads this
    {
      batch == None && numPrompts == 0 && numGens == 0
    }

    // What the fields hold after the generation batches `from` to `i - 1`, none of them an update.
    ghost predicate Pending(gens: seq<seq<Group>>, from: nat, i: nat)
      requires from <= i <= |gens|
      reads this
    {
      && numGens == i - from
      && if i == from then batch == None && numPrompts == 0 else
         && c.filter
         && batch == Some(RowsOf(KeptOf(gens[from..i]))) && numPrompts == |KeptOf(gens[from..i])| < c.trainBatchSize
         && (c.maxGenBatches > 0 ==> numGens < c.maxGenBatches)
    }

    /** One generation batch: filtered and added; either the batch is now ready for an update, or
        there is more to generate, or (raised) the limit is reached. */
    method Accumulate(rows: seq<Row>, ghost gens: seq<seq<Group>>, ghost from: nat, ghost i: nat)
      returns (ready: bool, raised: bool)
      requires from <= i < |gens| && Pending(gens, from, i) && rows == RowsOf(gens[i])
      requires forall g :: 0 <= g < |gens| ==> Fresh(gens[g], c.n)
      modifies `batch, `numPrompts, `numGens
      ensures ready ==> !raised && Window(c, gens, from, i + 1) && batch == Some(UpdateOf(c, gens, from, i + 1))
      ensures !ready && !raised ==> Pending(gens, from, i + 1)
      ensures raised ==> c.filter && 0 < c.maxGenBatches == i + 1 - from
                         && |KeptOf(gens[from..i + 1])| < c.trainBatchSize
    {
      hide KeptOf, RowsOf, Kept, KeptUids, Select, Worthwhile;
      numGens := numGens + 1;
      if !c.filter {
        batch := Some(rows);
        return true, false;
      }
      var kept, prompts := FilterGroups(rows);
      FilterKeepsGroups(gens[i], c.n);
      numPrompts := numPrompts + prompts;
      batch := Some(if batch.None? then kept else batch.value + kept);
      Accumulated(gens, from, i);
      if numPrompts < c.trainBatchSize {
        return false, !(c.maxGenBatches <= 0 || numGens < c.maxGenBatches);
      }
      FirstRows(c, gens[from..i + 1]);
      batch := Some(batch.value[..c.trainBatchSize * c.n]);
      return true, false;
    }

    static lemma FirstRows(c: Config, gens: seq<seq<Group>>)
      requires (forall g :: 0 <= g < |gens| ==> Fresh(gens[g], c.n)) && |KeptOf(gens)| >= c.trainBatchSize
      ensures c.trainBatchSize * c.n <= |RowsOf(KeptOf(gens))|
      ensures RowsOf(KeptOf(gens))[..c.trainBatchSize * c.n] == RowsOf(KeptOf(gens)[..c.trainBatchSize])
    {
      AllWorthwhile(gens, c.n);
      RowsPrefix(KeptOf(gens), c.n, c.trainBatchSize);
    }

    /** The loop of `fit`. `cuts[k]` to `cuts[k + 1]` are the generation batches of update k. */
    method Fit(gens: seq<seq<Group>>) returns (o: Outcome, ghost cuts: seq<nat>)
      requires Clear() && updates == [] && forall g :: 0 <= g < |gens| ==> Fresh(gens[g], c.n)
      modifies this
      ensures |cuts| == |updates| + 1 && cuts[0] == 0 && cuts[|updates|] <= |gens|
      ensures forall k :: 0 <= k < |updates| ==>
                Window(c, gens, cuts[k], cuts[k + 1]) && updates[k] == UpdateOf(c, gens, cuts[k], cuts[k + 1])
      ensures o == Returned ==> |updates| > 0 && globalSteps == old(globalSteps) + |updates| - 1 >= c.totalSteps
      ensures |updates| > 1 ==> old(globalSteps) + |updates| - 2 < c.totalSteps
      ensures o != Returned ==> globalSteps == old(globalSteps) + |updates|
      ensures o != Returned && |updates| > 0 ==> globalSteps - 1 < c.totalSteps
      ensures o == TooManyGenerations ==>
                && c.filter && c.maxGenBatches > 0 && cuts[|updates|] + c.maxGenBatches <= |gens|
                && |KeptOf(gens[cuts[|updates|]..cuts[|updates|] + c.maxGenBatches])| < c.trainBatchSize
      ensures o == OutOfData && c.filter && c.maxGenBatches > 0 ==> |gens| - cuts[|updates|] < c.maxGenBatches
      ensures o == OutOfData ==>
                cuts[|updates|] == |gens| || (c.filter && |KeptOf(gens[cuts[|updates|]..])| < c.trainBatchSize)
    {
      hide UpdateOf, KeptOf, Window, Fresh;
      cuts := [0];
      ghost var from := 0;
      for i := 0 to |gens|
        invariant |cuts| == |updates| + 1 && cuts[0] == 0 && cuts[|updates|] == from <= i
        invariant forall k :: 0 <= k < |updates| ==>
                    Window(c, gens, cuts[k], cuts[k + 1]) && updates[k] == UpdateOf(c, gens, cuts[k], cuts[k + 1])
        invariant globalSteps == old(globalSteps) + |updates|
        invariant |updates| > 0 ==> globalSteps - 1 < c.totalSteps
        invariant Pending(gens, from, i)
      {
        var rows := RowsOf(gens[i]);
        var last := globalSteps >= c.totalSteps;
        var ready, raised := Accumulate(rows, gens, from, i);
        if raised { return TooManyGenerations, cuts; }
        if ready {
          updates := updates + [batch.value];
          batch, numPrompts, numGens := None, 0, 0;
          from := i + 1;
          cuts := cuts + [from];
          if last { return Returned, cuts; }
          globalSteps := globalSteps + 1;
        }
      }
      assert gens[from..|gens|] == gens[from..];
      return OutOfData, cuts;
    }
  }

  lemma Accumulated(gens: seq<seq<Group>>, from: nat, i: nat)
    requires from <= i < |gens|
    ensures KeptOf(gens[from..i + 1]) == KeptOf(gens[from..i]) + Kept(gens[i])
    ensures RowsOf(KeptOf(gens[from..i + 1])) == RowsOf(KeptOf(gens[from..i])) + RowsOf(Kept(gens[i]))
    ensures i == from ==> KeptOf(gens[from..i + 1]) == Kept(gens[i])
  {
    assert gens[from..i + 1][..i - from] == gens[from..i];
    RowsAppend(KeptOf(gens[from..i]), Kept(gens[i]));
    assert i == from ==> gens[from..i] == [] && [] + Kept(gens[i]) == Kept(gens[i]);
  }

  /** Every filtered update trains on exactly `trainBatchSize` whole groups of n rows, the first ones kept,
      in each of which two rollouts differ in the metric if there are two, whatever the generations were. */
  lemma UpdatesAreWholeGroups(c: Config, gens: seq<seq<Group>>, from: nat, to: nat) returns (groups: seq<Group>)
    requires c.filter && Window(c, gens, from, to) && forall g :: 0 <= g < |gens| ==> Fresh(gens[g], c.n)
    ensures UpdateOf(c, gens, from, to) == RowsOf(groups) && groups <= KeptOf(gens[from..to])
    ensures |groups| == c.trainBatchSize && |UpdateOf(c, gens, from, to)| == Times(c.trainBatchSize, c.n)
    ensures forall i :: 0 <= i < |groups| ==>
              |groups[i].metrics| == c.n && (c.n == 1 || Differs(groups[i].metrics))
  {
    AllWorthwhile(gens[from..to], c.n);
    groups := KeptOf(gens[from..to])[..c.trainBatchSize];
    RowsLength(groups, c.n);
  }

  lemma {:induction false} CutsCount(c: Config, gens: seq<seq<Group>>, cuts: seq<nat>, k: nat)
    requires !c.filter && k < |cuts| && cuts[0] == 0
    requires forall j :: 0 <= j < k ==> Window(c, gens, cuts[j], cuts[j + 1])
    ensures cuts[k] == k
  {
    if k > 0 { CutsCount(c, gens, cuts, k - 1); }
  }

  /** Without the filter update k trains on generation batch k as it is. */
  lemma UnfilteredUpdates(c: Config, gens: seq<seq<Group>>, cuts: seq<nat>, k: nat)
    requires !c.filter && k + 1 < |cuts| && cuts[0] == 0
    requires forall j :: 0 <= j <= k ==> Window(c, gens, cuts[j], cuts[j + 1])
    ensures k < |gens| && UpdateOf(c, gens, cuts[k], cuts[k + 1]) == RowsOf(gens[k])
  {
    CutsCount(c, gens, cuts, k);
    assert Window(c, gens, cuts[k], cuts[k + 1]);
  }
}
