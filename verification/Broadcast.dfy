/**
 Bucketed weight broadcast: the actor packs small tensors into one buffer and broadcasts the
 buffer, the rollout worker repeats the same packing decisions to know what it receives.
 */
module Broadcast {
  import opened Basics

  type Elem = int
  type Key = string

  type Shape = seq<nat>

  /** `shape.numel()`. */
  function Numel(shape: Shape): nat {
    if shape == [] then 1 else Numel(shape[..|shape| - 1]) * shape[|shape| - 1]
  }

  /** A named tensor and its elements in order. */
  datatype Tensor = Tensor(key: Key, shape: Shape, data: seq<Elem>)

  type Weight = w: Tensor | |w.data| == Numel(w.shape) witness Tensor("", [0], [])

  /** An entry of the shared weights info. */
  datatype Info = Info(key: Key, shape: Shape)

  function Infos(ws: seq<Weight>): (infos: seq<Info>)
    ensures |infos| == |ws|
    ensures forall i :: 0 <= i < |ws| ==> infos[i] == Info(ws[i].key, ws[i].shape)
  {
    seq(|ws|, i requires 0 <= i < |ws| => Info(ws[i].key, ws[i].shape))
  }

  // ---------------------------------------------------------------- shapes

  /** An index of a tensor: one number below each dimension. */
  predicate InShape(shape: Shape, index: seq<nat>) {
    |index| == |shape| && forall i :: 0 <= i < |shape| ==> index[i] < shape[i]
  }

  /** Where the element with this index stands in the flattened tensor: the last dimension runs fastest. */
  function Offset(shape: Shape, index: seq<nat>): nat
    requires |index| == |shape|
  {
    if shape == [] then 0 else
    var last := |shape| - 1;
    Times(Offset(shape[..last], index[..last]), shape[last]) + index[last]
  }

  /** The elements of a shape are as many as its indices: every place below `numel` is that of exactly one
      index, and no index has a place beyond. */
  lemma {:induction false} IndexOf(shape: Shape, k: nat) returns (index: seq<nat>)
    requires k < Numel(shape)
    ensures InShape(shape, index) && Offset(shape, index) == k
    ensures forall other :: InShape(shape, other) && Offset(shape, other) == k ==> other == index
  {
    if shape == [] {
      index := [];
    } else {
      var last := |shape| - 1;
      var front, n := shape[..last], shape[last];
      assert Numel(shape) == Times(Numel(front), n);
      hide Times, Numel;
      var j := Locate(k, Numel(front), n);
      var before := IndexOf(front, j);
      index := before + [k - Times(j, n)];
      assert index[..last] == before;
      forall other | InShape(shape, other) && Offset(shape, other) == k ensures other == index {
        OffsetInside(front, other[..last]);
        assert Offset(front, other[..last]) == j;
        assert other[..last] == before && other == other[..last] + [other[last]];
      }
    }
  }

  lemma {:induction false} OffsetInside(shape: Shape, index: seq<nat>)
    requires InShape(shape, index)
    ensures Offset(shape, index) < Numel(shape)
  {
    if shape != [] {
      var last := |shape| - 1;
      OffsetInside(shape[..last], index[..last]);
      assert Numel(shape) == Times(Numel(shape[..last]), shape[last]);
      TimesGrows(Offset(shape[..last], index[..last]), Numel(shape[..last]), shape[last]);
    }
  }

  /** `numel` is the product of the dimensions. */
  lemma {:induction false} NumelAppend(a: Shape, b: Shape)
    ensures Numel([]) == 1 && (forall k: nat :: Numel([k]) == k) && Numel(a + b) == Numel(a) * Numel(b)
    decreases |b|
  {
    forall k: nat ensures Numel([k]) == k { assert [k][..0] == []; }
    if b == [] {
      assert a + b == a;
    } else {
      var last := |b| - 1;
      NumelAppend(a, b[..last]);
      assert (a + b)[..|a + b| - 1] == a + b[..last];
      Associative(Numel(a), Numel(b[..last]), b[last]);
    }
  }

  lemma Associative(a: nat, b: nat, c: nat)
    ensures (a * b) * c == a * (b * c)
  {
  }

  // ---------------------------------------------------------------- the buffer

  function Total(shapes: seq<Shape>): nat {
    if shapes == [] then 0 else Total(shapes[..|shapes| - 1]) + Numel(shapes[|shapes| - 1])
  }

  lemma TotalAppend(shapes: seq<Shape>, shape: Shape)
    ensures Total(shapes + [shape]) == Total(shapes) + Numel(shape)
  {
    assert (shapes + [shape])[..|shapes|] == shapes;
  }

  /** The flattened tensors one after another. */
  function Flat(ws: seq<Weight>): seq<Elem> {
    if ws == [] then [] else Flat(ws[..|ws| - 1]) + ws[|ws| - 1].data
  }

  /** Cuts a flat buffer into named tensors: what `to_tensors` returns. */
  function Cut(keys: seq<Key>, shapes: seq<Shape>, flat: seq<Elem>): (tensors: seq<Weight>)
    requires |keys| == |shapes| && Total(shapes) <= |flat|
    ensures |tensors| == |shapes|
  {
    seq(|shapes|, i requires 0 <= i < |shapes| => CutAt(keys, shapes, flat, i))
  }

  function CutAt(keys: seq<Key>, shapes: seq<Shape>, flat: seq<Elem>, i: nat): Weight
    requires |keys| == |shapes| && Total(shapes) <= |flat| && i < |shapes|
  {
    PrefixTotal(shapes, i);
    var start := Total(shapes[..i]);
    Tensor(keys[i], shapes[i], flat[start..start + Numel(shapes[i])])
  }

  /** Tensor i of a buffer, element by element: the one with an index is found behind the tensors before,
      at the offset of the index. */
  ghost predicate Placed(flat: seq<Elem>, shapes: seq<Shape>, i: nat, t: Weight)
    requires i < |shapes|
  {
    && t.shape == shapes[i]
    && forall index :: InShape(t.shape, index) ==> ElementAt(flat, Total(shapes[..i]), t, index)
  }

  ghost predicate ElementAt(flat: seq<Elem>, start: nat, t: Weight, index: seq<nat>)
    requires |index| == |t.shape|
  {
    var k := Offset(t.shape, index);
    k < |t.data| && start + k < |flat| && t.data[k] == flat[start + k]
  }

  lemma CutPlaced(keys: seq<Key>, shapes: seq<Shape>, flat: seq<Elem>, i: nat)
    requires |keys| == |shapes| && Total(shapes) <= |flat| && i < |shapes|
    ensures Placed(flat, shapes, i, Cut(keys, shapes, flat)[i])
  {
    hide Numel, Offset;
    PrefixTotal(shapes, i);
    forall index | InShape(shapes[i], index) ensures ElementAt(flat, Total(shapes[..i]), Cut(keys, shapes, flat)[i], index) {
      OffsetInside(shapes[i], index);
    }
  }

  lemma {:induction false} PrefixTotal(shapes: seq<Shape>, i: nat)
    requires i < |shapes|
    ensures Total(shapes[..i]) + Numel(shapes[i]) == Total(shapes[..i + 1]) <= Total(shapes)
  {
    assert shapes[..i + 1][..i] == shapes[..i];
    var last := |shapes| - 1;
    if i < last {
      PrefixTotal(shapes[..last], i);
      assert shapes[..last][..i] == shapes[..i] && shapes[..last][..i + 1] == shapes[..i + 1];
    } else {
      assert shapes[..i + 1] == shapes;
    }
  }

  function Keys(ws: seq<Weight>): (keys: seq<Key>)
    ensures |keys| == |ws| && forall i :: 0 <= i < |ws| ==> keys[i] == ws[i].key
  {
    seq(|ws|, i requires 0 <= i < |ws| => ws[i].key)
  }

  function Shapes(ws: seq<Weight>): (shapes: seq<Shape>)
    ensures |shapes| == |ws| && forall i :: 0 <= i < |ws| ==> shapes[i] == ws[i].shape
  {
    seq(|ws|, i requires 0 <= i < |ws| => ws[i].shape)
  }

  lemma {:induction false} FlatLength(ws: seq<Weight>)
    ensures |Flat(ws)| == Total(Shapes(ws))
  {
    if ws != [] {
      FlatLength(ws[..|ws| - 1]);
      assert Shapes(ws)[..|ws| - 1] == Shapes(ws[..|ws| - 1]);
    }
  }

  lemma {:induction false} FlatAt(ws: seq<Weight>, i: nat)
    requires i < |ws|
    ensures var start := Total(Shapes(ws)[..i]);
            start + |ws[i].data| <= |Flat(ws)| && Flat(ws)[start..start + |ws[i].data|] == ws[i].data
  {
    var front := ws[..|ws| - 1];
    assert Shapes(ws)[..|front|] == Shapes(front);
    FlatLength(front);
    if i < |front| {
      FlatAt(front, i);
      assert Shapes(ws)[..i] == Shapes(front)[..i];
    }
  }

  /** Cutting inverts flattening, whatever stale elements follow in the buffer. */
  lemma CutFlat(ws: seq<Weight>, flat: seq<Elem>)
    requires Flat(ws) <= flat
    ensures |Flat(ws)| == Total(Shapes(ws)) && Cut(Keys(ws), Shapes(ws), flat) == ws
  {
    hide Numel;
    FlatLength(ws);
    forall i | 0 <= i < |ws| ensures Cut(Keys(ws), Shapes(ws), flat)[i] == ws[i] {
      FlatAt(ws, i);
      var start, n := Total(Shapes(ws)[..i]), |ws[i].data|;
      assert flat[start..start + n] == Flat(ws)[start..start + n];
    }
  }

  class TensorBuffer {
    const capacity: nat
    const tensor: array<Elem>
    var keys: seq<Key>
    var shapes: seq<Shape>

    ghost predicate Valid()
      reads this
    {
      tensor.Length == capacity && |keys| == |shapes| && Total(shapes) <= capacity
    }

    constructor (memoryAlloc: nat, dtypeSize: nat)
      requires dtypeSize >= 1
      ensures Valid() && fresh(tensor) && capacity == memoryAlloc / dtypeSize
      ensures keys == [] && shapes == []
    {
      capacity := memoryAlloc / dtypeSize;
      tensor := new Elem[memoryAlloc / dtypeSize];
      keys, shapes := [], [];
    }

    method Size() returns (n: nat)
      requires Valid()
      ensures n == Total(shapes)
    {
      n := 0;
      for i := 0 to |shapes|
        invariant n == Total(shapes[..i])
      {
        assert shapes[..i + 1] == shapes[..i] + [shapes[i]];
        TotalAppend(shapes[..i], shapes[i]);
        n := n + Numel(shapes[i]);
      }
      assert shapes[..|shapes|] == shapes;
    }

    method Clear()
      requires Valid()
      modifies this
      ensures Valid() && keys == [] && shapes == []
    {
      keys, shapes := [], [];
    }

    /** The receiver's append: only the bookkeeping. */
    method Reserve(key: Key, shape: Shape)
      requires Valid() && Total(shapes) + Numel(shape) <= capacity
      modifies this
      ensures Valid() && keys == old(keys) + [key] && shapes == old(shapes) + [shape]
    {
      TotalAppend(shapes, shape);
      keys, shapes := keys + [key], shapes + [shape];
    }

    /** The sender's append: the weight is copied behind the elements already there. */
    method Append(key: Key, shape: Shape, weight: seq<Elem>)
      requires Valid() && |weight| == Numel(shape) && Total(shapes) + |weight| <= capacity
      modifies this, tensor
      ensures Valid() && keys == old(keys) + [key] && shapes == old(shapes) + [shape]
      ensures tensor[..Total(shapes)] == old(tensor[..Total(shapes)]) + weight
    {
      var size := Size();
      TotalAppend(shapes, shape);
      hide Numel, Total;
      forall i | 0 <= i < |weight| {
        tensor[size + i] := weight[i];
      }
      assert tensor[..size] == old(tensor[..size]);
      assert tensor[size..size + |weight|] == weight;
      assert tensor[..size + |weight|] == tensor[..size] + tensor[size..size + |weight|];
      keys, shapes := keys + [key], shapes + [shape];
    }

    method ToTensors() returns (tensors: seq<Weight>)
      requires Valid()
      ensures Total(shapes) <= |tensor[..]| && tensors == Cut(keys, shapes, tensor[..])
      ensures |tensors| == |shapes| && forall i :: 0 <= i < |shapes| ==> Placed(tensor[..], shapes, i, tensors[i])
    {
      hide Numel;
      tensors := [];
      var start := 0;
      for i := 0 to |shapes|
        invariant start == Total(shapes[..i]) <= Total(shapes)
        invariant |tensors| == i && forall j :: 0 <= j < i ==> tensors[j] == Cut(keys, shapes, tensor[..])[j]
      {
        PrefixTotal(shapes, i);
        var numel := Numel(shapes[i]);
        assert tensor[start..start + numel] == tensor[..][start..start + numel];
        tensors := tensors + [Tensor(keys[i], shapes[i], tensor[start..start + numel])];
        start := start + numel;
      }
      forall i | 0 <= i < |shapes| ensures Placed(tensor[..], shapes, i, tensors[i]) {
        CutPlaced(keys, shapes, tensor[..], i);
      }
    }
  }

  // ---------------------------------------------------------------- the packing plan

  datatype Group = Direct(weight: Weight) | Bucket(weights: seq<Weight>)

  datatype Plan = Plan(groups: seq<Group>, open: seq<Weight>)

  function Size(ws: seq<Weight>): nat { Total(Shapes(ws)) }

  /** One packing decision: too large for the buffer, does not fit any more, fits. */
  function Decide(plan: Plan, w: Weight, capacity: nat): Plan {
    if |w.data| > capacity then
      plan.(groups := plan.groups + [Direct(w)])
    else if Size(plan.open) + |w.data| > capacity then
      Plan(plan.groups + [Bucket(plan.open)], [w])
    else
      plan.(open := plan.open + [w])
  }

  /** The finished broadcasts and the open bucket after the weights `ws`. */
  function Pack(ws: seq<Weight>, capacity: nat): Plan {
    if ws == [] then Plan([], []) else Decide(Pack(ws[..|ws| - 1], capacity), ws[|ws| - 1], capacity)
  }

  /** The trailing flush happens only for a bucket of positive size. */
  function Groups(ws: seq<Weight>, capacity: nat): seq<Group> {
    var plan := Pack(ws, capacity);
    if Size(plan.open) > 0 then plan.groups + [Bucket(plan.open)] else plan.groups
  }

  /** A broadcast carries a group: a bucket fills the buffer's front, the rest of it is stale. */
  predicate Carries(payload: seq<Elem>, g: Group, capacity: nat) {
    match g
    case Direct(w) => payload == w.data
    case Bucket(ws) => |payload| == capacity && Flat(ws) <= payload
  }

  ghost predicate CarriesAll(wire: seq<seq<Elem>>, groups: seq<Group>, capacity: nat) {
    |groups| <= |wire| && forall i :: 0 <= i < |groups| ==> Carries(wire[i], groups[i], capacity)
  }

  lemma SizeAppend(ws: seq<Weight>, w: Weight)
    ensures Size(ws + [w]) == Size(ws) + |w.data|
    ensures Flat(ws + [w]) == Flat(ws) + w.data
  {
    assert Shapes(ws + [w]) == Shapes(ws) + [w.shape];
    TotalAppend(Shapes(ws), w.shape);
    assert (ws + [w])[..|ws|] == ws;
  }

  lemma PackStep(ws: seq<Weight>, k: nat, capacity: nat)
    requires k < |ws|
    ensures Pack(ws[..k + 1], capacity) == Decide(Pack(ws[..k], capacity), ws[k], capacity)
  {
    assert ws[..k + 1][..k] == ws[..k];
  }

  // ---------------------------------------------------------------- the actor

  /** What the actor has sent so far and what its buffer holds, against the packing plan. */
  ghost predicate Sent(buffer: TensorBuffer, wire: seq<seq<Elem>>, plan: Plan)
    reads buffer, buffer.tensor
  {
    && buffer.Valid()
    && |wire| == |plan.groups| && CarriesAll(wire, plan.groups, buffer.capacity)
    && buffer.shapes == Shapes(plan.open) && buffer.tensor[..Size(plan.open)] == Flat(plan.open)
  }

  lemma SentSize(buffer: TensorBuffer, wire: seq<seq<Elem>>, plan: Plan)
    requires Sent(buffer, wire, plan)
    ensures buffer.Valid() && Total(buffer.shapes) == Size(plan.open)
  {
  }

  lemma SentDirect(buffer: TensorBuffer, wire: seq<seq<Elem>>, plan: Plan, w: Weight)
    requires Sent(buffer, wire, plan)
    ensures Sent(buffer, wire + [w.data], plan.(groups := plan.groups + [Direct(w)]))
  {
    hide Numel, Flat, Total, Shapes;
  }

  method SendBucket(buffer: TensorBuffer, ghost plan: Plan, wire: seq<seq<Elem>>) returns (wire': seq<seq<Elem>>)
    requires Sent(buffer, wire, plan)
    modifies buffer
    ensures Sent(buffer, wire', Plan(plan.groups + [Bucket(plan.open)], []))
  {
    assert Flat([]) == [] && Shapes([]) == [] && Total([]) == 0;
    hide Numel, Flat, Total, Shapes;
    wire' := wire + [buffer.tensor[..]];
    assert Carries(buffer.tensor[..], Bucket(plan.open), buffer.capacity);
    buffer.Clear();
  }

  method Keep(buffer: TensorBuffer, ghost plan: Plan, w: Weight, ghost wire: seq<seq<Elem>>)
    requires Sent(buffer, wire, plan) && Size(plan.open) + |w.data| <= buffer.capacity
    modifies buffer, buffer.tensor
    ensures Sent(buffer, wire, plan.(open := plan.open + [w]))
  {
    hide Numel, Flat, Total, Shapes, CarriesAll;
    SizeAppend(plan.open, w);
    assert Shapes(plan.open + [w]) == Shapes(plan.open) + [w.shape];
    buffer.Append(w.key, w.shape, w.data);
  }

  /** One pass of the actor's loop; `weights[..k]` are already handled. */
  method SendOne(buffer: TensorBuffer, ghost ws: seq<Weight>, ghost k: nat, w: Weight, wire: seq<seq<Elem>>)
    returns (wire': seq<seq<Elem>>)
    requires k < |ws| && ws[k] == w && Sent(buffer, wire, Pack(ws[..k], buffer.capacity))
    modifies buffer, buffer.tensor
    ensures Sent(buffer, wire', Pack(ws[..k + 1], buffer.capacity))
  {
    ghost var plan := Pack(ws[..k], buffer.capacity);
    PackStep(ws, k, buffer.capacity);
    SentSize(buffer, wire, plan);
    SizeAppend([], w);
    assert [] + [w] == [w] && Size([]) == 0;
    hide Numel, Sent, Pack, Size;
    wire' := wire;
    if |w.data| > buffer.capacity {
      SentDirect(buffer, wire, plan, w);
      wire' := wire + [w.data];
    } else {
      var size := buffer.Size();
      if size + |w.data| > buffer.capacity {
        wire' := SendBucket(buffer, plan, wire);
        plan := Plan(plan.groups + [Bucket(plan.open)], []);
      }
      Keep(buffer, plan, w, wire');
    }
  }

  lemma NothingSent(buffer: TensorBuffer)
    requires buffer.Valid() && buffer.shapes == []
    ensures Sent(buffer, [], Pack([], buffer.capacity))
  {
    assert Shapes([]) == [];
  }

  /** The generator's next weights are those of the weights info, by name and shape. */
  ghost predicate Announced(generator: seq<Weight>, infos: seq<Info>) {
    |generator| >= |infos| && Infos(generator[..|infos|]) == infos
  }

  lemma AnnouncedOneByOne(generator: seq<Weight>, infos: seq<Info>)
    ensures Announced(generator, infos) <==>
            |generator| >= |infos|
            && forall j :: 0 <= j < |infos| ==> generator[j].key == infos[j].key && generator[j].shape == infos[j].shape
  {
    hide Numel;
    if Announced(generator, infos) {
      forall j | 0 <= j < |infos| ensures generator[j].key == infos[j].key && generator[j].shape == infos[j].shape {
        assert Infos(generator[..|infos|])[j] == infos[j];
      }
    } else if |generator| >= |infos| {
      var j :| 0 <= j < |infos| && Infos(generator[..|infos|])[j] != infos[j];
      assert generator[j].key != infos[j].key || generator[j].shape != infos[j].shape;
    }
  }

  /** Sends the weights of the generator in the order of the weights info; false is a failed assertion. */
  method SyncActor(infos: seq<Info>, generator: seq<Weight>, memoryAlloc: nat, dtypeSize: nat)
    returns (ok: bool, wire: seq<seq<Elem>>)
    requires dtypeSize >= 1
    ensures ok <==> Announced(generator, infos)
    ensures ok ==> var groups := Groups(generator[..|infos|], memoryAlloc / dtypeSize);
                   |wire| == |groups| && CarriesAll(wire, groups, memoryAlloc / dtypeSize)
  {
    var buffer := new TensorBuffer(memoryAlloc, dtypeSize);
    wire := [];
    assert generator[..0] == [];
    NothingSent(buffer);
    AnnouncedOneByOne(generator, infos);
    hide Numel, Sent, Pack, CarriesAll, Announced;
    for i := 0 to |infos|
      invariant fresh(buffer) && fresh(buffer.tensor) && i <= |generator|
      invariant forall j :: 0 <= j < i ==> generator[j].key == infos[j].key && generator[j].shape == infos[j].shape
      invariant Sent(buffer, wire, Pack(generator[..i], buffer.capacity))
    {
      if i >= |generator| || generator[i].key != infos[i].key || generator[i].shape != infos[i].shape {
        return false, wire;
      }
      wire := SendOne(buffer, generator, i, generator[i], wire);
    }
    wire := SendRest(buffer, Pack(generator[..|infos|], buffer.capacity), wire);
    ok := true;
  }

  /** The trailing flush. */
  method SendRest(buffer: TensorBuffer, ghost plan: Plan, wire: seq<seq<Elem>>) returns (wire': seq<seq<Elem>>)
    requires Sent(buffer, wire, plan)
    modifies buffer
    ensures var groups := if Size(plan.open) > 0 then plan.groups + [Bucket(plan.open)] else plan.groups;
            |wire'| == |groups| && CarriesAll(wire', groups, buffer.capacity)
  {
    hide Numel, Flat, Total, Shapes, Carries;
    SentSize(buffer, wire, plan);
    var size := buffer.Size();
    wire' := wire;
    if size > 0 { wire' := SendBucket(buffer, plan, wire); }
  }

  // ---------------------------------------------------------------- the rollout worker

  datatype Reception =
    | Mismatch   // the next broadcast is missing or has another element count
    | Reception(counts: seq<nat>, delivered: seq<Weight>, keys: seq<Key>, shapes: seq<Shape>)

  /** Issues the next broadcast with `n` elements. */
  predicate Matches(r: Reception, n: nat, wire: seq<seq<Elem>>) {
    r.Reception? && |r.counts| < |wire| && |wire[|r.counts|]| == n
  }

  function Flush(r: Reception, capacity: nat, wire: seq<seq<Elem>>): Reception
    requires r.Reception? ==> |r.keys| == |r.shapes| && Total(r.shapes) <= capacity
  {
    if !Matches(r, capacity, wire) then Mismatch else
    Reception(r.counts + [capacity], r.delivered + Cut(r.keys, r.shapes, wire[|r.counts|]), [], [])
  }

  function ReceiveInfo(r: Reception, info: Info, capacity: nat, wire: seq<seq<Elem>>): (r': Reception)
    requires r.Reception? ==> |r.keys| == |r.shapes| && Total(r.shapes) <= capacity
    ensures r'.Reception? ==> |r'.keys| == |r'.shapes| && Total(r'.shapes) <= capacity
  {
    if r.Mismatch? then Mismatch
    else if Numel(info.shape) > capacity then
      if !Matches(r, Numel(info.shape), wire) then Mismatch else
      r.(counts := r.counts + [Numel(info.shape)],
         delivered := r.delivered + [Tensor(info.key, info.shape, wire[|r.counts|])])
    else
      var r1 := if Total(r.shapes) + Numel(info.shape) > capacity then Flush(r, capacity, wire) else r;
      if r1.Mismatch? then Mismatch else
      TotalAppend(r1.shapes, info.shape);
      r1.(keys := r1.keys + [info.key], shapes := r1.shapes + [info.shape])
  }

  function ReceiveInfos(infos: seq<Info>, capacity: nat, wire: seq<seq<Elem>>): (r: Reception)
    ensures r.Reception? ==> |r.keys| == |r.shapes| && Total(r.shapes) <= capacity
  {
    if infos == [] then Reception([], [], [], []) else
    ReceiveInfo(ReceiveInfos(infos[..|infos| - 1], capacity, wire), infos[|infos| - 1], capacity, wire)
  }

  /** Everything `group_tensor_generator` yields and every broadcast it issues. */
  function Receive(infos: seq<Info>, capacity: nat, wire: seq<seq<Elem>>): Reception {
    var r := ReceiveInfos(infos, capacity, wire);
    if r.Reception? && Total(r.shapes) > 0 then Flush(r, capacity, wire) else r
  }

  method ReceiveBucket(buffer: TensorBuffer, r: Reception, wire: seq<seq<Elem>>) returns (r': Reception)
    requires buffer.Valid() && r.Reception? && r.keys == buffer.keys && r.shapes == buffer.shapes
    modifies buffer, buffer.tensor
    ensures buffer.Valid() && r' == Flush(r, buffer.capacity, wire)
    ensures r'.Reception? ==> buffer.keys == [] && buffer.shapes == []
  {
    if |r.counts| >= |wire| || |wire[|r.counts|]| != buffer.capacity {
      return Mismatch;
    }
    var payload := wire[|r.counts|];
    forall i | 0 <= i < buffer.capacity {
      buffer.tensor[i] := payload[i];
    }
    assert buffer.tensor[..] == payload;
    var tensors := buffer.ToTensors();
    buffer.Clear();
    r' := Reception(r.counts + [buffer.capacity], r.delivered + tensors, [], []);
  }

  method SyncRollout(infos: seq<Info>, memoryAlloc: nat, dtypeSize: nat, wire: seq<seq<Elem>>)
    returns (r: Reception)
    requires dtypeSize >= 1
    ensures r == Receive(infos, memoryAlloc / dtypeSize, wire)
  {
    var buffer := new TensorBuffer(memoryAlloc, dtypeSize);
    r := Reception([], [], [], []);
    for i := 0 to |infos|
      invariant buffer.Valid() && fresh(buffer) && fresh(buffer.tensor)
      invariant r == ReceiveInfos(infos[..i], buffer.capacity, wire)
      invariant r.Reception? ==> r.keys == buffer.keys && r.shapes == buffer.shapes
    {
      assert infos[..i + 1][..i] == infos[..i];
      var info, numel := infos[i], Numel(infos[i].shape);
      if r.Reception? {
        if numel > buffer.capacity {
          if |r.counts| >= |wire| || |wire[|r.counts|]| != numel {
            r := Mismatch;
          } else {
            var tensor := Tensor(info.key, info.shape, wire[|r.counts|]);
            r := r.(counts := r.counts + [numel], delivered := r.delivered + [tensor]);
          }
        } else {
          var size := buffer.Size();
          if size + numel > buffer.capacity {
            r := ReceiveBucket(buffer, r, wire);
          }
          if r.Reception? {
            buffer.Reserve(info.key, info.shape);
            r := r.(keys := buffer.keys, shapes := buffer.shapes);
          }
        }
      }
    }
    assert infos[..|infos|] == infos;
    if r.Reception? {
      var size := buffer.Size();
      if size > 0 {
        r := ReceiveBucket(buffer, r, wire);
      }
    }
  }
}
