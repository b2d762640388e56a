/**
 Operations on batches: named columns of equal length, tensor and non-tensor alike. What matters
 about a batch is its rows, so every operation is described by the rows of its result.
 */
module BatchAlgebra {
  import opened Basics

  datatype Batch<V> = Batch(size: nat, columns: map<string, seq<V>>) {
    ghost predicate Valid() { forall k :: k in columns ==> |columns[k]| == size }

    /** Row i: one value of every column. */
    function Row(i: nat): (r: map<string, V>)
      requires Valid() && i < size
    {
      map k | k in columns :: columns[k][i]
    }
  }

  // ---------------------------------------------------------------- slices and concatenation

  function Slice<V>(b: Batch<V>, from: nat, to: nat): (r: Batch<V>)
    requires b.Valid() && from <= to <= b.size
    ensures r.Valid() && r.size == to - from && r.columns.Keys == b.columns.Keys
    ensures forall i: nat :: i < r.size ==> r.Row(i) == b.Row(from + i)
  {
    Batch(to - from, map k | k in b.columns :: b.columns[k][from..to])
  }

  function Cat<V>(a: Batch<V>, b: Batch<V>): (r: Batch<V>)
    requires a.Valid() && b.Valid() && a.columns.Keys == b.columns.Keys
    ensures r.Valid() && r.size == a.size + b.size && r.columns.Keys == a.columns.Keys
    ensures forall i: nat :: i < r.size ==> r.Row(i) == if i < a.size then a.Row(i) else b.Row(i - a.size)
  {
    Batch(a.size + b.size, map k | k in a.columns :: a.columns[k] + b.columns[k])
  }

  predicate Alike<V>(list: seq<Batch<V>>) {
    forall j :: 0 <= j < |list| ==> list[j].columns.Keys == list[0].columns.Keys
  }

  /** `DataProto.concat`; None for an empty list and for batches whose columns differ. */
  function Concat<V>(list: seq<Batch<V>>): (r: Option<Batch<V>>)
    requires forall j :: 0 <= j < |list| ==> list[j].Valid()
    ensures r.Some? <==> list != [] && Alike(list)
    ensures r.Some? ==> r.value.Valid() && r.value.columns.Keys == list[0].columns.Keys && r.value.size == Total(list)
  {
    if list == [] || !Alike(list) then None else
    var n := |list| - 1;
    if n == 0 then Some(list[0]) else
    assert Alike(list[..n]);
    Some(Cat(Concat(list[..n]).value, list[n]))
  }

  function Total<V>(list: seq<Batch<V>>): nat {
    if list == [] then 0 else Total(list[..|list| - 1]) + list[|list| - 1].size
  }

  /** In a concatenation of batches of the same size s, row j * s + i is row i of batch j. */
  lemma {:induction false} ConcatRow<V>(list: seq<Batch<V>>, s: nat, j: nat, i: nat)
    requires (forall l :: 0 <= l < |list| ==> list[l].Valid() && list[l].size == s) && Alike(list)
    requires j < |list| && i < s
    ensures Total(list) == Times(|list|, s) && Times(j, s) + i < Total(list)
    ensures Concat(list).value.Row(Times(j, s) + i) == list[j].Row(i)
  {
    hide Batch.Row, Cat;
    var n := |list| - 1;
    EqualTotal(list, s);
    TimesGrows(j, |list|, s);
    if n > 0 {
      assert Alike(list[..n]);
      EqualTotal(list[..n], s);
      assert Concat(list).value == Cat(Concat(list[..n]).value, list[n]);
      if j < n {
        ConcatRow(list[..n], s, j, i);
      }
    } else {
      assert Times(0, s) == 0;
    }
  }

  lemma {:induction false} EqualTotal<V>(list: seq<Batch<V>>, s: nat)
    requires forall l :: 0 <= l < |list| ==> list[l].size == s
    ensures Total(list) == Times(|list|, s)
  {
    if list != [] {
      EqualTotal(list[..|list| - 1], s);
      assert Times(|list|, s) == Times(|list| - 1, s) + s;
    }
  }

  // ---------------------------------------------------------------- padding

  function PadSize(size: nat, divisor: nat): (pad: nat)
    requires divisor > 0
    ensures pad < divisor
  {
    if Rem(size, divisor) == 0 then 0 else divisor - Rem(size, divisor)
  }

  /** The padded length is the least multiple of the divisor that is not below the length. */
  lemma {:induction false} PadSizeIsLeast(size: nat, divisor: nat, m: nat)
    requires divisor > 0
    ensures Rem(size + PadSize(size, divisor), divisor) == 0
    ensures m >= size && Rem(m, divisor) == 0 ==> m >= size + PadSize(size, divisor)
  {
    if size >= divisor { PadSizeIsLeast(size - divisor, divisor, if m >= divisor then m - divisor else 0); }
  }

  /** The batch with `pad` more rows: padded row i is row i mod size. */
  ghost predicate IsPadded<V>(b: Batch<V>, pad: nat, p: Batch<V>)
    requires b.Valid()
  {
    && p.Valid() && p.size == b.size + pad && p.columns.Keys == b.columns.Keys
    && (b.size == 0 ==> pad == 0)
    && forall i: nat :: i < p.size ==> p.Row(i) == b.Row(Rem(i, b.size))
  }

  /** `pad_dataproto_to_divisor`; None is the ZeroDivisionError. */
  method PadToDivisor<V>(b: Batch<V>, divisor: nat) returns (r: Option<(Batch<V>, nat)>)
    requires b.Valid()
    ensures r.None? <==> divisor == 0
    ensures r.Some? ==> r.value.1 == PadSize(b.size, divisor) && IsPadded(b, r.value.1, r.value.0)
  {
    if divisor == 0 { return None; }
    assert b.size == 0 ==> Rem(b.size, divisor) == 0;
    hide Batch.Row, Batch.Valid, Rem, Concat, Collected, IsPadded;
    CollectFirst(b);
    var over := Modulo(b.size, divisor);
    if over == 0 { return Some((b, 0)); }
    var pad := divisor - over;
    var protos := [b];
    var remaining: nat := pad;
    while remaining > 0
      invariant remaining <= pad && Collected(b, protos, pad - remaining)
      invariant remaining > 0 ==> Rem(b.size + pad - remaining, b.size) == 0
    {
      var take := if remaining < b.size then remaining else b.size;
      var part := Slice(b, 0, take);
      CollectMore(b, protos, pad - remaining, part);
      protos := protos + [part];
      remaining := remaining - take;
    }
    CollectedAll(b, protos, pad);
    return Some((Concat(protos).value, pad));
  }

  // The list that is concatenated in the end makes the batch with `done` more rows.
  ghost predicate Collected<V>(b: Batch<V>, protos: seq<Batch<V>>, done: nat)
    requires b.Valid()
  {
    && Alike(protos) && |protos| > 0 && protos[0] == b && (forall j :: 0 <= j < |protos| ==> protos[j].Valid())
    && IsPadded(b, done, Concat(protos).value)
  }

  lemma CollectFirst<V>(b: Batch<V>)
    requires b.Valid()
    ensures Collected(b, [b], 0) && IsPadded(b, 0, b)
    ensures b.size > 0 ==> Rem(b.size, b.size) == 0
  {
    hide Batch.Row, Batch.Valid;
  }

  lemma CollectedAll<V>(b: Batch<V>, protos: seq<Batch<V>>, done: nat)
    requires b.Valid() && Collected(b, protos, done)
    ensures (forall j :: 0 <= j < |protos| ==> protos[j].Valid()) && Concat(protos).Some?
    ensures IsPadded(b, done, Concat(protos).value)
  {
    hide Batch.Row, Batch.Valid, IsPadded;
  }

  lemma CollectMore<V>(b: Batch<V>, protos: seq<Batch<V>>, done: nat, part: Batch<V>)
    requires b.Valid() && b.size > 0 && Collected(b, protos, done) && Rem(b.size + done, b.size) == 0
    requires part.size <= b.size && part == Slice(b, 0, part.size)
    ensures Collected(b, protos + [part], done + part.size)
    ensures part.size == b.size ==> Rem(b.size + done + part.size, b.size) == 0
  {
    hide Batch.Row, Batch.Valid, Rem, Concat, Cat, Slice, Alike;
    ConcatMore(protos, part);
    PadOnce(b, Concat(protos).value, done, part);
  }

  lemma ConcatMore<V>(list: seq<Batch<V>>, b: Batch<V>)
    requires list != [] && Alike(list) && (forall j :: 0 <= j < |list| ==> list[j].Valid())
    requires b.Valid() && b.columns.Keys == list[0].columns.Keys
    ensures Alike(list + [b]) && (forall j :: 0 <= j < |list| + 1 ==> (list + [b])[j].Valid())
    ensures Concat(list + [b]) == Some(Cat(Concat(list).value, b))
  {
    hide Cat, Batch.Valid;
    assert (list + [b])[..|list|] == list;
  }

  lemma PadOnce<V>(b: Batch<V>, before: Batch<V>, pad: nat, part: Batch<V>)
    requires b.Valid() && b.size > 0 && IsPadded(b, pad, before) && Rem(before.size, b.size) == 0
    requires part.size <= b.size && part == Slice(b, 0, part.size)
    ensures IsPadded(b, pad + part.size, Cat(before, part))
    ensures part.size == b.size ==> Rem(before.size + part.size, b.size) == 0
  {
    hide Batch.Row, Cat, Slice, Rem;
    var after := Cat(before, part);
    forall i: nat | i < after.size ensures after.Row(i) == b.Row(Rem(i, b.size)) {
      if i >= before.size { RemAdds(before.size, i - before.size, b.size); }
    }
    RemAdds(before.size, 0, b.size);
  }

  lemma {:induction false} RemAdds(m: nat, i: nat, n: nat)
    requires n > 0 && Rem(m, n) == 0 && i < n
    ensures Rem(m + i, n) == i && Rem(m + n, n) == 0
  {
    if m >= n { RemAdds(m - n, i, n); }
  }

  /** `unpad_dataproto`: `data[:-pad]`, which Python cuts off at the start. */
  function Unpad<V>(b: Batch<V>, pad: nat): Batch<V>
    requires b.Valid()
  {
    if pad == 0 then b else Slice(b, 0, if pad <= b.size then b.size - pad else 0)
  }

  // ---------------------------------------------------------------- sharded execution

  /** `chunk` without the padding option; None is a failed assertion or a ZeroDivisionError. */
  function Chunk<V>(b: Batch<V>, chunks: nat): (r: Option<seq<Batch<V>>>)
    requires b.Valid()
  {
    if chunks == 0 || Rem(b.size, chunks) != 0 then None else
    var s := Quotient(b.size, chunks);
    Some(seq(chunks, j requires 0 <= j < chunks => TimesGrows(j, chunks, s); Slice(b, Times(j, s), Times(j, s) + s)))
  }

  /** Chunking fails exactly for no chunks and for a length that they do not divide. */
  lemma ChunkFails<V>(b: Batch<V>, chunks: nat)
    requires b.Valid()
    ensures Chunk(b, chunks).None? <==> chunks == 0 || b.size % chunks != 0
  {
    if chunks > 0 { RemIsModulo(b.size, chunks); }
  }

  /** The quotient of a division without remainder. */
  function Quotient(a: nat, n: nat): (q: nat)
    requires n > 0 && Rem(a, n) == 0
    ensures Times(n, q) == a
  {
    if a == 0 then assert Times(n, 0) == 0; 0 else
    var q := Quotient(a - n, n);
    assert Times(n, q + 1) == Times(n, q) + n;
    q + 1
  }

  /** A worker's computation on its chunk does `f` to every row and keeps the columns alike. */
  ghost predicate RowWise<V(!new)>(work: Batch<V> -> Batch<V>, f: map<string, V> -> map<string, V>, keys: set<string>) {
    forall b: Batch<V> :: b.Valid() ==>
      var r := work(b);
      && r.Valid() && r.size == b.size && r.columns.Keys == keys
      && forall i: nat :: i < b.size ==> r.Row(i) == f(b.Row(i))
  }

  function Each<V>(work: Batch<V> -> Batch<V>, list: seq<Batch<V>>): seq<Batch<V>> {
    seq(|list|, j requires 0 <= j < |list| => work(list[j]))
  }

  // Part j of a batch holds its rows j * s to j * s + s - 1, each worked on.
  lemma WorkOnPart<V(!new)>(p: Batch<V>, chunks: nat, j: nat,
                            work: Batch<V> -> Batch<V>, f: map<string, V> -> map<string, V>, keys: set<string>)
    requires p.Valid() && Chunk(p, chunks).Some? && RowWise(work, f, keys) && j < chunks
    ensures var s := Quotient(p.size, chunks);
            var part := work(Chunk(p, chunks).value[j]);
            && part.Valid() && part.size == s && part.columns.Keys == keys && Times(j, s) + s <= p.size
            && forall i: nat :: i < s ==> part.Row(i) == f(p.Row(Times(j, s) + i))
  {
    hide Batch.Row, Slice;
    var s := Quotient(p.size, chunks);
    TimesGrows(j, chunks, s);
    var part := Chunk(p, chunks).value[j];
    assert part == Slice(p, Times(j, s), Times(j, s) + s);
    forall i: nat | i < s ensures work(part).Row(i) == f(p.Row(Times(j, s) + i)) {
      assert part.Row(i) == p.Row(Times(j, s) + i);
    }
  }

  /** Sharded execution keeps its meaning: pad, chunk, work on every chunk, concatenate, unpad, and
      row i of the result is f of row i, for any number of chunks. */
  lemma ShardedExecution<V(!new)>(b: Batch<V>, p: Batch<V>, chunks: nat,
                                  work: Batch<V> -> Batch<V>, f: map<string, V> -> map<string, V>, keys: set<string>)
    requires b.Valid() && b.size > 0 && chunks > 0 && IsPadded(b, PadSize(b.size, chunks), p) && RowWise(work, f, keys)
    ensures Chunk(p, chunks).Some?
    ensures var parts := Each(work, Chunk(p, chunks).value);
            && (forall j :: 0 <= j < |parts| ==> parts[j].Valid())
            && var whole := Concat(parts);
               && whole.Some?
               && var r := Unpad(whole.value, PadSize(b.size, chunks));
                  && r.Valid() && r.size == b.size && r.columns.Keys == keys
                  && forall i: nat :: i < r.size ==> r.Row(i) == f(b.Row(i))
  {
    hide Batch.Row, Batch.Valid, Slice, Concat, RowWise, Times, Quotient;
    PadSizeIsLeast(b.size, chunks, 0);
    var s := Quotient(p.size, chunks);
    var done := Each(work, Chunk(p, chunks).value);
    forall j | 0 <= j < chunks
      ensures done[j].Valid() && done[j].size == s && done[j].columns.Keys == keys
    {
      WorkOnPart(p, chunks, j, work, f, keys);
    }
    EqualTotal(done, s);
    forall i: nat | i < b.size ensures Concat(done).value.Row(i) == f(b.Row(i)) {
      var j := Locate(i, chunks, s);
      WorkOnPart(p, chunks, j, work, f, keys);
      ConcatRow(done, s, j, i - Times(j, s));
      assert p.Row(i) == b.Row(Rem(i, b.size));
    }
    hide IsPadded, Chunk, Each;
  }

  // ---------------------------------------------------------------- blocks of a column

  function Flatten<T>(blocks: seq<seq<T>>): seq<T> {
    if blocks == [] then [] else Flatten(blocks[..|blocks| - 1]) + blocks[|blocks| - 1]
  }

  ghost predicate Even<T>(blocks: seq<seq<T>>, s: nat) { forall j :: 0 <= j < |blocks| ==> |blocks[j]| == s }

  lemma {:induction false} FlattenLength<T>(blocks: seq<seq<T>>, s: nat)
    requires Even(blocks, s)
    ensures |Flatten(blocks)| == Times(|blocks|, s)
  {
    if blocks != [] {
      FlattenLength(blocks[..|blocks| - 1], s);
      assert Times(|blocks|, s) == Times(|blocks| - 1, s) + s;
    } else {
      assert Times(0, s) == 0;
    }
  }

  lemma {:induction false} BlockAt<T>(blocks: seq<seq<T>>, s: nat, j: nat, i: nat)
    requires Even(blocks, s) && j < |blocks| && i < s
    ensures Times(j, s) + i < |Flatten(blocks)| == Times(|blocks|, s)
    ensures Flatten(blocks)[Times(j, s) + i] == blocks[j][i]
  {
    var n := |blocks| - 1;
    FlattenLength(blocks, s);
    FlattenLength(blocks[..n], s);
    TimesGrows(j, n + 1, s);
    if j < n { BlockAt(blocks[..n], s, j, i); }
  }

  /** Equal blocks of a column, one after the other. */
  function Blocks<T>(column: seq<T>, n: nat): (r: seq<seq<T>>)
    requires n > 0 && Rem(|column|, n) == 0
    ensures |r| == n && Even(r, Quotient(|column|, n))
  {
    seq(n, j requires 0 <= j < n => Block(column, n, j))
  }

  function Block<T>(column: seq<T>, n: nat, j: nat): (r: seq<T>)
    requires n > 0 && Rem(|column|, n) == 0 && j < n
    ensures |r| == Quotient(|column|, n)
  {
    var s := Quotient(|column|, n);
    TimesGrows(j, n, s);
    column[Times(j, s)..Times(j, s) + s]
  }

  lemma FlattenBlocks<T>(column: seq<T>, n: nat)
    requires n > 0 && Rem(|column|, n) == 0
    ensures Flatten(Blocks(column, n)) == column
  {
    hide Times, Quotient, Rem, Flatten;
    var blocks, s := Blocks(column, n), Quotient(|column|, n);
    FlattenLength(blocks, s);
    forall i | 0 <= i < |column| ensures Flatten(blocks)[i] == column[i] {
      var j := Locate(i, n, s);
      BlockAt(blocks, s, j, i - Times(j, s));
      TimesGrows(j, n, s);
      assert blocks[j] == Block(column, n, j) == column[Times(j, s)..Times(j, s) + s];
    }
  }

  // ---------------------------------------------------------------- futures

  /** `DataProtoFuture`: the outputs of a worker group, and which of how many chunks of their
      concatenation to take, if not all of it. */
  datatype Future<V> = Future(outputs: seq<Batch<V>>, pick: Option<(nat, nat)>)

  /** `DataProtoFuture.chunk`. */
  function FutureChunks<V>(f: Future<V>, chunks: nat): (r: seq<Future<V>>)
    ensures |r| == chunks
  {
    seq(chunks, i requires 0 <= i < chunks => Future(f.outputs, Some((i, chunks))))
  }

  /** `DataProtoFuture.get`; None is a failed concatenation, chunk or index. */
  function GetFuture<V>(f: Future<V>): Option<Batch<V>>
    requires forall j :: 0 <= j < |f.outputs| ==> f.outputs[j].Valid()
  {
    match Concat(f.outputs)
    case None => None
    case Some(b) =>
      match f.pick
      case None => Some(b)
      case Some((i, chunks)) =>
        var list := Chunk(b, chunks);
        if list.Some? && i < |list.value| then Some(list.value[i]) else None
  }

  function Column<V>(list: seq<Batch<V>>, key: string): seq<seq<V>>
    requires forall j :: 0 <= j < |list| ==> key in list[j].columns
  {
    seq(|list|, j requires 0 <= j < |list| => list[j].columns[key])
  }

  lemma {:induction false} ConcatColumn<V>(list: seq<Batch<V>>, key: string)
    requires list != [] && Alike(list) && (forall j :: 0 <= j < |list| ==> list[j].Valid())
    requires key in list[0].columns
    ensures forall j :: 0 <= j < |list| ==> key in list[j].columns
    ensures Concat(list).value.columns[key] == Flatten(Column(list, key))
  {
    ColumnInit(list, key);
    var n := |list| - 1;
    if n == 0 {
      hide Batch.Valid;
      assert Flatten(Column(list[..0], key)) == [] && [] + list[0].columns[key] == list[0].columns[key];
    } else {
      ConcatInit(list);
      hide Flatten, Column, Concat, Cat, Alike, Batch.Valid;
      ConcatColumn(list[..n], key);
      CatColumn(Concat(list[..n]).value, list[n], key);
    }
  }

  lemma ColumnInit<V>(list: seq<Batch<V>>, key: string)
    requires list != [] && Alike(list) && key in list[0].columns
    ensures forall j :: 0 <= j < |list| ==> key in list[j].columns
    ensures var n := |list| - 1; Flatten(Column(list, key)) == Flatten(Column(list[..n], key)) + list[n].columns[key]
  {
    assert forall j :: 0 <= j < |list| ==> list[j].columns.Keys == list[0].columns.Keys;
    assert Column(list, key)[..|list| - 1] == Column(list[..|list| - 1], key);
  }

  lemma ConcatInit<V>(list: seq<Batch<V>>)
    requires |list| > 1 && Alike(list) && (forall j :: 0 <= j < |list| ==> list[j].Valid())
    ensures var init := list[..|list| - 1];
            && init != [] && Alike(init) && init[0] == list[0] && (forall j :: 0 <= j < |init| ==> init[j].Valid())
            && Concat(init).Some? && Concat(init).value.columns.Keys == list[|list| - 1].columns.Keys
            && Concat(list) == Some(Cat(Concat(init).value, list[|list| - 1]))
  {
    hide Cat, Batch.Valid;
  }

  lemma CatColumn<V>(a: Batch<V>, b: Batch<V>, key: string)
    requires a.Valid() && b.Valid() && a.columns.Keys == b.columns.Keys && key in a.columns
    ensures Cat(a, b).columns[key] == a.columns[key] + b.columns[key]
  {
  }

  lemma ChunkPart<V>(b: Batch<V>, chunks: nat, j: nat)
    requires b.Valid() && chunks > 0 && Rem(b.size, chunks) == 0 && j < chunks
    ensures var part := Chunk(b, chunks).value[j];
            && part.Valid() && part.size == Quotient(b.size, chunks) && part.columns.Keys == b.columns.Keys
            && forall key :: key in b.columns ==> part.columns[key] == Block(b.columns[key], chunks, j)
  {
    hide Times, Quotient, Rem;
    var s := Quotient(b.size, chunks);
    TimesGrows(j, chunks, s);
    assert Chunk(b, chunks).value[j] == Slice(b, Times(j, s), Times(j, s) + s);
  }

  /** Chunking loses nothing: the chunks concatenate to the batch. */
  lemma ConcatChunks<V>(b: Batch<V>, chunks: nat)
    requires b.Valid() && chunks > 0 && Rem(b.size, chunks) == 0
    ensures var list := Chunk(b, chunks).value;
            && |list| == chunks && (forall j :: 0 <= j < |list| ==> list[j].Valid() && list[j].size == Quotient(b.size, chunks))
            && Concat(list) == Some(b)
  {
    hide Times, Quotient, Rem, Slice, Concat, Flatten, Block;
    var list := Chunk(b, chunks).value;
    forall j | 0 <= j < chunks
      ensures list[j].Valid() && list[j].size == Quotient(b.size, chunks) && list[j].columns.Keys == b.columns.Keys
      ensures forall key :: key in b.columns ==> list[j].columns[key] == Block(b.columns[key], chunks, j)
    {
      ChunkPart(b, chunks, j);
    }
    EqualTotal(list, Quotient(b.size, chunks));
    forall key | key in b.columns ensures Concat(list).value.columns[key] == b.columns[key] {
      ConcatColumn(list, key);
      assert Column(list, key) == Blocks(b.columns[key], chunks);
      FlattenBlocks(b.columns[key], chunks);
    }
    SameBatch(Concat(list).value, b);
  }

  lemma SameBatch<V>(a: Batch<V>, b: Batch<V>)
    requires a.size == b.size && a.columns.Keys == b.columns.Keys
    requires forall key :: key in b.columns ==> a.columns[key] == b.columns[key]
    ensures a == b
  {
    assert a.columns == b.columns;
  }

  /** Handing a future to another worker group: what its members get, one chunk each, is together
      the concatenation of the first group's outputs. */
  lemma FuturesRedistribute<V>(outputs: seq<Batch<V>>, chunks: nat, parts: seq<Batch<V>>)
    requires outputs != [] && Alike(outputs) && (forall j :: 0 <= j < |outputs| ==> outputs[j].Valid())
    requires chunks > 0 && Rem(Total(outputs), chunks) == 0 && |parts| == chunks
    requires forall i :: 0 <= i < chunks ==> GetFuture(FutureChunks(Future(outputs, None), chunks)[i]) == Some(parts[i])
    ensures (forall i :: 0 <= i < chunks ==> parts[i].Valid()) && Concat(parts) == GetFuture(Future(outputs, None))
  {
    hide Batch.Valid;
    var b := Concat(outputs).value;
    ConcatChunks(b, chunks);
    forall i | 0 <= i < chunks ensures parts[i] == Chunk(b, chunks).value[i] {
      assert FutureChunks(Future(outputs, None), chunks)[i] == Future(outputs, Some((i, chunks)));
    }
    assert parts == Chunk(b, chunks).value;
  }

  // ---------------------------------------------------------------- repeat

  function Copies<T>(x: T, n: nat): seq<T> { seq(n, _ => x) }

  function RepeatColumn<T>(column: seq<T>, n: nat, interleave: bool): seq<T> {
    if interleave then Flatten(seq(|column|, i requires 0 <= i < |column| => Copies(column[i], n)))
    else Flatten(Copies(column, n))
  }

  /** `repeat`: interleaved, every row n times in place; otherwise the whole batch n times. */
  function Repeat<V>(b: Batch<V>, n: nat, interleave: bool): Batch<V> {
    Batch(Times(b.size, n), map k | k in b.columns :: RepeatColumn(b.columns[k], n, interleave))
  }

  lemma RepeatColumnAt<T>(column: seq<T>, n: nat, i: nat, k: nat)
    requires i < |column| && k < n
    ensures |RepeatColumn(column, n, true)| == Times(|column|, n) == |RepeatColumn(column, n, false)|
    ensures Times(i, n) + k < Times(|column|, n) && RepeatColumn(column, n, true)[Times(i, n) + k] == column[i]
    ensures Times(k, |column|) + i < Times(|column|, n) && RepeatColumn(column, n, false)[Times(k, |column|) + i] == column[i]
  {
    BlockAt(seq(|column|, l requires 0 <= l < |column| => Copies(column[l], n)), n, i, k);
    BlockAt(Copies(column, n), |column|, k, i);
    assert Times(|column|, n) == Times(n, |column|);
  }

  lemma RepeatValid<V>(b: Batch<V>, n: nat, interleave: bool)
    requires b.Valid()
    ensures Repeat(b, n, interleave).Valid()
  {
    forall k | k in b.columns ensures |RepeatColumn(b.columns[k], n, interleave)| == Times(b.size, n) {
      var column := b.columns[k];
      FlattenLength(seq(|column|, l requires 0 <= l < |column| => Copies(column[l], n)), n);
      FlattenLength(Copies(column, n), |column|);
      assert Times(|column|, n) == Times(n, |column|);
    }
  }

  /** Row k of the n copies of prompt i stands at i * n + k when interleaved, at k * size + i if not. */
  lemma RepeatRow<V>(b: Batch<V>, n: nat, i: nat, k: nat)
    requires b.Valid() && i < b.size && k < n
    ensures Repeat(b, n, true).Valid() && Repeat(b, n, false).Valid()
    ensures Times(i, n) + k < Times(b.size, n) && Times(k, b.size) + i < Times(b.size, n)
    ensures Repeat(b, n, true).Row(Times(i, n) + k) == b.Row(i)
    ensures Repeat(b, n, false).Row(Times(k, b.size) + i) == b.Row(i)
  {
    hide Times, RepeatColumn;
    RepeatValid(b, n, true);
    RepeatValid(b, n, false);
    RepeatColumnAt(seq(b.size, l => 0), n, i, k);
    forall key | key in b.columns
      ensures Repeat(b, n, true).columns[key][Times(i, n) + k] == b.columns[key][i]
      ensures Repeat(b, n, false).columns[key][Times(k, b.size) + i] == b.columns[key][i]
    {
      RepeatColumnAt(b.columns[key], n, i, k);
    }
  }

  // ---------------------------------------------------------------- fold and unfold

  /** `fold_batch_dim`: n rows, each a block of the old ones; None is a failed assertion or a
      ZeroDivisionError. */
  function Fold<V>(b: Batch<V>, n: nat): Option<Batch<seq<V>>>
    requires b.Valid()
  {
    if n == 0 || Rem(b.size, n) != 0 then None
    else Some(Batch(n, map k | k in b.columns :: Blocks(b.columns[k], n)))
  }

  /** Folding fails exactly for no rows and for a length that they do not divide. */
  lemma FoldFails<V>(b: Batch<V>, n: nat)
    requires b.Valid()
    ensures Fold(b, n).None? <==> n == 0 || b.size % n != 0
  {
    if n > 0 { RemIsModulo(b.size, n); }
  }

  /** Row i of the fold holds the rows i * s to i * s + s - 1 of the batch, s being their number per row. */
  lemma FoldRow<V>(b: Batch<V>, n: nat, i: nat, j: nat, key: string)
    requires b.Valid() && Fold(b, n).Some? && i < n && key in b.columns
    ensures var f, s := Fold(b, n).value, |Fold(b, n).value.columns[key][i]|;
            && f.Valid() && f.size == n && f.columns.Keys == b.columns.Keys && Times(n, s) == b.size
            && (j < s ==> Times(i, s) + j < b.size && f.columns[key][i][j] == b.columns[key][Times(i, s) + j])
  {
    hide Times, Quotient, Rem;
    TimesGrows(i, n, Quotient(b.size, n));
  }

  /** `unfold_batch_dim` of two batch dimensions of these sizes. */
  function Unfold<V>(b: Batch<seq<V>>, inner: nat): Batch<V> {
    Batch(Times(b.size, inner), map k | k in b.columns :: Flatten(b.columns[k]))
  }

  lemma UnfoldFold<V>(b: Batch<V>, n: nat)
    requires b.Valid() && n > 0 && Rem(b.size, n) == 0
    ensures Fold(b, n).Some? && Unfold(Fold(b, n).value, Quotient(b.size, n)) == b
  {
    forall k | k in b.columns ensures Flatten(Blocks(b.columns[k], n)) == b.columns[k] {
      FlattenBlocks(b.columns[k], n);
    }
  }

  /** `unfold_column_chunks`, on columns whose values are vectors: those of `split` are cut into n
      equal parts, one a row, and the others are repeated. None is a failed reshape. */
  function UnfoldColumnChunks<U>(b: Batch<seq<U>>, n: nat, split: set<string>): Option<Batch<seq<U>>>
    requires b.Valid()
  {
    if n == 0 || exists k, i :: k in b.columns && k in split && 0 <= i < |b.columns[k]| && Rem(|b.columns[k][i]|, n) != 0
    then None
    else Some(Batch(Times(b.size, n), map k | k in b.columns ::
      if k in split then Flatten(AllBlocks(b.columns[k], n)) else RepeatColumn(b.columns[k], n, true)))
  }

  /** It fails exactly if n is 0 or does not divide the length of some value to split. */
  lemma UnfoldFails<U>(b: Batch<seq<U>>, n: nat, split: set<string>)
    requires b.Valid()
    ensures UnfoldColumnChunks(b, n, split).None? <==>
            n == 0 || exists key, i :: key in b.columns && key in split && 0 <= i < b.size && |b.columns[key][i]| % n != 0
  {
    hide Rem;
    if n > 0 {
      forall key, i | key in b.columns && 0 <= i < b.size
        ensures Rem(|b.columns[key][i]|, n) == |b.columns[key][i]| % n
      {
        RemIsModulo(|b.columns[key][i]|, n);
      }
    }
  }

  function AllBlocks<U>(column: seq<seq<U>>, n: nat): (r: seq<seq<seq<U>>>)
    requires n > 0 && forall i :: 0 <= i < |column| ==> Rem(|column[i]|, n) == 0
    ensures Even(r, n)
  {
    seq(|column|, i requires 0 <= i < |column| => Blocks(column[i], n))
  }

  /** Row i * n + k holds part k of every split value of row i and the whole of every other one. */
  lemma ColumnChunksAligned<U>(b: Batch<seq<U>>, n: nat, split: set<string>, i: nat, k: nat, key: string)
    requires b.Valid() && UnfoldColumnChunks(b, n, split).Some?
    requires i < b.size && k < n && key in b.columns
    ensures var column := UnfoldColumnChunks(b, n, split).value.columns[key];
            && |column| == Times(b.size, n) && Times(i, n) + k < |column|
            && column[Times(i, n) + k] == if key in split then Blocks(b.columns[key][i], n)[k] else b.columns[key][i]
  {
    if key in split {
      BlockAt(AllBlocks(b.columns[key], n), n, i, k);
    } else {
      RepeatColumnAt(b.columns[key], n, i, k);
    }
  }

  // ---------------------------------------------------------------- union

  ghost predicate NoConflict<T>(mine: map<string, T>, theirs: map<string, T>) {
    forall k :: k in mine && k in theirs ==> mine[k] == theirs[k]
  }

  /** `union_tensor_dict`, `union_numpy_dict` and `union_two_dict`: adds their entries to mine, in any
      order, and stops at the first conflict with what was added so far left in place. */
  method UnionColumns<T(==)>(mine: map<string, T>, theirs: map<string, T>)
    returns (r: map<string, T>, ok: bool)
    ensures ok <==> NoConflict(mine, theirs)
    ensures ok ==> r == mine + theirs
    ensures forall k :: k in mine ==> k in r && r[k] == mine[k]
    ensures forall k :: k in r && k !in mine ==> k in theirs && r[k] == theirs[k]
  {
    r := mine;
    var todo := theirs.Keys;
    while todo != {}
      invariant todo <= theirs.Keys
      invariant forall k :: k in mine ==> k in r && r[k] == mine[k]
      invariant forall k :: k in r && k !in mine ==> k in theirs && r[k] == theirs[k]
      invariant forall k :: k in theirs && k !in todo ==> k in r && r[k] == theirs[k]
    {
      var k :| k in todo;
      if k in r && r[k] != theirs[k] { return r, false; }
      r := r[k := theirs[k]];
      todo := todo - {k};
    }
    ok := true;
  }

  class DataProto<V(==), M(==)> {
    var tensors: Batch<V>
    var others: map<string, seq<V>>
    var metaInfo: map<string, M>

    constructor (tensors: Batch<V>, others: map<string, seq<V>>, metaInfo: map<string, M>)
      ensures this.tensors == tensors && this.others == others && this.metaInfo == metaInfo
    {
      this.tensors, this.others, this.metaInfo := tensors, others, metaInfo;
    }

    /** `union`: succeeds exactly when the sizes agree and neither a column nor an entry of the meta
        information conflicts, and then holds what both hold; a failed union never loses or changes
        anything that was there. */
    method Union(other: DataProto<V, M>) returns (ok: bool)
      modifies this
      ensures ok <==> old(tensors.size) == old(other.tensors.size)
                      && NoConflict(old(tensors.columns), old(other.tensors.columns))
                      && NoConflict(old(others), old(other.others))
                      && NoConflict(old(metaInfo), old(other.metaInfo))
      ensures ok ==> tensors.columns == old(tensors.columns) + old(other.tensors.columns)
      ensures ok ==> others == old(others) + old(other.others)
      ensures ok ==> metaInfo == old(metaInfo) + old(other.metaInfo)
      ensures tensors.size == old(tensors.size)
      ensures forall k :: k in old(tensors.columns) ==> k in tensors.columns && tensors.columns[k] == old(tensors.columns)[k]
      ensures forall k :: k in old(others) ==> k in others && others[k] == old(others)[k]
      ensures forall k :: k in old(metaInfo) ==> k in metaInfo && metaInfo[k] == old(metaInfo)[k]
    {
      if tensors.size != other.tensors.size { return false; }
      var theirs, theirInfo := other.others, other.metaInfo;
      var columns, ok0 := UnionColumns(tensors.columns, other.tensors.columns);
      tensors := Batch(tensors.size, columns);
      if !ok0 { return false; }
      others, ok := UnionColumns(others, theirs);
      if !ok { return; }
      metaInfo, ok := UnionColumns(metaInfo, theirInfo);
    }
  }

  /** After a union the same union succeeds again and changes nothing. */
  lemma UnionIsIdempotent<T>(mine: map<string, T>, theirs: map<string, T>)
    requires NoConflict(mine, theirs)
    ensures NoConflict(mine + theirs, theirs) && mine + theirs + theirs == mine + theirs
    ensures theirs + mine == mine + theirs
  {
    var u := mine + theirs;
    assert forall k :: k in u + theirs ==> (u + theirs)[k] == u[k];
    assert forall k :: k in theirs + mine ==> (theirs + mine)[k] == u[k];
  }

  lemma UnitedRow<V>(a: Batch<V>, b: Batch<V>, r: nat)
    requires a.Valid() && b.Valid() && a.size == b.size && r < a.size
    ensures Batch(a.size, a.columns + b.columns).Valid()
    ensures Batch(a.size, a.columns + b.columns).Row(r) == a.Row(r) + b.Row(r)
  {
  }

  // ---------------------------------------------------------------- prompts and their rollouts

  /** Row alignment: prompts and generation inputs repeated alike, generated row by row and united,
      pair rollout k of prompt i with that prompt in every column. */
  lemma RowsStayAligned<V(!new)>(prompts: Batch<V>, inputs: Batch<V>, n: nat, i: nat, k: nat,
                                 generate: Batch<V> -> Batch<V>, f: map<string, V> -> map<string, V>, keys: set<string>)
    requires prompts.Valid() && inputs.Valid() && inputs.size == prompts.size && RowWise(generate, f, keys)
    requires i < prompts.size && k < n
    ensures var mine, out := Repeat(prompts, n, true), generate(Repeat(inputs, n, true));
            var united := Batch(mine.size, mine.columns + out.columns);
            && united.Valid() && Times(i, n) + k < united.size && mine.Valid() && out.Valid() && out.size == mine.size
            && mine.Row(Times(i, n) + k) == prompts.Row(i) && out.Row(Times(i, n) + k) == f(inputs.Row(i))
            && united.Row(Times(i, n) + k) == prompts.Row(i) + f(inputs.Row(i))
  {
    hide Times, RepeatColumn, Batch.Row, Batch.Valid;
    RepeatRow(prompts, n, i, k);
    RepeatRow(inputs, n, i, k);
    var out := generate(Repeat(inputs, n, true));
    assert out.Row(Times(i, n) + k) == f(inputs.Row(i));
    UnitedRow(Repeat(prompts, n, true), out, Times(i, n) + k);
  }

  // Columns conflict exactly when a row of the one does with the same row of the other.
  lemma ConflictsByRow<V>(a: Batch<V>, b: Batch<V>)
    requires a.Valid() && b.Valid() && a.size == b.size
    ensures NoConflict(a.columns, b.columns) <==> forall r: nat :: r < a.size ==> NoConflict(a.Row(r), b.Row(r))
  {
    if forall r: nat :: r < a.size ==> NoConflict(a.Row(r), b.Row(r)) {
      forall k | k in a.columns && k in b.columns ensures a.columns[k] == b.columns[k] {
        forall r | 0 <= r < a.size ensures a.columns[k][r] == b.columns[k][r] {
          assert a.Row(r)[k] == b.Row(r)[k];
        }
      }
    }
  }

  lemma RolloutShape<V(!new)>(prompts: Batch<V>, inputs: Batch<V>, n: nat,
                               generate: Batch<V> -> Batch<V>, f: map<string, V> -> map<string, V>, keys: set<string>)
    requires prompts.Valid() && inputs.Valid() && inputs.size == prompts.size && RowWise(generate, f, keys)
    ensures var mine, out := Repeat(prompts, n, true), generate(Repeat(inputs, n, true));
            mine.Valid() && out.Valid() && out.size == mine.size == Times(prompts.size, n)
  {
    RepeatValid(prompts, n, true);
    RepeatValid(inputs, n, true);
    hide Times, RepeatColumn, Batch.Row, Batch.Valid;
  }

  // A row of the repeated prompts is some prompt's, and the same row of the rollouts is one of its rollouts.
  lemma RowOfSomePrompt<V(!new)>(prompts: Batch<V>, inputs: Batch<V>, n: nat, r: nat,
                               generate: Batch<V> -> Batch<V>, f: map<string, V> -> map<string, V>, keys: set<string>)
    requires prompts.Valid() && inputs.Valid() && inputs.size == prompts.size && RowWise(generate, f, keys)
    requires r < Times(prompts.size, n)
    ensures var mine, out := Repeat(prompts, n, true), generate(Repeat(inputs, n, true));
            && mine.Valid() && out.Valid() && out.size == mine.size == Times(prompts.size, n)
            && exists i: nat :: i < prompts.size && mine.Row(r) == prompts.Row(i) && out.Row(r) == f(inputs.Row(i))
  {
    hide Times, Repeat, Batch.Row, Batch.Valid, RowWise;
    RolloutShape(prompts, inputs, n, generate, f, keys);
    var i := Locate(r, prompts.size, n);
    RowsStayAligned(prompts, inputs, n, i, r - Times(i, n), generate, f, keys);
  }

  /** The repeated prompts and their rollouts unite exactly when every prompt agrees with its own rollouts. */
  lemma RolloutsUnite<V(!new)>(prompts: Batch<V>, inputs: Batch<V>, n: nat,
                               generate: Batch<V> -> Batch<V>, f: map<string, V> -> map<string, V>, keys: set<string>)
    requires prompts.Valid() && inputs.Valid() && inputs.size == prompts.size && RowWise(generate, f, keys)
    ensures NoConflict(Repeat(prompts, n, true).columns, generate(Repeat(inputs, n, true)).columns)
            <==> n == 0 || forall i: nat :: i < prompts.size ==> NoConflict(prompts.Row(i), f(inputs.Row(i)))
  {
    assert n == 0 ==> Times(prompts.size, n) == 0;
    hide Times, Repeat, Batch.Row, Batch.Valid, NoConflict, RowWise;
    var mine, out := Repeat(prompts, n, true), generate(Repeat(inputs, n, true));
    RolloutShape(prompts, inputs, n, generate, f, keys);
    ConflictsByRow(mine, out);
    if NoConflict(mine.columns, out.columns) {
      forall i: nat | n > 0 && i < prompts.size ensures NoConflict(prompts.Row(i), f(inputs.Row(i))) {
        RowsStayAligned(prompts, inputs, n, i, 0, generate, f, keys);
      }
    } else {
      var r: nat :| r < mine.size && !NoConflict(mine.Row(r), out.Row(r));
      RowOfSomePrompt(prompts, inputs, n, r, generate, f, keys);
    }
  }

  /** Rollout k of input i is joined to prompt i. */
  ghost predicate Joined<V>(prompts: Batch<V>, inputs: Batch<V>, united: Batch<V>, n: nat,
                            f: map<string, V> -> map<string, V>, i: nat, k: nat)
    requires prompts.Valid() && inputs.Valid() && united.Valid() && i < prompts.size && i < inputs.size
  {
    Times(i, n) + k < united.size && united.Row(Times(i, n) + k) == prompts.Row(i) + f(inputs.Row(i))
  }

  /** Entry k of the n copies of entry i stands with row k of the n copies of row i. */
  ghost predicate Copied<V>(column: seq<V>, copies: seq<V>, size: nat, n: nat) {
    && |column| == size && |copies| == Times(size, n)
    && forall i: nat, k: nat :: i < size && k < n ==> CopyAt(column, copies, n, i, k)
  }

  ghost predicate CopyAt<V>(column: seq<V>, copies: seq<V>, n: nat, i: nat, k: nat)
    requires i < |column|
  {
    Times(i, n) + k < |copies| && copies[Times(i, n) + k] == column[i]
  }

  lemma RepeatCopies<V>(column: seq<V>, n: nat)
    ensures Copied(column, RepeatColumn(column, n, true), |column|, n)
  {
    hide Times, RepeatColumn;
    RepeatLength(column, n);
    forall i: nat, k: nat | i < |column| && k < n ensures CopyAt(column, RepeatColumn(column, n, true), n, i, k) {
      RepeatColumnAt(column, n, i, k);
    }
  }

  lemma RepeatLength<V>(column: seq<V>, n: nat)
    ensures |RepeatColumn(column, n, true)| == Times(|column|, n)
  {
    FlattenLength(seq(|column|, l requires 0 <= l < |column| => Copies(column[l], n)), n);
  }

  /** The batch of a step: the prompts repeated, and united with the rollouts of the inputs repeated
      alike. It fails exactly when a prompt disagrees with one of its rollouts; otherwise row
      i * n + k is prompt i joined to its rollout. */
  method PairWithRollouts<V(==, !new), M(==)>(prompts: DataProto<V, M>, inputs: Batch<V>, n: nat,
                                              generate: Batch<V> -> Batch<V>,
                                              ghost f: map<string, V> -> map<string, V>, ghost keys: set<string>)
    returns (ok: bool)
    requires prompts.tensors.Valid() && inputs.Valid() && inputs.size == prompts.tensors.size
    requires forall key :: key in prompts.others ==> |prompts.others[key]| == inputs.size
    requires RowWise(generate, f, keys)
    modifies prompts
    ensures ok <==> n == 0 || forall i: nat :: i < inputs.size ==> NoConflict(old(prompts.tensors).Row(i), f(inputs.Row(i)))
    ensures ok ==> prompts.tensors.Valid() && prompts.tensors.size == Times(inputs.size, n)
    ensures ok ==> forall i: nat, k: nat :: i < inputs.size && k < n ==>
              Joined(old(prompts.tensors), inputs, prompts.tensors, n, f, i, k)
    ensures ok ==> prompts.others.Keys == old(prompts.others).Keys
    ensures ok ==> forall key :: key in prompts.others ==>
              Copied(old(prompts.others)[key], prompts.others[key], inputs.size, n)
    ensures ok ==> prompts.metaInfo == old(prompts.metaInfo)
  {
    hide Times, RepeatColumn, Batch.Row, NoConflict;
    ghost var before := prompts.tensors;
    RepeatValid(before, n, true);
    RepeatValid(inputs, n, true);
    RolloutsUnite(before, inputs, n, generate, f, keys);
    prompts.tensors := Repeat(prompts.tensors, n, true);
    ghost var others := prompts.others;
    prompts.others := map k | k in prompts.others :: RepeatColumn(prompts.others[k], n, true);
    forall key | key in others ensures Copied(others[key], RepeatColumn(others[key], n, true), inputs.size, n) {
      RepeatCopies(others[key], n);
    }
    var rollouts := new DataProto<V, M>(generate(Repeat(inputs, n, true)), map[], map[]);
    NothingConflicts(prompts.others);
    NothingConflicts(prompts.metaInfo);
    ok := prompts.Union(rollouts);
    if ok {
      forall i: nat, k: nat | i < inputs.size && k < n
        ensures Joined(before, inputs, prompts.tensors, n, f, i, k)
      {
        RowsStayAligned(before, inputs, n, i, k, generate, f, keys);
      }
    }
  }

  lemma NothingConflicts<T>(mine: map<string, T>)
    ensures NoConflict(mine, map[]) && mine + map[] == mine
  {
  }
}
