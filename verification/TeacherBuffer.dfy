/**
 `get_teacher_knowledge`: the sequences of a batch are sent to the teacher in micro-batches, and the
 rows that come back are scattered into a padded buffer that every call reuses.
 */
module TeacherBuffer {
  import opened Basics

  datatype Error = ZeroDivision | NotDivisible | EmptyBatch | RequestFailed | TooFewAnswers | WrongLength

  datatype Result<T> = Ok(value: T) | Err(error: Error)

  // ---------------------------------------------------------------- masked rows

  /** `xs[mask]`: the elements at the marked places, in order. */
  function Select<T>(xs: seq<T>, mask: seq<bool>): (r: seq<T>)
    requires |xs| == |mask|
    ensures |r| == Count(mask)
    decreases |xs|
  {
    if xs == [] then [] else
    var n := |xs| - 1;
    Select(xs[..n], mask[..n]) + (if mask[n] then [xs[n]] else [])
  }

  /** What `row[mask] = rows` writes over a row of zeros; a single row is broadcast. */
  function Scattered<T>(mask: seq<bool>, rows: seq<T>, zero: T): (r: seq<T>)
    requires Fits(mask, rows)
  {
    seq(|mask|, j requires 0 <= j < |mask| => Cell(mask, rows, zero, j))
  }

  predicate Fits<T>(mask: seq<bool>, rows: seq<T>) { |rows| == Count(mask) || |rows| == 1 }

  function Cell<T>(mask: seq<bool>, rows: seq<T>, zero: T, j: nat): T
    requires Fits(mask, rows) && j < |mask|
  {
    if !mask[j] then zero else CountBelow(mask, j); if |rows| == 1 then rows[0] else rows[Count(mask[..j])]
  }

  lemma {:induction false} CountBelow(mask: seq<bool>, j: nat)
    requires j < |mask| && mask[j]
    ensures Count(mask[..j]) < Count(mask)
  {
    var n := |mask| - 1;
    if j < n {
      CountBelow(mask[..n], j);
      assert mask[..n][..j] == mask[..j];
    }
  }

  lemma {:induction false} CountPrefix(mask: seq<bool>, j: nat)
    requires j <= |mask|
    ensures Count(mask[..j]) <= Count(mask)
  {
    var n := |mask| - 1;
    if j <= n {
      CountPrefix(mask[..n], j);
      assert mask[..n][..j] == mask[..j];
    } else {
      assert mask[..j] == mask;
    }
  }

  /** A marked element comes after the marked ones before it. */
  lemma {:induction false} SelectAt<T>(xs: seq<T>, mask: seq<bool>, j: nat)
    requires j < |xs| == |mask| && mask[j]
    ensures Count(mask[..j]) < Count(mask) == |Select(xs, mask)| && Select(xs, mask)[Count(mask[..j])] == xs[j]
    decreases |xs|
  {
    CountBelow(mask, j);
    var n := |xs| - 1;
    if j < n {
      SelectAt(xs[..n], mask[..n], j);
      assert mask[..n][..j] == mask[..j];
    }
  }

  /** The marked places of a scattered row read back the rows, in order. */
  lemma ReadsBack<T>(mask: seq<bool>, rows: seq<T>, zero: T)
    requires |rows| == Count(mask)
    ensures Select(Scattered(mask, rows, zero), mask) == rows
  {
    PrefixReadsBack(mask, rows, zero, |mask|);
    var s := Scattered(mask, rows, zero);
    assert s[..|mask|] == s && mask[..|mask|] == mask && rows[..|rows|] == rows;
  }

  lemma {:induction false} PrefixReadsBack<T>(mask: seq<bool>, rows: seq<T>, zero: T, n: nat)
    requires |rows| == Count(mask) && n <= |mask|
    ensures Count(mask[..n]) <= |rows|
    ensures Select(Scattered(mask, rows, zero)[..n], mask[..n]) == rows[..Count(mask[..n])]
  {
    CountPrefix(mask, n);
    if n > 0 {
      var s, m := Scattered(mask, rows, zero), n - 1;
      PrefixReadsBack(mask, rows, zero, m);
      assert s[..n][..m] == s[..m] && mask[..n][..m] == mask[..m];
      if mask[m] {
        CountBelow(mask, m);
        assert s[m] == rows[Count(mask[..m])];
      }
    }
  }

  // ---------------------------------------------------------------- micro-batches

  function Slice<T>(xs: seq<T>, i: nat, size: nat): seq<T>
    requires i <= |xs|
  {
    if i + size <= |xs| then xs[i..i + size] else xs[i..]
  }

  /** `xs[i : i + size]` for i in range(0, |xs|, size). */
  function Parts<T>(xs: seq<T>, size: nat): seq<seq<T>>
    requires size > 0
  {
    if xs == [] then [] else
    if |xs| <= size then [xs] else [xs[..size]] + Parts(xs[size..], size)
  }

  /** The teacher's replies to the parts, one after the other; None when a request fails. */
  function Gather<I, T>(reply: I -> Result<seq<T>>, parts: seq<I>): Result<seq<T>> {
    if parts == [] then Ok([]) else
    match reply(parts[0])
    case Err(e) => Err(RequestFailed)
    case Ok(first) =>
      match Gather(reply, parts[1..])
      case Err(e) => Err(e)
      case Ok(rest) => Ok(first + rest)
  }

  type Ids = seq<int>

  /** The batch: token ids and attention mask, both of the same shape. */
  ghost predicate Shaped(ids: seq<Ids>, mask: seq<seq<bool>>) {
    |ids| == |mask| && forall i :: 0 <= i < |ids| ==> |ids[i]| == |mask[i]|
  }

  function Inputs(ids: seq<Ids>, mask: seq<seq<bool>>): (r: seq<Ids>)
    requires Shaped(ids, mask)
    ensures |r| == |ids|
  {
    seq(|ids|, i requires 0 <= i < |ids| => Select(ids[i], mask[i]))
  }

  /** The first error of the scatter loop from row `i` on. */
  function ScatterError<T>(mask: seq<seq<bool>>, answers: seq<seq<T>>, i: nat): Result<bool>
    requires i <= |mask|
    decreases |mask| - i
  {
    if i == |mask| then Ok(true)
    else if i >= |answers| then Err(TooFewAnswers)
    else if !Fits(mask[i], answers[i]) then Err(WrongLength)
    else ScatterError(mask, answers, i + 1)
  }

  /** The teacher's answers for a batch, or the error that stops the call. */
  function Answers<T>(ids: seq<Ids>, mask: seq<seq<bool>>, workers: nat, reply: seq<Ids> -> Result<seq<seq<T>>>)
    : Result<seq<seq<T>>>
    requires Shaped(ids, mask)
  {
    if workers == 0 then Err(ZeroDivision)
    else if |ids| % workers != 0 then Err(NotDivisible)
    else if |ids| / workers == 0 then Err(EmptyBatch)
    else match Gather(reply, Parts(Inputs(ids, mask), |ids| / workers))
      case Err(e) => Err(e)
      case Ok(answers) =>
        match ScatterError(mask, answers, 0)
        case Err(e) => Err(e)
        case Ok(_) => Ok(answers)
  }

  // ---------------------------------------------------------------- the reused buffer

  /** A module-level padded buffer. */
  class Padded<T> {
    var cells: array2?<T>

    constructor ()
      ensures cells == null
    {
      cells := null;
    }

    /** A zero buffer of this shape: a new one, or the old one zeroed in place. */
    method Reset(rows: nat, cols: nat, zero: T)
      modifies this, cells
      ensures cells != null && cells.Length0 == rows && cells.Length1 == cols
      ensures fresh(cells) || cells == old(cells)
      ensures forall i, j :: 0 <= i < rows && 0 <= j < cols ==> cells[i, j] == zero
    {
      if cells == null || cells.Length0 != rows || cells.Length1 != cols {
        cells := new T[rows, cols]((i, j) => zero);
      } else {
        var c := cells;
        forall i, j | 0 <= i < rows && 0 <= j < cols {
          c[i, j] := zero;
        }
      }
    }

    /** `padded[i][mask] = rows`. */
    method Scatter(i: nat, mask: seq<bool>, rows: seq<T>)
      requires cells != null && i < cells.Length0 && |mask| == cells.Length1 && Fits(mask, rows)
      modifies cells
      ensures forall j :: 0 <= j < |mask| ==>
                cells[i, j] == if mask[j] then Scattered(mask, rows, old(cells[i, j]))[j] else old(cells[i, j])
      ensures forall k, j :: 0 <= k < cells.Length0 && k != i && 0 <= j < |mask| ==> cells[k, j] == old(cells[k, j])
    {
      var next := 0;
      for j := 0 to |mask|
        invariant next == Count(mask[..j])
        invariant forall l :: 0 <= l < j ==>
                    cells[i, l] == if mask[l] then Cell(mask, rows, old(cells[i, l]), l) else old(cells[i, l])
        invariant forall l :: j <= l < |mask| ==> cells[i, l] == old(cells[i, l])
        invariant forall k, l :: 0 <= k < cells.Length0 && k != i && 0 <= l < |mask| ==> cells[k, l] == old(cells[k, l])
      {
        assert mask[..j + 1][..j] == mask[..j];
        if mask[j] {
          CountBelow(mask, j);
          cells[i, j] := if |rows| == 1 then rows[0] else rows[next];
          next := next + 1;
        }
      }
    }
  }

  /** The buffer has the batch's shape and every row is scattered over zeros. */
  ghost predicate Filled<T>(cells: array2<T>, mask: seq<seq<bool>>, cols: nat, answers: seq<seq<T>>, zero: T)
    reads cells
  {
    && cells.Length0 == |mask| <= |answers| && cells.Length1 == cols
    && (forall i :: 0 <= i < |mask| ==> |mask[i]| == cols && Fits(mask[i], answers[i]))
    && (forall i, j :: 0 <= i < |mask| && 0 <= j < cols ==> cells[i, j] == Scattered(mask[i], answers[i], zero)[j])
  }

  /** `get_teacher_knowledge` and its `get`: which error, if any, and what the buffer then holds, do
      not depend on what it held before. */
  method GetTeacherKnowledge<T>(padded: Padded<T>, ids: seq<Ids>, mask: seq<seq<bool>>, cols: nat, workers: nat,
                                reply: seq<Ids> -> Result<seq<seq<T>>>, zero: T)
    returns (r: Result<seq<seq<T>>>)
    requires Shaped(ids, mask) && forall i :: 0 <= i < |mask| ==> |mask[i]| == cols
    modifies padded, padded.cells
    ensures r == Answers(ids, mask, workers, reply)
    ensures r.Ok? ==> padded.cells != null && Filled(padded.cells, mask, cols, r.value, zero)
  {
    if workers == 0 { return Err(ZeroDivision); }
    if |ids| % workers != 0 { return Err(NotDivisible); }
    var size := |ids| / workers;
    if size == 0 { return Err(EmptyBatch); }
    var inputs := Inputs(ids, mask);
    var futures := Submit(inputs, size);
    r := Collect(futures, reply);
    if r.Err? { return; }
    padded.Reset(|mask|, cols, zero);
    var failed := ScatterAll(padded, mask, r.value, zero);
    match failed {
      case Err(e) => r := Err(e);
      case Ok(_) =>
    }
  }

  // The parts of the inputs from i on.
  function PartsFrom<I>(inputs: seq<I>, i: nat, size: nat): seq<seq<I>>
    requires size > 0
  {
    if i < |inputs| then Parts(inputs[i..], size) else []
  }

  lemma NextPart<I>(inputs: seq<I>, i: nat, size: nat)
    requires size > 0 && i < |inputs|
    ensures PartsFrom(inputs, i, size) == [Slice(inputs, i, size)] + PartsFrom(inputs, i + size, size)
  {
    if i + size < |inputs| {
      assert inputs[i..][size..] == inputs[i + size..];
      assert inputs[i..][..size] == Slice(inputs, i, size);
    } else {
      assert inputs[i..] == Slice(inputs, i, size);
    }
  }

  lemma Shift<T>(front: seq<T>, x: T, rest: seq<T>)
    ensures front + ([x] + rest) == front + [x] + rest
  {
  }

  method Submit<I>(inputs: seq<I>, size: nat) returns (futures: seq<seq<I>>)
    requires size > 0
    ensures futures == Parts(inputs, size)
  {
    assert Parts(inputs, size) == [] + PartsFrom(inputs, 0, size) by { assert inputs[0..] == inputs; }
    futures := [];
    var i := 0;
    while i < |inputs|
      invariant 0 <= i
      invariant Parts(inputs, size) == futures + PartsFrom(inputs, i, size)
      decreases |inputs| - i
    {
      hide *;
      var part := Slice(inputs, i, size);
      NextPart(inputs, i, size);
      Shift(futures, part, PartsFrom(inputs, i + size, size));
      futures := futures + [part];
      i := i + size;
    }
  }

  method Collect<I, T>(futures: seq<I>, reply: I -> Result<seq<T>>) returns (r: Result<seq<T>>)
    ensures r == Gather(reply, futures)
  {
    var all: seq<T> := [];
    ghost var whole := Gather(reply, futures);
    assert futures[0..] == futures && (whole.Ok? ==> all + whole.value == whole.value);
    for k := 0 to |futures|
      invariant Gather(reply, futures) == Prepended(all, Gather(reply, futures[k..]))
    {
      ghost var rest := Gather(reply, futures[k + 1..]);
      assert futures[k..][1..] == futures[k + 1..];
      match reply(futures[k]) {
        case Err(_) => return Err(RequestFailed);
        case Ok(first) =>
          assert rest.Ok? ==> all + (first + rest.value) == all + first + rest.value;
          all := all + first;
      }
    }
    assert all + [] == all;
    return Ok(all);
  }

  ghost function Prepended<T>(all: seq<T>, r: Result<seq<T>>): Result<seq<T>> {
    if r.Ok? then Ok(all + r.value) else r
  }

  method ScatterAll<T>(padded: Padded<T>, mask: seq<seq<bool>>, answers: seq<seq<T>>, ghost zero: T)
    returns (r: Result<bool>)
    requires padded.cells != null && padded.cells.Length0 == |mask|
    requires forall i :: 0 <= i < |mask| ==> |mask[i]| == padded.cells.Length1
    requires forall i, j :: 0 <= i < |mask| && 0 <= j < padded.cells.Length1 ==> padded.cells[i, j] == zero
    modifies padded.cells
    ensures r == ScatterError(mask, answers, 0)
    ensures r.Ok? ==> Filled(padded.cells, mask, padded.cells.Length1, answers, zero)
  {
    for i := 0 to |mask|
      invariant ScatterError(mask, answers, 0) == ScatterError(mask, answers, i) && i <= |answers|
      invariant forall k :: 0 <= k < i ==> Fits(mask[k], answers[k])
      invariant forall k, j :: 0 <= k < i && 0 <= j < padded.cells.Length1 ==>
                  padded.cells[k, j] == Scattered(mask[k], answers[k], zero)[j]
      invariant forall k, j :: i <= k < |mask| && 0 <= j < padded.cells.Length1 ==> padded.cells[k, j] == zero
    {
      if i >= |answers| { return Err(TooFewAnswers); }
      if !Fits(mask[i], answers[i]) { return Err(WrongLength); }
      padded.Scatter(i, mask[i], answers[i]);
    }
    return Ok(true);
  }

  // ---------------------------------------------------------------- what a call comes to

  lemma TimesNext(n: nat, s: nat)
    ensures Times(0, s) == 0 && Times(n + 1, s) == Times(n, s) + s
  {
  }

  /** Part p of xs, cut into parts of a size that divides them, is the p-th stretch of that size. */
  lemma {:induction false} EqualParts<T>(xs: seq<T>, n: nat, size: nat, p: nat)
    requires size > 0 && |xs| == Times(n, size) && (p < n || n == 0)
    ensures |Parts(xs, size)| == n
    ensures p < n ==> Times(p, size) + size <= |xs| && Parts(xs, size)[p] == xs[Times(p, size)..Times(p, size) + size]
    decreases n
  {
    hide Times;
    TimesNext(p, size);
    if n > 0 {
      TimesNext(n - 1, size);
      TimesGrows(p, n, size);
      if n > 1 {
        TimesNext(n - 2, size);
        EqualParts(xs[size..], n - 1, size, if p > 0 then p - 1 else 0);
        if p > 0 { TimesNext(p - 1, size); }
      } else {
        assert xs[0..|xs|] == xs;
      }
    }
  }

  /** The rows replied to the first p parts. */
  function RowsBefore<I, T>(reply: I -> Result<seq<T>>, parts: seq<I>, p: nat): nat
    requires p <= |parts|
  {
    if p == 0 then 0 else
    RowsBefore(reply, parts, p - 1) + (match reply(parts[p - 1]) case Ok(rows) => |rows| case Err(_) => 0)
  }

  lemma {:induction false} RowsBeforeShift<I, T>(reply: I -> Result<seq<T>>, parts: seq<I>, p: nat)
    requires p < |parts| && reply(parts[0]).Ok?
    ensures RowsBefore(reply, parts, p + 1) == |reply(parts[0]).value| + RowsBefore(reply, parts[1..], p)
  {
    if p > 0 { RowsBeforeShift(reply, parts, p - 1); }
  }

  /** `rows` are the replies to the parts, in the order of the parts and with nothing between them. */
  ghost predicate InOrder<I, T>(reply: I -> Result<seq<T>>, parts: seq<I>, rows: seq<T>) {
    && |rows| == RowsBefore(reply, parts, |parts|)
    && forall p: nat :: p < |parts| ==> ReplyAt(reply, parts, rows, p)
  }

  ghost predicate ReplyAt<I, T>(reply: I -> Result<seq<T>>, parts: seq<I>, rows: seq<T>, p: nat)
    requires p < |parts|
  {
    var from := RowsBefore(reply, parts, p);
    match reply(parts[p])
    case Ok(mine) => from + |mine| <= |rows| && rows[from..from + |mine|] == mine
    case Err(_) => false
  }

  lemma ReplyShift<I, T>(reply: I -> Result<seq<T>>, parts: seq<I>, rest: seq<T>, p: nat)
    requires p < |parts| && reply(parts[0]).Ok? && (p > 0 ==> ReplyAt(reply, parts[1..], rest, p - 1))
    ensures ReplyAt(reply, parts, reply(parts[0]).value + rest, p)
  {
    if p > 0 { RowsBeforeShift(reply, parts, p - 1); }
  }

  lemma {:induction false} GatherExactly<I, T>(reply: I -> Result<seq<T>>, parts: seq<I>)
    ensures var r := Gather(reply, parts);
            && (r.Err? <==> exists p :: 0 <= p < |parts| && reply(parts[p]).Err?)
            && (r.Err? ==> r.error == RequestFailed)
            && (r.Ok? ==> InOrder(reply, parts, r.value))
  {
    hide ReplyAt;
    if parts != [] && reply(parts[0]).Ok? {
      var rest := parts[1..];
      GatherExactly(reply, rest);
      assert forall p :: 0 < p < |parts| ==> parts[p] == rest[p - 1];
      match Gather(reply, rest) {
        case Err(_) =>
        case Ok(rows) =>
          assert forall p :: 0 <= p < |rest| ==> reply(rest[p]).Ok?;
          RowsBeforeShift(reply, parts, |parts| - 1);
          forall p: nat | p < |parts| ensures ReplyAt(reply, parts, reply(parts[0]).value + rows, p) {
            ReplyShift(reply, parts, rows, p);
          }
      }
    }
  }

  /** Some answer has neither a row for every marked place nor a single one. */
  ghost predicate SomeMisfit<T>(mask: seq<seq<bool>>, answers: seq<seq<T>>, from: nat) {
    exists k :: from <= k < |mask| && k < |answers| && |answers[k]| != Count(mask[k]) && |answers[k]| != 1
  }

  lemma {:induction false} ScatterExactly<T>(mask: seq<seq<bool>>, answers: seq<seq<T>>, i: nat)
    requires i <= |mask| && i <= |answers|
    ensures ScatterError(mask, answers, i) ==
            if SomeMisfit(mask, answers, i) then Err(WrongLength)
            else if |answers| < |mask| then Err(TooFewAnswers) else Ok(true)
    decreases |mask| - i
  {
    if i < |mask| && i < |answers| { ScatterExactly(mask, answers, i + 1); }
  }

  /** The rows of the batch that go into request p. */
  function Request<T>(xs: seq<T>, workers: nat, p: nat): (r: seq<T>)
    requires workers > 0 && Times(p, |xs| / workers) + |xs| / workers <= |xs|
  {
    xs[Times(p, |xs| / workers)..Times(p, |xs| / workers) + |xs| / workers]
  }

  /** Exactly when a call succeeds and when it stops with which error. The requests are the batch in
      as many equal stretches as there are workers, and the answers are their replies in that order. */
  lemma Outcomes<T>(ids: seq<Ids>, mask: seq<seq<bool>>, workers: nat, reply: seq<Ids> -> Result<seq<seq<T>>>)
    returns (requests: seq<seq<Ids>>)
    requires Shaped(ids, mask)
    ensures var r := Answers(ids, mask, workers, reply);
            && (r == Err(ZeroDivision) <==> workers == 0)
            && (r == Err(NotDivisible) <==> workers > 0 && |ids| % workers != 0)
            && (r == Err(EmptyBatch) <==> workers > 0 && ids == [])
    ensures workers > 0 && |ids| % workers == 0 && ids != [] ==>
              && |requests| == workers
              && (forall p: nat :: p < workers ==> Times(p, |ids| / workers) + |ids| / workers <= |ids|)
              && (forall p: nat :: p < workers ==> requests[p] == Request(Inputs(ids, mask), workers, p))
              && var r := Answers(ids, mask, workers, reply);
                 && (r == Err(RequestFailed) <==> exists p :: 0 <= p < workers && reply(requests[p]).Err?)
                 && (r != Err(RequestFailed) ==> exists answers: seq<seq<T>> ::
                      && InOrder(reply, requests, answers)
                      && r == if SomeMisfit(mask, answers, 0) then Err(WrongLength)
                              else if |answers| < |mask| then Err(TooFewAnswers) else Ok(answers))
  {
    requests := [];
    if workers > 0 {
      Division(|ids|, workers);
      hide Inputs, Parts, Gather, ScatterError, InOrder, SomeMisfit, Times;
      if |ids| % workers == 0 && ids != [] {
        var inputs, size := Inputs(ids, mask), |ids| / workers;
        requests := Parts(inputs, size);
        forall p: nat | p < workers
          ensures |requests| == workers && Times(p, size) + size <= |ids| && requests[p] == Request(inputs, workers, p)
        {
          EqualParts(inputs, workers, size, p);
        }
        GatherExactly(reply, requests);
        match Gather(reply, requests) {
          case Err(e) =>
          case Ok(answers) => ScatterExactly(mask, answers, 0);
        }
      }
    }
  }

  lemma Division(n: nat, workers: nat)
    requires workers > 0
    ensures n == 0 ==> n % workers == 0 && n / workers == 0
    ensures n % workers == 0 ==> n == Times(workers, n / workers) && (n > 0 ==> n / workers > 0)
  {
    assert n == workers * (n / workers) + n % workers;
  }

  // ---------------------------------------------------------------- any split gives the same

  /** A teacher that answers every sequence by itself, one row a token. */
  ghost predicate RowWise<T>(reply: seq<Ids> -> Result<seq<seq<T>>>, teach: Ids -> seq<T>) {
    && (forall xs :: reply(xs) == Ok(Each(teach, xs)))
    && (forall x :: |teach(x)| == |x|)
  }

  function Each<A, B>(f: A -> B, xs: seq<A>): seq<B> { seq(|xs|, i requires 0 <= i < |xs| => f(xs[i])) }

  lemma {:induction false} GatherParts<T>(reply: seq<Ids> -> Result<seq<seq<T>>>, teach: Ids -> seq<T>, xs: seq<Ids>, size: nat)
    requires size > 0 && RowWise(reply, teach)
    ensures Gather(reply, Parts(xs, size)) == Ok(Each(teach, xs))
    decreases |xs|
  {
    if |xs| > size {
      GatherParts(reply, teach, xs[size..], size);
      assert Parts(xs, size)[1..] == Parts(xs[size..], size);
      assert Each(teach, xs[..size]) + Each(teach, xs[size..]) == Each(teach, xs);
    } else if xs == [] {
      assert Each(teach, xs) == [];
    } else {
      var one := [xs];
      assert one[1..] == [];
      assert Gather(reply, one) == Ok(Each(teach, xs) + []);
      assert Each(teach, xs) + [] == Each(teach, xs);
    }
  }

  lemma {:induction false} NoScatterError<T>(mask: seq<seq<bool>>, answers: seq<seq<T>>, i: nat)
    requires i <= |mask| == |answers| && forall k :: 0 <= k < |mask| ==> |answers[k]| == Count(mask[k])
    ensures ScatterError(mask, answers, i) == Ok(true)
    decreases |mask| - i
  {
    if i < |mask| { NoScatterError(mask, answers, i + 1); }
  }

  /** For such a teacher every number of workers that divides the batch gives the same buffer: row i
      reads back the teacher's answer to sequence i at its marked places, and is zero elsewhere. */
  lemma AnySplit<T>(ids: seq<Ids>, mask: seq<seq<bool>>, workers: nat,
                    reply: seq<Ids> -> Result<seq<seq<T>>>, teach: Ids -> seq<T>, zero: T)
    requires Shaped(ids, mask) && RowWise(reply, teach)
    requires ids != [] && workers > 0 && |ids| % workers == 0
    ensures Answers(ids, mask, workers, reply) == Ok(Each(teach, Inputs(ids, mask)))
    ensures forall i :: 0 <= i < |ids| ==>
              && Fits(mask[i], teach(Select(ids[i], mask[i])))
              && var row := Scattered(mask[i], teach(Select(ids[i], mask[i])), zero);
                 && Select(row, mask[i]) == teach(Select(ids[i], mask[i]))
                 && forall j :: 0 <= j < |row| && !mask[i][j] ==> row[j] == zero
  {
    var inputs := Inputs(ids, mask);
    assert |ids| == workers * (|ids| / workers);
    GatherParts(reply, teach, inputs, |ids| / workers);
    NoScatterError(mask, Each(teach, inputs), 0);
    forall i | 0 <= i < |ids|
      ensures Fits(mask[i], teach(Select(ids[i], mask[i])))
      ensures Select(Scattered(mask[i], teach(Select(ids[i], mask[i])), zero), mask[i]) == teach(Select(ids[i], mask[i]))
    {
      ReadsBack(mask[i], teach(Select(ids[i], mask[i])), zero);
    }
  }
}
