/**
 Ranges of int64 (`pkg/lang/longrange.go`): how many elements there are, and whether the chunk walk,
 `Next` and the reductions visit them, given that every addition wraps around.
 */
module LongRanges {
  import opened Objects
  import opened Int64
  import NumberOps

  /** `count` is a Go `int`, which `Next` may take below zero. */
  datatype LongRange = LongRange(start: int64, end: int64, step: int64, count: int64)

  /** What `NewLongRange` returns: `Generic` is the arbitrary-precision range used after an overflow panic. */
  datatype RangeSeq = Empty | Repeat(start: int64) | Direct(range: LongRange) | Generic

  /** The element count is the ceiling of (end - start) / step. */
  predicate Valid(r: LongRange) {
    && r.count >= 1
    && Fits(r.end - r.start)
    && r.step != 0
    && (r.step > 0 ==> At(r, r.count - 1) < r.end <= At(r, r.count))
    && (r.step < 0 ==> At(r, r.count - 1) > r.end >= At(r, r.count))
  }

  function At(r: LongRange, i: int): int { r.start + i * r.step }

  function Elements(r: LongRange): (s: seq<int>)
    ensures |s| == if r.count > 0 then r.count else 0
  {
    seq(if r.count > 0 then r.count else 0, i => At(r, i))
  }

  function Min(a: int64, b: int64): int64 { if a < b then a else b }

  // ---- counting ----

  function RangeCount(start: int64, end: int64, step: int64): (count: Option<int64>)
    requires step > 0 ==> start < end
    requires step < 0 ==> start > end
    requires step != 0
    ensures count.None? <==> !Fits(end - start) || !Fits(end - start + step)
    ensures count.Some? ==> Valid(LongRange(start, end, step, count.value))
  {
    var o := if step > 0 then -1 else 1;
    var a := NumberOps.Sub(end, start);
    var b := if a.None? then None else NumberOps.Add(a.value.long, step);
    var c := if b.None? then None else NumberOps.Add(b.value.long, o);
    if c.None? then None
    else
      CountIsCeiling(start, end, step, c.value.long);
      Some(GoQuo(c.value.long, step))
  }

  function NewLongRange(start: int64, end: int64, step: int64): (s: RangeSeq)
    ensures s.Direct? ==> Valid(s.range) && s.range.start == start && s.range.end == end && s.range.step == step
    ensures s.Direct? <==> ((step > 0 && start < end) || (step < 0 && start > end)) &&
                           Fits(end - start) && Fits(end - start + step)
    ensures s.Empty? <==> (step > 0 && end <= start) || (step < 0 && end >= start) || (step == 0 && start == end)
    ensures step == 0 && start != end ==> s == Repeat(start)
  {
    if step > 0 && end <= start then Empty
    else if step < 0 && end >= start then Empty
    else if step == 0 then if end == start then Empty else Repeat(start)
    else
      var count := RangeCount(start, end, step);
      if count.None? then Generic else Direct(LongRange(start, end, step, count.value))
  }

  lemma CountIsCeiling(start: int64, end: int64, step: int64, n: int)
    requires step > 0 ==> start < end && n == end - start + step - 1
    requires step < 0 ==> start > end && n == end - start + step + 1
    requires step != 0 && Fits(n) && Fits(end - start) && Fits(end - start + step)
    ensures Valid(LongRange(start, end, step, GoQuo(n, step)))
  {
    var m, k := Abs(n), Abs(step);
    NumberOps.QuoRange(n, step);
    QuoOfSameSign(n, step);
    Ceiling(Abs((end as int) - start), k, m / k);
    if step < 0 { Distribute(step, m / k); Distribute(step, m / k - 1); }
  }

  lemma Ceiling(distance: int, k: int, q: int)
    requires k > 0 && distance > 0 && q == (distance + k - 1) / k
    ensures q >= 1 && (q - 1) * k < distance <= q * k
  {
    DivMod(distance + k - 1, k);
    Distribute(k, q);
    NumberOps.ZeroProduct(q, k);
  }

  lemma QuoOfSameSign(n: int, step: int)
    requires step > 0 ==> n >= 0
    requires step < 0 ==> n < 0
    requires step != 0
    ensures Quo(n, step) == Abs(n) / Abs(step)
  {}

  lemma DivMod(m: nat, k: nat)
    requires k > 0
    ensures 0 <= m - m / k * k < k
  {
    assert m == k * (m / k) + m % k;
  }

  lemma Distribute(step: int, q: int)
    ensures (q - 1) * step == q * step - step
    ensures (-step) * q == -(q * step) && q * (-step) == -(q * step)
  {}

  /** Every element lies between start and end, and so does its distance from the start: nothing wraps. */
  lemma ElementFits(r: LongRange, i: int)
    requires Valid(r) && 0 <= i < r.count
    ensures Fits(At(r, i)) && Fits(i * r.step)
    ensures if r.step > 0 then r.start <= At(r, i) < r.end else r.start >= At(r, i) > r.end
  {
    if r.step > 0 {
      Scale(r.step, 0, i);
      Scale(r.step, i, r.count - 1);
    } else {
      Scale(-(r.step as int), 0, i);
      Scale(-(r.step as int), i, r.count - 1);
      Distribute(r.step, i);
      Distribute(r.step, r.count - 1);
    }
  }

  // ---- chunks ----

  datatype LongChunk = LongChunk(start: int64, step: int64, count: int64)

  function Nth(c: LongChunk, i: int64): int64 { Wrap(c.start + Wrap(i * c.step)) }

  const CHUNK_SIZE: int64 := 32

  function ChunkedFirst(r: LongRange): LongChunk {
    LongChunk(r.start, r.step, Min(r.count, CHUNK_SIZE))
  }

  /** `None` is the empty list. */
  function ChunkedMore(r: LongRange): Option<LongRange> {
    var n := Min(r.count, CHUNK_SIZE);
    if n == r.count then None
    else Some(LongRange(Wrap(r.start + Wrap(n * r.step)), r.end, r.step, Wrap(r.count - n)))
  }

  function ChunkElements(c: LongChunk): seq<int>
    requires c.count >= 0
  {
    seq(c.count, i requires 0 <= i < c.count => Nth(c, i))
  }

  lemma MoreIsValid(r: LongRange)
    requires Valid(r) && r.count > CHUNK_SIZE
    ensures var more := ChunkedMore(r);
            more.Some? && Valid(more.value) && more.value.count == r.count - CHUNK_SIZE
            && more.value.start == At(r, CHUNK_SIZE) && more.value.step == r.step
  {
    ElementFits(r, CHUNK_SIZE);
    Shift(r, CHUNK_SIZE, r.count - CHUNK_SIZE);
    Shift(r, CHUNK_SIZE, r.count - CHUNK_SIZE - 1);
  }

  lemma Shift(r: LongRange, i: int, j: int)
    ensures At(r, i) + j * r.step == At(r, i + j)
  {
    assert (i + j) * r.step == i * r.step + j * r.step;
  }

  /** Walking `ChunkedFirst`/`ChunkedMore` to the end. */
  function ChunkWalk(r: LongRange): seq<int>
    requires Valid(r)
    decreases r.count
  {
    var first := ChunkElements(ChunkedFirst(r));
    if ChunkedMore(r).None? then first
    else
      MoreIsValid(r);
      first + ChunkWalk(ChunkedMore(r).value)
  }

  lemma {:induction false} ChunkWalkVisits(r: LongRange)
    requires Valid(r)
    ensures ChunkWalk(r) == Elements(r)
    decreases r.count
  {
    forall i | 0 <= i < r.count
      ensures Fits(At(r, i)) && Fits(i * r.step)
    {
      ElementFits(r, i);
    }
    if r.count > CHUNK_SIZE {
      MoreIsValid(r);
      var more := ChunkedMore(r).value;
      ChunkWalkVisits(more);
      forall j | 0 <= j < more.count
        ensures At(more, j) == At(r, CHUNK_SIZE + j)
      {
        Shift(r, CHUNK_SIZE, j);
      }
      assert Elements(r) == Elements(r)[..CHUNK_SIZE] + Elements(r)[CHUNK_SIZE..];
      assert Elements(r)[CHUNK_SIZE..] == Elements(more);
      assert ChunkElements(ChunkedFirst(r)) == Elements(r)[..CHUNK_SIZE];
    } else {
      assert ChunkElements(ChunkedFirst(r)) == Elements(r);
    }
  }

  // ---- reductions ----

  /** A reducing step: the new accumulator, and whether it was wrapped by `reduced`. */
  type Stepper = (int64, int64) -> (int64, bool)

  function Fold(f: Stepper, acc: int64, xs: seq<int64>): int64
    decreases |xs|
  {
    if xs == [] then acc
    else
      var (next, reduced) := f(acc, xs[0]);
      if reduced then next else Fold(f, next, xs[1..])
  }

  /** `Elements`, as int64 values. */
  function Values(r: LongRange): (s: seq<int64>)
    requires Valid(r)
    ensures s == Elements(r)
  {
    ElementsFit(r);
    seq(r.count, i requires 0 <= i < r.count => var v: int64 := At(r, i); v)
  }

  lemma ElementsFit(r: LongRange)
    requires Valid(r)
    ensures forall i :: 0 <= i < r.count ==> Fits(At(r, i))
  {
    forall i | 0 <= i < r.count
      ensures Fits(At(r, i))
    {
      ElementFits(r, i);
    }
  }

  lemma Suffix(f: Stepper, acc: int64, xs: seq<int64>, k: nat)
    requires k < |xs|
    ensures Fold(f, acc, xs[k..]) == var (next, reduced) := f(acc, xs[k]);
                                     if reduced then next else Fold(f, next, xs[k + 1..])
  {
    assert xs[k..][0] == xs[k] && xs[k..][1..] == xs[k + 1..];
  }

  /** The addition is skipped after the last element, so it never wraps. */
  method ReduceInt64Steps(r: LongRange, f: Stepper, initial: int64) returns (result: int64)
    requires Valid(r)
    ensures result == Fold(f, initial, Values(r))
  {
    ghost var xs := Values(r);
    result := initial;
    var value, index := r.start, 0;
    while index < r.count
      invariant 0 <= index <= r.count
      invariant index < r.count ==> value == At(r, index)
      invariant Fold(f, initial, xs) == Fold(f, result, xs[index..])
    {
      var reduced: bool;
      Suffix(f, result, xs, index);
      var pair := f(result, value);
      result, reduced := pair.0, pair.1;
      if reduced {
        return;
      }
      if index + 1 < r.count {
        ElementFits(r, index + 1);
        Shift(r, index, 1);
        value := Wrap(value + r.step);
      }
      index := index + 1;
    }
  }

  // ---- Next and ReduceInit, which compare with the end instead of counting ----

  function Next(r: LongRange): Option<LongRange> {
    var next := Wrap(r.start + r.step);
    if next >= r.end then None else Some(LongRange(next, r.end, r.step, Wrap(r.count - 1)))
  }

  /** The first `n` elements that `First`/`Next` produce. */
  function NextWalk(r: LongRange, n: nat): seq<int>
    decreases n
  {
    if n == 0 then []
    else
      var next := Next(r);
      [r.start] + (if next.None? then [] else NextWalk(next.value, n - 1))
  }

  /** The first `n` values of the loop variable of `ReduceInit`. */
  function ReduceWalk(i: int64, end: int64, step: int64, n: nat): seq<int>
    decreases n
  {
    if n == 0 || i >= end then [] else [i] + ReduceWalk(Wrap(i + step), end, step, n - 1)
  }

  function Take(s: seq<int>, n: nat): seq<int> { if n < |s| then s[..n] else s }

  /** Up to any length, exactly the elements and then nothing. */
  ghost predicate NextVisits(r: LongRange) {
    forall n: nat :: NextWalk(r, n) == Take(Elements(r), n)
  }

  ghost predicate ReduceVisits(r: LongRange) {
    forall n: nat :: ReduceWalk(r.start, r.end, r.step, n) == Take(Elements(r), n)
  }

  /** Some point past the last element can be represented. */
  predicate PastLastFits(r: LongRange) { Fits(At(r, r.count)) }

  lemma NextIsCorrect(r: LongRange)
    requires Valid(r)
    ensures NextVisits(r) <==> if r.step > 0 then PastLastFits(r)
                               else r.count == 1 && Wrap(r.start + r.step) >= r.end
  {
    var n: nat := r.count + 1;
    if r.step > 0 {
      forall k: nat ensures PastLastFits(r) ==> NextWalk(r, k) == Take(Elements(r), k) {
        if PastLastFits(r) { UpwardNext(r, k); }
      }
      if !PastLastFits(r) { UpwardNext(r, n); }
    } else {
      ElementFits(r, r.count - 1);
      if r.count > 1 { ElementFits(r, 1); }
      assert NextWalk(r, 2) == if Next(r).None? then [r.start as int] else [r.start as int, Next(r).value.start];
      if Next(r).None? && r.count == 1 {
        assert Elements(r) == [r.start];
      }
    }
  }

  lemma StepUp(r: LongRange)
    requires Valid(r) && r.step > 0 && r.count > 1
    ensures Fits(r.start + r.step) && r.start < r.start + r.step < r.end
    ensures var next := LongRange(r.start + r.step, r.end, r.step, r.count - 1);
            && Next(r) == Some(next)
            && Valid(next)
            && (PastLastFits(next) <==> PastLastFits(r))
            && Elements(r) == [r.start] + Elements(next)
  {
    ElementFits(r, 1);
    var next := Next(r).value;
    forall j | 0 <= j <= next.count
      ensures At(next, j) == At(r, 1 + j)
    {
      Shift(r, 1, j);
    }
    assert At(next, next.count - 1) == At(r, r.count - 1);
  }

  lemma LastUp(r: LongRange)
    requires Valid(r) && r.step > 0 && r.count == 1
    ensures Elements(r) == [r.start]
    ensures Wrap(r.start + r.step) >= r.end <==> PastLastFits(r)
  {
    if !Fits(r.start + r.step) { WrapStep(r.start + r.step, -1); }
  }

  lemma {:induction false} UpwardNext(r: LongRange, n: nat)
    requires Valid(r) && r.step > 0
    ensures PastLastFits(r) || n <= r.count ==> NextWalk(r, n) == Take(Elements(r), n)
    ensures !PastLastFits(r) && n == r.count + 1 ==> |NextWalk(r, n)| == n
    decreases r.count
  {
    hide Elements, PastLastFits;
    if n > 0 {
      if r.count == 1 {
        LastUp(r);
      } else {
        StepUp(r);
        UpwardNext(Next(r).value, n - 1);
      }
    }
  }

  lemma ReduceInitIsCorrect(r: LongRange)
    requires Valid(r)
    ensures ReduceVisits(r) <==> r.step > 0 && PastLastFits(r)
  {
    if r.step > 0 {
      forall k: nat ensures PastLastFits(r) ==> ReduceWalk(r.start, r.end, r.step, k) == Take(Elements(r), k) {
        if PastLastFits(r) { UpwardReduce(r, k); }
      }
      if !PastLastFits(r) { UpwardReduce(r, r.count + 1); }
    } else {
      ElementFits(r, 0);
      assert ReduceWalk(r.start, r.end, r.step, 1) == [];
    }
  }

  lemma {:induction false} UpwardReduce(r: LongRange, n: nat)
    requires Valid(r) && r.step > 0
    ensures PastLastFits(r) || n <= r.count ==> ReduceWalk(r.start, r.end, r.step, n) == Take(Elements(r), n)
    ensures !PastLastFits(r) && n == r.count + 1 ==> |ReduceWalk(r.start, r.end, r.step, n)| == n
    decreases r.count
  {
    hide Elements, PastLastFits;
    if n > 0 {
      if r.count == 1 {
        LastUp(r);
      } else {
        StepUp(r);
        UpwardReduce(Next(r).value, n - 1);
      }
    }
  }

  /** `ReduceInit`, where it terminates after the last element. */
  method ReduceInit(r: LongRange, f: Stepper, init: int64) returns (ret: int64)
    requires Valid(r) && r.step > 0 && PastLastFits(r)
    ensures ret == Fold(f, init, Values(r))
  {
    ghost var xs := Values(r);
    ret := init;
    var i := r.start;
    ghost var k := 0;
    while i < r.end
      invariant 0 <= k <= r.count && i == At(r, k)
      invariant Fold(f, init, xs) == Fold(f, ret, xs[k..])
      decreases r.count - k
    {
      if k == r.count { assert false; }
      Suffix(f, ret, xs, k);
      var pair := f(ret, i);
      ret := pair.0;
      if pair.1 {
        return;
      }
      if k + 1 < r.count { ElementFits(r, k + 1); }
      Shift(r, k, 1);
      i := Wrap(i + r.step);
      k := k + 1;
    }
    if k < r.count { ElementFits(r, k); assert false; }
  }

  /** Downward ranges are miscounted by `Next`: (range 5 4 -2) has one element, but `Next` produces 3. */
  lemma DownwardCounterexample()
    ensures NewLongRange(5, 4, -2) == Direct(LongRange(5, 4, -2, 1))
    ensures Elements(LongRange(5, 4, -2, 1)) == [5]
    ensures Next(LongRange(5, 4, -2, 1)) == Some(LongRange(3, 4, -2, 0))
  {
    assert GoQuo(-2, -2) == 1;
  }
}
