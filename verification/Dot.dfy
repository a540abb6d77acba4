/** The dot-product kernels: 8-lane, chunked, unrolled - all equal to the scalar loop in exact arithmetic. */
module Dot {
  import opened Types

  /** Sum of products over a[lo..hi]. */
  function DotRange(a: Vec, b: Vec, lo: nat, hi: nat): real
    requires lo <= hi <= |a| && |a| == |b|
    decreases hi - lo
  {
    if lo == hi then 0.0 else DotRange(a, b, lo, hi - 1) + a[hi - 1] * b[hi - 1]
  }

  lemma {:induction false} DotSplit(a: Vec, b: Vec, lo: nat, mid: nat, hi: nat)
    requires lo <= mid <= hi <= |a| && |a| == |b|
    ensures DotRange(a, b, lo, hi) == DotRange(a, b, lo, mid) + DotRange(a, b, mid, hi)
    decreases hi - mid
  {
    if mid < hi { DotSplit(a, b, lo, mid, hi - 1); }
  }

  /** A unit vector picks its component; with linearity this leaves only the sum of the products. */
  lemma {:induction false} DotPicks(a: Vec, b: Vec, i: nat, n: nat)
    requires i < |a| == |b| && n <= |a| && b[i] == 1.0 && forall j :: 0 <= j < |b| && j != i ==> b[j] == 0.0
    ensures DotRange(a, b, 0, n) == if i < n then a[i] else 0.0
  {
    if n > 0 { DotPicks(a, b, i, n - 1); }
  }

  lemma {:induction false} DotLinear(a: Vec, b: Vec, b1: Vec, b2: Vec, c: real, n: nat)
    requires n <= |a| == |b| == |b1| == |b2| && forall i :: 0 <= i < |b| ==> b[i] == c * b1[i] + b2[i]
    ensures DotRange(a, b, 0, n) == c * DotRange(a, b1, 0, n) + DotRange(a, b2, 0, n)
  {
    if n > 0 {
      var k := n - 1;
      DotLinear(a, b, b1, b2, c, k);
      Distributes(a[k], b1[k], b2[k], c, DotRange(a, b1, 0, k));
    }
  }

  lemma Distributes(x: real, y: real, z: real, c: real, sum: real)
    ensures x * (c * y + z) == c * (x * y) + x * z && c * sum + c * (x * y) == c * (sum + x * y)
  {}

  method DotScalar(a: Vec, b: Vec) returns (r: real)
    requires |a| == |b|
    ensures r == DotRange(a, b, 0, |a|)
  {
    r := 0.0;
    for i := 0 to |a|
      invariant r == DotRange(a, b, 0, i)
    {
      r := r + a[i] * b[i];
    }
  }

  function Sum(xs: Vec): real { if xs == [] then 0.0 else xs[0] + Sum(xs[1..]) }

  lemma Sum8(xs: Vec)
    requires |xs| == 8
    ensures Sum(xs) == xs[0] + xs[1] + xs[2] + xs[3] + xs[4] + xs[5] + xs[6] + xs[7]
  {
    assert Sum(xs[4..]) == xs[4] + xs[5] + xs[6] + xs[7] by {
      SumStep(xs, 4);
      SumStep(xs, 5);
      SumStep(xs, 6);
      SumStep(xs, 7);
      assert xs[8..] == [];
    }
    SumStep(xs, 0);
    SumStep(xs, 1);
    SumStep(xs, 2);
    SumStep(xs, 3);
    assert xs[0..] == xs;
  }

  lemma SumStep(xs: Vec, i: nat)
    requires i < |xs|
    ensures Sum(xs[i..]) == xs[i] + Sum(xs[i + 1..])
  {
    assert xs[i..][1..] == xs[i + 1..];
  }

  /** One block of eight products, as a range. */
  lemma DotEight(a: Vec, b: Vec, o: nat)
    requires o + 8 <= |a| && |a| == |b|
    ensures DotRange(a, b, o, o + 8) ==
            a[o] * b[o] + a[o + 1] * b[o + 1] + a[o + 2] * b[o + 2] + a[o + 3] * b[o + 3]
            + a[o + 4] * b[o + 4] + a[o + 5] * b[o + 5] + a[o + 6] * b[o + 6] + a[o + 7] * b[o + 7]
  {
    DotStep(a, b, o, o + 7);
    DotStep(a, b, o, o + 6);
    DotStep(a, b, o, o + 5);
    DotStep(a, b, o, o + 4);
    DotStep(a, b, o, o + 3);
    DotStep(a, b, o, o + 2);
    DotStep(a, b, o, o + 1);
    DotStep(a, b, o, o);
  }

  lemma DotStep(a: Vec, b: Vec, lo: nat, hi: nat)
    requires lo <= hi < |a| && |a| == |b|
    ensures DotRange(a, b, lo, hi + 1) == DotRange(a, b, lo, hi) + a[hi] * b[hi]
  {}

  /** Lane-wise product of eight components at an offset. */
  function Lanes(a: Vec, b: Vec, o: nat): (r: Vec)
    requires o + 8 <= |a| && |a| == |b|
    ensures |r| == 8
  {
    [a[o] * b[o], a[o + 1] * b[o + 1], a[o + 2] * b[o + 2], a[o + 3] * b[o + 3],
     a[o + 4] * b[o + 4], a[o + 5] * b[o + 5], a[o + 6] * b[o + 6], a[o + 7] * b[o + 7]]
  }

  function AddLanes(x: Vec, y: Vec): (r: Vec)
    requires |x| == |y| == 8
    ensures |r| == 8
  {
    seq(8, i requires 0 <= i < 8 => x[i] + y[i])
  }

  lemma SumAddLanes(x: Vec, y: Vec)
    requires |x| == |y| == 8
    ensures Sum(AddLanes(x, y)) == Sum(x) + Sum(y)
  {
    Sum8(x);
    Sum8(y);
    Sum8(AddLanes(x, y));
  }

  lemma SumLanes(a: Vec, b: Vec, o: nat)
    requires o + 8 <= |a| && |a| == |b|
    ensures Sum(Lanes(a, b, o)) == DotRange(a, b, o, o + 8)
  {
    Sum8(Lanes(a, b, o));
    DotEight(a, b, o);
  }

  /** Eight accumulators, summed at the end, and the remainder one by one. */
  method DotSimd(a: Vec, b: Vec) returns (r: real)
    requires |a| == |b|
    ensures r == DotRange(a, b, 0, |a|)
  {
    var len := |a|;
    var chunks, remainder := len / 8, len % 8;
    var sum := SumOfChunks(a, b, chunks);
    r := Sum(sum);
    for i := len - remainder to len
      invariant r == DotRange(a, b, 0, i)
    {
      r := r + a[i] * b[i];
    }
  }

  /** The eight accumulators after the given number of chunks of eight. */
  method SumOfChunks(a: Vec, b: Vec, chunks: nat) returns (sum: Vec)
    requires |a| == |b| && chunks * 8 <= |a|
    ensures |sum| == 8 && Sum(sum) == DotRange(a, b, 0, chunks * 8)
  {
    sum := [0.0, 0.0, 0.0, 0.0, 0.0, 0.0, 0.0, 0.0];
    Sum8(sum);
    for i := 0 to chunks
      invariant |sum| == 8 && Sum(sum) == DotRange(a, b, 0, i * 8)
    {
      var offset := i * 8;
      var lanes := Lanes(a, b, offset);
      assert Sum(AddLanes(sum, lanes)) == DotRange(a, b, 0, offset + 8) by {
        SumAddLanes(sum, lanes);
        SumLanes(a, b, offset);
        DotSplit(a, b, 0, offset, offset + 8);
      }
      sum := AddLanes(sum, lanes);
    }
  }

  /** Chunks of equal size (the last may be shorter), each summed on its own, then added up. */
  method DotParallel(a: Vec, b: Vec, cpus: nat) returns (r: real)
    requires |a| == |b| && cpus > 0
    ensures r == DotRange(a, b, 0, |a|)
  {
    var chunk := if |a| / cpus > 1024 then |a| / cpus else 1024;
    r := 0.0;
    var lo := 0;
    while lo < |a|
      invariant 0 <= lo <= |a| && r == DotRange(a, b, 0, lo)
    {
      var hi := if lo + chunk < |a| then lo + chunk else |a|;
      var part := 0.0;
      for i := lo to hi
        invariant part == DotRange(a, b, lo, i)
      {
        part := part + a[i] * b[i];
      }
      DotSplit(a, b, 0, lo, hi);
      r := r + part;
      lo := hi;
    }
  }

  /** The loop unrolled eight times for length 1536, the plain loop otherwise. */
  method DotJit(a: Vec, b: Vec) returns (r: real)
    requires |a| == |b|
    ensures r == DotRange(a, b, 0, |a|)
  {
    if |a| != 1536 {
      r := DotScalar(a, b);
      return;
    }
    r := 0.0;
    var i := 0;
    while i < 1536
      invariant 0 <= i <= 1536 && i % 8 == 0 && r == DotRange(a, b, 0, i)
    {
      DotEight(a, b, i);
      DotSplit(a, b, 0, i, i + 8);
      r := r + (a[i] * b[i] + a[i + 1] * b[i + 1] + a[i + 2] * b[i + 2] + a[i + 3] * b[i + 3]
                + a[i + 4] * b[i + 4] + a[i + 5] * b[i + 5] + a[i + 6] * b[i + 6] + a[i + 7] * b[i + 7]);
      i := i + 8;
    }
  }
}
