/** Block-wise quantization: per-block minimum and maximum, one byte per component. */
module ProductQuantization {
  import opened Types
  import opened ScalarQuantization

  datatype Pq = Pq(codes: seq<int>, mins: seq<real>, maxs: seq<real>, dim: nat, subquantizers: nat)

  datatype DecodeError = NoCodes | ShortMetadata | MissingCode(at: nat) | DimensionMismatch

  /** `subquantizers.max(1).min(dim)`. */
  function Blocks(requested: nat, dim: nat): (s: nat)
    ensures dim > 0 ==> 1 <= s <= dim
  {
    var atLeastOne := if requested < 1 then 1 else requested;
    if atLeastOne > dim then dim else atLeastOne
  }

  /** `div_ceil`. */
  function DivCeil(a: nat, b: nat): nat
    requires b > 0
  {
    if a % b == 0 then a / b else a / b + 1
  }

  lemma DivCeilBounds(a: nat, b: nat)
    requires a > 0 && b > 0
    ensures var r := DivCeil(a, b); r > 0 && r * b >= a && (r - 1) * b < a
  {
    var q, m := a / b, a % b;
    assert a == q * b + m;
    assert (q + 1) * b == q * b + b;
    assert (q - 1) * b == q * b - b;
  }

  function BlockEnd(b: nat, len: nat, dim: nat): nat {
    if (b + 1) * len < dim then (b + 1) * len else dim
  }

  function RangeOf(min: real, max: real): (r: real)
    ensures r >= EPSILON && r >= max - min && (r == EPSILON || r == max - min)
  {
    if max - min > EPSILON then max - min else EPSILON
  }

  function PqCode(x: real, min: real, range: real): (q: int)
    requires range > 0.0
    ensures 0 <= q <= 255
  {
    Clamp(Round((x - min) / range * 255.0), 0, 255)
  }

  function PqValue(q: int, min: real, range: real): real { q as real / 255.0 * range + min }

  /** Block b of the vector, with its extremes and codes, is what the encoding holds for it. */
  ghost predicate BlockOk(v: Vec, e: Pq, b: nat, len: nat)
    requires b < |e.mins| && b < |e.maxs|
  {
    SpanOk(v, e, b, b * len, BlockEnd(b, len, |v|))
  }

  ghost predicate SpanOk(v: Vec, e: Pq, b: nat, start: nat, end: nat)
    requires b < |e.mins| && b < |e.maxs|
  {
    && start < end <= |v| && end <= |e.codes|
    && e.mins[b] == MinOf(v[start..end]) && e.maxs[b] == MaxOf(v[start..end])
    && forall i :: start <= i < end ==> e.codes[i] == PqCode(v[i], e.mins[b], RangeOf(e.mins[b], e.maxs[b]))
  }

  /** `e` encodes `v` with `requested` blocks: as many blocks of equal length as it takes to cover it. */
  ghost predicate Encodes(v: Vec, requested: nat, e: Pq) {
    if v == [] then e == Pq([], [], [], 0, 0)
    else
      var s := Blocks(requested, |v|);
      var len := DivCeil(|v|, s);
      && e.dim == |v| && e.subquantizers == s && |e.codes| == |v|
      && |e.mins| == |e.maxs| == DivCeil(|v|, len)
      && forall b :: 0 <= b < |e.mins| ==> BlockOk(v, e, b, len)
  }

  // ----- arithmetic

  lemma PqComponentError(x: real, min: real, range: real)
    requires range > 0.0 && min <= x <= min + range
    ensures Abs(PqValue(PqCode(x, min, range), min, range) - x) <= range / 510.0
  {
    var t := UnitRange(x, min, range);
    var s, q := t * 255.0, PqCode(x, min, range);
    RoundIsNear(s);
    assert -0.5 <= q as real - s <= 0.5;
    OffBy(q as real / 255.0, t, x, min, range, 1.0 / 510.0);
  }

  lemma BlockStep(b: nat, len: nat)
    ensures (b + 1) * len == b * len + len
  {}

  /** The number of blocks needed never exceeds the number asked for. */
  lemma BlocksCover(dim: nat, s: nat)
    requires 1 <= s <= dim
    ensures var len := DivCeil(dim, s);
            len > 0 && DivCeil(dim, len) <= s && (DivCeil(dim, len) == s <==> (s - 1) * len < dim)
  {
    var len := DivCeil(dim, s);
    var n := DivCeil(dim, len);
    DivCeilBounds(dim, s);
    DivCeilBounds(dim, len);
    if n > s { Monotone(s, n - 1, len); }
    if n < s { Monotone(n, s - 1, len); }
  }

  lemma Monotone(a: nat, b: nat, c: nat)
    requires a <= b
    ensures a * c <= b * c
  {}

  // ----- encoding and decoding

  method FromF32(v: Vec, requested: nat) returns (e: Pq)
    ensures Encodes(v, requested, e)
  {
    if v == [] { return Pq([], [], [], 0, 0); }
    var dim := |v|;
    var s := Blocks(requested, dim);
    var len := DivCeil(dim, s);
    e := Pq([], [], [], dim, s);
    BlocksCover(dim, s);
    var b := 0;
    while b < s && b * len < dim
      invariant 0 <= b <= s && e.dim == dim && e.subquantizers == s
      invariant |e.mins| == |e.maxs| == b && b <= DivCeil(dim, len)
      invariant |e.codes| == if b * len < dim then b * len else dim
      invariant forall i :: 0 <= i < b ==> BlockOk(v, e, i, len)
      decreases s - b
    {
      BlockStep(b, len);
      CountBlocks(b, len, dim);
      e := AddBlock(v, e, b, len);
      b := b + 1;
    }
    CountAll(b, len, dim, s);
  }

  /** b blocks start inside the vector, so the count of blocks exceeds b. */
  lemma CountBlocks(b: nat, len: nat, dim: nat)
    requires len > 0 && b * len < dim
    ensures b < DivCeil(dim, len)
  {
    var n := DivCeil(dim, len);
    DivCeilBounds(dim, len);
    if n <= b { Monotone(n, b, len); }
  }

  lemma CountAll(b: nat, len: nat, dim: nat, s: nat)
    requires len > 0 && 1 <= s <= dim && len == DivCeil(dim, s) && b <= s && b <= DivCeil(dim, len)
    requires b == s || b * len >= dim
    ensures b == DivCeil(dim, len) && b * len >= dim
  {
    BlocksCover(dim, s);
    var n := DivCeil(dim, len);
    DivCeilBounds(dim, len);
    if b < n { Monotone(b, n - 1, len); }
  }

  method AddBlock(v: Vec, e: Pq, b: nat, len: nat) returns (e': Pq)
    requires len > 0 && b * len < |v| && |e.mins| == |e.maxs| == b && |e.codes| == b * len
    requires forall i :: 0 <= i < b ==> BlockOk(v, e, i, len)
    ensures e'.dim == e.dim && e'.subquantizers == e.subquantizers
    ensures |e'.mins| == |e'.maxs| == b + 1 && |e'.codes| == BlockEnd(b, len, |v|)
    ensures forall i :: 0 <= i <= b ==> BlockOk(v, e', i, len)
  {
    BlockStep(b, len);
    e' := AddSpan(v, e, b, b * len, BlockEnd(b, len, |v|));
    forall i | 0 <= i < b ensures BlockOk(v, e', i, len) {
      BlockKept(v, e, e', i, len);
    }
  }

  /** Adds the extremes and the codes of one span. */
  method AddSpan(v: Vec, e: Pq, b: nat, start: nat, end: nat) returns (e': Pq)
    requires start < end <= |v| && |e.mins| == |e.maxs| == b && |e.codes| == start
    ensures e'.dim == e.dim && e'.subquantizers == e.subquantizers
    ensures |e'.mins| == |e'.maxs| == b + 1 && |e'.codes| == end
    ensures e.codes <= e'.codes && e.mins <= e'.mins && e.maxs <= e'.maxs
    ensures SpanOk(v, e', b, start, end)
  {
    var slice := v[start..end];
    var min, max := MinOf(slice), MaxOf(slice);
    var codes := EncodeSlice(slice, min, RangeOf(min, max));
    e' := e.(codes := e.codes + codes, mins := e.mins + [min], maxs := e.maxs + [max]);
    forall i | start <= i < end ensures e'.codes[i] == PqCode(v[i], min, RangeOf(min, max)) {
      assert e'.codes[i] == codes[i - start] && slice[i - start] == v[i];
    }
  }

  lemma BlockKept(v: Vec, e: Pq, e': Pq, b: nat, len: nat)
    requires b < |e.mins| && b < |e.maxs| && BlockOk(v, e, b, len)
    requires e.codes <= e'.codes && e.mins <= e'.mins && e.maxs <= e'.maxs
    ensures BlockOk(v, e', b, len)
  {
    SpanKept(v, e, e', b, b * len, BlockEnd(b, len, |v|));
  }

  lemma SpanKept(v: Vec, e: Pq, e': Pq, b: nat, start: nat, end: nat)
    requires b < |e.mins| && b < |e.maxs| && SpanOk(v, e, b, start, end)
    requires e.codes <= e'.codes && e.mins <= e'.mins && e.maxs <= e'.maxs
    ensures SpanOk(v, e', b, start, end)
  {}

  method EncodeSlice(slice: Vec, min: real, range: real) returns (codes: seq<int>)
    requires range > 0.0
    ensures |codes| == |slice| && forall i :: 0 <= i < |slice| ==> codes[i] == PqCode(slice[i], min, range)
  {
    codes := [];
    for i := 0 to |slice|
      invariant |codes| == i && forall j :: 0 <= j < i ==> codes[j] == PqCode(slice[j], min, range)
    {
      codes := codes + [PqCode(slice[i], min, range)];
    }
  }

  /** Each component of block b comes from its code and the extremes of the block. */
  ghost predicate BlockDecoded(e: Pq, len: nat, values: Vec, b: nat)
    requires b < |e.mins| && b < |e.maxs|
  {
    SpanDecoded(e, values, b, b * len, BlockEnd(b, len, e.dim))
  }

  ghost predicate SpanDecoded(e: Pq, values: Vec, b: nat, start: nat, end: nat)
    requires b < |e.mins| && b < |e.maxs|
  {
    forall i :: start <= i < end ==> CodeDecoded(e, values, b, i)
  }

  ghost predicate CodeDecoded(e: Pq, values: Vec, b: nat, i: nat)
    requires b < |e.mins| && b < |e.maxs|
  {
    i < |values| && i < |e.codes| && values[i] == PqValue(e.codes[i], e.mins[b], RangeOf(e.mins[b], e.maxs[b]))
  }

  ghost predicate Decoded(e: Pq, len: nat, values: Vec, upTo: nat)
    requires |e.mins| >= upTo && |e.maxs| >= upTo
  {
    forall b :: 0 <= b < upTo ==> BlockDecoded(e, len, values, b)
  }

  /** An encoding that `try_to_f32` accepts. */
  predicate Decodable(e: Pq) {
    if e.codes == [] || e.subquantizers == 0 then e.dim == 0
    else |e.mins| >= e.subquantizers && |e.maxs| >= e.subquantizers && |e.codes| >= e.dim
  }

  /** `try_to_f32`, for any encoding whatever. */
  method TryToF32(e: Pq) returns (r: Result<Vec, DecodeError>)
    ensures (e.codes == [] || e.subquantizers == 0) ==> if e.dim == 0 then r == Ok([]) else r == Err(NoCodes)
    ensures e.codes != [] && e.subquantizers > 0 && (|e.mins| < e.subquantizers || |e.maxs| < e.subquantizers) ==>
      r == Err(ShortMetadata)
    ensures e.codes != [] && e.subquantizers > 0 && |e.mins| >= e.subquantizers && |e.maxs| >= e.subquantizers ==>
      if |e.codes| < e.dim then r == Err(MissingCode(|e.codes|))
      else r.Ok? && |r.value| == e.dim && Decoded(e, DivCeil(e.dim, e.subquantizers), r.value, e.subquantizers)
    ensures r.Ok? <==> Decodable(e)
  {
    if e.codes == [] || e.subquantizers == 0 {
      if e.dim == 0 { return Ok([]); }
      return Err(NoCodes);
    }
    if |e.mins| < e.subquantizers || |e.maxs| < e.subquantizers { return Err(ShortMetadata); }
    var len := DivCeil(e.dim, e.subquantizers);
    var values: Vec := [];
    var b := 0;
    while b < e.subquantizers && b * len < e.dim
      invariant 0 <= b <= e.subquantizers
      invariant |values| == if b * len < e.dim then b * len else e.dim
      invariant |values| <= |e.codes|
      invariant Decoded(e, len, values, b)
      decreases e.subquantizers - b
    {
      BlockStep(b, len);
      var end := BlockEnd(b, len, e.dim);
      ghost var before := values;
      while |values| < end
        invariant b * len <= |values| <= end && |values| <= |e.codes| && before <= values
        invariant forall i :: b * len <= i < |values| ==>
          values[i] == PqValue(e.codes[i], e.mins[b], RangeOf(e.mins[b], e.maxs[b]))
        decreases end - |values|
      {
        var at := |values|;
        if at >= |e.codes| { return Err(MissingCode(at)); }
        values := values + [PqValue(e.codes[at], e.mins[b], RangeOf(e.mins[b], e.maxs[b]))];
      }
      DecodedMore(e, len, before, values, b);
      b := b + 1;
    }
    AllDecoded(e, len, values, b);
    if |values| != e.dim { return Err(DimensionMismatch); }
    r := Ok(values);
  }

  lemma BlockStays(e: Pq, len: nat, before: Vec, values: Vec, b: nat)
    requires b < |e.mins| && b < |e.maxs| && before <= values && BlockDecoded(e, len, before, b)
    ensures BlockDecoded(e, len, values, b)
  {
    SpanStays(e, before, values, b, b * len, BlockEnd(b, len, e.dim));
  }

  lemma SpanStays(e: Pq, before: Vec, values: Vec, b: nat, start: nat, end: nat)
    requires b < |e.mins| && b < |e.maxs| && before <= values && SpanDecoded(e, before, b, start, end)
    ensures SpanDecoded(e, values, b, start, end)
  {
    forall i | start <= i < end ensures CodeDecoded(e, values, b, i) {
      assert CodeDecoded(e, before, b, i);
      assert values[..|before|][i] == before[i];
    }
  }

  lemma EmptyBlock(e: Pq, len: nat, values: Vec, b: nat)
    requires b < |e.mins| && b < |e.maxs| && b * len >= e.dim
    ensures BlockDecoded(e, len, values, b)
  {
    EndOfEmptyBlock(b, len, e.dim);
    EmptySpan(e, values, b, b * len, BlockEnd(b, len, e.dim));
  }

  lemma EmptySpan(e: Pq, values: Vec, b: nat, start: nat, end: nat)
    requires b < |e.mins| && b < |e.maxs| && end <= start
    ensures SpanDecoded(e, values, b, start, end)
  {}

  lemma EndOfEmptyBlock(b: nat, len: nat, dim: nat)
    requires b * len >= dim
    ensures BlockEnd(b, len, dim) <= b * len
  {
    BlockStep(b, len);
  }

  lemma DecodedMore(e: Pq, len: nat, before: Vec, values: Vec, b: nat)
    requires |e.mins| > b && |e.maxs| > b && before <= values && Decoded(e, len, before, b)
    requires |values| == BlockEnd(b, len, e.dim) <= |e.codes|
    requires forall i :: b * len <= i < |values| ==>
      values[i] == PqValue(e.codes[i], e.mins[b], RangeOf(e.mins[b], e.maxs[b]))
    ensures Decoded(e, len, values, b + 1)
  {
    forall j | 0 <= j < b ensures BlockDecoded(e, len, values, j) { BlockStays(e, len, before, values, j); }
    assert BlockDecoded(e, len, values, b);
  }

  lemma AllDecoded(e: Pq, len: nat, values: Vec, b: nat)
    requires e.subquantizers > 0 && len == DivCeil(e.dim, e.subquantizers)
    requires |e.mins| >= e.subquantizers && |e.maxs| >= e.subquantizers && b <= e.subquantizers
    requires b == e.subquantizers || b * len >= e.dim
    requires |values| == (if b * len < e.dim then b * len else e.dim) && Decoded(e, len, values, b)
    ensures |values| == e.dim && Decoded(e, len, values, e.subquantizers)
  {
    if e.dim > 0 { DivCeilBounds(e.dim, e.subquantizers); }
    forall j | b <= j < e.subquantizers ensures BlockDecoded(e, len, values, j) {
      Monotone(b, j, len);
      EmptyBlock(e, len, values, j);
    }
  }

  // ----- what encode followed by decode promises

  /** Decoding an encoding of a non-empty vector succeeds exactly when every requested block starts inside it. */
  lemma DecodesIff(v: Vec, requested: nat, e: Pq)
    requires v != [] && Encodes(v, requested, e)
    ensures var s := Blocks(requested, |v|);
            Decodable(e) <==> (s - 1) * DivCeil(|v|, s) < |v|
  {
    BlocksCover(|v|, Blocks(requested, |v|));
  }

  /** Each decoded component is within max(block range, epsilon)/510 of the original. */
  lemma PqError(v: Vec, requested: nat, e: Pq, values: Vec, b: nat, i: nat)
    requires v != [] && Encodes(v, requested, e) && |e.mins| >= e.subquantizers
    requires var len := DivCeil(|v|, e.subquantizers);
             && Decoded(e, len, values, e.subquantizers) && |values| == |v|
             && b < e.subquantizers && b * len <= i < BlockEnd(b, len, |v|)
    ensures Abs(values[i] - v[i]) <= RangeOf(e.mins[b], e.maxs[b]) / 510.0
  {
    var len := DivCeil(|v|, e.subquantizers);
    assert BlockOk(v, e, b, len) && BlockDecoded(e, len, values, b);
    assert CodeDecoded(e, values, b, i);
    var min, max, x, q := e.mins[b], e.maxs[b], v[i], e.codes[i];
    BlockOkAt(v, e, b, len, i);
    PqComponentError(x, min, RangeOf(min, max));
  }

  lemma BlockOkAt(v: Vec, e: Pq, b: nat, len: nat, i: nat)
    requires b < |e.mins| && b < |e.maxs| && BlockOk(v, e, b, len) && b * len <= i < BlockEnd(b, len, |v|)
    ensures e.mins[b] <= v[i] <= e.maxs[b] && e.codes[i] == PqCode(v[i], e.mins[b], RangeOf(e.mins[b], e.maxs[b]))
  {
    var start, end := b * len, BlockEnd(b, len, |v|);
    SliceBounds(v, start, end, i);
  }

  lemma SliceBounds(v: Vec, start: nat, end: nat, i: nat)
    requires start <= i < end <= |v|
    ensures MinOf(v[start..end]) <= v[i] <= MaxOf(v[start..end])
  {
    var slice := v[start..end];
    assert slice[i - start] == v[i];
  }

  /** Every decoded component of block b is within max(spread of the block, epsilon)/510 of the original. */
  ghost predicate BlockClose(v: Vec, values: Vec, b: nat, len: nat) {
    var start, end := b * len, BlockEnd(b, len, |v|);
    start < end <= |v| == |values| &&
    var spread := RangeOf(MinOf(v[start..end]), MaxOf(v[start..end]));
    forall i :: start <= i < end ==> Abs(values[i] - v[i]) <= spread / 510.0
  }

  lemma CloseAt(v: Vec, requested: nat, e: Pq, values: Vec, b: nat)
    requires v != [] && Encodes(v, requested, e) && |e.mins| >= e.subquantizers
    requires var len := DivCeil(|v|, e.subquantizers);
             Decoded(e, len, values, e.subquantizers) && |values| == |v| && b < e.subquantizers
    ensures BlockClose(v, values, b, DivCeil(|v|, e.subquantizers))
  {
    var len := DivCeil(|v|, e.subquantizers);
    assert BlockOk(v, e, b, len);
    var start, end := b * len, BlockEnd(b, len, |v|);
    forall i | start <= i < end ensures Abs(values[i] - v[i]) <= RangeOf(e.mins[b], e.maxs[b]) / 510.0 {
      PqError(v, requested, e, values, b, i);
    }
  }

  /** Component i, which lies between `start` and `end`, is within max(spread there, epsilon)/510 of the original. */
  ghost predicate CloseIn(v: Vec, values: Vec, i: nat, start: nat, end: nat) {
    start <= i < end <= |v| == |values| &&
    Abs(values[i] - v[i]) <= RangeOf(MinOf(v[start..end]), MaxOf(v[start..end])) / 510.0
  }

  /** The same with the block of component i. */
  ghost predicate Close(v: Vec, values: Vec, i: nat, len: nat)
    requires len > 0
  {
    CloseIn(v, values, i, i / len * len, BlockEnd(i / len, len, |v|))
  }

  lemma CloseInBlock(v: Vec, values: Vec, b: nat, len: nat, i: nat, start: nat, end: nat)
    requires BlockClose(v, values, b, len) && start == b * len && end == BlockEnd(b, len, |v|) && start <= i < end
    ensures CloseIn(v, values, i, start, end)
  {}

  lemma BlockExists(i: nat, s: nat, dim: nat, b: nat)
    requires 1 <= s <= dim && i < dim && b * DivCeil(dim, s) <= i
    ensures b < s
  {
    DivCeilBounds(dim, s);
    if b >= s { Monotone(s, b, DivCeil(dim, s)); }
  }

  /** If every block is close, every component is: none lies outside the blocks. */
  lemma EveryComponentClose(v: Vec, values: Vec, s: nat, len: nat, i: nat)
    requires 1 <= s <= |v| && i < |v| && len == DivCeil(|v|, s) > 0
    requires forall b :: 0 <= b < s ==> BlockClose(v, values, b, len)
    ensures Close(v, values, i, len)
  {
    var b := i / len;
    InBlock(i, len, |v|);
    BlockExists(i, s, |v|, b);
    CloseInBlock(v, values, b, len, i, b * len, BlockEnd(b, len, |v|));
  }

  /** The blocks cover the vector: component i lies in block i / len. */
  lemma InBlock(i: nat, len: nat, dim: nat)
    requires len > 0 && i < dim
    ensures var b := i / len; b * len <= i < BlockEnd(b, len, dim) <= dim
  {
    var b, r := i / len, i % len;
    assert i == b * len + r;
    BlockStep(b, len);
  }

  /** The whole round trip: it fails only on blocks left empty by rounding up, and otherwise the error is bounded. */
  method RoundTrip(v: Vec, requested: nat) returns (r: Result<Vec, DecodeError>)
    ensures v == [] ==> r == Ok([])
    ensures v != [] ==>
      (r.Ok? <==> (Blocks(requested, |v|) - 1) * DivCeil(|v|, Blocks(requested, |v|)) < |v|)
    ensures r.Err? ==> r.error == ShortMetadata
    ensures r.Ok? ==> |r.value| == |v|
    ensures r.Ok? && v != [] ==>
      var len := DivCeil(|v|, Blocks(requested, |v|));
      len > 0 && forall i :: 0 <= i < |v| ==> Close(v, r.value, i, len)
  {
    var e := FromF32(v, requested);
    if v != [] { DecodesIff(v, requested, e); }
    r := TryToF32(e);
    if r.Ok? && v != [] {
      var s := Blocks(requested, |v|);
      forall b | 0 <= b < s ensures BlockClose(v, r.value, b, DivCeil(|v|, s)) {
        CloseAt(v, requested, e, r.value, b);
      }
      DivCeilBounds(|v|, s);
      forall i | 0 <= i < |v| ensures Close(v, r.value, i, DivCeil(|v|, s)) {
        EveryComponentClose(v, r.value, s, DivCeil(|v|, s), i);
      }
    }
  }
}
