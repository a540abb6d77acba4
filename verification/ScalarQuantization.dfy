/** Eight-bit scalar quantization over exact reals. */
module ScalarQuantization {
  import opened Types

  /** The f32 machine epsilon, 2^-23. */
  const EPSILON: real := 1.0 / 8388608.0

  function Abs(x: real): real { if x < 0.0 then -x else x }

  /** Rounds half away from zero. */
  function Round(x: real): int {
    if x >= 0.0 then (x + 0.5).Floor else -((0.5 - x).Floor)
  }

  function Clamp(n: int, lo: int, hi: int): (r: int)
    requires lo <= hi
    ensures lo <= r <= hi
  {
    if n < lo then lo else if n > hi then hi else n
  }

  function MinOf(v: Vec): (r: real)
    requires v != []
    ensures r in v && forall i :: 0 <= i < |v| ==> r <= v[i]
  {
    if |v| == 1 then v[0]
    else
      var m := MinOf(v[1..]);
      if v[0] < m then v[0] else m
  }

  function MaxOf(v: Vec): (r: real)
    requires v != []
    ensures r in v && forall i :: 0 <= i < |v| ==> v[i] <= r
  {
    if |v| == 1 then v[0]
    else
      var m := MaxOf(v[1..]);
      if v[0] > m then v[0] else m
  }

  /** `values` are i8 codes. */
  datatype Scalar = Scalar(values: seq<int>, min: real, max: real)

  function Code(x: real, min: real, range: real): (q: int)
    requires range > 0.0
    ensures -127 <= q <= 127
  {
    Clamp(Round((x - min) / range * 254.0 - 127.0), -127, 127)
  }

  function Value(q: int, min: real, range: real): real {
    (q as real + 127.0) / 254.0 * range + min
  }

  function Encode(v: Vec): (e: Scalar)
    ensures |e.values| == |v|
  {
    if v == [] then Scalar([], 0.0, 0.0)
    else
      var min, max := MinOf(v), MaxOf(v);
      if Abs(max - min) < EPSILON then Scalar(seq(|v|, _ => 0), min, max)
      else Scalar(seq(|v|, i requires 0 <= i < |v| => Code(v[i], min, max - min)), min, max)
  }

  function Decode(e: Scalar): (v: Vec)
    ensures |v| == |e.values|
  {
    if e.values == [] then []
    else if Abs(e.max - e.min) < EPSILON then seq(|e.values|, _ => e.min)
    else seq(|e.values|, i requires 0 <= i < |e.values| => Value(e.values[i], e.min, e.max - e.min))
  }

  // ----- arithmetic

  lemma RoundIsNear(x: real)
    ensures x - 0.5 <= Round(x) as real <= x + 0.5
  {}

  lemma RoundOfInteger(n: int)
    ensures Round(n as real) == n
  {
    if n >= 0 { assert (n as real + 0.5).Floor == n; } else { assert (0.5 - n as real).Floor == -n; }
  }

  lemma UnitRange(x: real, min: real, range: real) returns (t: real)
    requires range > 0.0 && min <= x <= min + range
    ensures t == (x - min) / range && 0.0 <= t <= 1.0 && t * range == x - min
  {
    t := (x - min) / range;
    Quotient(x - min, range);
    if t < 0.0 { ProductStrict(t, 0.0, range); }
    if t > 1.0 { ProductStrict(1.0, t, range); }
  }

  lemma ProductStrict(a: real, b: real, r: real)
    requires a < b && r > 0.0
    ensures a * r < b * r
  {
    var d := b - a;
    assert d * r > 0.0;
    Distribute(b, a, r);
  }

  lemma Distribute(u: real, t: real, r: real)
    ensures (u - t) * r == u * r - t * r
  {}

  lemma ScaledBound(e: real, bound: real, range: real)
    requires -bound <= e <= bound && range > 0.0
    ensures -(bound * range) <= e * range <= bound * range
  {
    if e < bound { ProductStrict(e, bound, range); }
    if -bound < e { ProductStrict(-bound, e, range); }
  }

  /** A value at u instead of t, in units of the range, is off by at most the bound on u - t, times the range. */
  lemma OffBy(u: real, t: real, x: real, min: real, range: real, bound: real)
    requires range > 0.0 && t * range == x - min && -bound <= u - t <= bound
    ensures -(bound * range) <= u * range + min - x <= bound * range
  {
    Distribute(u, t, range);
    ScaledBound(u - t, bound, range);
  }

  /** One component: the decoded value is within range/508 of the original. */
  lemma ComponentError(x: real, min: real, range: real)
    requires range > 0.0 && min <= x <= min + range
    ensures Abs(Value(Code(x, min, range), min, range) - x) <= range / 508.0
  {
    var t := UnitRange(x, min, range);
    var s, q := t * 254.0 - 127.0, Code(x, min, range);
    RoundIsNear(s);
    assert -0.5 <= q as real - s <= 0.5;
    OffBy((q as real + 127.0) / 254.0, t, x, min, range, 1.0 / 508.0);
  }

  lemma CodeOfValue(q: int, min: real, range: real)
    requires range > 0.0 && -127 <= q <= 127
    ensures Code(Value(q, min, range), min, range) == q
    ensures min <= Value(q, min, range) <= min + range
  {
    var u := (q as real + 127.0) / 254.0;
    Cancel(u, range);
    var x := Value(q, min, range);
    assert x - min == u * range;
    assert (x - min) / range == u;
    assert u * 254.0 - 127.0 == q as real;
    RoundOfInteger(q);
    assert 0.0 <= u <= 1.0;
    Within(u, range);
  }

  lemma Within(u: real, range: real)
    requires 0.0 <= u <= 1.0 && range >= 0.0
    ensures 0.0 <= u * range <= range
  {}

  lemma Cancel(u: real, range: real)
    requires range > 0.0
    ensures u * range / range == u
  {}

  lemma Extremes(min: real, range: real)
    requires range > 0.0
    ensures Code(min, min, range) == -127 && Value(-127, min, range) == min
    ensures Code(min + range, min, range) == 127 && Value(127, min, range) == min + range
  {
    CodeOfValue(-127, min, range);
    CodeOfValue(127, min, range);
    assert Value(-127, min, range) == min;
    assert Value(127, min, range) == min + range;
  }

  // ----- what the encoding promises

  /** `v` is spread over `range` above `min`, wide enough to be coded component by component. */
  ghost predicate Wide(v: Vec, min: real, range: real) {
    v != [] && min == MinOf(v) && min + range == MaxOf(v) && range >= EPSILON
  }

  lemma WideEncode(v: Vec, min: real, range: real, i: nat)
    requires Wide(v, min, range) && i < |v|
    ensures Encode(v).min == min && Encode(v).max == min + range && Encode(v).values[i] == Code(v[i], min, range)
    ensures min <= v[i] <= min + range
  {}

  lemma WideDecode(e: Scalar, min: real, range: real, i: nat)
    requires i < |e.values| && e.min == min && e.max == min + range && range >= EPSILON
    ensures Decode(e)[i] == Value(e.values[i], min, range)
  {}

  lemma NarrowAt(v: Vec, i: nat)
    requires i < |v| && MaxOf(v) - MinOf(v) < EPSILON
    ensures Decode(Encode(v))[i] == MinOf(v)
  {}

  lemma WideError(v: Vec, min: real, range: real, i: nat)
    requires Wide(v, min, range) && i < |v|
    ensures Abs(Decode(Encode(v))[i] - v[i]) <= range / 508.0
  {
    var e := Encode(v);
    WideEncode(v, min, range, i);
    WideDecode(e, min, range, i);
    ComponentError(v[i], min, range);
  }

  /** Every component decodes to within range/508; a near-constant vector to within the epsilon. */
  lemma DecodeError(v: Vec, i: nat)
    requires i < |v|
    ensures var range, error := MaxOf(v) - MinOf(v), Abs(Decode(Encode(v))[i] - v[i]);
            if range < EPSILON then error < EPSILON else error <= range / 508.0
  {
    var min, range := MinOf(v), MaxOf(v) - MinOf(v);
    if range >= EPSILON { WideError(v, min, range, i); } else { NarrowAt(v, i); }
  }

  lemma SameExtremes(v: Vec, w: Vec, lo: nat, hi: nat)
    requires v != [] && |w| == |v| && lo < |v| && hi < |v|
    requires w[lo] == MinOf(v) && w[hi] == MaxOf(v)
    requires forall i :: 0 <= i < |w| ==> MinOf(v) <= w[i] <= MaxOf(v)
    ensures MinOf(w) == MinOf(v) && MaxOf(w) == MaxOf(v)
  {}

  /** A decoded component stays in range, keeps its code, and keeps the extremes. */
  lemma DecodedAt(v: Vec, min: real, range: real, i: nat)
    requires Wide(v, min, range) && i < |v|
    ensures var w := Decode(Encode(v));
            && min <= w[i] <= min + range && Code(w[i], min, range) == Encode(v).values[i]
            && (v[i] == min ==> w[i] == min) && (v[i] == min + range ==> w[i] == min + range)
  {
    var e := Encode(v);
    WideEncode(v, min, range, i);
    WideDecode(e, min, range, i);
    CodeOfValue(e.values[i], min, range);
    Extremes(min, range);
  }

  lemma DecodedIsWide(v: Vec, min: real, range: real)
    requires Wide(v, min, range)
    ensures Wide(Decode(Encode(v)), min, range)
  {
    var w := Decode(Encode(v));
    var lo: nat :| lo < |v| && v[lo] == MinOf(v);
    var hi: nat :| hi < |v| && v[hi] == MaxOf(v);
    DecodedAt(v, min, range, lo);
    DecodedAt(v, min, range, hi);
    forall i | 0 <= i < |w| ensures min <= w[i] <= min + range { DecodedAt(v, min, range, i); }
    SameExtremes(v, w, lo, hi);
  }

  lemma WideReencode(v: Vec, min: real, range: real)
    requires Wide(v, min, range)
    ensures Encode(Decode(Encode(v))) == Encode(v)
  {
    var e := Encode(v);
    var w := Decode(e);
    DecodedIsWide(v, min, range);
    WideEncode(v, min, range, 0);
    WideEncode(w, min, range, 0);
    forall i | 0 <= i < |v| ensures Encode(w).values[i] == e.values[i] {
      DecodedAt(v, min, range, i);
      WideEncode(w, min, range, i);
    }
    assert Encode(w).values == e.values;
  }

  lemma {:induction false} ConstantExtremes(x: real, n: nat)
    requires n > 0
    ensures MinOf(seq(n, _ => x)) == x && MaxOf(seq(n, _ => x)) == x
  {}

  /**
   * Encoding what was decoded gives the same encoding back, except for a vector that is nearly but not
   * exactly constant: its maximum is forgotten.
   */
  lemma ReencodeIff(v: Vec)
    ensures Encode(Decode(Encode(v))) == Encode(v)
            <==> v == [] || MaxOf(v) == MinOf(v) || MaxOf(v) - MinOf(v) >= EPSILON
  {
    if v != [] {
      if MaxOf(v) - MinOf(v) >= EPSILON {
        WideReencode(v, MinOf(v), MaxOf(v) - MinOf(v));
      } else {
        var w := Decode(Encode(v));
        assert w == seq(|v|, _ => MinOf(v));
        ConstantExtremes(MinOf(v), |v|);
        assert Encode(w).max == MinOf(v);
        assert Encode(w).values == Encode(v).values;
      }
    }
  }
}
