/** Exact arithmetic shared by every module: decimals are modelled as reals. */
module Numbers {

  datatype Option<+T> = None | Some(value: T)

  datatype Result<+T, +E> = Success(value: T) | Failure(error: E)

  function Abs(x: real): real {
    if x < 0.0 then -x else x
  }

  function Min(a: real, b: real): real {
    if b < a then b else a
  }

  function Max(a: real, b: real): real {
    if b > a then b else a
  }

  /** Instants are microseconds. */
  const SECOND := 1_000_000

  function MaxNat(a: nat, b: nat): nat {
    if b > a then b else a
  }

  /** The last place where a condition holds. */
  function LastIndex<T>(s: seq<T>, p: T -> bool): (found: Option<nat>)
    ensures found.Some? ==> found.value < |s| && p(s[found.value])
    ensures found.None? ==> forall i :: 0 <= i < |s| ==> !p(s[i])
  {
    if s == [] then None else if p(s[|s| - 1]) then Some(|s| - 1) else LastIndex(s[..|s| - 1], p)
  }

  /** A product kept behind a name, so that proofs can treat it as one quantity. */
  function Times(a: real, b: real): real {
    a * b
  }

  function Magnitudes(xs: seq<real>): (r: seq<real>)
    ensures |r| == |xs|
  {
    seq(|xs|, i requires 0 <= i < |xs| => Abs(xs[i]))
  }

  /** The last `count` elements, or all of them. */
  function Last<T>(s: seq<T>, count: nat): seq<T> {
    if |s| <= count then s else s[|s| - count..]
  }

  function Mean(xs: seq<real>): real
    requires xs != []
  {
    Sum(xs) / |xs| as real
  }

  /** Accumulates left to right, as `sum(..., Decimal(0))` does. */
  function Sum(s: seq<real>): real {
    if s == [] then 0.0 else Sum(s[..|s| - 1]) + s[|s| - 1]
  }

  lemma {:induction false} SumSnoc(s: seq<real>, x: real)
    ensures Sum(s + [x]) == Sum(s) + x
  {
    assert (s + [x])[..|s|] == s;
  }

  lemma {:induction false} SumConcat(s: seq<real>, t: seq<real>)
    ensures Sum(s + t) == Sum(s) + Sum(t)
    decreases |t|
  {
    if t == [] {
      assert s + t == s;
    } else {
      var init := t[..|t| - 1];
      assert s + t == (s + init) + [t[|t| - 1]];
      SumSnoc(s + init, t[|t| - 1]);
      SumConcat(s, init);
    }
  }

  /** `(x / step).to_integral_value(ROUND_FLOOR) * step`. */
  function FloorTo(x: real, step: real): real
    requires step > 0.0
  {
    (x / step).Floor as real * step
  }

  /** `(x / step).to_integral_value(ROUND_CEILING) * step`. */
  function CeilTo(x: real, step: real): real
    requires step > 0.0
  {
    -FloorTo(-x, step)
  }

  function Steps(k: int, step: real): real {
    k as real * step
  }

  ghost predicate IsMultiple(x: real, step: real) {
    exists k: int :: x == Steps(k, step)
  }

  lemma FloorToBounds(x: real, step: real)
    requires step > 0.0
    ensures FloorTo(x, step) <= x < FloorTo(x, step) + step
    ensures IsMultiple(FloorTo(x, step), step)
  {
    var q := x / step;
    DivMul(x, step);
    ScaleBelow(q.Floor as real, q, step, x);
    ScaleAbove(q.Floor as real, q, step, x);
    assert FloorTo(x, step) == Steps(q.Floor, step);
  }

  lemma ScaleAbove(low: real, q: real, step: real, x: real)
    requires q < low + 1.0 && step > 0.0 && x == q * step
    ensures x < low * step + step
  {
    MulLt(q, low + 1.0, step);
  }

  lemma ScaleBelow(low: real, q: real, step: real, x: real)
    requires low <= q && step > 0.0 && x == q * step
    ensures low * step <= x
  {
    MulLe(low, q, step);
  }

  lemma CeilToBounds(x: real, step: real)
    requires step > 0.0
    ensures x <= CeilTo(x, step) < x + step
    ensures IsMultiple(CeilTo(x, step), step)
  {
    FloorToBounds(-x, step);
    var k: int :| FloorTo(-x, step) == Steps(k, step);
    assert CeilTo(x, step) == Steps(-k, step);
  }

  lemma FloorToMonotone(x: real, y: real, step: real)
    requires step > 0.0 && x <= y
    ensures FloorTo(x, step) <= FloorTo(y, step)
  {
    DivLe(x, y, step);
    assert (x / step).Floor <= (y / step).Floor;
    MulLe((x / step).Floor as real, (y / step).Floor as real, step);
  }

  lemma DivMul(x: real, c: real)
    requires c != 0.0
    ensures x / c * c == x
  {
  }

  lemma MulLe(a: real, b: real, c: real)
    requires a <= b && c >= 0.0
    ensures a * c <= b * c
  {
  }

  lemma MulLt(a: real, b: real, c: real)
    requires a < b && c > 0.0
    ensures a * c < b * c
  {
  }

  lemma DivLe(a: real, b: real, c: real)
    requires a <= b && c > 0.0
    ensures a / c <= b / c
  {
    MulCancelLe(a / c, b / c, c);
  }

  lemma DivPositive(a: real, c: real)
    requires a > 0.0 && c > 0.0
    ensures a / c > 0.0
  {
  }

  lemma MulCancelLe(p: real, q: real, c: real)
    requires p * c <= q * c && c > 0.0
    ensures p <= q
  {
  }
}
