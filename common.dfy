/** Small numeric helpers and an Option type shared by the whole model. */
module Common {

  datatype Option<+T> = None | Some(value: T)

  /** Appending is associative. */
  lemma {:induction false} AppendAssoc<T>(a: seq<T>, b: seq<T>, c: seq<T>)
    ensures (a + b) + c == a + (b + c)
  {}

  /** Taking one more element of a sequence appends that element. */
  lemma {:induction false} TakeSnoc<T>(s: seq<T>, k: nat)
    requires k < |s|
    ensures s[..k + 1] == s[..k] + [s[k]]
  {}

  function Min(a: real, b: real): (m: real)
    ensures m <= a && m <= b && (m == a || m == b)
  {
    if a <= b then a else b
  }

  function Max(a: real, b: real): (m: real)
    ensures a <= m && b <= m && (m == a || m == b)
  {
    if a >= b then a else b
  }

  lemma {:induction false} MulMonotone(a: real, b: real, f: real)
    requires a <= b && 0.0 <= f
    ensures a * f <= b * f
  {}

  /** Rounding towards positive infinity (`f32::ceil`). */
  function Ceil(x: real): (c: int)
    ensures x <= c as real < x + 1.0
  {
    -((-x).Floor)
  }

  /** Scaling a non-negative number by a factor of at most one does not increase it. */
  lemma {:induction false} ScaleDown(a: real, f: real)
    requires 0.0 <= a && 0.0 <= f <= 1.0
    ensures a * f <= a
  {
    MulMonotone(f, 1.0, a);
  }

  /** A part `x` of a whole `d`, as a fraction of `d` and then of a length, stays between 0 and that length. */
  lemma {:induction false} FractionOfLength(x: real, d: real, len: real)
    requires 0.0 <= x <= d && 0.0 < d && 0.0 <= len
    ensures 0.0 <= x * (1.0 / d) * len <= len
  {
    var inv := 1.0 / d;
    assert d * inv == 1.0;
    MulMonotone(0.0, x, inv);
    MulMonotone(x, d, inv);
    var u := x * inv;
    assert 0.0 <= u <= 1.0;
    MulMonotone(0.0, u, len);
    assert 0.0 <= u * len;
    ScaleDown(len, u);
    assert u * len == len * u;
    assert u * len <= len;
    assert x * (1.0 / d) * len == u * len;
  }

  /** A ratio of a smaller positive number to a larger one lies strictly between 0 and 1. */
  lemma {:induction false} RatioBelowOne(num: real, den: real)
    requires 0.0 < num < den
    ensures 0.0 < num / den < 1.0
    ensures (num / den) * den == num
  {
    var f := num / den;
    assert f * den == num;
    if f >= 1.0 {
      MulMonotone(1.0, f, den);
      assert false;
    }
  }

  /** Rounding up keeps order. */
  lemma {:induction false} CeilMonotone(x: real, y: real)
    requires x <= y
    ensures Ceil(x) <= Ceil(y)
  {
    assert (Ceil(x) as real) < y + 1.0;
    assert (Ceil(x) as real) < Ceil(y) as real + 1.0;
  }

  /** Rounding up a value no larger than an integer gives at most that integer. */
  lemma {:induction false} CeilAtMost(x: real, n: int)
    requires x <= n as real
    ensures Ceil(x) <= n
  {
    assert (Ceil(x) as real) < n as real + 1.0;
  }

  /** An integer below the next integer up is at most that integer. */
  lemma {:induction false} IntBelowNext(n: int, m: int)
    requires (n as real) < m as real + 1.0
    ensures n <= m
  {}

  /** Rounding towards zero: the `as i32` cast behind euclid's `to_i32`. */
  function Trunc(x: real): (t: int)
    ensures 0.0 <= x ==> 0 <= t && t as real <= x < t as real + 1.0
    ensures x < 0.0 ==> t <= 0 && t as real - 1.0 < x <= t as real
  {
    if x >= 0.0 then x.Floor else -((-x).Floor)
  }
}
