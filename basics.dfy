/** Small numeric vocabulary shared by every page model: an optional value
    (JavaScript's `null`), the `Math.min`/`Math.max` clamp, `Math.round`,
    the `+x.toFixed(1)` rounding, and the transcendental functions the pages
    call, which the model keeps abstract. */
module Basics {

  /** `T | null` in the source. */
  datatype Option<+T> = None | Some(value: T)

  /** `Math.max(lo, Math.min(hi, v))`. */
  function Clamp(v: real, lo: real, hi: real): (r: real)
    ensures lo <= hi ==> lo <= r <= hi
    ensures lo <= v <= hi ==> r == v
    ensures v < lo ==> r == lo
    ensures lo <= hi && hi < v ==> r == hi
  {
    var m := if hi <= v then hi else v;
    if lo >= m then lo else m
  }

  function Max(a: real, b: real): (r: real)
    ensures r >= a && r >= b && (r == a || r == b)
  {
    if a >= b then a else b
  }

  function Min(a: real, b: real): (r: real)
    ensures r <= a && r <= b && (r == a || r == b)
  {
    if a <= b then a else b
  }

  /** `Math.round`: the nearest integer, halves rounded up. */
  function Round(x: real): (n: int)
    ensures x - 0.5 < n as real <= x + 0.5
  {
    (x + 0.5).Floor
  }

  /** `+x.toFixed(1)`: the nearest multiple of one tenth, halves rounded away
      from zero, on exact reals. */
  function Round1(x: real): (r: real)
    ensures (10.0 * r).Floor as real == 10.0 * r
    ensures x >= 0.0 ==> 10.0 * x - 0.5 < 10.0 * r <= 10.0 * x + 0.5
    ensures x < 0.0 ==> 10.0 * x - 0.5 <= 10.0 * r < 10.0 * x + 0.5
    ensures -0.05 <= r - x <= 0.05
    ensures x >= 0.0 ==> r >= 0.0
    ensures x < 0.0 ==> r <= 0.0
  {
    if x >= 0.0 then
      var n := (10.0 * x + 0.5).Floor;
      assert 10.0 * (n as real / 10.0) == n as real;
      n as real / 10.0
    else
      var n := ((-10.0) * x + 0.5).Floor;
      assert 10.0 * -(n as real / 10.0) == (-n) as real;
      -(n as real / 10.0)
  }

  lemma Round1Monotone(x: real, y: real)
    requires x <= y
    ensures Round1(x) <= Round1(y)
  {
    if x >= 0.0 {
      assert (10.0 * x + 0.5).Floor <= (10.0 * y + 0.5).Floor;
    } else if y < 0.0 {
      assert ((-10.0) * y + 0.5).Floor <= ((-10.0) * x + 0.5).Floor;
    }
  }

  /** A value already on a tenth is kept, so rounding twice is rounding
      once. */
  lemma Round1Idempotent(x: real)
    ensures Round1(Round1(x)) == Round1(x)
  {
    var r := Round1(x);
    var n := (10.0 * r).Floor;
    assert 10.0 * r == n as real;
    if r >= 0.0 {
      assert (10.0 * r + 0.5).Floor == n;
    } else {
      assert ((-10.0) * r + 0.5).Floor == -n;
    }
  }

  /** The transcendental functions the pages call (`Math.PI`, `Math.sin`,
      `Math.cos`, `Math.tan`, `Math.sqrt`), taken as uninterpreted inputs. */
  datatype Maths = Maths(pi: real, sin: real -> real, cos: real -> real,
                         tan: real -> real, sqrt: real -> real)
}
