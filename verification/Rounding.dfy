/** Python's `round(x, d)` on exact reals: the nearest multiple of a unit, ties to the even one. */
module Rounding {

  function Nearest(x: real): (n: int)
    ensures -0.5 <= n as real - x <= 0.5
    ensures (n as real - x == 0.5 || n as real - x == -0.5) ==> n % 2 == 0
  {
    var f := x.Floor;
    var part := x - f as real;
    if part < 0.5 then f
    else if part > 0.5 then f + 1
    else if f % 2 == 0 then f
    else f + 1
  }

  lemma NearestMonotone(x: real, y: real)
    requires x <= y
    ensures Nearest(x) <= Nearest(y)
  {
    if x < y {
      assert Nearest(x) as real < Nearest(y) as real + 1.0;
    }
  }

  /** Rounding passes no whole number. */
  lemma NearestBelow(x: real, n: int)
    ensures x <= n as real ==> Nearest(x) <= n
    ensures x >= n as real ==> Nearest(x) >= n
    ensures x < n as real + 0.5 ==> Nearest(x) <= n
    ensures x > n as real + 0.5 ==> Nearest(x) >= n + 1
  {}

  function Round2(x: real): (r: real)
    ensures -0.005 <= r - x <= 0.005
    ensures (r * 100.0).Floor as real == r * 100.0
    ensures r - x == 0.005 || r - x == -0.005 ==> (r * 100.0).Floor % 2 == 0
  {
    Nearest(x * 100.0) as real / 100.0
  }

  function Round3(x: real): (r: real)
    ensures -0.0005 <= r - x <= 0.0005
    ensures (r * 1000.0).Floor as real == r * 1000.0
    ensures r - x == 0.0005 || r - x == -0.0005 ==> (r * 1000.0).Floor % 2 == 0
  {
    Nearest(x * 1000.0) as real / 1000.0
  }

  function Round4(x: real): (r: real)
    ensures -0.00005 <= r - x <= 0.00005
    ensures (r * 10_000.0).Floor as real == r * 10_000.0
    ensures r - x == 0.00005 || r - x == -0.00005 ==> (r * 10_000.0).Floor % 2 == 0
  {
    Nearest(x * 10_000.0) as real / 10_000.0
  }

  lemma Round2Monotone(x: real, y: real)
    requires x <= y
    ensures Round2(x) <= Round2(y)
  {
    NearestMonotone(x * 100.0, y * 100.0);
  }

  lemma Round3Monotone(x: real, y: real)
    requires x <= y
    ensures Round3(x) <= Round3(y)
  {
    NearestMonotone(x * 1000.0, y * 1000.0);
  }

  lemma Round4Monotone(x: real, y: real)
    requires x <= y
    ensures Round4(x) <= Round4(y)
  {
    NearestMonotone(x * 10_000.0, y * 10_000.0);
  }

  lemma Round2Range(x: real)
    requires 0.0 <= x <= 100.0
    ensures 0.0 <= Round2(x) <= 100.0
  {
    NearestBelow(x * 100.0, 0);
    NearestBelow(x * 100.0, 10_000);
  }

  lemma Round4Range(x: real)
    requires 0.0 <= x <= 1.0
    ensures 0.0 <= Round4(x) <= 1.0
  {
    NearestBelow(x * 10_000.0, 0);
    NearestBelow(x * 10_000.0, 10_000);
  }

  // ---------------------------------------------------------------------------
  // Products of reals
  // ---------------------------------------------------------------------------

  lemma ScaleMonotone(a: real, b: real, k: real)
    requires a <= b && 0.0 <= k
    ensures a * k <= b * k
  {}

  lemma ScaleStrict(a: real, b: real, k: real)
    requires a < b && 0.0 < k
    ensures a * k < b * k
  {}
}
