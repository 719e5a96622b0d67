/**
 * Fixed-width unsigned arithmetic underneath an RFC 1982 serial number of
 * `w` bits: the size of the number space, the critical distance, the
 * truncating cast of an unsigned C++ `static_cast<T>`, the wrapping
 * increment, and the number of increments that lead from one value to another.
 */
module SerialMath {

  /** 2^k. */
  function Pow2(k: nat): (r: nat)
    ensures r >= 1
  {
    if k == 0 then 1 else 2 * Pow2(k - 1)
  }

  /** The number of distinct values of a `w`-bit unsigned integer, 2^w. */
  function Modulus(w: nat): nat
  {
    Pow2(w)
  }

  /** The critical distance 2^(w-1): exactly half of the number space. */
  function Half(w: nat): (h: nat)
    requires w >= 1
    ensures h >= 1 && 2 * h == Modulus(w)
  {
    Pow2(w - 1)
  }

  /**
   * The widths for which the constructor is specialised: uint8_t .. uint128_t.
   * Each has at least eight bits, so a value of it ranges at least over 0..255.
   */
  predicate SupportedWidth(w: nat)
    ensures SupportedWidth(w) ==> w >= 8 && Modulus(w) >= 256
  {
    w == 8 || w == 16 || w == 32 || w == 64 || w == 128
  }

  /**
   * Conversion of a non-negative plain number to the `w`-bit unsigned type:
   * the result is in range and is `x` itself when `x` fits (TruncPeriodic
   * shows that multiples of 2^w are dropped).
   */
  function Trunc(w: nat, x: nat): (r: nat)
    ensures r < Modulus(w)
    ensures x < Modulus(w) ==> r == x
  {
    ModSmall(x, Modulus(w));
    x % Modulus(w)
  }

  /** A number below the modulus is its own remainder. */
  lemma ModSmall(x: nat, m: nat)
    requires m >= 1
    ensures x < m ==> x % m == x
  {
    if x < m {
      ModUnique(x, m, 0, x);
    }
  }

  /** Adding any multiple of 2^w to a plain number does not change its cast. */
  lemma {:induction false} TruncPeriodic(w: nat, x: nat, k: nat)
    ensures Trunc(w, x + k * Modulus(w)) == Trunc(w, x)
  {
    if k > 0 {
      var m := Modulus(w);
      TruncPeriodic(w, x, k - 1);
      assert x + k * m == (x + (k - 1) * m) + m;
      ModAddModulus(x + (k - 1) * m, m);
    }
  }

  /** (y + m) % m == y % m, proved from the definition of Euclidean division. */
  lemma ModAddModulus(y: nat, m: nat)
    requires m >= 1
    ensures (y + m) % m == y % m
  {
    var q, r := y / m, y % m;
    assert y == q * m + r;
    assert y + m == (q + 1) * m + r;
    ModUnique(y + m, m, q + 1, r);
  }

  /** The remainder of Euclidean division is the only one in range. */
  lemma ModUnique(y: int, m: nat, q: int, r: int)
    requires m >= 1 && 0 <= r < m && y == q * m + r
    ensures y % m == r
  {
    var q', r' := y / m, y % m;
    assert y == q' * m + r';
    var d := q - q';
    assert d * m == r' - r;
    if d >= 1 {
      MulAtLeast(d, m);
    }
  }

  lemma {:induction false} MulAtLeast(d: nat, m: nat)
    requires d >= 1
    ensures d * m >= m
  {
    if d > 1 {
      MulAtLeast(d - 1, m);
      assert d * m == (d - 1) * m + m;
    }
  }

  /**
   * The unsigned `++` on a `w`-bit value: the next value, where the maximum
   * 2^w - 1 wraps around to 0.
   */
  function Next(w: nat, x: nat): (r: nat)
    requires x < Modulus(w)
    ensures r < Modulus(w)
    ensures r == if x + 1 == Modulus(w) then 0 else x + 1
  {
    Trunc(w, x + 1)
  }

  /**
   * The number of increments that lead from `from` to `to` on the circle of
   * 2^w values: the "upward" distance that RFC 1982 comparisons are about.
   */
  function Forward(w: nat, from: nat, to: nat): (d: nat)
    requires from < Modulus(w) && to < Modulus(w)
    ensures d < Modulus(w)
    ensures d == 0 <==> from == to
    ensures d == if from <= to then to - from else Modulus(w) - (from - to)
    ensures Trunc(w, from + d) == to
  {
    var m := Modulus(w);
    if from <= to then
      ModUnique(to - from, m, 0, to - from);
      (to - from) % m
    else
      ModUnique(to - from, m, -1, m - (from - to));
      ModUnique(to + m, m, 1, to);
      (to - from) % m
  }

  /** The number of increments that lead from `from` to `to` is unique below 2^w. */
  lemma ForwardUnique(w: nat, from: nat, to: nat, k: nat)
    requires from < Modulus(w) && to < Modulus(w) && k < Modulus(w)
    requires Trunc(w, from + k) == to
    ensures k == Forward(w, from, to)
  {
    var m := Modulus(w);
    if from + k < m {
      assert to == from + k;
    } else {
      ModUnique(from + k, m, 1, from + k - m);
      assert to == from + k - m;
    }
  }

  /** Going from `a` to a different `b` and back again goes once round the circle. */
  lemma ForwardRoundTrip(w: nat, a: nat, b: nat)
    requires a < Modulus(w) && b < Modulus(w) && a != b
    ensures Forward(w, a, b) + Forward(w, b, a) == Modulus(w)
  {
  }

  /** The wrapping increment is one step forward, for every width. */
  lemma ForwardNext(w: nat, a: nat)
    requires w >= 1 && a < Modulus(w)
    ensures Forward(w, a, Next(w, a)) == 1
  {
    assert Modulus(w) == 2 * Half(w);
  }
}
