/** The 128-bit multiply and divide that the token bucket builds from 64-bit words. */
module Int64Words {
  const TWO_64: int := 0x1_0000_0000_0000_0000
  const MAX_INT64: int := 0x7FFF_FFFF_FFFF_FFFF

  function Min(a: int, b: int): int {
    if a <= b then a else b
  }

  function Max(a: int, b: int): int {
    if a <= b then b else a
  }

  /** High and low 64-bit words of a product. */
  function Mul64(x: nat, y: nat): (nat, nat) {
    (x * y / TWO_64, x * y % TWO_64)
  }

  /** Quotient of a two-word dividend. The machine operation panics unless hi < y. */
  function Div64(hi: nat, lo: nat, y: nat): nat
    requires hi < y
  {
    (hi * TWO_64 + lo) / y
  }

  function MulDivFloor(a: int, b: int, div: int): int {
    if a <= 0 || b <= 0 || div <= 0 then 0
    else
      var (hi, lo) := Mul64(a, b);
      if hi >= div then MAX_INT64
      else
        var q := Div64(hi, lo, div);
        if q > MAX_INT64 then MAX_INT64 else q
  }

  /** x / d >= n, for a floor division, without dividing. */
  lemma FloorAtLeast(x: int, d: int, n: int)
    requires d > 0
    ensures x / d >= n <==> x >= n * d
  {
    var f := x / d;
    assert x == f * d + x % d;
    if f >= n {
      assert f * d >= n * d;
    } else {
      assert (f + 1) * d <= n * d;
    }
  }

  /** x / d is the only n with n*d <= x < (n+1)*d. */
  lemma FloorIs(x: int, d: int, n: int)
    requires d > 0
    requires n * d <= x < (n + 1) * d
    ensures x / d == n
  {
    FloorAtLeast(x, d, n);
    FloorAtLeast(x, d, n + 1);
  }

  /** The words compute the saturated quotient of the full product. */
  lemma MulDivFloorIsExact(a: int, b: int, div: int)
    ensures MulDivFloor(a, b, div) ==
            if a <= 0 || b <= 0 || div <= 0 then 0 else Min(MAX_INT64, a * b / div)
  {
    if a > 0 && b > 0 && div > 0 {
      var p := a * b;
      assert p > 0;
      var (hi, lo) := Mul64(a, b);
      assert p == hi * TWO_64 + lo;
      if hi >= div {
        assert p >= div * TWO_64;
        FloorAtLeast(p, div, TWO_64);
      }
    }
  }

  /** Div64 never overflows its one-word result where MulDivFloor calls it. */
  lemma QuotientFitsOneWord(a: nat, b: nat, div: nat)
    requires Mul64(a, b).0 < div
    ensures Div64(Mul64(a, b).0, Mul64(a, b).1, div) < TWO_64
  {
    var (hi, lo) := Mul64(a, b);
    assert hi * TWO_64 + lo < (hi + 1) * TWO_64;
    assert (hi + 1) * TWO_64 <= TWO_64 * div;
    FloorAtLeast(hi * TWO_64 + lo, div, TWO_64);
  }
}
