/** Machine words: arithmetic modulo `m` agrees with true positions whose distance is below `m`. */
module Wrapping {

  /** The number of values of a word. */
  type Modulus = m: int | m > 0 witness 1

  /** The word holding position `x`. */
  function Wrap(x: nat, m: Modulus): (w: nat)
    ensures w < m
  {
    x % m
  }

  function WrapAdd(a: nat, b: nat, m: Modulus): nat {
    (a + b) % m
  }

  function WrapSub(a: nat, b: nat, m: Modulus): nat {
    if b < m then (a + m - b) % m else a % m
  }

  /** A nonzero multiple of `m` is at least `m` away from zero. */
  lemma {:induction false} MultipleBounds(d: int, m: nat)
    ensures d > 0 ==> d * m >= m
    ensures d < 0 ==> d * m <= 0 - m
    decreases if d < 0 then -d else d
  {
    if d > 1 {
      MultipleBounds(d - 1, m);
      assert d * m == (d - 1) * m + m;
    } else if d < -1 {
      MultipleBounds(d + 1, m);
      assert d * m == (d + 1) * m - m;
    }
  }

  /** The residue is the only number below `m` at a multiple of `m` from `x`. */
  lemma ResidueUnique(x: int, q: int, r: int, m: nat)
    requires m > 0 && x == q * m + r && 0 <= r < m
    ensures x % m == r
  {
    var d := x / m - q;
    assert x == (x / m) * m + x % m;
    assert d * m == r - x % m;
    MultipleBounds(d, m);
  }

  /** Advancing a wrapped position is wrapping the advanced position. */
  lemma WrapAddExact(x: nat, n: nat, m: Modulus)
    ensures WrapAdd(Wrap(x, m), n, m) == Wrap(x + n, m)
  {
    var y := x % m + n;
    assert x == (x / m) * m + x % m;
    assert y == (y / m) * m + y % m;
    assert x + n == (x / m) * m + (y / m) * m + y % m == (x / m + y / m) * m + y % m;
    ResidueUnique(x + n, x / m + y / m, y % m, m);
  }

  /** The wrapped distance of two positions is their true distance while that is below `m`. */
  lemma WrapSubExact(x: nat, y: nat, m: Modulus)
    requires y <= x < y + m
    ensures WrapSub(Wrap(x, m), Wrap(y, m), m) == x - y
  {
    var z := x % m + m - y % m;
    assert x == (x / m) * m + x % m && y == (y / m) * m + y % m;
    assert z == x - y + (y / m - x / m + 1) * m;
    ResidueUnique(z, y / m - x / m + 1, x - y, m);
  }

  /** Two positions less than `m` apart are equal exactly when they wrap to the same word. */
  lemma WrapEqual(x: nat, y: nat, m: Modulus)
    requires y <= x < y + m
    ensures Wrap(x, m) == Wrap(y, m) <==> x == y
  {
    WrapSubExact(x, y, m);
    if Wrap(x, m) == Wrap(y, m) {
      assert m % m == 0;
    }
  }
}
