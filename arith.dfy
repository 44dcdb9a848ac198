/** Integer facts behind the Diamond-Square stepping pattern.
    At a level of step `2*h` the lattice coordinates that are multiples of `h`
    split into the coarse ones (multiples of `2*h`) and the midway ones
    (odd multiples of `h`); these lemmas say how the split behaves. */
module Arith {

  /** n is a power of two: 1, 2, 4, 8, ... */
  predicate IsPow2(n: nat)
  {
    n == 1 || (n >= 2 && n % 2 == 0 && IsPow2(n / 2))
  }

  /** Quotient and remainder are determined by any decomposition with a remainder in range. */
  lemma ModUnique(x: int, s: int, q: int, r: int)
    requires s > 0 && 0 <= r < s && x == q * s + r
    ensures x % s == r && x / s == q
  {
    var q0, r0 := x / s, x % s;
    assert x == q0 * s + r0;
    assert (q - q0) * s == r0 - r;
    if q > q0 {
      MulAtLeast(q - q0, s);
    } else if q < q0 {
      MulAtLeast(q0 - q, s);
    }
  }

  lemma MulAtLeast(a: int, s: int)
    requires a >= 1 && s > 0
    ensures a * s >= s
  {
    assert a * s == (a - 1) * s + s;
  }

  /** A multiple of h is, modulo 2h, either 0 or h. */
  lemma HalfSplit(x: nat, h: nat)
    requires h >= 1 && x % h == 0
    ensures x % (2 * h) == 0 || x % (2 * h) == h
  {
    var a := x / h;
    assert x == a * h;
    var b := a / 2;
    if a % 2 == 0 {
      assert a == 2 * b;
      assert x == b * (2 * h);
      ModUnique(x, 2 * h, b, 0);
    } else {
      assert a == 2 * b + 1;
      assert x == b * (2 * h) + h;
      ModUnique(x, 2 * h, b, h);
    }
  }

  /** Coarse and midway coordinates of step 2h are multiples of h. */
  lemma Refine(x: nat, h: nat)
    requires h >= 1 && (x % (2 * h) == 0 || x % (2 * h) == h)
    ensures x % h == 0
  {
    var q := x / (2 * h);
    if x % (2 * h) == 0 {
      assert x == (2 * q) * h;
      ModUnique(x, h, 2 * q, 0);
    } else {
      assert x == (2 * q + 1) * h;
      ModUnique(x, h, 2 * q + 1, 0);
    }
  }

  /** Moving by h swaps coarse and midway coordinates. */
  lemma Flip(x: nat, h: nat)
    requires h >= 1 && (x % (2 * h) == 0 || x % (2 * h) == h)
    ensures x % (2 * h) == h ==> h <= x && (x + h) % (2 * h) == 0 && (x - h) % (2 * h) == 0
    ensures x % (2 * h) == 0 ==> (x + h) % (2 * h) == h && (x >= h ==> (x - h) % (2 * h) == h)
  {
    var q := x / (2 * h);
    assert x == q * (2 * h) + x % (2 * h);
    if x % (2 * h) == h {
      ModUnique(x + h, 2 * h, q + 1, 0);
      ModUnique(x - h, 2 * h, q, 0);
    } else {
      ModUnique(x + h, 2 * h, q, h);
      if x >= h {
        if q <= 0 {
          assert q == 0;
        }
        ModUnique(x - h, 2 * h, q - 1, h);
      }
    }
  }

  /** Adding the step keeps the residue. */
  lemma StepKeeps(x: nat, s: nat)
    requires s >= 1
    ensures (x + s) % s == x % s
  {
    ModUnique(x + s, s, x / s + 1, x % s);
  }

  /** Two coordinates with the same residue less than one step apart are equal. */
  lemma SameResidueNear(r: nat, j: nat, s: nat)
    requires s >= 1 && r % s == j % s && j <= r < j + s
    ensures r == j
  {
    var a, b := r / s, j / s;
    assert r - j == (a - b) * s;
    if a > b {
      MulAtLeast(a - b, s);
    } else if a < b {
      MulAtLeast(b - a, s);
    }
  }

  /** A residue never exceeds the number. */
  lemma ModAtMost(x: nat, s: nat)
    requires s >= 1
    ensures x % s <= x
  {
    if x < s {
      ModUnique(x, s, 0, x);
    }
  }

  /** A midway coordinate lies at least h inside both ends of [0, div]. */
  lemma MidwayInside(x: nat, h: nat, div: nat)
    requires h >= 1 && div % (2 * h) == 0 && x % (2 * h) == h && x <= div
    ensures h <= x && x + h <= div
  {
    ModAtMost(x, 2 * h);
    var a, b := x / (2 * h), div / (2 * h);
    assert x == a * (2 * h) + h;
    assert div == b * (2 * h);
    if b <= a {
      assert div - x == (b - a) * (2 * h) - h;
      if b < a {
        MulAtLeast(a - b, 2 * h);
      }
      assert false;
    }
    MulAtLeast(b - a, 2 * h);
    assert div - x == (b - a) * (2 * h) - h;
  }

  /** The only multiples of div in [0, div] are its ends. */
  lemma EndsOnly(x: nat, div: nat)
    requires div >= 1 && x <= div && x % div == 0
    ensures x == 0 || x == div
  {
    if x < div {
      ModUnique(x, div, 0, x);
    }
  }

  /** 0 and div are multiples of div. */
  lemma EndsAreMultiples(div: nat)
    requires div >= 1
    ensures 0 % div == 0 && div % div == 0
  {
    ModUnique(0, div, 0, 0);
    ModUnique(div, div, 1, 0);
  }

  /** A positive multiple of s is at least s. */
  lemma MultipleAtLeast(n: nat, s: nat)
    requires n >= 1 && s >= 1 && n % s == 0
    ensures s <= n
  {
    if n < s {
      ModUnique(n, s, 0, n);
    }
  }
}
