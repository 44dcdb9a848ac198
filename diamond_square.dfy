/** The pure parts of the Diamond-Square height synthesis: the perturbation
    drawn for a step, the two averages, and which lattice points a level of
    step `2*h` reads and writes. */
module DiamondSquare {
  import opened Arith
  import opened Grid

  /** The perturbation added by a step, from u, the value of `Math.random()`
      for that step, and scale = roughness * size: it lies within half the
      scale of 0, and is exactly 0 when scale is 0. */
  function Perturbation(u: real, scale: real): (p: real)
    ensures 0.0 <= u < 1.0 ==> -Abs(scale) / 2.0 <= p <= Abs(scale) / 2.0
    ensures scale == 0.0 ==> p == 0.0
  {
    PerturbationBounds(u, scale);
    (u * scale * 2.0 - scale) / 2.0
  }

  /** The bounds of a perturbation, from those of the scaled draw. */
  lemma PerturbationBounds(u: real, scale: real)
    ensures 0.0 <= u < 1.0 ==> -Abs(scale) / 2.0 <= (u * scale * 2.0 - scale) / 2.0 <= Abs(scale) / 2.0
    ensures scale == 0.0 ==> (u * scale * 2.0 - scale) / 2.0 == 0.0
  {
    ScaledDraw(u, scale);
    HalfShift(u * scale, scale);
  }

  /** A draw m between 0 and scale, shifted down by half the scale and
      halved, lies within half the scale of 0. */
  lemma HalfShift(m: real, scale: real)
    ensures (0.0 <= scale && 0.0 <= m <= scale) || (scale < 0.0 && scale <= m <= 0.0) ==>
              -Abs(scale) / 2.0 <= (m * 2.0 - scale) / 2.0 <= Abs(scale) / 2.0
    ensures scale == 0.0 && m == 0.0 ==> (m * 2.0 - scale) / 2.0 == 0.0
  {
  }

  function Abs(a: real): real
  {
    if a < 0.0 then -a else a
  }

  lemma ScaledDraw(u: real, scale: real)
    ensures 0.0 <= u < 1.0 && 0.0 <= scale ==> 0.0 <= u * scale <= scale
    ensures 0.0 <= u < 1.0 && scale < 0.0 ==> scale <= u * scale <= 0.0
  {
    if 0.0 <= u < 1.0 {
      if 0.0 <= scale {
        NonNegProduct(u, scale);
        NonNegProduct(1.0 - u, scale);
      } else {
        NonNegProduct(u, -scale);
        NonNegProduct(1.0 - u, -scale);
      }
    }
  }

  lemma NonNegProduct(a: real, b: real)
    requires 0.0 <= a && 0.0 <= b
    ensures 0.0 <= a * b
  {
  }

  /** How far the synthesis can move heights away from the range of the points
      it starts from, when it runs from step size down to step 1: each level
      of step s moves them by at most |roughness| * s. */
  function Spread(roughness: real, size: nat): real
    requires size >= 1
  {
    Abs(roughness) * ((2 * size - 2) as real)
  }

  /** All points whose coordinates are multiples of s have heights in [lo, hi]. */
  ghost predicate GridWithin(buf: seq<real>, div: nat, s: nat, lo: real, hi: real)
    requires IsVertexBuffer(buf, div) && s >= 1
  {
    forall r: nat, c: nat :: r <= div && c <= div && r % s == 0 && c % s == 0 ==>
      lo <= HeightOf(buf, div, r, c) <= hi
  }

  /** All points whose coordinates are multiples of s have the same height in both buffers. */
  ghost predicate GridKept(buf: seq<real>, was: seq<real>, div: nat, s: nat)
    requires IsVertexBuffer(buf, div) && IsVertexBuffer(was, div) && s >= 1
  {
    forall r: nat, c: nat :: r <= div && c <= div && r % s == 0 && c % s == 0 ==>
      HeightOf(buf, div, r, c) == HeightOf(was, div, r, c)
  }

  /** Average of the four diagonal neighbours, at distance size, of the point
      in row y and column x: bottom-left, top-left, bottom-right, top-right. */
  function DiamondAverage(buf: seq<real>, div: nat, x: nat, y: nat, size: nat): real
    requires IsVertexBuffer(buf, div)
    requires size <= x && x + size <= div && size <= y && y + size <= div
  {
    (HeightOf(buf, div, y - size, x - size) + HeightOf(buf, div, y + size, x - size)
     + HeightOf(buf, div, y - size, x + size) + HeightOf(buf, div, y + size, x + size)) / 4.0
  }

  /** The diamond average stays within any bounds that hold for all four neighbours. */
  lemma DiamondAverageWithin(buf: seq<real>, div: nat, x: nat, y: nat, size: nat, lo: real, hi: real)
    requires IsVertexBuffer(buf, div)
    requires size <= x && x + size <= div && size <= y && y + size <= div
    requires lo <= HeightOf(buf, div, y - size, x - size) <= hi
    requires lo <= HeightOf(buf, div, y + size, x - size) <= hi
    requires lo <= HeightOf(buf, div, y - size, x + size) <= hi
    requires lo <= HeightOf(buf, div, y + size, x + size) <= hi
    ensures lo <= DiamondAverage(buf, div, x, y, size) <= hi
  {
  }

  /** Which of the four axis neighbours of (row y, column x) at distance size
      lie inside [0, div]. */
  predicate HasLeft(x: nat, size: nat) { x - size >= 0 }
  predicate HasRight(div: nat, x: nat, size: nat) { x + size <= div }
  predicate HasTop(div: nat, y: nat, size: nat) { y + size <= div }
  predicate HasBottom(y: nat, size: nat) { y - size >= 0 }

  /** How many axis neighbours lie inside the grid: the square step's divisor.
      At any step size up to div/2 at most one neighbour per axis is missing. */
  function NeighbourCount(div: nat, x: nat, y: nat, size: nat): (n: nat)
    ensures n <= 4
    ensures n == 4 <==> HasLeft(x, size) && HasRight(div, x, size) && HasTop(div, y, size) && HasBottom(y, size)
    ensures 1 <= size && 2 * size <= div && x <= div && y <= div ==> 2 <= n
  {
    4 - (if HasLeft(x, size) then 0 else 1) - (if HasRight(div, x, size) then 0 else 1)
      - (if HasTop(div, y, size) then 0 else 1) - (if HasBottom(y, size) then 0 else 1)
  }

  /** Sum of the heights of the axis neighbours inside the grid, in the order
      left, right, top, bottom; a missing neighbour adds 0. */
  function SquareSum(buf: seq<real>, div: nat, x: nat, y: nat, size: nat): real
    requires IsVertexBuffer(buf, div) && x <= div && y <= div
  {
    (if HasLeft(x, size) then HeightOf(buf, div, y, x - size) else 0.0)
    + (if HasRight(div, x, size) then HeightOf(buf, div, y, x + size) else 0.0)
    + (if HasTop(div, y, size) then HeightOf(buf, div, y + size, x) else 0.0)
    + (if HasBottom(y, size) then HeightOf(buf, div, y - size, x) else 0.0)
  }

  /** Average of the axis neighbours inside the grid. */
  function SquareAverage(buf: seq<real>, div: nat, x: nat, y: nat, size: nat): real
    requires IsVertexBuffer(buf, div) && x <= div && y <= div
    requires NeighbourCount(div, x, y, size) > 0
  {
    SquareSum(buf, div, x, y, size) / (NeighbourCount(div, x, y, size) as real)
  }

  /** The square average stays within any bounds that hold for every neighbour
      inside the grid; the missing ones, which add 0, do not pull it down. */
  lemma SquareAverageWithin(buf: seq<real>, div: nat, x: nat, y: nat, size: nat, lo: real, hi: real)
    requires IsVertexBuffer(buf, div) && x <= div && y <= div
    requires NeighbourCount(div, x, y, size) > 0
    requires HasLeft(x, size) ==> lo <= HeightOf(buf, div, y, x - size) <= hi
    requires HasRight(div, x, size) ==> lo <= HeightOf(buf, div, y, x + size) <= hi
    requires HasTop(div, y, size) ==> lo <= HeightOf(buf, div, y + size, x) <= hi
    requires HasBottom(y, size) ==> lo <= HeightOf(buf, div, y - size, x) <= hi
    ensures lo <= SquareAverage(buf, div, x, y, size) <= hi
  {
    MeanWithin(if HasLeft(x, size) then HeightOf(buf, div, y, x - size) else 0.0,
               if HasRight(div, x, size) then HeightOf(buf, div, y, x + size) else 0.0,
               if HasTop(div, y, size) then HeightOf(buf, div, y + size, x) else 0.0,
               if HasBottom(y, size) then HeightOf(buf, div, y - size, x) else 0.0,
               HasLeft(x, size), HasRight(div, x, size), HasTop(div, y, size), HasBottom(y, size), lo, hi);
  }

  /** The mean of those of four numbers that are present, absent ones
      counting as 0 in the sum, lies within any bounds the present ones
      lie within. */
  lemma MeanWithin(a: real, b: real, c: real, d: real, ha: bool, hb: bool, hc: bool, hd: bool, lo: real, hi: real)
    requires ha || hb || hc || hd
    requires (ha ==> lo <= a <= hi) && (!ha ==> a == 0.0)
    requires (hb ==> lo <= b <= hi) && (!hb ==> b == 0.0)
    requires (hc ==> lo <= c <= hi) && (!hc ==> c == 0.0)
    requires (hd ==> lo <= d <= hi) && (!hd ==> d == 0.0)
    ensures var n := 4 - (if ha then 0 else 1) - (if hb then 0 else 1) - (if hc then 0 else 1) - (if hd then 0 else 1);
            lo <= (a + b + c + d) / (n as real) <= hi
  {
    var n := 4 - (if ha then 0 else 1) - (if hb then 0 else 1) - (if hc then 0 else 1) - (if hd then 0 else 1);
    var s := a + b + c + d;
    if n == 1 {
      assert lo <= s <= hi;
    } else if n == 2 {
      assert 2.0 * lo <= s <= 2.0 * hi;
    } else if n == 3 {
      assert 3.0 * lo <= s <= 3.0 * hi;
    } else {
      assert 4.0 * lo <= s <= 4.0 * hi;
    }
  }

  /** Points left alone by a level of step 2h: both coordinates multiples of 2h. */
  predicate IsCoarse(r: nat, c: nat, h: nat)
    requires h >= 1
  {
    r % (2 * h) == 0 && c % (2 * h) == 0
  }

  /** Points written by the diamond pass of step 2h: both coordinates odd multiples of h. */
  predicate IsDiamondTarget(r: nat, c: nat, h: nat)
    requires h >= 1
  {
    r % (2 * h) == h && c % (2 * h) == h
  }

  /** Points written by the square pass of step 2h: rows that are multiples of h,
      and in them the columns congruent to row + h modulo 2h. */
  predicate IsSquareTarget(r: nat, c: nat, h: nat)
    requires h >= 1
  {
    r % h == 0 && c % (2 * h) == (r + h) % (2 * h)
  }

  /** The lattice points of step h are the coarse points of step 2h, the diamond
      targets and the square targets, and no point is two of these. */
  lemma Classify(r: nat, c: nat, h: nat)
    requires h >= 1 && r % h == 0 && c % h == 0
    ensures IsCoarse(r, c, h) || IsDiamondTarget(r, c, h) || IsSquareTarget(r, c, h)
    ensures IsSquareTarget(r, c, h) ==> !IsCoarse(r, c, h) && !IsDiamondTarget(r, c, h)
    ensures IsDiamondTarget(r, c, h) ==> !IsCoarse(r, c, h)
  {
    HalfSplit(r, h);
    HalfSplit(c, h);
    Flip(r, h);
  }

  /** Each diamond target and each square target is a point of step h. */
  lemma TargetsAreFine(r: nat, c: nat, h: nat)
    requires h >= 1 && (IsCoarse(r, c, h) || IsDiamondTarget(r, c, h) || IsSquareTarget(r, c, h))
    ensures r % h == 0 && c % h == 0
  {
    if IsSquareTarget(r, c, h) {
      HalfSplit(r, h);
      Flip(r, h);
    }
    Refine(r, h);
    Refine(c, h);
  }

  /** Every axis neighbour of a square target at distance h is a coarse point
      or a diamond target, so the square pass never reads its own writes. */
  lemma SquareNeighbours(r: nat, c: nat, h: nat)
    requires h >= 1 && IsSquareTarget(r, c, h)
    ensures c >= h ==> IsCoarse(r, c - h, h) || IsDiamondTarget(r, c - h, h)
    ensures IsCoarse(r, c + h, h) || IsDiamondTarget(r, c + h, h)
    ensures IsCoarse(r + h, c, h) || IsDiamondTarget(r + h, c, h)
    ensures r >= h ==> IsCoarse(r - h, c, h) || IsDiamondTarget(r - h, c, h)
  {
    HalfSplit(r, h);
    Flip(r, h);
    Flip(c, h);
  }

  /** Every diagonal neighbour of a diamond target at distance h lies inside
      the grid and is a coarse point. */
  lemma DiamondNeighbours(r: nat, c: nat, h: nat, div: nat)
    requires h >= 1 && div % (2 * h) == 0 && r <= div && c <= div && IsDiamondTarget(r, c, h)
    ensures h <= r && r + h <= div && h <= c && c + h <= div
    ensures IsCoarse(r - h, c - h, h) && IsCoarse(r + h, c - h, h)
    ensures IsCoarse(r - h, c + h, h) && IsCoarse(r + h, c + h, h)
  {
    MidwayInside(r, h, div);
    MidwayInside(c, h, div);
    Flip(r, h);
    Flip(c, h);
  }

  /** The diamond targets of step 2h have heights in [lo, hi]. */
  ghost predicate DiamondsWithin(buf: seq<real>, div: nat, h: nat, lo: real, hi: real)
    requires IsVertexBuffer(buf, div) && h >= 1
  {
    forall r: nat, c: nat :: r <= div && c <= div && IsDiamondTarget(r, c, h) ==>
      lo <= HeightOf(buf, div, r, c) <= hi
  }

  /** The square targets of step 2h have heights in [lo, hi]. */
  ghost predicate SquaresWithin(buf: seq<real>, div: nat, h: nat, lo: real, hi: real)
    requires IsVertexBuffer(buf, div) && h >= 1
  {
    forall r: nat, c: nat :: r <= div && c <= div && IsSquareTarget(r, c, h) ==>
      lo <= HeightOf(buf, div, r, c) <= hi
  }

  /** The diamond targets of step 2h have the same heights in both buffers. */
  ghost predicate DiamondsKept(buf: seq<real>, was: seq<real>, div: nat, h: nat)
    requires IsVertexBuffer(buf, div) && IsVertexBuffer(was, div) && h >= 1
  {
    forall r: nat, c: nat :: r <= div && c <= div && IsDiamondTarget(r, c, h) ==>
      HeightOf(buf, div, r, c) == HeightOf(was, div, r, c)
  }

  /** After both passes of the level with step 2h, every point of step h lies
      within e of the range the coarse points started in. */
  lemma LevelWithin(start: seq<real>, diamonds: seq<real>, buf: seq<real>, div: nat, h: nat, lo: real, hi: real, e: real)
    requires IsVertexBuffer(start, div) && IsVertexBuffer(diamonds, div) && IsVertexBuffer(buf, div) && h >= 1
    requires 0.0 <= e && GridWithin(start, div, 2 * h, lo, hi)
    requires GridKept(diamonds, start, div, 2 * h) && DiamondsWithin(diamonds, div, h, lo - e / 2.0, hi + e / 2.0)
    requires GridKept(buf, diamonds, div, 2 * h) && DiamondsKept(buf, diamonds, div, h)
    requires SquaresWithin(buf, div, h, lo - e, hi + e)
    ensures GridWithin(buf, div, h, lo - e, hi + e)
  {
    forall r: nat, c: nat | r <= div && c <= div && r % h == 0 && c % h == 0
      ensures lo - e <= HeightOf(buf, div, r, c) <= hi + e
    {
      Classify(r, c, h);
    }
  }

  /** Bounds on the finest level hold at every point of the grid. */
  lemma WithinEverywhere(buf: seq<real>, div: nat, lo: real, hi: real)
    requires IsVertexBuffer(buf, div) && GridWithin(buf, div, 1, lo, hi)
    ensures forall r: nat, c: nat :: r <= div && c <= div ==> lo <= HeightOf(buf, div, r, c) <= hi
  {
    forall r: nat, c: nat | r <= div && c <= div
      ensures lo <= HeightOf(buf, div, r, c) <= hi
    {
      ModUnique(r, 1, r, 0);
      ModUnique(c, 1, c, 0);
    }
  }

  /** At the level of step div the points are the four corners. */
  lemma CornersWithin(buf: seq<real>, div: nat, z: real)
    requires div >= 1 && IsVertexBuffer(buf, div) && GridWithin(buf, div, div, z, z)
    ensures HeightOf(buf, div, 0, 0) == z && HeightOf(buf, div, div, 0) == z
    ensures HeightOf(buf, div, 0, div) == z && HeightOf(buf, div, div, div) == z
  {
    EndsAreMultiples(div);
  }

  /** Points kept at step h include those of step 2h, and keeping composes. */
  lemma GridKeptCoarser(buf: seq<real>, mid: seq<real>, was: seq<real>, div: nat, h: nat)
    requires IsVertexBuffer(buf, div) && IsVertexBuffer(mid, div) && IsVertexBuffer(was, div) && h >= 1
    requires GridKept(buf, mid, div, h) && GridKept(mid, was, div, 2 * h)
    ensures GridKept(buf, was, div, 2 * h)
  {
    forall r: nat, c: nat | r <= div && c <= div && r % (2 * h) == 0 && c % (2 * h) == 0
      ensures HeightOf(buf, div, r, c) == HeightOf(was, div, r, c)
    {
      Refine(r, h);
      Refine(c, h);
    }
  }

  /** The level of step 2h moves heights by at most |roughness| * 2h, and the
      finer levels by Spread at h: together, Spread at 2h. */
  lemma SpreadHalves(roughness: real, h: nat, size: nat)
    requires h >= 1 && size == 2 * h
    ensures Abs(roughness * (size as real)) + Spread(roughness, h) == Spread(roughness, size)
  {
    if roughness < 0.0 {
      assert roughness * (size as real) <= 0.0;
    } else {
      assert roughness * (size as real) >= 0.0;
    }
  }

  /** A number with residue res modulo s is at least res. */
  lemma ResidueBelow(res: nat, s: nat)
    requires s >= 1
    ensures forall c: nat :: c % s == res ==> res <= c
  {
    forall c: nat | c % s == res
      ensures res <= c
    {
      ModAtMost(c, s);
    }
  }
}
