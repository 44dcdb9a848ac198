/** The heights the Diamond-Square synthesis computes, as functions of the
    buffer it starts from. A level of step 2h is a diamond pass followed by a
    square pass; each pass is stated here as one simultaneous update, which
    is what the row-by-row loops compute because no target of a pass reads
    a point that the same pass writes. */
module Heights {
  import opened Arith
  import opened Geometry
  import opened Grid
  import opened DiamondSquare

  /** Row and column of the lattice point that buffer position k belongs to. */
  function RowOf(div: nat, k: nat): nat
  {
    k / 3 / (div + 1)
  }

  function ColOf(div: nat, k: nat): nat
  {
    k / 3 % (div + 1)
  }

  /** Every position of a vertex buffer belongs to a lattice point. */
  lemma InGrid(div: nat, k: nat)
    requires k < 3 * VertexCount(div)
    ensures RowOf(div, k) <= div && ColOf(div, k) <= div
  {
    VertexOfId(div, k / 3);
  }

  /** The height position of lattice point (row, col) decodes back to it. */
  lemma HeightSlot(div: nat, row: nat, col: nat)
    requires row <= div && col <= div
    ensures (VertexIndex(div, row, col) + 2) % 3 == 2
    ensures RowOf(div, VertexIndex(div, row, col) + 2) == row && ColOf(div, VertexIndex(div, row, col) + 2) == col
  {
    var v := VertexId(div, row, col);
    ModUnique(3 * v + 2, 3, v, 2);
    ModUnique(v, div + 1, row, col);
  }

  /** A vertex buffer is determined by its x and y coordinates and its heights. */
  lemma SameBuffer(a: seq<real>, b: seq<real>, was: seq<real>, div: nat)
    requires IsVertexBuffer(a, div) && IsVertexBuffer(b, div) && XYKept(a, was) && XYKept(b, was)
    requires forall r: nat, c: nat :: r <= div && c <= div ==> HeightOf(a, div, r, c) == HeightOf(b, div, r, c)
    ensures a == b
  {
    forall k | 0 <= k < |a|
      ensures a[k] == b[k]
    {
      var v := k / 3;
      VertexOfId(div, v);
      assert HeightOf(a, div, v / (div + 1), v % (div + 1)) == HeightOf(b, div, v / (div + 1), v % (div + 1));
      assert Position(a, v).x == Position(was, v).x == Position(b, v).x;
      assert Position(a, v).y == Position(was, v).y == Position(b, v).y;
    }
  }

  /** Only heights change, and x and y stay, when position k%3 == 2 is the only one rewritten. */
  lemma HeightsOnly(r: seq<real>, buf: seq<real>)
    requires |r| == |buf| && forall k :: 0 <= k < |r| && k % 3 != 2 ==> r[k] == buf[k]
    ensures XYKept(r, buf)
  {
    forall v: nat | 3 * v + 2 < |r|
      ensures Position(r, v).x == Position(buf, v).x && Position(r, v).y == Position(buf, v).y
    {
      ModUnique(3 * v, 3, v, 0);
      ModUnique(3 * v + 1, 3, v, 1);
    }
  }

  /** The height the diamond pass of step 2h gives the diamond target (row,
      col): the average of its four diagonal neighbours at distance h, plus
      the perturbation of the draw for that point at that step. */
  function DiamondPoint(buf: seq<real>, div: nat, h: nat, scale: real, random: (nat, nat, nat) -> real, row: nat, col: nat): real
    requires IsVertexBuffer(buf, div) && h >= 1 && div % (2 * h) == 0
    requires row <= div && col <= div && IsDiamondTarget(row, col, h)
  {
    MidwayInside(row, h, div);
    MidwayInside(col, h, div);
    DiamondAverage(buf, div, col, row, h) + Perturbation(random(2 * h, row, col), scale)
  }

  /** The height the square pass of step 2h gives the square target (row,
      col): the average of its axis neighbours at distance h inside the
      grid, plus the perturbation of the draw for that point at that step. */
  function SquarePoint(buf: seq<real>, div: nat, h: nat, scale: real, random: (nat, nat, nat) -> real, row: nat, col: nat): real
    requires IsVertexBuffer(buf, div) && h >= 1 && div >= 1 && div % (2 * h) == 0 && row <= div && col <= div
  {
    MultipleAtLeast(div, 2 * h);
    SquareAverage(buf, div, col, row, h) + Perturbation(random(2 * h, row, col), scale)
  }

  /** The number at position k of the buffer after the diamond pass of step
      2h: the DiamondPoint for the height of a diamond target, else buf's. */
  function DiamondValue(buf: seq<real>, div: nat, h: nat, scale: real, random: (nat, nat, nat) -> real, k: nat): real
    requires IsVertexBuffer(buf, div) && h >= 1 && div % (2 * h) == 0 && k < |buf|
  {
    InGrid(div, k);
    if k % 3 == 2 && IsDiamondTarget(RowOf(div, k), ColOf(div, k), h)
    then DiamondPoint(buf, div, h, scale, random, RowOf(div, k), ColOf(div, k))
    else buf[k]
  }

  /** The number at position k of the buffer after the square pass of step
      2h: the SquarePoint for the height of a square target, else buf's. */
  function SquareValue(buf: seq<real>, div: nat, h: nat, scale: real, random: (nat, nat, nat) -> real, k: nat): real
    requires IsVertexBuffer(buf, div) && h >= 1 && div >= 1 && div % (2 * h) == 0 && k < |buf|
  {
    InGrid(div, k);
    if k % 3 == 2 && IsSquareTarget(RowOf(div, k), ColOf(div, k), h)
    then SquarePoint(buf, div, h, scale, random, RowOf(div, k), ColOf(div, k))
    else buf[k]
  }

  /** The last m numbers of the buffer after the diamond pass, every one
      computed from buf: the pass is one simultaneous update. */
  function DiamondPassTail(buf: seq<real>, div: nat, h: nat, scale: real, random: (nat, nat, nat) -> real, m: nat): (r: seq<real>)
    requires IsVertexBuffer(buf, div) && h >= 1 && div % (2 * h) == 0 && m <= |buf|
    ensures |r| == m
  {
    if m == 0 then [] else [DiamondValue(buf, div, h, scale, random, |buf| - m)] + DiamondPassTail(buf, div, h, scale, random, m - 1)
  }

  /** The last m numbers of the buffer after the square pass, every one computed from buf. */
  function SquarePassTail(buf: seq<real>, div: nat, h: nat, scale: real, random: (nat, nat, nat) -> real, m: nat): (r: seq<real>)
    requires IsVertexBuffer(buf, div) && h >= 1 && div >= 1 && div % (2 * h) == 0 && m <= |buf|
    ensures |r| == m
  {
    if m == 0 then [] else [SquareValue(buf, div, h, scale, random, |buf| - m)] + SquarePassTail(buf, div, h, scale, random, m - 1)
  }

  lemma {:induction false} DiamondPassTailAt(buf: seq<real>, div: nat, h: nat, scale: real, random: (nat, nat, nat) -> real, m: nat, p: nat)
    requires IsVertexBuffer(buf, div) && h >= 1 && div % (2 * h) == 0 && m <= |buf| && |buf| - m <= p < |buf|
    ensures DiamondPassTail(buf, div, h, scale, random, m)[p - (|buf| - m)] == DiamondValue(buf, div, h, scale, random, p)
  {
    if |buf| - m < p {
      DiamondPassTailAt(buf, div, h, scale, random, m - 1, p);
    }
  }

  lemma {:induction false} SquarePassTailAt(buf: seq<real>, div: nat, h: nat, scale: real, random: (nat, nat, nat) -> real, m: nat, p: nat)
    requires IsVertexBuffer(buf, div) && h >= 1 && div >= 1 && div % (2 * h) == 0 && m <= |buf| && |buf| - m <= p < |buf|
    ensures SquarePassTail(buf, div, h, scale, random, m)[p - (|buf| - m)] == SquareValue(buf, div, h, scale, random, p)
  {
    if |buf| - m < p {
      SquarePassTailAt(buf, div, h, scale, random, m - 1, p);
    }
  }

  /** The diamond pass of step 2h: every diamond target gets its DiamondPoint. */
  function DiamondPassOf(buf: seq<real>, div: nat, h: nat, scale: real, random: (nat, nat, nat) -> real): (r: seq<real>)
    requires IsVertexBuffer(buf, div) && h >= 1 && div % (2 * h) == 0
    ensures IsVertexBuffer(r, div)
  {
    DiamondPassTail(buf, div, h, scale, random, |buf|)
  }

  /** The square pass of step 2h: every square target gets its SquarePoint. */
  function SquarePassOf(buf: seq<real>, div: nat, h: nat, scale: real, random: (nat, nat, nat) -> real): (r: seq<real>)
    requires IsVertexBuffer(buf, div) && h >= 1 && div >= 1 && div % (2 * h) == 0
    ensures IsVertexBuffer(r, div)
  {
    SquarePassTail(buf, div, h, scale, random, |buf|)
  }

  /** Only the diamond targets change, each to its DiamondPoint, and only in z. */
  lemma DiamondPassHeights(buf: seq<real>, div: nat, h: nat, scale: real, random: (nat, nat, nat) -> real)
    requires IsVertexBuffer(buf, div) && h >= 1 && div % (2 * h) == 0
    ensures XYKept(DiamondPassOf(buf, div, h, scale, random), buf)
    ensures forall r: nat, c: nat {:trigger HeightOf(DiamondPassOf(buf, div, h, scale, random), div, r, c)} :: r <= div && c <= div ==>
              HeightOf(DiamondPassOf(buf, div, h, scale, random), div, r, c)
              == if IsDiamondTarget(r, c, h) then DiamondPoint(buf, div, h, scale, random, r, c) else HeightOf(buf, div, r, c)
  {
    var d := DiamondPassOf(buf, div, h, scale, random);
    forall k | 0 <= k < |d|
      ensures d[k] == DiamondValue(buf, div, h, scale, random, k)
    {
      DiamondPassTailAt(buf, div, h, scale, random, |buf|, k);
    }
    HeightsOnly(d, buf);
    forall r: nat, c: nat | r <= div && c <= div
      ensures HeightOf(d, div, r, c)
              == if IsDiamondTarget(r, c, h) then DiamondPoint(buf, div, h, scale, random, r, c) else HeightOf(buf, div, r, c)
    {
      DiamondPassAt(buf, div, h, scale, random, r, c);
    }
  }

  lemma DiamondPassAt(buf: seq<real>, div: nat, h: nat, scale: real, random: (nat, nat, nat) -> real, r: nat, c: nat)
    requires IsVertexBuffer(buf, div) && h >= 1 && div % (2 * h) == 0 && r <= div && c <= div
    ensures HeightOf(DiamondPassOf(buf, div, h, scale, random), div, r, c)
            == if IsDiamondTarget(r, c, h) then DiamondPoint(buf, div, h, scale, random, r, c) else HeightOf(buf, div, r, c)
  {
    var d := DiamondPassOf(buf, div, h, scale, random);
    VertexIdInGrid(div, r, c);
    HeightSlot(div, r, c);
    var k := VertexIndex(div, r, c) + 2;
    assert HeightOf(d, div, r, c) == d[k] && HeightOf(buf, div, r, c) == buf[k];
    DiamondPassTailAt(buf, div, h, scale, random, |buf|, k);
  }

  /** Only the square targets change, each to its SquarePoint, and only in z. */
  lemma SquarePassHeights(buf: seq<real>, div: nat, h: nat, scale: real, random: (nat, nat, nat) -> real)
    requires IsVertexBuffer(buf, div) && h >= 1 && div >= 1 && div % (2 * h) == 0
    ensures XYKept(SquarePassOf(buf, div, h, scale, random), buf)
    ensures forall r: nat, c: nat {:trigger HeightOf(SquarePassOf(buf, div, h, scale, random), div, r, c)} :: r <= div && c <= div ==>
              HeightOf(SquarePassOf(buf, div, h, scale, random), div, r, c)
              == if IsSquareTarget(r, c, h) then SquarePoint(buf, div, h, scale, random, r, c) else HeightOf(buf, div, r, c)
  {
    var s := SquarePassOf(buf, div, h, scale, random);
    forall k | 0 <= k < |s|
      ensures s[k] == SquareValue(buf, div, h, scale, random, k)
    {
      SquarePassTailAt(buf, div, h, scale, random, |buf|, k);
    }
    HeightsOnly(s, buf);
    forall r: nat, c: nat | r <= div && c <= div
      ensures HeightOf(s, div, r, c)
              == if IsSquareTarget(r, c, h) then SquarePoint(buf, div, h, scale, random, r, c) else HeightOf(buf, div, r, c)
    {
      SquarePassAt(buf, div, h, scale, random, r, c);
    }
  }

  lemma SquarePassAt(buf: seq<real>, div: nat, h: nat, scale: real, random: (nat, nat, nat) -> real, r: nat, c: nat)
    requires IsVertexBuffer(buf, div) && h >= 1 && div >= 1 && div % (2 * h) == 0 && r <= div && c <= div
    ensures HeightOf(SquarePassOf(buf, div, h, scale, random), div, r, c)
            == if IsSquareTarget(r, c, h) then SquarePoint(buf, div, h, scale, random, r, c) else HeightOf(buf, div, r, c)
  {
    var s := SquarePassOf(buf, div, h, scale, random);
    VertexIdInGrid(div, r, c);
    HeightSlot(div, r, c);
    var k := VertexIndex(div, r, c) + 2;
    assert HeightOf(s, div, r, c) == s[k] && HeightOf(buf, div, r, c) == buf[k];
    SquarePassTailAt(buf, div, h, scale, random, |buf|, k);
  }

  /** One level of step 2h: the diamond pass, then the square pass on its result. */
  function LevelOf(buf: seq<real>, div: nat, h: nat, scale: real, random: (nat, nat, nat) -> real): (r: seq<real>)
    requires IsVertexBuffer(buf, div) && div >= 1 && h >= 1 && div % (2 * h) == 0
    ensures IsVertexBuffer(r, div)
  {
    SquarePassOf(DiamondPassOf(buf, div, h, scale, random), div, h, scale, random)
  }

  /** The synthesis from step size down: the level of step size with
      perturbation scale roughness * size, then the finer levels; nothing
      once size / 2 < 1. */
  function Synthesis(buf: seq<real>, div: nat, size: nat, roughness: real, random: (nat, nat, nat) -> real): (r: seq<real>)
    requires IsVertexBuffer(buf, div) && div >= 1 && IsPow2(size) && div % size == 0
    decreases size
    ensures IsVertexBuffer(r, div)
  {
    if size / 2 < 1 then buf
    else
      Refine(div, size / 2);
      Synthesis(LevelOf(buf, div, size / 2, roughness * (size as real), random), div, size / 2, roughness, random)
  }

  /** The buffer with the four corners (0, 0), (div, 0), (0, div) and
      (div, div) set to height 0.5, in that order. */
  function Seeded(buf: seq<real>, div: nat): (r: seq<real>)
    requires div >= 1 && IsVertexBuffer(buf, div)
    ensures IsVertexBuffer(r, div)
  {
    WriteHeight(WriteHeight(WriteHeight(WriteHeight(buf, div, 0, 0, 0.5), div, div, 0, 0.5), div, 0, div, 0.5), div, div, div, 0.5)
  }

  /** Seeding sets the four corners to 0.5 and changes nothing else; the
      points of step div, which are the corners, then lie in [0.5, 0.5]. */
  lemma SeededHeights(buf: seq<real>, div: nat)
    requires div >= 1 && IsVertexBuffer(buf, div)
    ensures XYKept(Seeded(buf, div), buf)
    ensures forall r: nat, c: nat :: r <= div && c <= div ==>
              HeightOf(Seeded(buf, div), div, r, c)
              == if (r == 0 || r == div) && (c == 0 || c == div) then 0.5 else HeightOf(buf, div, r, c)
    ensures GridWithin(Seeded(buf, div), div, div, 0.5, 0.5)
  {
    var b1 := WriteHeight(buf, div, 0, 0, 0.5);
    var b2 := WriteHeight(b1, div, div, 0, 0.5);
    var b3 := WriteHeight(b2, div, 0, div, 0.5);
    var b4 := WriteHeight(b3, div, div, div, 0.5);
    HeightAfterWrite(buf, div, 0, 0, 0.5);
    HeightAfterWrite(b1, div, div, 0, 0.5);
    HeightAfterWrite(b2, div, 0, div, 0.5);
    HeightAfterWrite(b3, div, div, div, 0.5);
    XYKeptTrans(b2, b1, buf);
    XYKeptTrans(b3, b2, buf);
    XYKeptTrans(b4, b3, buf);
    forall r: nat, c: nat | r <= div && c <= div && r % div == 0 && c % div == 0
      ensures 0.5 <= HeightOf(b4, div, r, c) <= 0.5
    {
      EndsOnly(r, div);
      EndsOnly(c, div);
    }
  }

  /** A diamond target's height depends on the coarse points only. */
  lemma DiamondPointKept(buf: seq<real>, was: seq<real>, div: nat, h: nat, scale: real, random: (nat, nat, nat) -> real, r: nat, c: nat)
    requires IsVertexBuffer(buf, div) && IsVertexBuffer(was, div) && h >= 1 && div % (2 * h) == 0
    requires r <= div && c <= div && IsDiamondTarget(r, c, h)
    requires GridKept(buf, was, div, 2 * h)
    ensures DiamondPoint(buf, div, h, scale, random, r, c) == DiamondPoint(was, div, h, scale, random, r, c)
  {
    DiamondNeighbours(r, c, h, div);
  }

  /** A square target's height depends on the coarse points and the diamond targets only. */
  lemma SquarePointKept(buf: seq<real>, was: seq<real>, div: nat, h: nat, scale: real, random: (nat, nat, nat) -> real, r: nat, c: nat)
    requires IsVertexBuffer(buf, div) && IsVertexBuffer(was, div) && h >= 1 && div >= 1 && div % (2 * h) == 0
    requires r <= div && c <= div && IsSquareTarget(r, c, h)
    requires GridKept(buf, was, div, 2 * h) && DiamondsKept(buf, was, div, h)
    ensures SquarePoint(buf, div, h, scale, random, r, c) == SquarePoint(was, div, h, scale, random, r, c)
  {
    SquareNeighbours(r, c, h);
    assert SquareSum(buf, div, c, r, h) == SquareSum(was, div, c, r, h);
  }

  /** Diamond row j done up to column i: its diamond targets left of i hold
      their DiamondPoint computed from was; every other height is was's. */
  ghost predicate DiamondRowDone(buf: seq<real>, was: seq<real>, div: nat, h: nat, scale: real, random: (nat, nat, nat) -> real, j: nat, i: nat)
    requires IsVertexBuffer(buf, div) && IsVertexBuffer(was, div) && h >= 1 && div % (2 * h) == 0
  {
    forall r: nat, c: nat {:trigger HeightOf(buf, div, r, c)} :: r <= div && c <= div ==>
      HeightOf(buf, div, r, c)
      == if r == j && c < i && IsDiamondTarget(r, c, h) then DiamondPoint(was, div, h, scale, random, r, c) else HeightOf(was, div, r, c)
  }

  /** The diamond rows below j done: their targets hold their DiamondPoint
      computed from was; every other height is was's. */
  ghost predicate DiamondRowsDone(buf: seq<real>, was: seq<real>, div: nat, h: nat, scale: real, random: (nat, nat, nat) -> real, j: nat)
    requires IsVertexBuffer(buf, div) && IsVertexBuffer(was, div) && h >= 1 && div % (2 * h) == 0
  {
    forall r: nat, c: nat {:trigger HeightOf(buf, div, r, c)} :: r <= div && c <= div ==>
      HeightOf(buf, div, r, c)
      == if r < j && IsDiamondTarget(r, c, h) then DiamondPoint(was, div, h, scale, random, r, c) else HeightOf(was, div, r, c)
  }

  /** Square row j done up to column i, as DiamondRowDone. */
  ghost predicate SquareRowDone(buf: seq<real>, was: seq<real>, div: nat, h: nat, scale: real, random: (nat, nat, nat) -> real, j: nat, i: nat)
    requires IsVertexBuffer(buf, div) && IsVertexBuffer(was, div) && h >= 1 && div >= 1 && div % (2 * h) == 0
  {
    forall r: nat, c: nat {:trigger HeightOf(buf, div, r, c)} :: r <= div && c <= div ==>
      HeightOf(buf, div, r, c)
      == if r == j && c < i && IsSquareTarget(r, c, h) then SquarePoint(was, div, h, scale, random, r, c) else HeightOf(was, div, r, c)
  }

  /** The square rows below j done, as DiamondRowsDone. */
  ghost predicate SquareRowsDone(buf: seq<real>, was: seq<real>, div: nat, h: nat, scale: real, random: (nat, nat, nat) -> real, j: nat)
    requires IsVertexBuffer(buf, div) && IsVertexBuffer(was, div) && h >= 1 && div >= 1 && div % (2 * h) == 0
  {
    forall r: nat, c: nat {:trigger HeightOf(buf, div, r, c)} :: r <= div && c <= div ==>
      HeightOf(buf, div, r, c)
      == if r < j && IsSquareTarget(r, c, h) then SquarePoint(was, div, h, scale, random, r, c) else HeightOf(was, div, r, c)
  }

  /** One diamond step at (row j, column i), from the buffer before it:
      its neighbours lie in other rows, so it writes the DiamondPoint of the
      row's start, and the row is done up to the next target. */
  lemma DiamondCellStep(after: seq<real>, before: seq<real>, was: seq<real>, div: nat, h: nat, scale: real,
                        random: (nat, nat, nat) -> real, j: nat, i: nat)
    requires IsVertexBuffer(before, div) && IsVertexBuffer(was, div) && h >= 1 && div % (2 * h) == 0
    requires j <= div && i <= div && IsDiamondTarget(j, i, h)
    requires h <= i && i + h <= div && h <= j && j + h <= div
    requires DiamondRowDone(before, was, div, h, scale, random, j, i)
    requires after == WriteHeight(before, div, j, i, DiamondAverage(before, div, i, j, h) + Perturbation(random(2 * h, j, i), scale))
    ensures IsVertexBuffer(after, div)
    ensures DiamondRowDone(after, was, div, h, scale, random, j, i + 2 * h)
  {
    assert GridKept(before, was, div, 2 * h);
    DiamondPointKept(before, was, div, h, scale, random, j, i);
    var z := DiamondAverage(before, div, i, j, h) + Perturbation(random(2 * h, j, i), scale);
    HeightAfterWrite(before, div, j, i, z);
    forall r: nat, c: nat | r <= div && c <= div
      ensures HeightOf(after, div, r, c)
              == if r == j && c < i + 2 * h && IsDiamondTarget(r, c, h) then DiamondPoint(was, div, h, scale, random, r, c) else HeightOf(was, div, r, c)
    {
      if r == j && i <= c < i + 2 * h && IsDiamondTarget(r, c, h) {
        SameResidueNear(c, i, 2 * h);
      }
    }
  }

  /** After diamond row j, the diamond rows below the next one are done. */
  lemma DiamondRowStep(after: seq<real>, before: seq<real>, was: seq<real>, div: nat, h: nat, scale: real,
                       random: (nat, nat, nat) -> real, j: nat)
    requires IsVertexBuffer(after, div) && IsVertexBuffer(before, div) && IsVertexBuffer(was, div)
    requires h >= 1 && div % (2 * h) == 0 && j <= div && j % (2 * h) == h
    requires DiamondRowsDone(before, was, div, h, scale, random, j)
    requires DiamondRowDone(after, before, div, h, scale, random, j, div + 1)
    ensures DiamondRowsDone(after, was, div, h, scale, random, j + 2 * h)
  {
    assert GridKept(before, was, div, 2 * h);
    forall r: nat, c: nat | r <= div && c <= div
      ensures HeightOf(after, div, r, c)
              == if r < j + 2 * h && IsDiamondTarget(r, c, h) then DiamondPoint(was, div, h, scale, random, r, c) else HeightOf(was, div, r, c)
    {
      if j <= r < j + 2 * h && IsDiamondTarget(r, c, h) {
        SameResidueNear(r, j, 2 * h);
        DiamondPointKept(before, was, div, h, scale, random, r, c);
      }
    }
  }

  /** One square step at (row j, column i), from the buffer before it: its
      neighbours are no square targets, so it writes the SquarePoint of the
      row's start, and the row is done up to the next target. */
  lemma SquareCellStep(after: seq<real>, before: seq<real>, was: seq<real>, div: nat, h: nat, scale: real,
                       random: (nat, nat, nat) -> real, j: nat, i: nat)
    requires IsVertexBuffer(before, div) && IsVertexBuffer(was, div) && h >= 1 && div % (2 * h) == 0 && 2 * h <= div
    requires j <= div && i <= div && IsSquareTarget(j, i, h)
    requires SquareRowDone(before, was, div, h, scale, random, j, i)
    requires after == WriteHeight(before, div, j, i, SquareAverage(before, div, i, j, h) + Perturbation(random(2 * h, j, i), scale))
    ensures IsVertexBuffer(after, div)
    ensures SquareRowDone(after, was, div, h, scale, random, j, i + 2 * h)
  {
    SquareRowKeeps(before, was, div, h, scale, random, j, i);
    SquarePointKept(before, was, div, h, scale, random, j, i);
    var z := SquareAverage(before, div, i, j, h) + Perturbation(random(2 * h, j, i), scale);
    HeightAfterWrite(before, div, j, i, z);
    forall r: nat, c: nat | r <= div && c <= div
      ensures HeightOf(after, div, r, c)
              == if r == j && c < i + 2 * h && IsSquareTarget(r, c, h) then SquarePoint(was, div, h, scale, random, r, c) else HeightOf(was, div, r, c)
    {
      if r == j && i <= c < i + 2 * h && IsSquareTarget(r, c, h) {
        SameResidueNear(c, i, 2 * h);
      }
    }
  }

  /** A partly done square row has kept the coarse points and the diamond targets. */
  lemma SquareRowKeeps(buf: seq<real>, was: seq<real>, div: nat, h: nat, scale: real, random: (nat, nat, nat) -> real, j: nat, i: nat)
    requires IsVertexBuffer(buf, div) && IsVertexBuffer(was, div) && h >= 1 && div >= 1 && div % (2 * h) == 0
    requires SquareRowDone(buf, was, div, h, scale, random, j, i)
    ensures GridKept(buf, was, div, 2 * h) && DiamondsKept(buf, was, div, h)
  {
    forall r: nat, c: nat | r <= div && c <= div && IsSquareTarget(r, c, h)
      ensures !IsCoarse(r, c, h) && !IsDiamondTarget(r, c, h)
    {
      TargetsAreFine(r, c, h);
      Classify(r, c, h);
    }
  }

  /** The square rows below j done have kept the coarse points and the diamond targets. */
  lemma SquareRowsKeep(buf: seq<real>, was: seq<real>, div: nat, h: nat, scale: real, random: (nat, nat, nat) -> real, j: nat)
    requires IsVertexBuffer(buf, div) && IsVertexBuffer(was, div) && h >= 1 && div >= 1 && div % (2 * h) == 0
    requires SquareRowsDone(buf, was, div, h, scale, random, j)
    ensures GridKept(buf, was, div, 2 * h) && DiamondsKept(buf, was, div, h)
  {
    forall r: nat, c: nat | r <= div && c <= div && IsSquareTarget(r, c, h)
      ensures !IsCoarse(r, c, h) && !IsDiamondTarget(r, c, h)
    {
      TargetsAreFine(r, c, h);
      Classify(r, c, h);
    }
  }

  /** After square row j, the square rows below the next row of step h are done. */
  lemma SquareRowStep(after: seq<real>, before: seq<real>, was: seq<real>, div: nat, h: nat, scale: real,
                      random: (nat, nat, nat) -> real, j: nat)
    requires IsVertexBuffer(after, div) && IsVertexBuffer(before, div) && IsVertexBuffer(was, div)
    requires h >= 1 && div >= 1 && div % (2 * h) == 0 && j <= div && j % h == 0
    requires SquareRowsDone(before, was, div, h, scale, random, j)
    requires SquareRowDone(after, before, div, h, scale, random, j, div + 1)
    ensures SquareRowsDone(after, was, div, h, scale, random, j + h)
  {
    SquareRowsKeep(before, was, div, h, scale, random, j);
    forall r: nat, c: nat | r <= div && c <= div
      ensures HeightOf(after, div, r, c)
              == if r < j + h && IsSquareTarget(r, c, h) then SquarePoint(was, div, h, scale, random, r, c) else HeightOf(was, div, r, c)
    {
      if j <= r < j + h && IsSquareTarget(r, c, h) {
        SameResidueNear(r, j, h);
        SquarePointKept(before, was, div, h, scale, random, r, c);
      }
    }
  }

  /** When the coarse points of step 2h lie in [lo, hi], the diamond pass
      keeps them and puts every diamond target within |scale|/2 of that range. */
  lemma DiamondPassWithin(buf: seq<real>, div: nat, h: nat, scale: real, random: (nat, nat, nat) -> real, lo: real, hi: real)
    requires IsVertexBuffer(buf, div) && h >= 1 && div % (2 * h) == 0
    requires forall s, r, c :: 0.0 <= random(s, r, c) < 1.0
    requires GridWithin(buf, div, 2 * h, lo, hi)
    ensures GridKept(DiamondPassOf(buf, div, h, scale, random), buf, div, 2 * h)
    ensures DiamondsWithin(DiamondPassOf(buf, div, h, scale, random), div, h, lo - Abs(scale) / 2.0, hi + Abs(scale) / 2.0)
  {
    var d := DiamondPassOf(buf, div, h, scale, random);
    DiamondPassHeights(buf, div, h, scale, random);
    forall r: nat, c: nat | r <= div && c <= div && IsDiamondTarget(r, c, h)
      ensures lo - Abs(scale) / 2.0 <= HeightOf(d, div, r, c) <= hi + Abs(scale) / 2.0
    {
      DiamondNeighbours(r, c, h, div);
      DiamondAverageWithin(buf, div, c, r, h, lo, hi);
    }
  }

  /** When the coarse points of step 2h lie in [lo, hi] and the diamond
      targets within e = |scale|/2 of it, the square pass keeps both and
      puts every square target within |scale| of [lo, hi]. */
  lemma SquarePassWithin(buf: seq<real>, div: nat, h: nat, scale: real, random: (nat, nat, nat) -> real, lo: real, hi: real)
    requires IsVertexBuffer(buf, div) && h >= 1 && div >= 1 && div % (2 * h) == 0
    requires forall s, r, c :: 0.0 <= random(s, r, c) < 1.0
    requires GridWithin(buf, div, 2 * h, lo, hi)
    requires DiamondsWithin(buf, div, h, lo - Abs(scale) / 2.0, hi + Abs(scale) / 2.0)
    ensures GridKept(SquarePassOf(buf, div, h, scale, random), buf, div, 2 * h)
    ensures DiamondsKept(SquarePassOf(buf, div, h, scale, random), buf, div, h)
    ensures SquaresWithin(SquarePassOf(buf, div, h, scale, random), div, h, lo - Abs(scale), hi + Abs(scale))
  {
    var s := SquarePassOf(buf, div, h, scale, random);
    var e := Abs(scale) / 2.0;
    MultipleAtLeast(div, 2 * h);
    SquarePassHeights(buf, div, h, scale, random);
    forall r: nat, c: nat | r <= div && c <= div && IsSquareTarget(r, c, h)
      ensures !IsCoarse(r, c, h) && !IsDiamondTarget(r, c, h)
      ensures lo - Abs(scale) <= HeightOf(s, div, r, c) <= hi + Abs(scale)
    {
      TargetsAreFine(r, c, h);
      Classify(r, c, h);
      HalfSplit(r, h);
      Flip(r, h);
      SquareNeighbours(r, c, h);
      Flip(c, h);
      SquareAverageWithin(buf, div, c, r, h, lo - e, hi + e);
    }
  }

  /** When the coarse points of step 2h lie in [lo, hi], a level keeps
      them, keeps every x and y, and leaves every point of step h within
      |scale| of [lo, hi]. */
  lemma LevelOfWithin(buf: seq<real>, div: nat, h: nat, scale: real, random: (nat, nat, nat) -> real, lo: real, hi: real)
    requires IsVertexBuffer(buf, div) && div >= 1 && h >= 1 && div % (2 * h) == 0
    requires forall s, r, c :: 0.0 <= random(s, r, c) < 1.0
    requires GridWithin(buf, div, 2 * h, lo, hi)
    ensures XYKept(LevelOf(buf, div, h, scale, random), buf)
    ensures GridKept(LevelOf(buf, div, h, scale, random), buf, div, 2 * h)
    ensures GridWithin(LevelOf(buf, div, h, scale, random), div, h, lo - Abs(scale), hi + Abs(scale))
  {
    var d := DiamondPassOf(buf, div, h, scale, random);
    var s := SquarePassOf(d, div, h, scale, random);
    DiamondPassHeights(buf, div, h, scale, random);
    DiamondPassWithin(buf, div, h, scale, random, lo, hi);
    assert GridWithin(d, div, 2 * h, lo, hi);
    SquarePassHeights(d, div, h, scale, random);
    SquarePassWithin(d, div, h, scale, random, lo, hi);
    XYKeptTrans(s, d, buf);
    LevelWithin(buf, d, s, div, h, lo, hi, Abs(scale));
    assert GridKept(s, buf, div, 2 * h);
  }

  /** Halving a power of two that divides div. */
  lemma HalfStep(div: nat, size: nat)
    requires IsPow2(size) && div % size == 0 && size >= 2
    ensures size / 2 >= 1 && size == 2 * (size / 2) && IsPow2(size / 2)
    ensures div % (2 * (size / 2)) == 0 && div % (size / 2) == 0
  {
    Refine(div, size / 2);
  }

  /** Above step 1, the synthesis from step size is the level of step size,
      with half step h and perturbation scale roughness * size, followed by
      the synthesis from h. */
  lemma SynthesisStep(buf: seq<real>, level: seq<real>, div: nat, size: nat, h: nat, scale: real, roughness: real,
                      random: (nat, nat, nat) -> real)
    requires IsVertexBuffer(buf, div) && div >= 1 && IsPow2(size) && div % size == 0
    requires h == size / 2 && h >= 1 && IsPow2(h) && div % (2 * h) == 0 && div % h == 0
    requires scale == roughness * (size as real) && level == LevelOf(buf, div, h, scale, random)
    ensures Synthesis(buf, div, size, roughness, random) == Synthesis(level, div, h, roughness, random)
  {
  }

  /** The synthesis from step size keeps every x and y and the points of
      step size; when those start in [lo, hi], every lattice point ends in
      [lo, hi] widened by Spread(roughness, size). */
  lemma {:induction false} SynthesisWithin(buf: seq<real>, div: nat, size: nat, roughness: real, random: (nat, nat, nat) -> real,
                                           lo: real, hi: real)
    requires IsVertexBuffer(buf, div) && div >= 1 && IsPow2(size) && div % size == 0
    requires forall s, r, c :: 0.0 <= random(s, r, c) < 1.0
    requires GridWithin(buf, div, size, lo, hi)
    decreases size
    ensures XYKept(Synthesis(buf, div, size, roughness, random), buf)
    ensures GridKept(Synthesis(buf, div, size, roughness, random), buf, div, size)
    ensures GridWithin(Synthesis(buf, div, size, roughness, random), div, 1, lo - Spread(roughness, size), hi + Spread(roughness, size))
  {
    if size / 2 < 1 {
      assert size == 1 && Spread(roughness, size) == 0.0;
    } else {
      HalfStep(div, size);
      var h := size / 2;
      var level := LevelOf(buf, div, h, roughness * (size as real), random);
      SynthesisStep(buf, level, div, size, h, roughness * (size as real), roughness, random);
      var s := Synthesis(level, div, h, roughness, random);
      var scale := roughness * (size as real);
      var e := Abs(scale);
      LevelOfWithin(buf, div, h, scale, random, lo, hi);
      SynthesisWithin(level, div, h, roughness, random, lo - e, hi + e);
      XYKeptTrans(s, level, buf);
      GridKeptCoarser(s, level, buf, div, h);
      SpreadHalves(roughness, h, size);
      assert e + Spread(roughness, h) == Spread(roughness, size);
    }
  }

  /** The terrain's heights s: seed the corners at 0.5, then synthesise
      from step div. x and y stay, the corners stay at 0.5, and every height
      lies within Spread(roughness, div) of 0.5. */
  lemma TerrainHeights(buf: seq<real>, s: seq<real>, div: nat, roughness: real, random: (nat, nat, nat) -> real)
    requires div >= 1 && IsVertexBuffer(buf, div) && IsPow2(div)
    requires forall d, r, c :: 0.0 <= random(d, r, c) < 1.0
    requires s == Synthesis(Seeded(buf, div), div, div, roughness, random)
    ensures IsVertexBuffer(s, div) && XYKept(s, buf)
    ensures HeightOf(s, div, 0, 0) == 0.5 && HeightOf(s, div, div, 0) == 0.5
    ensures HeightOf(s, div, 0, div) == 0.5 && HeightOf(s, div, div, div) == 0.5
    ensures forall r: nat, c: nat :: r <= div && c <= div ==>
              0.5 - Spread(roughness, div) <= HeightOf(s, div, r, c) <= 0.5 + Spread(roughness, div)
  {
    SeededSynthesis(buf, s, div, roughness, random);
    CornersWithin(s, div, 0.5);
    WithinEverywhere(s, div, 0.5 - Spread(roughness, div), 0.5 + Spread(roughness, div));
  }

  /** The terrain's heights over the grid builder's flat grid: every vertex
      keeps the (x, y) the grid builder gave it, the corners stay at 0.5,
      and every height lies within Spread(roughness, div) of 0.5. */
  lemma TerrainOverGrid(s: seq<real>, minX: real, maxX: real, minY: real, maxY: real, div: nat, roughness: real,
                        random: (nat, nat, nat) -> real)
    requires div >= 1 && IsPow2(div)
    requires forall d, r, c :: 0.0 <= random(d, r, c) < 1.0
    requires s == Synthesis(Seeded(FlatGrid(minX, maxX, minY, maxY, div, VertexCount(div)), div), div, div, roughness, random)
    ensures IsVertexBuffer(s, div)
    ensures forall i: nat, j: nat :: i <= div && j <= div ==>
              VertexAt(s, div, i, j).x == GridX(minX, maxX, div, j) && VertexAt(s, div, i, j).y == GridY(minY, maxY, div, i)
    ensures HeightOf(s, div, 0, 0) == 0.5 && HeightOf(s, div, div, 0) == 0.5
    ensures HeightOf(s, div, 0, div) == 0.5 && HeightOf(s, div, div, div) == 0.5
    ensures forall r: nat, c: nat :: r <= div && c <= div ==>
              0.5 - Spread(roughness, div) <= HeightOf(s, div, r, c) <= 0.5 + Spread(roughness, div)
  {
    var flat := FlatGrid(minX, maxX, minY, maxY, div, VertexCount(div));
    PlacedAll(flat, minX, maxX, minY, maxY, div);
    TerrainHeights(flat, s, div, roughness, random);
    XYKeptGrid(s, flat, div);
  }

  /** With no perturbation scale, the diamond pass does not depend on the draws. */
  lemma DiamondPassUnscaled(buf: seq<real>, div: nat, h: nat, random: (nat, nat, nat) -> real, other: (nat, nat, nat) -> real)
    requires IsVertexBuffer(buf, div) && h >= 1 && div % (2 * h) == 0
    ensures DiamondPassOf(buf, div, h, 0.0, random) == DiamondPassOf(buf, div, h, 0.0, other)
  {
    var a, b := DiamondPassOf(buf, div, h, 0.0, random), DiamondPassOf(buf, div, h, 0.0, other);
    forall k | 0 <= k < |buf|
      ensures a[k] == b[k]
    {
      DiamondPassTailAt(buf, div, h, 0.0, random, |buf|, k);
      DiamondPassTailAt(buf, div, h, 0.0, other, |buf|, k);
    }
  }

  /** With no perturbation scale, the square pass does not depend on the draws. */
  lemma SquarePassUnscaled(buf: seq<real>, div: nat, h: nat, random: (nat, nat, nat) -> real, other: (nat, nat, nat) -> real)
    requires IsVertexBuffer(buf, div) && h >= 1 && div >= 1 && div % (2 * h) == 0
    ensures SquarePassOf(buf, div, h, 0.0, random) == SquarePassOf(buf, div, h, 0.0, other)
  {
    var a, b := SquarePassOf(buf, div, h, 0.0, random), SquarePassOf(buf, div, h, 0.0, other);
    forall k | 0 <= k < |buf|
      ensures a[k] == b[k]
    {
      SquarePassTailAt(buf, div, h, 0.0, random, |buf|, k);
      SquarePassTailAt(buf, div, h, 0.0, other, |buf|, k);
    }
  }

  /** With no roughness, the synthesis does not depend on the draws. */
  lemma {:induction false} SmoothSynthesis(buf: seq<real>, div: nat, size: nat, random: (nat, nat, nat) -> real,
                                           other: (nat, nat, nat) -> real)
    requires IsVertexBuffer(buf, div) && div >= 1 && IsPow2(size) && div % size == 0
    decreases size
    ensures Synthesis(buf, div, size, 0.0, random) == Synthesis(buf, div, size, 0.0, other)
  {
    if size / 2 >= 1 {
      HalfStep(div, size);
      var h := size / 2;
      var scale := 0.0 * (size as real);
      assert scale == 0.0;
      DiamondPassUnscaled(buf, div, h, random, other);
      var d := DiamondPassOf(buf, div, h, scale, random);
      SquarePassUnscaled(d, div, h, random, other);
      var level := LevelOf(buf, div, h, scale, random);
      assert level == LevelOf(buf, div, h, scale, other);
      SynthesisStep(buf, level, div, size, h, scale, 0.0, random);
      SynthesisStep(buf, level, div, size, h, scale, 0.0, other);
      SmoothSynthesis(level, div, h, random, other);
    }
  }

  /** With no roughness the synthesis adds nothing, whatever the draws: the
      terrain is the flat plane z = 0.5. */
  lemma SmoothTerrain(buf: seq<real>, s: seq<real>, div: nat, random: (nat, nat, nat) -> real)
    requires div >= 1 && IsVertexBuffer(buf, div) && IsPow2(div)
    requires s == Synthesis(Seeded(buf, div), div, div, 0.0, random)
    ensures IsVertexBuffer(s, div)
    ensures forall r: nat, c: nat :: r <= div && c <= div ==> HeightOf(s, div, r, c) == 0.5
  {
    var still: (nat, nat, nat) -> real := (d, r, c) => 0.0;
    SmoothSynthesis(Seeded(buf, div), div, div, random, still);
    TerrainHeights(buf, s, div, 0.0, still);
    assert Spread(0.0, div) == 0.0;
  }

  lemma SeededSynthesis(buf: seq<real>, s: seq<real>, div: nat, roughness: real, random: (nat, nat, nat) -> real)
    requires div >= 1 && IsVertexBuffer(buf, div) && IsPow2(div)
    requires forall d, r, c :: 0.0 <= random(d, r, c) < 1.0
    requires s == Synthesis(Seeded(buf, div), div, div, roughness, random)
    ensures IsVertexBuffer(s, div) && XYKept(s, buf)
    ensures GridWithin(s, div, div, 0.5, 0.5)
    ensures GridWithin(s, div, 1, 0.5 - Spread(roughness, div), 0.5 + Spread(roughness, div))
  {
    var seeded := Seeded(buf, div);
    SeededHeights(buf, div);
    SynthesisWithin(seeded, div, div, roughness, random, 0.5, 0.5);
    XYKeptTrans(s, seeded, buf);
  }
}
