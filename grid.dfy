/** The terrain's row-major (div+1)×(div+1) lattice: vertex ids, positions in
    the flat vertex buffer (three numbers per vertex), and the two triangles
    of every cell. */
module Grid {
  import opened Arith
  import opened Geometry

  /** Number of lattice points of a grid with div cells per side. */
  function VertexCount(div: nat): nat
  {
    (div + 1) * (div + 1)
  }

  /** Id of the vertex in row i, column j: row 0 holds ids 0 to div, and
      every later row starts div + 1 ids after the one before it. */
  function VertexId(div: nat, i: nat, j: nat): nat
  {
    if i == 0 then j else i * (div + 1) + j
  }

  /** Position in the flat buffer of the first coordinate of vertex (i, j):
      three numbers per vertex, in id order. */
  function VertexIndex(div: nat, i: nat, j: nat): nat
  {
    if i == 0 then 3 * j else 3 * VertexId(div, i, j)
  }

  lemma VertexIdInGrid(div: nat, i: nat, j: nat)
    requires i <= div && j <= div
    ensures VertexId(div, i, j) < VertexCount(div)
  {
    assert i * (div + 1) <= div * (div + 1);
    assert VertexCount(div) == div * (div + 1) + div + 1;
  }

  /** Distinct lattice points have distinct ids. */
  lemma VertexIdInjective(div: nat, i: nat, j: nat, i2: nat, j2: nat)
    requires j <= div && j2 <= div
    requires VertexId(div, i, j) == VertexId(div, i2, j2)
    ensures i == i2 && j == j2
  {
    ModUnique(VertexId(div, i, j), div + 1, i, j);
    ModUnique(VertexId(div, i2, j2), div + 1, i2, j2);
  }

  /** Every id below VertexCount(div) is the id of a lattice point. */
  lemma VertexOfId(div: nat, v: nat)
    requires v < VertexCount(div)
    ensures v / (div + 1) <= div && v % (div + 1) <= div
    ensures VertexId(div, v / (div + 1), v % (div + 1)) == v
  {
    var i, j := v / (div + 1), v % (div + 1);
    assert v == i * (div + 1) + j;
  }

  /** The vertex with id v read from a buffer of three numbers per vertex. */
  function Position(buf: seq<real>, v: nat): Vec3
    requires 3 * v + 2 < |buf|
  {
    Vec3(buf[3 * v], buf[3 * v + 1], buf[3 * v + 2])
  }

  /** A buffer holding one (x, y, z) triple per lattice point. */
  predicate IsVertexBuffer(buf: seq<real>, div: nat)
  {
    |buf| == 3 * VertexCount(div)
  }

  /** Vertex (i, j) of a vertex buffer. */
  function VertexAt(buf: seq<real>, div: nat, i: nat, j: nat): Vec3
    requires IsVertexBuffer(buf, div) && i <= div && j <= div
  {
    VertexIdInGrid(div, i, j);
    Position(buf, VertexId(div, i, j))
  }

  /** Height (z) of vertex (i, j). */
  function HeightOf(buf: seq<real>, div: nat, i: nat, j: nat): real
    requires IsVertexBuffer(buf, div) && i <= div && j <= div
  {
    VertexAt(buf, div, i, j).z
  }

  /** The buffer with vertex (i, j) replaced by v: exactly the three numbers
      of that vertex change. */
  function WriteVertex(buf: seq<real>, div: nat, i: nat, j: nat, v: Vec3): (r: seq<real>)
    requires IsVertexBuffer(buf, div) && i <= div && j <= div
    ensures IsVertexBuffer(r, div)
    ensures VertexAt(r, div, i, j) == v
    ensures forall k :: 0 <= k < |r| && (k < VertexIndex(div, i, j) || VertexIndex(div, i, j) + 2 < k) ==> r[k] == buf[k]
  {
    VertexIdInGrid(div, i, j);
    var k := VertexIndex(div, i, j);
    buf[k := v.x][k + 1 := v.y][k + 2 := v.z]
  }

  /** The buffer with only the height of vertex (i, j) replaced by z: every
      x and y coordinate, and every other height, stays as it was. */
  function WriteHeight(buf: seq<real>, div: nat, i: nat, j: nat, z: real): (r: seq<real>)
    requires IsVertexBuffer(buf, div) && i <= div && j <= div
    ensures IsVertexBuffer(r, div) && HeightOf(r, div, i, j) == z
    ensures XYKept(r, buf)
  {
    VertexIdInGrid(div, i, j);
    buf[VertexIndex(div, i, j) + 2 := z]
  }

  /** Two vertex buffers agree on every x and y coordinate. */
  ghost predicate XYKept(buf: seq<real>, was: seq<real>)
  {
    |buf| == |was| &&
    forall v: nat :: 3 * v + 2 < |buf| ==> Position(buf, v).x == Position(was, v).x && Position(buf, v).y == Position(was, v).y
  }

  /** Keeping x and y composes. */
  lemma XYKeptTrans(buf: seq<real>, mid: seq<real>, was: seq<real>)
    requires XYKept(buf, mid) && XYKept(mid, was)
    ensures XYKept(buf, was)
  {
  }

  /** Writing back a vertex with its own x and y and a new z only replaces its height. */
  lemma WriteKeepingXY(buf: seq<real>, div: nat, i: nat, j: nat, z: real)
    requires IsVertexBuffer(buf, div) && i <= div && j <= div
    ensures WriteVertex(buf, div, i, j, VertexAt(buf, div, i, j).(z := z)) == WriteHeight(buf, div, i, j, z)
  {
    var a := WriteVertex(buf, div, i, j, VertexAt(buf, div, i, j).(z := z));
    var b := WriteHeight(buf, div, i, j, z);
    assert forall k :: 0 <= k < |a| ==> a[k] == b[k];
  }

  /** Writing a vertex and reading any vertex back: the written one reads as
      what was written, every other one as before. */
  lemma SetThenGet(buf: seq<real>, div: nat, v: Vec3, i: nat, j: nat, i2: nat, j2: nat)
    requires IsVertexBuffer(buf, div) && i <= div && j <= div && i2 <= div && j2 <= div
    ensures VertexAt(WriteVertex(buf, div, i, j, v), div, i2, j2)
            == if i == i2 && j == j2 then v else VertexAt(buf, div, i2, j2)
  {
    if i != i2 || j != j2 {
      if VertexId(div, i, j) == VertexId(div, i2, j2) {
        VertexIdInjective(div, i, j, i2, j2);
      }
      VertexIdInGrid(div, i2, j2);
    }
  }

  /** Replacing one height changes HeightOf at that lattice point only, and
      leaves every x and y coordinate alone. */
  lemma HeightAfterWrite(buf: seq<real>, div: nat, y: nat, x: nat, z: real)
    requires IsVertexBuffer(buf, div) && y <= div && x <= div
    ensures forall r: nat, c: nat :: r <= div && c <= div ==>
              HeightOf(WriteHeight(buf, div, y, x, z), div, r, c)
              == if r == y && c == x then z else HeightOf(buf, div, r, c)
  {
    VertexIdInGrid(div, y, x);
    var b := WriteHeight(buf, div, y, x, z);
    forall r: nat, c: nat | r <= div && c <= div
      ensures HeightOf(b, div, r, c) == if r == y && c == x then z else HeightOf(buf, div, r, c)
    {
      VertexIdInGrid(div, r, c);
      if (r != y || c != x) && VertexId(div, r, c) == VertexId(div, y, x) {
        VertexIdInjective(div, r, c, y, x);
      }
    }
  }

  /** x of the lattice points in column j, as the grid builder computes it. */
  function GridX(minX: real, maxX: real, div: nat, j: nat): real
    requires div >= 1
  {
    (j as real) * ((maxX - minX) / (div as real)) + minX
  }

  /** y of the lattice points in row i, as the grid builder computes it. */
  function GridY(minY: real, maxY: real, div: nat, i: nat): real
    requires div >= 1
  {
    minY + (i as real) * ((maxY - minY) / (div as real))
  }

  /** The lattice spans the rectangle: column 0 lies at minX and column div
      at maxX, row 0 at minY and row div at maxY, and the columns and rows
      are evenly spaced in between. */
  lemma GridSpans(minX: real, maxX: real, minY: real, maxY: real, div: nat, j: nat, i: nat)
    requires div >= 1
    ensures GridX(minX, maxX, div, 0) == minX && GridX(minX, maxX, div, div) == maxX
    ensures GridY(minY, maxY, div, 0) == minY && GridY(minY, maxY, div, div) == maxY
    ensures GridX(minX, maxX, div, j + 1) - GridX(minX, maxX, div, j) == (maxX - minX) / (div as real)
    ensures GridY(minY, maxY, div, i + 1) - GridY(minY, maxY, div, i) == (maxY - minY) / (div as real)
  {
    var d := div as real;
    assert d * ((maxX - minX) / d) == maxX - minX;
    assert d * ((maxY - minY) / d) == maxY - minY;
  }

  /** Offset in the triangle buffer of the six indices of cell (i, j): the
      cells of row 0 come first, six indices each, then div cells per row. */
  function CellOffset(div: nat, i: nat, j: nat): nat
  {
    if i == 0 then 6 * j else 6 * (i * div + j)
  }

  /** The two triangles of cell (i, j), whose lower-left vertex has id vid:
      (vid, vid+div+2, vid+div+1) and (vid, vid+1, vid+div+2). */
  function CellTriangles(div: nat, i: nat, j: nat): seq<nat>
  {
    var vid := VertexId(div, i, j);
    [vid, vid + div + 2, vid + div + 1, vid, vid + 1, vid + div + 2]
  }

  /** The triangle buffer f holds cell (i, j)'s two triangles at its offset. */
  predicate CellAt(f: seq<nat>, div: nat, i: nat, j: nat)
  {
    CellOffset(div, i, j) + 6 <= |f| &&
    f[CellOffset(div, i, j)..CellOffset(div, i, j) + 6] == CellTriangles(div, i, j)
  }

  /** Every corner of a cell's triangles is a lattice point. */
  lemma CellCornersInGrid(div: nat, i: nat, j: nat)
    requires i < div && j < div
    ensures forall k :: 0 <= k < 6 ==> CellTriangles(div, i, j)[k] < VertexCount(div)
  {
    VertexIdInGrid(div, i + 1, j + 1);
    assert VertexId(div, i + 1, j + 1) == VertexId(div, i, j) + div + 2;
  }

  /** Corner k of the triangles of a cell held in f is a value of f. */
  lemma CellCorner(f: seq<nat>, div: nat, ci: nat, cj: nat, k: nat)
    requires CellAt(f, div, ci, cj) && k < 6
    ensures CellTriangles(div, ci, cj)[k] in f
  {
    var off := CellOffset(div, ci, cj);
    assert f[off + k] == f[off..off + 6][k];
  }

  /** Vertex (i, j) is a corner of one of the triangles of a cell next to it. */
  lemma CornerOfNearbyCell(f: seq<nat>, div: nat, i: nat, j: nat)
    requires div >= 1 && i <= div && j <= div
    requires forall ci: nat, cj: nat :: ci < div && cj < div ==> CellAt(f, div, ci, cj)
    ensures VertexId(div, i, j) in f
  {
    if i == div && j == div {
      assert VertexId(div, i, j) == VertexId(div, i - 1, j - 1) + div + 2;
      CellCorner(f, div, i - 1, j - 1, 1);
    } else if i == div {
      assert VertexId(div, i, j) == VertexId(div, i - 1, j) + div + 1;
      CellCorner(f, div, i - 1, j, 2);
    } else if j == div {
      CellCorner(f, div, i, j - 1, 4);
    } else {
      CellCorner(f, div, i, j, 0);
    }
  }

  /** A triangle buffer holding every cell of the grid uses every lattice point
      as a triangle corner. */
  lemma EveryVertexOnATriangle(f: seq<nat>, div: nat)
    requires div >= 1
    requires forall i: nat, j: nat :: i < div && j < div ==> CellAt(f, div, i, j)
    ensures forall v: nat :: v < VertexCount(div) ==> v in f
  {
    forall v: nat | v < VertexCount(div)
      ensures v in f
    {
      VertexOfId(div, v);
      CornerOfNearbyCell(f, div, v / (div + 1), v % (div + 1));
    }
  }

  /** The lattice point with id v, as the grid builder places it: column
      v mod (div+1), row v div (div+1), height 0. */
  function LatticePoint(minX: real, maxX: real, minY: real, maxY: real, div: nat, v: nat): Vec3
    requires div >= 1
  {
    Vec3(GridX(minX, maxX, div, v % (div + 1)), GridY(minY, maxY, div, v / (div + 1)), 0.0)
  }

  /** Appending to a triangle buffer keeps the cells already in it. */
  lemma CellAtAppend(f: seq<nat>, t: seq<nat>, div: nat, i: nat, j: nat)
    requires CellAt(f, div, i, j)
    ensures CellAt(f + t, div, i, j)
  {
    var o := CellOffset(div, i, j);
    assert (f + t)[o..o + 6] == f[o..o + 6];
  }

  /** Appending a cell's triangles at its offset puts the cell in place. */
  lemma CellAtEnd(f: seq<nat>, div: nat, i: nat, j: nat)
    requires |f| == CellOffset(div, i, j)
    ensures CellAt(f + CellTriangles(div, i, j), div, i, j)
  {
    var o := CellOffset(div, i, j);
    assert (f + CellTriangles(div, i, j))[o..o + 6] == CellTriangles(div, i, j);
  }

  /** Buffers that keep x and y agree on the x and y of every vertex. */
  lemma XYKeptVertex(buf: seq<real>, was: seq<real>, div: nat, i: nat, j: nat)
    requires IsVertexBuffer(was, div) && XYKept(buf, was) && i <= div && j <= div
    ensures IsVertexBuffer(buf, div)
    ensures VertexAt(buf, div, i, j).x == VertexAt(was, div, i, j).x
    ensures VertexAt(buf, div, i, j).y == VertexAt(was, div, i, j).y
  {
    VertexIdInGrid(div, i, j);
  }

  /** Two buffers that agree on x and y agree on the x and y of every
      lattice point. */
  lemma XYKeptGrid(buf: seq<real>, was: seq<real>, div: nat)
    requires IsVertexBuffer(was, div) && XYKept(buf, was)
    ensures IsVertexBuffer(buf, div)
    ensures forall i: nat, j: nat :: i <= div && j <= div ==>
              VertexAt(buf, div, i, j).x == VertexAt(was, div, i, j).x && VertexAt(buf, div, i, j).y == VertexAt(was, div, i, j).y
  {
    forall i: nat, j: nat | i <= div && j <= div
      ensures VertexAt(buf, div, i, j).x == VertexAt(was, div, i, j).x && VertexAt(buf, div, i, j).y == VertexAt(was, div, i, j).y
    {
      XYKeptVertex(buf, was, div, i, j);
    }
  }

  /** The first n vertices of buf sit where the grid builder places them. */
  predicate PlacedUpTo(buf: seq<real>, minX: real, maxX: real, minY: real, maxY: real, div: nat, n: nat)
    requires div >= 1
  {
    |buf| == 3 * n && forall v: nat :: v < n ==> Position(buf, v) == LatticePoint(minX, maxX, minY, maxY, div, v)
  }

  /** Pushing the vertex of row i, column j as vertex number i*(div+1)+j
      places it. */
  lemma PushVertex(buf: seq<real>, minX: real, maxX: real, minY: real, maxY: real, div: nat, n: nat, i: nat, j: nat)
    requires div >= 1 && j <= div && n == i * (div + 1) + j
    requires PlacedUpTo(buf, minX, maxX, minY, maxY, div, n)
    ensures PlacedUpTo(buf + [GridX(minX, maxX, div, j), GridY(minY, maxY, div, i), 0.0], minX, maxX, minY, maxY, div, n + 1)
  {
    ModUnique(n, div + 1, i, j);
    var b := buf + [GridX(minX, maxX, div, j), GridY(minY, maxY, div, i), 0.0];
    forall v: nat | v < n + 1
      ensures Position(b, v) == LatticePoint(minX, maxX, minY, maxY, div, v)
    {
      if v < n {
        assert Position(b, v) == Position(buf, v);
      }
    }
  }

  /** Once every vertex is placed, vertex (i, j) reads as (GridX(j), GridY(i), 0). */
  lemma PlacedAll(buf: seq<real>, minX: real, maxX: real, minY: real, maxY: real, div: nat)
    requires div >= 1 && PlacedUpTo(buf, minX, maxX, minY, maxY, div, VertexCount(div))
    ensures IsVertexBuffer(buf, div)
    ensures forall i: nat, j: nat :: i <= div && j <= div ==>
              VertexAt(buf, div, i, j) == Vec3(GridX(minX, maxX, div, j), GridY(minY, maxY, div, i), 0.0)
  {
    forall i: nat, j: nat | i <= div && j <= div
      ensures VertexAt(buf, div, i, j) == Vec3(GridX(minX, maxX, div, j), GridY(minY, maxY, div, i), 0.0)
    {
      VertexIdInGrid(div, i, j);
      ModUnique(VertexId(div, i, j), div + 1, i, j);
    }
  }

  /** The first n vertices of the flat grid in row-major order, three
      numbers each: vertex v at LatticePoint(v). */
  function FlatGrid(minX: real, maxX: real, minY: real, maxY: real, div: nat, n: nat): (r: seq<real>)
    requires div >= 1
    ensures PlacedUpTo(r, minX, maxX, minY, maxY, div, n)
  {
    if n == 0 then []
    else
      var v := n - 1;
      PushVertex(FlatGrid(minX, maxX, minY, maxY, div, v), minX, maxX, minY, maxY, div, v, v / (div + 1), v % (div + 1));
      FlatGrid(minX, maxX, minY, maxY, div, v)
        + [GridX(minX, maxX, div, v % (div + 1)), GridY(minY, maxY, div, v / (div + 1)), 0.0]
  }

  /** The placed vertices determine the buffer: whatever placed the first n
      vertices is the flat grid's first n. */
  lemma PlacedIsFlat(buf: seq<real>, minX: real, maxX: real, minY: real, maxY: real, div: nat, n: nat)
    requires div >= 1 && PlacedUpTo(buf, minX, maxX, minY, maxY, div, n)
    ensures buf == FlatGrid(minX, maxX, minY, maxY, div, n)
  {
    var g := FlatGrid(minX, maxX, minY, maxY, div, n);
    forall k | 0 <= k < |buf|
      ensures buf[k] == g[k]
    {
      var v := k / 3;
      assert Position(buf, v) == LatticePoint(minX, maxX, minY, maxY, div, v) == Position(g, v);
    }
  }

  /** f holds, at their offsets, the cells of the rows before i and those of
      row i before column j, and only lattice points as corners. */
  ghost predicate CellsBefore(f: seq<nat>, div: nat, i: nat, j: nat)
  {
    (forall ci: nat, cj: nat :: (ci < i && cj < div) || (ci == i && cj < j) ==> CellAt(f, div, ci, cj))
    && (forall k :: 0 <= k < |f| ==> f[k] < VertexCount(div))
  }

  /** A finished row of cells is one more row before the next. */
  lemma CellsRowDone(f: seq<nat>, div: nat, i: nat)
    requires CellsBefore(f, div, i, div)
    ensures CellsBefore(f, div, i + 1, 0)
  {
  }

  /** Pushing the triangles of cell (i, j) at its offset extends CellsBefore
      by that cell. */
  lemma PushCell(f: seq<nat>, div: nat, i: nat, j: nat)
    requires i < div && j < div && |f| == CellOffset(div, i, j) && CellsBefore(f, div, i, j)
    ensures CellsBefore(f + CellTriangles(div, i, j), div, i, j + 1)
  {
    var g := f + CellTriangles(div, i, j);
    CellCornersInGrid(div, i, j);
    CellAtEnd(f, div, i, j);
    forall ci: nat, cj: nat | (ci < i && cj < div) || (ci == i && cj < j)
      ensures CellAt(g, div, ci, cj)
    {
      CellAtAppend(f, CellTriangles(div, i, j), div, ci, cj);
    }
    forall k | 0 <= k < |g|
      ensures g[k] < VertexCount(div)
    {
      if k >= |f| {
        assert g[k] == CellTriangles(div, i, j)[k - |f|];
      }
    }
  }
}
