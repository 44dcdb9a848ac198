/** The terrain object: a (div+1)×(div+1) height field whose buffers are
    filled by the grid builder, shaped by the Diamond-Square synthesis, and
    decorated with normals, colours and wireframe edges. */
module TerrainModel {
  import opened Arith
  import opened Geometry
  import opened Grid
  import opened DiamondSquare
  import opened Heights
  import opened Wireframe
  import opened Normals
  import opened Palette

  class Terrain {
    const div: nat
    const minX: real
    const maxX: real
    const minY: real
    const maxY: real
    var roughness: real

    /** Vertex positions, three numbers per lattice point, row-major. */
    var vBuffer: seq<real>
    /** Triangle corners, three vertex ids per triangle. */
    var fBuffer: seq<nat>
    /** Vertex normals, three numbers per lattice point. */
    var nBuffer: seq<real>
    /** Wireframe edges, two vertex ids per edge. */
    var eBuffer: seq<nat>
    /** Vertex colours, four numbers (RGBA) per lattice point. */
    var cBuffer: seq<real>
    /** Per-vertex contribution counters, three slots per lattice point of
        which the normal pass uses the first. */
    var count: seq<nat>
    var numVertices: nat
    var numFaces: nat

    /** A terrain of div×div cells spanning [minX, maxX]×[minY, maxY] with
        roughness 0.005: the grid is built, its wireframe listed, its heights
        synthesised and its normals and colours computed, in that order. */
    constructor(div: nat, minX: real, maxX: real, minY: real, maxY: real,
                random: (nat, nat, nat) -> real, normalize: Vec3 -> Vec3)
      requires div >= 1 && IsPow2(div)
      ensures this.div == div && this.minX == minX && this.maxX == maxX
      ensures this.minY == minY && this.maxY == maxY && roughness == 0.005
      ensures Meshed() && numVertices == VertexCount(div) && numFaces == 2 * (div * div)
      ensures vBuffer == Synthesis(Seeded(FlatGrid(minX, maxX, minY, maxY, div, VertexCount(div)), div), div, div, 0.005, random)
      ensures eBuffer == Edges(fBuffer)
      ensures NormalsAveraged(nBuffer, ZeroNormals(VertexCount(div)), count, ZeroCounts(VertexCount(div)),
                              vBuffer, fBuffer, VertexCount(div), normalize)
      ensures cBuffer == Colouring(vBuffer, VertexCount(div))
    {
      this.div := div;
      this.minX := minX;
      this.minY := minY;
      this.maxX := maxX;
      this.maxY := maxY;
      roughness := 0.005;
      vBuffer := [];
      fBuffer := [];
      nBuffer := [];
      eBuffer := [];
      cBuffer := [];
      count := [];
      new;
      Mesh();
      ghost var shaped := Synthesis(Seeded(vBuffer, div), div, div, 0.005, random);
      ghost var edges, faces := eBuffer, fBuffer;
      assert edges == Edges(faces);
      Shade(random, normalize);
      assert vBuffer == shaped && eBuffer == edges && fBuffer == faces;
    }

    /** The first half of the construction: the flat grid with zero normals
        and counters, then its wireframe. */
    method Mesh()
      requires div >= 1
      requires vBuffer == [] && nBuffer == [] && count == [] && fBuffer == [] && eBuffer == []
      modifies this`vBuffer, this`nBuffer, this`count, this`fBuffer, this`numVertices, this`numFaces, this`eBuffer
      ensures Meshed() && numVertices == VertexCount(div) && numFaces == 2 * (div * div)
      ensures vBuffer == FlatGrid(minX, maxX, minY, maxY, div, VertexCount(div))
      ensures forall i: nat, j: nat :: i <= div && j <= div ==>
                VertexAt(vBuffer, div, i, j) == Vec3(GridX(minX, maxX, div, j), GridY(minY, maxY, div, i), 0.0)
      ensures nBuffer == ZeroNormals(VertexCount(div)) && count == ZeroCounts(VertexCount(div))
      ensures eBuffer == Edges(fBuffer)
    {
      GenerateTriangles();
      assert nBuffer == ZeroNormals(VertexCount(div));
      assert count == ZeroCounts(VertexCount(div));
      ModUnique(|fBuffer|, 3, 2 * (div * div), 0);
      GenerateLines();
      assert eBuffer == Edges(fBuffer) by {
        assert [] + Edges(fBuffer) == Edges(fBuffer);
      }
    }

    /** The second half of the construction: the heights and normals of the
        synthesis, then the colours of the shaped grid. */
    method Shade(random: (nat, nat, nat) -> real, normalize: Vec3 -> Vec3)
      requires div >= 1 && Meshed() && IsPow2(div)
      requires nBuffer == ZeroNormals(VertexCount(div)) && count == ZeroCounts(VertexCount(div))
      requires cBuffer == []
      modifies this`vBuffer, this`nBuffer, this`count, this`cBuffer
      ensures Meshed()
      ensures vBuffer == Synthesis(Seeded(old(vBuffer), div), div, div, roughness, random)
      ensures NormalsAveraged(nBuffer, ZeroNormals(VertexCount(div)), count, ZeroCounts(VertexCount(div)),
                              vBuffer, fBuffer, VertexCount(div), normalize)
      ensures cBuffer == Colouring(vBuffer, VertexCount(div))
    {
      ghost var shaped := Synthesis(Seeded(vBuffer, div), div, div, roughness, random);
      GenerateDSA(random, normalize);
      ghost var vb, n, c := vBuffer, nBuffer, count;
      assert vb == shaped;
      assert NormalsAveraged(n, ZeroNormals(VertexCount(div)), c, ZeroCounts(VertexCount(div)), vb, fBuffer, VertexCount(div), normalize);
      GenerateColor();
      assert vBuffer == vb && nBuffer == n && count == c;
      assert cBuffer == Colouring(vb, VertexCount(div)) by {
        assert [] + Colouring(vb, VertexCount(div)) == Colouring(vb, VertexCount(div));
      }
    }

    /** Write vertex v at row i, column j. */
    method SetVertex(v: Vec3, i: nat, j: nat)
      requires IsVertexBuffer(vBuffer, div) && i <= div && j <= div
      modifies this`vBuffer
      ensures vBuffer == WriteVertex(old(vBuffer), div, i, j, v)
    {
      VertexIdInGrid(div, i, j);
      var vid := 3 * (i * (div + 1) + j);
      vBuffer := vBuffer[vid := v.x][vid + 1 := v.y][vid + 2 := v.z];
    }

    /** The vertex at row i, column j. */
    method GetVertex(i: nat, j: nat) returns (v: Vec3)
      requires IsVertexBuffer(vBuffer, div) && i <= div && j <= div
      ensures v == VertexAt(vBuffer, div, i, j)
    {
      VertexIdInGrid(div, i, j);
      var vid := 3 * (i * (div + 1) + j);
      v := Vec3(vBuffer[vid], vBuffer[vid + 1], vBuffer[vid + 2]);
    }

    /** The buffers as the grid builder leaves them: one vertex, one normal
        and one counter triple per lattice point, and two triangles per cell
        whose corners are lattice points. */
    predicate Meshed()
      reads this`vBuffer, this`nBuffer, this`count, this`fBuffer
    {
      IsVertexBuffer(vBuffer, div) && |nBuffer| == |vBuffer| && |count| == |vBuffer|
      && |fBuffer| == 6 * (div * div)
      && (forall i: nat, j: nat :: i < div && j < div ==> CellAt(fBuffer, div, i, j))
      && (forall k :: 0 <= k < |fBuffer| ==> fBuffer[k] < VertexCount(div))
    }

    /** Build the flat grid: the vertices, then the triangles, then the
        vertex and triangle counts. */
    method GenerateTriangles()
      requires div >= 1
      requires vBuffer == [] && nBuffer == [] && count == [] && fBuffer == []
      modifies this`vBuffer, this`nBuffer, this`count, this`fBuffer, this`numVertices, this`numFaces
      ensures Meshed()
      ensures vBuffer == FlatGrid(minX, maxX, minY, maxY, div, VertexCount(div))
      ensures forall i: nat, j: nat :: i <= div && j <= div ==>
                VertexAt(vBuffer, div, i, j) == Vec3(GridX(minX, maxX, div, j), GridY(minY, maxY, div, i), 0.0)
      ensures forall k :: 0 <= k < |nBuffer| ==> nBuffer[k] == 0.0
      ensures forall k :: 0 <= k < |count| ==> count[k] == 0
      ensures numVertices == VertexCount(div) && numFaces == 2 * (div * div)
    {
      PlaceVertices();
      PlaceCells();
      ModUnique(|vBuffer|, 3, VertexCount(div), 0);
      ModUnique(|fBuffer|, 3, 2 * (div * div), 0);
      numVertices := |vBuffer| / 3;
      numFaces := |fBuffer| / 3;
    }

    /** The first loop of the grid builder: row by row, push the vertex of
        row i, column j at (GridX(j), GridY(i), 0), with a zero normal and
        zero counters. */
    method PlaceVertices()
      requires div >= 1 && vBuffer == [] && nBuffer == [] && count == []
      modifies this`vBuffer, this`nBuffer, this`count
      ensures IsVertexBuffer(vBuffer, div) && |nBuffer| == |vBuffer| && |count| == |vBuffer|
      ensures vBuffer == FlatGrid(minX, maxX, minY, maxY, div, VertexCount(div))
      ensures forall i: nat, j: nat :: i <= div && j <= div ==>
                VertexAt(vBuffer, div, i, j) == Vec3(GridX(minX, maxX, div, j), GridY(minY, maxY, div, i), 0.0)
      ensures forall k :: 0 <= k < |nBuffer| ==> nBuffer[k] == 0.0
      ensures forall k :: 0 <= k < |count| ==> count[k] == 0
    {
      var i := 0;
      while i <= div
        invariant i <= div + 1
        invariant PlacedUpTo(vBuffer, minX, maxX, minY, maxY, div, i * (div + 1))
        invariant |nBuffer| == |vBuffer| && |count| == |vBuffer|
        invariant forall k :: 0 <= k < |nBuffer| ==> nBuffer[k] == 0.0
        invariant forall k :: 0 <= k < |count| ==> count[k] == 0
      {
        PlaceRow(i);
        assert i * (div + 1) + (div + 1) == (i + 1) * (div + 1);
        i := i + 1;
      }
      PlacedAll(vBuffer, minX, maxX, minY, maxY, div);
      PlacedIsFlat(vBuffer, minX, maxX, minY, maxY, div, VertexCount(div));
    }

    /** One row of the first loop: the vertices of row i, columns 0 to div. */
    method PlaceRow(i: nat)
      requires div >= 1 && i <= div
      requires PlacedUpTo(vBuffer, minX, maxX, minY, maxY, div, i * (div + 1))
      requires |nBuffer| == |vBuffer| && |count| == |vBuffer|
      requires forall k :: 0 <= k < |nBuffer| ==> nBuffer[k] == 0.0
      requires forall k :: 0 <= k < |count| ==> count[k] == 0
      modifies this`vBuffer, this`nBuffer, this`count
      ensures PlacedUpTo(vBuffer, minX, maxX, minY, maxY, div, i * (div + 1) + (div + 1))
      ensures |nBuffer| == |vBuffer| && |count| == |vBuffer|
      ensures forall k :: 0 <= k < |nBuffer| ==> nBuffer[k] == 0.0
      ensures forall k :: 0 <= k < |count| ==> count[k] == 0
    {
      var xAmount := (maxX - minX) / (div as real);
      var yAmount := (maxY - minY) / (div as real);
      ghost var start := i * (div + 1);
      var j := 0;
      while j <= div
        invariant j <= div + 1
        invariant PlacedUpTo(vBuffer, minX, maxX, minY, maxY, div, start + j)
        invariant |nBuffer| == |vBuffer| && |count| == |vBuffer|
        invariant forall k :: 0 <= k < |nBuffer| ==> nBuffer[k] == 0.0
        invariant forall k :: 0 <= k < |count| ==> count[k] == 0
      {
        PushVertex(vBuffer, minX, maxX, minY, maxY, div, start + j, i, j);
        assert (j as real) * xAmount + minX == GridX(minX, maxX, div, j);
        assert minY + (i as real) * yAmount == GridY(minY, maxY, div, i);
        vBuffer := vBuffer + [(j as real) * xAmount + minX, minY + (i as real) * yAmount, 0.0];
        nBuffer := nBuffer + [0.0, 0.0, 0.0];
        count := count + [0, 0, 0];
        j := j + 1;
      }
    }

    /** The second loop of the grid builder: row by row, push the two
        triangles of cell (i, j) at offset 6*(i*div + j). */
    method PlaceCells()
      requires fBuffer == []
      modifies this`fBuffer
      ensures |fBuffer| == 6 * (div * div)
      ensures forall i: nat, j: nat :: i < div && j < div ==> CellAt(fBuffer, div, i, j)
      ensures forall k :: 0 <= k < |fBuffer| ==> fBuffer[k] < VertexCount(div)
    {
      ghost var m: nat := 0;
      var i := 0;
      while i < div
        invariant i <= div && m == i * div
        invariant |fBuffer| == 6 * m && CellsBefore(fBuffer, div, i, 0)
      {
        var j := 0;
        while j < div
          invariant j <= div && m == i * div + j
          invariant |fBuffer| == 6 * m && CellsBefore(fBuffer, div, i, j)
        {
          var vid := i * (div + 1) + j;
          assert [vid, vid + div + 2, vid + div + 1, vid, vid + 1, vid + div + 2] == CellTriangles(div, i, j);
          PushCell(fBuffer, div, i, j);
          fBuffer := fBuffer + [vid, vid + div + 2, vid + div + 1, vid, vid + 1, vid + div + 2];
          m := m + 1;
          j := j + 1;
        }
        CellsRowDone(fBuffer, div, i);
        i := i + 1;
      }
      assert CellsBefore(fBuffer, div, div, 0);
    }

    /** Build the wireframe: for every triangle (a, b, c) of the triangle
        buffer, append the index pairs a-b, b-c and c-a. */
    method GenerateLines()
      requires |fBuffer| % 3 == 0
      modifies this`eBuffer
      ensures eBuffer == old(eBuffer) + Edges(fBuffer)
    {
      ghost var e0 := eBuffer;
      var numTris := |fBuffer| / 3;
      var f := 0;
      while f < numTris
        invariant f <= numTris
        invariant eBuffer == e0 + Edges(fBuffer[..3 * f])
      {
        var fid := f * 3;
        assert [fBuffer[fid], fBuffer[fid + 1], fBuffer[fid + 1], fBuffer[fid + 2], fBuffer[fid + 2], fBuffer[fid]]
            == TriangleEdges(fBuffer, f);
        EdgesPrefixStep(fBuffer, f);
        eBuffer := eBuffer + [fBuffer[fid], fBuffer[fid + 1], fBuffer[fid + 1], fBuffer[fid + 2], fBuffer[fid + 2], fBuffer[fid]];
        f := f + 1;
      }
      assert fBuffer[..3 * numTris] == fBuffer;
    }

    /** Diamond step at row y, column x: the height becomes the average of the
        four diagonal neighbours at distance size plus the perturbation. */
    method DiamondStep(x: nat, y: nat, size: nat, randomRoughness: real)
      requires IsVertexBuffer(vBuffer, div)
      requires size <= x && x + size <= div && size <= y && y + size <= div
      modifies this`vBuffer
      ensures vBuffer == WriteHeight(old(vBuffer), div, y, x, DiamondAverage(old(vBuffer), div, x, y, size) + randomRoughness)
    {
      var midV := GetVertex(y, x);
      var bl := GetVertex(y - size, x - size);
      var tl := GetVertex(y + size, x - size);
      var br := GetVertex(y - size, x + size);
      var tr := GetVertex(y + size, x + size);
      var height := (bl.z + tl.z + br.z + tr.z) / 4.0 + randomRoughness;
      midV := midV.(z := height);
      SetVertex(midV, y, x);
      WriteKeepingXY(old(vBuffer), div, y, x, height);
    }

    /** Square step at row y, column x: the height becomes the average of the
        axis neighbours at distance size that lie inside the grid, plus the
        perturbation. */
    method SquareStep(x: nat, y: nat, size: nat, randomRoughness: real)
      requires IsVertexBuffer(vBuffer, div) && x <= div && y <= div
      requires 1 <= size && 2 * size <= div
      modifies this`vBuffer
      ensures vBuffer == WriteHeight(old(vBuffer), div, y, x, SquareAverage(old(vBuffer), div, x, y, size) + randomRoughness)
    {
      var n := 4;
      var midV := GetVertex(y, x);
      var l, r, t, b := Zero, Zero, Zero, Zero;
      if x - size < 0 {
        l := l.(z := 0.0);
        n := n - 1;
      } else {
        l := GetVertex(y, x - size);
      }
      assert l.z == if HasLeft(x, size) then HeightOf(vBuffer, div, y, x - size) else 0.0;
      if x + size > div {
        r := r.(z := 0.0);
        n := n - 1;
      } else {
        r := GetVertex(y, x + size);
      }
      assert r.z == if HasRight(div, x, size) then HeightOf(vBuffer, div, y, x + size) else 0.0;
      if y + size > div {
        t := t.(z := 0.0);
        n := n - 1;
      } else {
        t := GetVertex(y + size, x);
      }
      assert t.z == if HasTop(div, y, size) then HeightOf(vBuffer, div, y + size, x) else 0.0;
      if y - size < 0 {
        b := b.(z := 0.0);
        n := n - 1;
      } else {
        b := GetVertex(y - size, x);
      }
      assert b.z == if HasBottom(y, size) then HeightOf(vBuffer, div, y - size, x) else 0.0;
      assert n == NeighbourCount(div, x, y, size);
      assert l.z + r.z + t.z + b.z == SquareSum(vBuffer, div, x, y, size);
      var height := (l.z + r.z + t.z + b.z) / (n as real) + randomRoughness;
      assert height == SquareAverage(vBuffer, div, x, y, size) + randomRoughness;
      midV := midV.(z := height);
      SetVertex(midV, y, x);
      WriteKeepingXY(old(vBuffer), div, y, x, height);
    }

    /** One row of the diamond pass of step size = 2*hSize: the points of row
        j whose column is an odd multiple of hSize get the average of their
        four diagonal neighbours plus the perturbation of their draw
        random(size, j, i) at scale. Nothing else changes, and x and y stay. */
    method DiamondRow(j: nat, size: nat, hSize: nat, scale: real, random: (nat, nat, nat) -> real)
      requires div >= 1 && IsVertexBuffer(vBuffer, div)
      requires hSize >= 1 && size == 2 * hSize && div % size == 0 && j % size == hSize && j <= div
      modifies this`vBuffer
      ensures IsVertexBuffer(vBuffer, div) && XYKept(vBuffer, old(vBuffer))
      ensures forall r: nat, c: nat {:trigger HeightOf(vBuffer, div, r, c)} :: r <= div && c <= div ==>
                HeightOf(vBuffer, div, r, c)
                == if r == j && IsDiamondTarget(r, c, hSize) then DiamondPoint(old(vBuffer), div, hSize, scale, random, r, c)
                   else HeightOf(old(vBuffer), div, r, c)
    {
      ghost var v0 := vBuffer;
      MidwayInside(j, hSize, div);
      ResidueBelow(hSize, size);
      ModUnique(hSize, size, 0, hSize);
      var i := hSize;
      while i < div
        invariant i % size == hSize && i <= div + hSize
        invariant IsVertexBuffer(vBuffer, div) && XYKept(vBuffer, v0)
        invariant DiamondRowDone(vBuffer, v0, div, hSize, scale, random, j, i)
      {
        MidwayInside(i, hSize, div);
        ghost var before := vBuffer;
        var p := Perturbation(random(size, j, i), scale);
        DiamondStep(i, j, hSize, p);
        DiamondCellStep(vBuffer, before, v0, div, hSize, scale, random, j, i);
        XYKeptTrans(vBuffer, before, v0);
        StepKeeps(i, size);
        i := i + size;
      }
    }

    /** The diamond pass of the level with step size = 2*hSize, row by row. No
        diamond target reads another, so the rows together give every diamond
        target its DiamondPoint of the buffer the pass started from. */
    method DiamondPass(size: nat, hSize: nat, scale: real, random: (nat, nat, nat) -> real)
      requires div >= 1 && IsVertexBuffer(vBuffer, div)
      requires hSize >= 1 && size == 2 * hSize && div % size == 0
      modifies this`vBuffer
      ensures vBuffer == DiamondPassOf(old(vBuffer), div, hSize, scale, random)
    {
      ghost var v0 := vBuffer;
      ModUnique(hSize, size, 0, hSize);
      ResidueBelow(hSize, size);
      var j := hSize;
      while j < div
        invariant j % size == hSize && j <= div + hSize
        invariant IsVertexBuffer(vBuffer, div) && XYKept(vBuffer, v0)
        invariant DiamondRowsDone(vBuffer, v0, div, hSize, scale, random, j)
      {
        ghost var before := vBuffer;
        MidwayInside(j, hSize, div);
        DiamondRow(j, size, hSize, scale, random);
        DiamondRowStep(vBuffer, before, v0, div, hSize, scale, random, j);
        XYKeptTrans(vBuffer, before, v0);
        StepKeeps(j, size);
        j := j + size;
      }
      DiamondPassHeights(v0, div, hSize, scale, random);
      SameBuffer(vBuffer, DiamondPassOf(v0, div, hSize, scale, random), v0, div);
    }

    /** One row of the square pass of step size = 2*hSize: the points of row j
        whose column is congruent to j + hSize modulo size get the average of
        their axis neighbours inside the grid plus the perturbation of their
        draw random(size, j, i) at scale. Nothing else changes, and x and y
        stay. */
    method SquareRow(j: nat, size: nat, hSize: nat, scale: real, random: (nat, nat, nat) -> real)
      requires div >= 1 && IsVertexBuffer(vBuffer, div)
      requires hSize >= 1 && size == 2 * hSize && div % size == 0 && j % hSize == 0 && j <= div
      modifies this`vBuffer
      ensures IsVertexBuffer(vBuffer, div) && XYKept(vBuffer, old(vBuffer))
      ensures forall r: nat, c: nat {:trigger HeightOf(vBuffer, div, r, c)} :: r <= div && c <= div ==>
                HeightOf(vBuffer, div, r, c)
                == if r == j && IsSquareTarget(r, c, hSize) then SquarePoint(old(vBuffer), div, hSize, scale, random, r, c)
                   else HeightOf(old(vBuffer), div, r, c)
    {
      ghost var v0 := vBuffer;
      ghost var res := (j + hSize) % size;
      MultipleAtLeast(div, size);
      ResidueBelow(res, size);
      ModUnique(res, size, 0, res);
      var i := (j + hSize) % size;
      while i <= div
        invariant i % size == res && i <= div + size
        invariant IsVertexBuffer(vBuffer, div) && XYKept(vBuffer, v0)
        invariant SquareRowDone(vBuffer, v0, div, hSize, scale, random, j, i)
      {
        ghost var before := vBuffer;
        var p := Perturbation(random(size, j, i), scale);
        SquareStep(i, j, hSize, p);
        SquareCellStep(vBuffer, before, v0, div, hSize, scale, random, j, i);
        XYKeptTrans(vBuffer, before, v0);
        StepKeeps(i, size);
        i := i + size;
      }
    }

    /** The square pass of the level with step size = 2*hSize, row by row. No
        square target reads another, so the rows together give every square
        target its SquarePoint of the buffer the pass started from. */
    method SquarePass(size: nat, hSize: nat, scale: real, random: (nat, nat, nat) -> real)
      requires div >= 1 && IsVertexBuffer(vBuffer, div)
      requires hSize >= 1 && size == 2 * hSize && div % size == 0
      modifies this`vBuffer
      ensures vBuffer == SquarePassOf(old(vBuffer), div, hSize, scale, random)
    {
      ghost var v0 := vBuffer;
      var j := 0;
      while j <= div
        invariant j % hSize == 0 && j <= div + hSize
        invariant IsVertexBuffer(vBuffer, div) && XYKept(vBuffer, v0)
        invariant SquareRowsDone(vBuffer, v0, div, hSize, scale, random, j)
      {
        ghost var before := vBuffer;
        SquareRow(j, size, hSize, scale, random);
        SquareRowStep(vBuffer, before, v0, div, hSize, scale, random, j);
        XYKeptTrans(vBuffer, before, v0);
        StepKeeps(j, hSize);
        j := j + hSize;
      }
      SquarePassHeights(v0, div, hSize, scale, random);
      SameBuffer(vBuffer, SquarePassOf(v0, div, hSize, scale, random), v0, div);
    }

    /** One level of the synthesis with step size = 2*hSize: the diamond pass,
        then the square pass. */
    method Level(size: nat, hSize: nat, scale: real, random: (nat, nat, nat) -> real)
      requires div >= 1 && IsVertexBuffer(vBuffer, div)
      requires hSize >= 1 && size == 2 * hSize && div % size == 0
      modifies this`vBuffer
      ensures vBuffer == LevelOf(old(vBuffer), div, hSize, scale, random)
    {
      DiamondPass(size, hSize, scale, random);
      SquarePass(size, hSize, scale, random);
    }

    /** One level of the synthesis with step size and perturbation scale
        roughness * size, then the finer levels, until the half step is below
        1. random(size, row, col) is the value Math.random() gives the step at
        (row, col) of that level. */
    method RecurseDSA(size: nat, random: (nat, nat, nat) -> real)
      requires div >= 1 && IsVertexBuffer(vBuffer, div)
      requires IsPow2(size) && div % size == 0
      modifies this`vBuffer
      decreases size
      ensures vBuffer == Synthesis(old(vBuffer), div, size, roughness, random)
    {
      var hSize := size / 2;
      var scale := roughness * (size as real);
      if hSize < 1 {
        return;
      }
      HalfStep(div, size);
      ghost var v0 := vBuffer;
      Level(size, hSize, scale, random);
      SynthesisStep(v0, vBuffer, div, size, hSize, scale, roughness, random);
      RecurseDSA(hSize, random);
    }
  
    /** Diamond-Square synthesis followed by the normal pass: the four
        corners are set to height 0.5, the recursion from step div fills in
        every other height, and every vertex gets the normalised average of
        the face normals of its triangles. The corners stay at 0.5, heights
        stay within the spread of 0.5 that the roughness allows, and x and y
        never change. */
    method GenerateDSA(random: (nat, nat, nat) -> real, normalize: Vec3 -> Vec3)
      requires div >= 1 && Meshed() && IsPow2(div)
      modifies this`vBuffer, this`nBuffer, this`count
      ensures Meshed()
      ensures vBuffer == Synthesis(Seeded(old(vBuffer), div), div, div, roughness, random)
      ensures NormalsAveraged(nBuffer, old(nBuffer), count, old(count), vBuffer, fBuffer, VertexCount(div), normalize)
    {
      ghost var shaped := Synthesis(Seeded(vBuffer, div), div, div, roughness, random);
      ShapeHeights(random);
      assert vBuffer == shaped;
      VertexNormals(normalize);
      assert vBuffer == shaped;
    }

    /** The height part of the synthesis: seed the corners at 0.5, then run
        the recursion from step div. */
    method ShapeHeights(random: (nat, nat, nat) -> real)
      requires div >= 1 && IsVertexBuffer(vBuffer, div) && IsPow2(div)
      modifies this`vBuffer
      ensures IsVertexBuffer(vBuffer, div)
      ensures vBuffer == Synthesis(Seeded(old(vBuffer), div), div, div, roughness, random)
    {
      EndsAreMultiples(div);
      SeedCorners();
      RecurseDSA(div, random);
    }

    /** The corner seeding of the synthesis: the four corners, in the order
        (0, 0), (div, 0), (0, div), (div, div), get height 0.5. */
    method SeedCorners()
      requires div >= 1 && IsVertexBuffer(vBuffer, div)
      modifies this`vBuffer
      ensures vBuffer == Seeded(old(vBuffer), div)
    {
      SeedCorner(0, 0);
      SeedCorner(div, 0);
      SeedCorner(0, div);
      SeedCorner(div, div);
    }

    /** Set the height of vertex (i, j) to 0.5 by reading it, changing its z
        and writing it back. */
    method SeedCorner(i: nat, j: nat)
      requires IsVertexBuffer(vBuffer, div) && i <= div && j <= div
      modifies this`vBuffer
      ensures vBuffer == WriteHeight(old(vBuffer), div, i, j, 0.5)
    {
      var cVec := GetVertex(i, j);
      cVec := cVec.(z := 0.5);
      SetVertex(cVec, i, j);
      WriteKeepingXY(old(vBuffer), div, i, j, 0.5);
    }

    /** The normal pass: the accumulation loop, then the averaging loop. Every
        vertex lies on a triangle of the grid, so no count is zero when the
        averaging divides by it. */
    method VertexNormals(normalize: Vec3 -> Vec3)
      requires div >= 1 && Meshed()
      modifies this`nBuffer, this`count
      ensures Meshed()
      ensures NormalsAveraged(nBuffer, old(nBuffer), count, old(count), vBuffer, fBuffer, VertexCount(div), normalize)
    {
      ghost var f, vb, n0, c0 := fBuffer, vBuffer, nBuffer, count;
      ModUnique(|f|, 3, 2 * (div * div), 0);
      ModUnique(|n0|, 3, VertexCount(div), 0);
      assert f[..3 * (|f| / 3)] == f;
      EveryVertexOnATriangle(f, div);
      AccumulateNormals(normalize);
      assert fBuffer == f && vBuffer == vb;
      ghost var summed, counted := nBuffer, count;
      forall v: nat | v < VertexCount(div)
        ensures Slot(counted, v) == Slot(c0, v) + multiset(f)[v] && Slot(counted, v) >= 1
      {
        assert v in f;
      }
      AverageNormals(normalize);
      assert fBuffer == f && vBuffer == vb && count == counted;
      forall v: nat | v < VertexCount(div)
        ensures Position(nBuffer, v)
                == Averaged(NormalSumFrom(Position(n0, v), vb, f, |f| / 3, v, normalize), Slot(counted, v), normalize)
      {
        assert Position(summed, v) == NormalSumFrom(Position(n0, v), vb, f, |f| / 3, v, normalize);
      }
    }

    /** The first loop of the normal pass: every triangle's normalised face
        normal is added at each of its three corners, and each corner's
        counter slot is incremented. */
    method AccumulateNormals(normalize: Vec3 -> Vec3)
      requires |fBuffer| % 3 == 0 && CornersIn(fBuffer, vBuffer) && CountersFor(fBuffer, count)
      requires |nBuffer| == |vBuffer|
      modifies this`nBuffer, this`count
      ensures NormalsAfter(nBuffer, old(nBuffer), vBuffer, fBuffer, |fBuffer| / 3, normalize)
      ensures CountsAfter(count, old(count), fBuffer, |fBuffer| / 3)
    {
      ghost var numTris := |fBuffer| / 3;
      assert |fBuffer| == 3 * numTris;
      NormalsBefore(nBuffer, vBuffer, fBuffer, normalize);
      CountsBefore(count, fBuffer);
      var i := 0;
      ghost var t: nat := 0;
      while i < |fBuffer|
        invariant i == 3 * t && t <= numTris
        invariant NormalsAfter(nBuffer, old(nBuffer), vBuffer, fBuffer, t, normalize)
        invariant CountsAfter(count, old(count), fBuffer, t)
        decreases |fBuffer| - i
      {
        AddFaceNormal(i, normalize, t, old(nBuffer), old(count));
        i := i + 3;
        t := t + 1;
      }
      assert t == numTris == |fBuffer| / 3;
    }

    /** One pass of the first normal loop: the face normal of triangle t,
        whose corners start at fBuffer[i], is added at its three corners and
        their counters are incremented. */
    method AddFaceNormal(i: nat, normalize: Vec3 -> Vec3, ghost t: nat, ghost n0: seq<real>, ghost c0: seq<nat>)
      requires i == 3 * t && i + 3 <= |fBuffer|
      requires CornersIn(fBuffer, vBuffer) && CountersFor(fBuffer, count) && |nBuffer| == |vBuffer|
      requires NormalsAfter(nBuffer, n0, vBuffer, fBuffer, t, normalize)
      requires CountsAfter(count, c0, fBuffer, t)
      modifies this`nBuffer, this`count
      ensures NormalsAfter(nBuffer, n0, vBuffer, fBuffer, t + 1, normalize)
      ensures CountsAfter(count, c0, fBuffer, t + 1)
    {
      var tri1 := Position(vBuffer, fBuffer[i]);
      var tri2 := Position(vBuffer, fBuffer[i + 1]);
      var tri3 := Position(vBuffer, fBuffer[i + 2]);
      var subTri31 := Sub(tri3, tri1);
      var subTri21 := Sub(tri2, tri1);
      var crossTri123 := Cross(subTri21, subTri31);
      crossTri123 := normalize(crossTri123);
      NormalAt(vBuffer, fBuffer, t, i, normalize);
      NormalsStep(nBuffer, n0, vBuffer, fBuffer, t, i, normalize);
      CountsStep(count, c0, fBuffer, t, i);
      nBuffer := AddAt(nBuffer, fBuffer[i], crossTri123);
      count := Bump(count, fBuffer[i]);
      nBuffer := AddAt(nBuffer, fBuffer[i + 1], crossTri123);
      count := Bump(count, fBuffer[i + 1]);
      nBuffer := AddAt(nBuffer, fBuffer[i + 2], crossTri123);
      count := Bump(count, fBuffer[i + 2]);
    }

    /** The second loop of the normal pass: every vertex's summed normal is
        divided by its count and normalised. */
    method AverageNormals(normalize: Vec3 -> Vec3)
      requires |nBuffer| % 3 == 0 && |count| == |nBuffer|
      requires forall v: nat :: 3 * v < |count| ==> Slot(count, v) > 0
      modifies this`nBuffer
      ensures |nBuffer| == |old(nBuffer)|
      ensures forall v: nat :: 3 * v + 2 < |nBuffer| ==>
                Position(nBuffer, v) == Averaged(Position(old(nBuffer), v), Slot(count, v), normalize)
    {
      ghost var n0 := nBuffer;
      var i := 0;
      ghost var w: nat := 0;
      while i < |nBuffer|
        invariant i == 3 * w && i <= |nBuffer|
        invariant AveragedUpTo(nBuffer, n0, count, w, normalize)
        decreases |nBuffer| - i
      {
        AverageVertex(i, normalize, w, n0);
        i := i + 3;
        w := w + 1;
      }
      AveragedAll(nBuffer, n0, count, w, normalize);
    }

    /** The body of the averaging loop for the vertex whose numbers start at i:
        divide its summed normal by its count and normalise it. */
    method AverageVertex(i: nat, normalize: Vec3 -> Vec3, ghost w: nat, ghost n0: seq<real>)
      requires |n0| == |count| && forall v: nat :: 3 * v < |count| ==> Slot(count, v) > 0
      requires i == 3 * w && i + 2 < |n0| && AveragedUpTo(nBuffer, n0, count, w, normalize)
      modifies this`nBuffer
      ensures AveragedUpTo(nBuffer, n0, count, w + 1, normalize)
    {
      var normV := Vec3(nBuffer[i], nBuffer[i + 1], nBuffer[i + 2]);
      assert normV == Position(n0, w) && count[i] == Slot(count, w) > 0;
      normV := Vec3(normV.x / (count[i] as real), normV.y / (count[i] as real), normV.z / (count[i] as real));
      normV := normalize(normV);
      AveragedStep(nBuffer[i := normV.x][i + 1 := normV.y][i + 2 := normV.z], nBuffer, n0, count, w, normV, normalize);
      nBuffer := nBuffer[i := normV.x][i + 1 := normV.y][i + 2 := normV.z];
    }

    /** Colour every vertex by its height band, four RGBA numbers each. */
    method GenerateColor()
      requires IsVertexBuffer(vBuffer, div)
      modifies this`cBuffer
      ensures cBuffer == old(cBuffer) + Colouring(vBuffer, VertexCount(div))
    {
      ghost var c0 := cBuffer;
      var vb := vBuffer;
      var i := 0;
      ghost var n: nat := 0;
      while i < |vb|
        invariant i == 3 * n && i <= |vb|
        invariant cBuffer == c0 + Colouring(vb, n)
        decreases |vb| - i
      {
        ColouringNext(c0, vb, n);
        cBuffer := cBuffer + BandColour(vb[i + 2]);
        i := i + 3;
        n := n + 1;
      }
      assert n == VertexCount(div);
    }
}
}
