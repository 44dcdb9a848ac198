/** Per-vertex normals: every triangle adds its face normal to each of its
    three corners, each corner counts its triangles, and the sums are then
    divided by the counts and normalised. Buffers hold three numbers per
    vertex. */
module Normals {
  import opened Geometry
  import opened Grid
  import Arith

  /** Every corner index of f names a vertex of the buffer vb. */
  predicate CornersIn(f: seq<nat>, vb: seq<real>)
  {
    forall k :: 0 <= k < |f| ==> 3 * f[k] + 2 < |vb|
  }

  /** Vertex v's running sum s after the face normal n of the triangle with
      corners a, b, c has been added at each of its corners, in that order:
      n is added once for every corner that is v. */
  function AddCorners(s: Vec3, a: nat, b: nat, c: nat, v: nat, n: Vec3): Vec3
  {
    var s1 := if a == v then Add(s, n) else s;
    var s2 := if b == v then Add(s1, n) else s1;
    if c == v then Add(s2, n) else s2
  }

  /** The normalised face normal of triangle t of f, from the positions in vb. */
  function TriangleNormal(vb: seq<real>, f: seq<nat>, t: nat, normalize: Vec3 -> Vec3): Vec3
    requires 3 * t + 2 < |f| && CornersIn(f, vb)
  {
    FaceNormal(Position(vb, f[3 * t]), Position(vb, f[3 * t + 1]), Position(vb, f[3 * t + 2]), normalize)
  }

  /** Vertex v's normal after the first t triangles of f have been taken,
      starting from base: base plus the face normal of each of those
      triangles once for every corner of it that is v. */
  function NormalSumFrom(base: Vec3, vb: seq<real>, f: seq<nat>, t: nat, v: nat, normalize: Vec3 -> Vec3): Vec3
    requires 3 * t <= |f| && CornersIn(f, vb)
  {
    if t == 0 then base
    else
      AddCorners(NormalSumFrom(base, vb, f, t - 1, v, normalize),
                 f[3 * (t - 1)], f[3 * (t - 1) + 1], f[3 * (t - 1) + 2], v, TriangleNormal(vb, f, t - 1, normalize))
  }

  /** The sum, over the first t triangles of f, of the face normals of those
      that have v as a corner (counted once per such corner). */
  function NormalSum(vb: seq<real>, f: seq<nat>, t: nat, v: nat, normalize: Vec3 -> Vec3): Vec3
    requires 3 * t <= |f| && CornersIn(f, vb)
  {
    NormalSumFrom(Zero, vb, f, t, v, normalize)
  }

  /** The buffer with d added to the three numbers of vertex v. */
  function AddAt(n: seq<real>, v: nat, d: Vec3): (r: seq<real>)
    requires 3 * v + 2 < |n|
    ensures |r| == |n|
  {
    n[3 * v := n[3 * v] + d.x][3 * v + 1 := n[3 * v + 1] + d.y][3 * v + 2 := n[3 * v + 2] + d.z]
  }

  /** AddAt adds d at vertex v and leaves every other vertex as it was. */
  lemma AddAtPosition(n: seq<real>, v: nat, d: Vec3, w: nat)
    requires 3 * v + 2 < |n| && 3 * w + 2 < |n|
    ensures Position(AddAt(n, v, d), w) == if w == v then Add(Position(n, w), d) else Position(n, w)
  {
  }

  /** The buffer with the three numbers of vertex v replaced by d. */
  function PutAt(n: seq<real>, v: nat, d: Vec3): (r: seq<real>)
    requires 3 * v + 2 < |n|
    ensures |r| == |n|
    ensures forall w: nat :: 3 * w + 2 < |n| ==> Position(r, w) == if w == v then d else Position(n, w)
  {
    n[3 * v := d.x][3 * v + 1 := d.y][3 * v + 2 := d.z]
  }

  /** The counters with the first slot of vertex v incremented. */
  function Bump(c: seq<nat>, v: nat): (r: seq<nat>)
    requires 3 * v < |c|
    ensures |r| == |c|
  {
    c[3 * v := c[3 * v] + 1]
  }

  /** Bump adds one at the first slot of v and nowhere else. */
  lemma BumpAt(c: seq<nat>, v: nat, k: nat)
    requires 3 * v < |c| && k < |c|
    ensures Bump(c, v)[k] == c[k] + (if k == 3 * v then 1 else 0)
  {
  }

  /** Taking triangle t - 1 of f as well counts its three corners once more. */
  lemma CornerCountStep(f: seq<nat>, t: nat, v: nat)
    requires 1 <= t && 3 * t <= |f|
    ensures multiset(f[..3 * t])[v]
            == multiset(f[..3 * (t - 1)])[v] + (if f[3 * (t - 1)] == v then 1 else 0)
               + (if f[3 * (t - 1) + 1] == v then 1 else 0) + (if f[3 * (t - 1) + 2] == v then 1 else 0)
  {
    var i := 3 * (t - 1);
    assert f[..3 * t] == f[..i] + [f[i], f[i + 1], f[i + 2]];
  }

  /** The counter slot the normal pass uses for vertex v. */
  function Slot(c: seq<nat>, v: nat): nat
    requires 3 * v < |c|
  {
    c[3 * v]
  }

  /** The averaged normal of a vertex: the sum of its face normals divided by
      its count, then normalised. */
  function Averaged(sum: Vec3, c: nat, normalize: Vec3 -> Vec3): Vec3
    requires c > 0
  {
    normalize(DivBy(sum, c as real))
  }

  /** The first w vertices of n hold the averages of their sums in n0 by their
      counts in c; the others still hold their sums. */
  ghost predicate AveragedUpTo(n: seq<real>, n0: seq<real>, c: seq<nat>, w: nat, normalize: Vec3 -> Vec3)
    requires |n0| == |c| && forall v: nat :: 3 * v < |c| ==> Slot(c, v) > 0
  {
    |n| == |n0| && forall v: nat :: 3 * v + 2 < |n| ==>
      Position(n, v) == if v < w then Averaged(Position(n0, v), Slot(c, v), normalize) else Position(n0, v)
  }

  /** Writing vertex w's average into its three numbers extends the
      averaged prefix by one. */
  lemma AveragedStep(next: seq<real>, n: seq<real>, n0: seq<real>, c: seq<nat>, w: nat, d: Vec3, normalize: Vec3 -> Vec3)
    requires |n0| == |c| && forall v: nat :: 3 * v < |c| ==> Slot(c, v) > 0
    requires 3 * w + 2 < |n0| && AveragedUpTo(n, n0, c, w, normalize)
    requires d == Averaged(Position(n0, w), Slot(c, w), normalize)
    requires next == n[3 * w := d.x][3 * w + 1 := d.y][3 * w + 2 := d.z]
    ensures AveragedUpTo(next, n0, c, w + 1, normalize)
  {
    assert next == PutAt(n, w, d);
  }

  /** Once every vertex is averaged, each holds its average. */
  lemma AveragedAll(n: seq<real>, n0: seq<real>, c: seq<nat>, w: nat, normalize: Vec3 -> Vec3)
    requires |n0| == |c| && forall v: nat :: 3 * v < |c| ==> Slot(c, v) > 0
    requires 3 * w == |n0| && AveragedUpTo(n, n0, c, w, normalize)
    ensures |n| == |n0|
    ensures forall v: nat :: 3 * v + 2 < |n| ==> Position(n, v) == Averaged(Position(n0, v), Slot(c, v), normalize)
  {
  }

  /** After the first t triangles of f, every vertex's normal in n is its
      value in n0 plus the face normals of those triangles that touch it. */
  ghost predicate NormalsAfter(n: seq<real>, n0: seq<real>, vb: seq<real>, f: seq<nat>, t: nat, normalize: Vec3 -> Vec3)
    requires 3 * t <= |f| && CornersIn(f, vb)
  {
    |n| == |n0| && forall v: nat {:trigger Position(n, v)} :: 3 * v + 2 < |n| ==>
      Position(n, v) == NormalSumFrom(Position(n0, v), vb, f, t, v, normalize)
  }

  /** After the first t triangles of f, every vertex's counter slot in c is
      its value in c0 plus the number of corners of those triangles that are
      the vertex, and the other two slots of each triple are untouched. */
  ghost predicate CountsAfter(c: seq<nat>, c0: seq<nat>, f: seq<nat>, t: nat)
    requires 3 * t <= |f|
  {
    |c| == |c0|
    && (forall v: nat :: 3 * v < |c| ==> Slot(c, v) == Slot(c0, v) + multiset(f[..3 * t])[v])
    && (forall k :: 0 <= k < |c| && k % 3 != 0 ==> c[k] == c0[k])
  }

  /** The zero normals the grid builder gives each of the vertices. */
  function ZeroNormals(vertices: nat): (r: seq<real>)
    ensures |r| == 3 * vertices && forall k :: 0 <= k < |r| ==> r[k] == 0.0
  {
    seq(3 * vertices, _ => 0.0)
  }

  /** The zero counters the grid builder gives each of the vertices. */
  function ZeroCounts(vertices: nat): (r: seq<nat>)
    ensures |r| == 3 * vertices && forall k :: 0 <= k < |r| ==> r[k] == 0
  {
    seq(3 * vertices, _ => 0)
  }

  /** The result of the whole normal pass over the triangle list f, relative
      to the normals n0 and counters c0 it started from: each vertex has
      counted once more every triangle it is a corner of (at least one), the
      other two slots of each counter triple are untouched, and its normal
      is the normalised average of what it held plus the normals of those
      triangles. */
  ghost predicate NormalsAveraged(n: seq<real>, n0: seq<real>, c: seq<nat>, c0: seq<nat>, vb: seq<real>, f: seq<nat>,
                                  vertices: nat, normalize: Vec3 -> Vec3)
  {
    |n| == |n0| == |c| == |c0| == 3 * vertices && CornersIn(f, vb)
    && (forall v: nat :: v < vertices ==> Slot(c, v) == Slot(c0, v) + multiset(f)[v] && Slot(c, v) >= 1)
    && (forall k :: 0 <= k < |c| && k % 3 != 0 ==> c[k] == c0[k])
    && (forall v: nat :: v < vertices ==>
          Position(n, v) == Averaged(NormalSumFrom(Position(n0, v), vb, f, |f| / 3, v, normalize), Slot(c, v), normalize))
  }

  /** Started from the zero normals and zero counters the grid builder
      leaves, the normal pass leaves every vertex counting exactly the
      triangles it is a corner of, and holding the normalised average of
      their face normals. */
  lemma NormalsFromZero(n: seq<real>, c: seq<nat>, vb: seq<real>, f: seq<nat>, vertices: nat, normalize: Vec3 -> Vec3)
    requires NormalsAveraged(n, ZeroNormals(vertices), c, ZeroCounts(vertices), vb, f, vertices, normalize)
    ensures forall v: nat :: v < vertices ==> Slot(c, v) == multiset(f)[v] && Slot(c, v) >= 1
    ensures forall k :: 0 <= k < |c| && k % 3 != 0 ==> c[k] == 0
    ensures forall v: nat :: v < vertices ==>
              Position(n, v) == Averaged(NormalSum(vb, f, |f| / 3, v, normalize), Slot(c, v), normalize)
  {
    var zeros := ZeroNormals(vertices);
    forall v: nat | v < vertices
      ensures Position(zeros, v) == Zero
    {
    }
  }

  /** Adding d at corners a, b and c, in that order, adds it to v once for
      every corner that is v. */
  lemma ThreeAdds(n: seq<real>, a: nat, b: nat, c: nat, d: Vec3, v: nat)
    requires 3 * a + 2 < |n| && 3 * b + 2 < |n| && 3 * c + 2 < |n| && 3 * v + 2 < |n|
    ensures Position(AddAt(AddAt(AddAt(n, a, d), b, d), c, d), v) == AddCorners(Position(n, v), a, b, c, v, d)
  {
    var n1 := AddAt(n, a, d);
    var n2 := AddAt(n1, b, d);
    AddAtPosition(n, a, d, v);
    AddAtPosition(n1, b, d, v);
    AddAtPosition(n2, c, d, v);
  }

  /** Every corner index of f names a counter triple of c. */
  predicate CountersFor(f: seq<nat>, c: seq<nat>)
  {
    forall k :: 0 <= k < |f| ==> 3 * f[k] < |c|
  }

  /** The face normal of triangle s, whose corners start at f[i]. */
  lemma NormalAt(vb: seq<real>, f: seq<nat>, s: nat, i: nat, normalize: Vec3 -> Vec3)
    requires i == 3 * s && i + 3 <= |f| && CornersIn(f, vb)
    ensures TriangleNormal(vb, f, s, normalize) == FaceNormal(Position(vb, f[i]), Position(vb, f[i + 1]), Position(vb, f[i + 2]), normalize)
  {
  }

  /** Nothing has been added before the first triangle. */
  lemma NormalsBefore(n0: seq<real>, vb: seq<real>, f: seq<nat>, normalize: Vec3 -> Vec3)
    requires CornersIn(f, vb)
    ensures NormalsAfter(n0, n0, vb, f, 0, normalize)
  {
    forall v: nat | 3 * v + 2 < |n0|
      ensures Position(n0, v) == NormalSumFrom(Position(n0, v), vb, f, 0, v, normalize)
    {
    }
  }

  /** Nothing has been counted before the first triangle. */
  lemma CountsBefore(c0: seq<nat>, f: seq<nat>)
    ensures CountsAfter(c0, c0, f, 0)
  {
    assert f[..0] == [];
  }

  /** Adding the face normal of triangle s, whose corners start at f[i], at
      its three corners takes the normal buffer from s triangles to s + 1. */
  lemma NormalsStep(n: seq<real>, n0: seq<real>, vb: seq<real>, f: seq<nat>, s: nat, i: nat, normalize: Vec3 -> Vec3)
    requires i == 3 * s && i + 3 <= |f| && CornersIn(f, vb) && |n| == |vb|
    requires NormalsAfter(n, n0, vb, f, s, normalize)
    ensures NormalsAfter(AddAt(AddAt(AddAt(n, f[i], TriangleNormal(vb, f, s, normalize)),
                                     f[i + 1], TriangleNormal(vb, f, s, normalize)),
                               f[i + 2], TriangleNormal(vb, f, s, normalize)),
                         n0, vb, f, s + 1, normalize)
  {
    var d := TriangleNormal(vb, f, s, normalize);
    var r := AddAt(AddAt(AddAt(n, f[i], d), f[i + 1], d), f[i + 2], d);
    forall v: nat | 3 * v + 2 < |r|
      ensures Position(r, v) == NormalSumFrom(Position(n0, v), vb, f, s + 1, v, normalize)
    {
      NormalStepAt(n, n0, vb, f, s, i, v, normalize);
    }
  }

  /** The same, at one vertex v. */
  lemma NormalStepAt(n: seq<real>, n0: seq<real>, vb: seq<real>, f: seq<nat>, s: nat, i: nat, v: nat, normalize: Vec3 -> Vec3)
    requires i == 3 * s && i + 3 <= |f| && CornersIn(f, vb) && |n| == |vb| && |n0| == |n| && 3 * v + 2 < |n|
    requires Position(n, v) == NormalSumFrom(Position(n0, v), vb, f, s, v, normalize)
    ensures Position(AddAt(AddAt(AddAt(n, f[i], TriangleNormal(vb, f, s, normalize)),
                                 f[i + 1], TriangleNormal(vb, f, s, normalize)),
                           f[i + 2], TriangleNormal(vb, f, s, normalize)), v)
            == NormalSumFrom(Position(n0, v), vb, f, s + 1, v, normalize)
  {
    ThreeAdds(n, f[i], f[i + 1], f[i + 2], TriangleNormal(vb, f, s, normalize), v);
    NormalSumNext(Position(n0, v), vb, f, s, i, v, normalize);
  }

  /** One more triangle in the normal sum of v. */
  lemma NormalSumNext(base: Vec3, vb: seq<real>, f: seq<nat>, s: nat, i: nat, v: nat, normalize: Vec3 -> Vec3)
    requires i == 3 * s && i + 3 <= |f| && CornersIn(f, vb)
    ensures NormalSumFrom(base, vb, f, s + 1, v, normalize)
            == AddCorners(NormalSumFrom(base, vb, f, s, v, normalize), f[i], f[i + 1], f[i + 2], v, TriangleNormal(vb, f, s, normalize))
  {
  }

  /** Incrementing the counter slots of the three corners of triangle s,
      whose corners start at f[i], takes the counters from s triangles to
      s + 1. */
  lemma CountsStep(c: seq<nat>, c0: seq<nat>, f: seq<nat>, s: nat, i: nat)
    requires i == 3 * s && i + 3 <= |f| && CountersFor(f, c)
    requires CountsAfter(c, c0, f, s)
    ensures CountsAfter(Bump(Bump(Bump(c, f[i]), f[i + 1]), f[i + 2]), c0, f, s + 1)
  {
    var a, b, e := f[i], f[i + 1], f[i + 2];
    var c1 := Bump(c, a);
    var c2 := Bump(c1, b);
    var r := Bump(c2, e);
    forall v: nat | 3 * v < |r|
      ensures Slot(r, v) == Slot(c0, v) + multiset(f[..3 * (s + 1)])[v]
    {
      CornerCountStep(f, s + 1, v);
      BumpAt(c, a, 3 * v);
      BumpAt(c1, b, 3 * v);
      BumpAt(c2, e, 3 * v);
    }
    forall k | 0 <= k < |r| && k % 3 != 0
      ensures r[k] == c0[k]
    {
      OffSlot(k, a);
      OffSlot(k, b);
      OffSlot(k, e);
      BumpAt(c, a, k);
      BumpAt(c1, b, k);
      BumpAt(c2, e, k);
    }
  }

  /** An index that is not a multiple of 3 is no vertex's counter slot. */
  lemma OffSlot(k: nat, a: nat)
    requires k % 3 != 0
    ensures k != 3 * a
  {
    if k == 3 * a {
      Arith.ModUnique(k, 3, a, 0);
    }
  }
}
