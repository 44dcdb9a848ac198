/** The wireframe: every triangle (a, b, c) of a triangle index buffer
    contributes its three edges a-b, b-c and c-a, as consecutive index pairs. */
module Wireframe {
  import Arith

  /** The six edge indices of the triangle whose corners are f[3t..3t+3]. */
  function TriangleEdges(f: seq<nat>, t: nat): seq<nat>
    requires 3 * t + 2 < |f|
  {
    [f[3 * t], f[3 * t + 1], f[3 * t + 1], f[3 * t + 2], f[3 * t + 2], f[3 * t]]
  }

  /** The edge buffer of the triangles of f, in triangle order. It is meant
      for buffers whose length is a multiple of 3; the lemmas below say so. */
  function Edges(f: seq<nat>): seq<nat>
  {
    if |f| < 3 then []
    else
      var a, b, c := f[|f| - 3], f[|f| - 2], f[|f| - 1];
      Edges(f[..|f| - 3]) + [a, b, b, c, c, a]
  }

  /** Two edge indices per triangle corner. */
  lemma {:induction false} EdgesLength(f: seq<nat>)
    requires |f| % 3 == 0
    ensures |Edges(f)| == 2 * |f|
  {
    if |f| > 0 {
      var p := f[..|f| - 3];
      Arith.StepKeeps(|p|, 3);
      EdgesLength(p);
    }
  }

  /** Triangle t's edges sit at offset 6t of the edge buffer: a, b, b, c, c, a. */
  lemma {:induction false} EdgesOfTriangle(f: seq<nat>, t: nat)
    requires |f| % 3 == 0 && 3 * t + 2 < |f|
    ensures 6 * t + 6 <= |Edges(f)|
    ensures Edges(f)[6 * t..6 * t + 6] == TriangleEdges(f, t)
  {
    EdgesLength(f);
    var p := f[..|f| - 3];
    Arith.StepKeeps(|p|, 3);
    EdgesLength(p);
    if 3 * t + 2 < |p| {
      EdgesOfTriangle(p, t);
      assert TriangleEdges(p, t) == TriangleEdges(f, t);
      assert Edges(f)[6 * t..6 * t + 6] == Edges(p)[6 * t..6 * t + 6];
    } else {
      Arith.SameResidueNear(|p|, 3 * t, 3);
      assert |p| == 3 * t;
    }
  }

  /** Every corner of every triangle occurs exactly twice in the edge buffer,
      and nothing else does. */
  lemma {:induction false} EdgesCountCorners(f: seq<nat>)
    requires |f| % 3 == 0
    ensures multiset(Edges(f)) == multiset(f) + multiset(f)
  {
    if |f| > 0 {
      var p := f[..|f| - 3];
      var a, b, c := f[|f| - 3], f[|f| - 2], f[|f| - 1];
      Arith.StepKeeps(|p|, 3);
      EdgesCountCorners(p);
      LastThree(f);
      EdgesCountStep(p, a, b, c);
    }
  }

  /** Appending a triangle keeps every corner counted twice among the edges. */
  lemma EdgesCountStep(p: seq<nat>, a: nat, b: nat, c: nat)
    requires multiset(Edges(p)) == multiset(p) + multiset(p)
    ensures multiset(Edges(p + [a, b, c])) == multiset(p + [a, b, c]) + multiset(p + [a, b, c])
  {
    EdgesAppend(p, a, b, c);
    var e := [a, b, b, c, c, a];
    assert multiset(Edges(p) + e) == multiset(Edges(p)) + multiset(e);
    SixCorners(a, b, c);
    assert multiset(p + [a, b, c]) == multiset(p) + multiset([a, b, c]);
  }

  /** A triangle's six edge indices name each corner twice. */
  lemma SixCorners(a: nat, b: nat, c: nat)
    ensures multiset([a, b, b, c, c, a]) == multiset([a, b, c]) + multiset([a, b, c])
  {
    assert multiset([a, b, b, c, c, a]) == multiset{a, b, b, c, c, a};
    assert multiset([a, b, c]) == multiset{a, b, c};
    TwiceThree(a, b, c);
  }

  /** Counting a, b, b, c, c, a: each of a, b and c twice. */
  lemma TwiceThree(a: nat, b: nat, c: nat)
    ensures multiset{a, b, b, c, c, a} == multiset{a, b, c} + multiset{a, b, c}
  {
  }

  /** Appending one triangle appends its six edge indices. */
  lemma EdgesAppend(p: seq<nat>, a: nat, b: nat, c: nat)
    ensures Edges(p + [a, b, c]) == Edges(p) + [a, b, b, c, c, a]
  {
    var f := p + [a, b, c];
    assert f[..|f| - 3] == p;
  }

  /** A sequence of at least three elements is its prefix followed by its last three. */
  lemma LastThree(f: seq<nat>)
    requires |f| >= 3
    ensures f == f[..|f| - 3] + [f[|f| - 3], f[|f| - 2], f[|f| - 1]]
  {
  }

  /** The edges of the first t+1 triangles are those of the first t followed
      by triangle t's. */
  lemma EdgesPrefixStep(f: seq<nat>, t: nat)
    requires 3 * t + 3 <= |f|
    ensures Edges(f[..3 * t + 3]) == Edges(f[..3 * t]) + TriangleEdges(f, t)
  {
    assert f[..3 * t + 3] == f[..3 * t] + [f[3 * t], f[3 * t + 1], f[3 * t + 2]];
    EdgesAppend(f[..3 * t], f[3 * t], f[3 * t + 1], f[3 * t + 2]);
  }
}
