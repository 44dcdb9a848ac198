/** Height colouring: a vertex gets the RGBA colour of the first height band
    whose upper threshold lies strictly above its z, or the last colour when
    z reaches the top threshold. */
module Palette {

  /** Upper thresholds of the first seven bands, in increasing order. */
  const Thresholds: seq<real> := [0.35, 0.40, 0.45, 0.5, 0.52, 0.55, 0.7]

  /** RGBA colours of the eight bands, lowest first. */
  const Colours: seq<seq<real>> := [
    [0.9, 0.3, 0.1, 1.0],
    [0.6, 0.6, 0.2, 1.0],
    [0.7, 0.5, 0.2, 1.0],
    [0.2, 0.8, 0.6, 1.0],
    [0.9, 0.9, 0.2, 1.0],
    [0.3, 0.3, 0.7, 1.0],
    [0.55, 0.55, 0.55, 1.0],
    [0.0, 0.3, 0.9, 1.0]
  ]

  /** The colour pushed for a vertex of height z, by the chain of comparisons
      the colouring pass makes. */
  function BandColour(z: real): (c: seq<real>)
    ensures |c| == 4 && c[3] == 1.0
    ensures forall k :: 0 <= k < 4 ==> 0.0 <= c[k] <= 1.0
  {
    if z < 0.35 then [0.9, 0.3, 0.1, 1.0]
    else if z < 0.40 then [0.6, 0.6, 0.2, 1.0]
    else if z < 0.45 then [0.7, 0.5, 0.2, 1.0]
    else if z < 0.5 then [0.2, 0.8, 0.6, 1.0]
    else if z < 0.52 then [0.9, 0.9, 0.2, 1.0]
    else if z < 0.55 then [0.3, 0.3, 0.7, 1.0]
    else if z < 0.7 then [0.55, 0.55, 0.55, 1.0]
    else [0.0, 0.3, 0.9, 1.0]
  }

  /** The first band, from k on, whose threshold lies strictly above z; 7
      when there is none. */
  function BandFrom(z: real, k: nat): (b: nat)
    requires k <= 7
    decreases 7 - k
    ensures k <= b <= 7
    ensures forall m :: k <= m < b ==> Thresholds[m] <= z
    ensures b < 7 ==> z < Thresholds[b]
  {
    if k == 7 then 7
    else if z < Thresholds[k] then k
    else BandFrom(z, k + 1)
  }

  /** The band of height z. */
  function Band(z: real): nat
  {
    BandFrom(z, 0)
  }

  /** The comparison chain picks the colour of the band found by scanning the
      thresholds: the first one strictly above z. */
  lemma BandColourByTable(z: real)
    ensures Band(z) < |Colours| && BandColour(z) == Colours[Band(z)]
  {
    var b := Band(z);
    assert b < 7 ==> z < Thresholds[b];
    assert forall m :: 0 <= m < b ==> Thresholds[m] <= z;
    if b == 0 {
    } else if b == 1 {
      assert Thresholds[0] <= z;
    } else if b == 2 {
      assert Thresholds[1] <= z;
    } else if b == 3 {
      assert Thresholds[2] <= z;
    } else if b == 4 {
      assert Thresholds[3] <= z;
    } else if b == 5 {
      assert Thresholds[4] <= z;
    } else if b == 6 {
      assert Thresholds[5] <= z;
    } else {
      assert Thresholds[6] <= z;
    }
  }

  /** Higher ground never falls into a lower band. */
  lemma BandMonotone(z1: real, z2: real)
    requires z1 <= z2
    ensures Band(z1) <= Band(z2)
  {
  }

  /** The colour buffer for the first n vertices of vb: four numbers per vertex. */
  function Colouring(vb: seq<real>, n: nat): seq<real>
    requires 3 * n <= |vb|
  {
    if n == 0 then [] else Colouring(vb, n - 1) + BandColour(vb[3 * (n - 1) + 2])
  }

  /** Colouring one more vertex appends its band's colour to what is already there. */
  lemma ColouringNext(c0: seq<real>, vb: seq<real>, n: nat)
    requires 3 * n + 3 <= |vb|
    ensures c0 + Colouring(vb, n) + BandColour(vb[3 * n + 2]) == c0 + Colouring(vb, n + 1)
  {
    assert Colouring(vb, n + 1) == Colouring(vb, n) + BandColour(vb[3 * n + 2]);
  }

  /** Four numbers per vertex. */
  lemma {:induction false} ColouringLength(vb: seq<real>, n: nat)
    requires 3 * n <= |vb|
    ensures |Colouring(vb, n)| == 4 * n
  {
    if n > 0 {
      ColouringLength(vb, n - 1);
    }
  }

  /** The four numbers of vertex v in a colour buffer. */
  function ColourAt(c: seq<real>, v: nat): seq<real>
    requires 4 * v + 4 <= |c|
  {
    c[4 * v..4 * v + 4]
  }

  lemma ColourAtAppend(p: seq<real>, b: seq<real>, v: nat)
    requires 4 * v + 4 <= |p|
    ensures ColourAt(p + b, v) == ColourAt(p, v)
  {
    assert (p + b)[4 * v..4 * v + 4] == p[4 * v..4 * v + 4];
  }

  /** Vertex v's four numbers are the colour of its height, so its alpha is 1. */
  lemma {:induction false} ColouringLayout(vb: seq<real>, n: nat)
    requires 3 * n <= |vb|
    ensures |Colouring(vb, n)| == 4 * n
    ensures forall v: nat :: v < n ==> ColourAt(Colouring(vb, n), v) == BandColour(vb[3 * v + 2])
    ensures forall v: nat :: v < n ==> Colouring(vb, n)[4 * v + 3] == 1.0
  {
    ColouringLength(vb, n);
    if n > 0 {
      ColouringLayout(vb, n - 1);
      var p := Colouring(vb, n - 1);
      var b := BandColour(vb[3 * (n - 1) + 2]);
      assert Colouring(vb, n) == p + b;
      forall v: nat | v < n
        ensures ColourAt(Colouring(vb, n), v) == BandColour(vb[3 * v + 2])
      {
        if v < n - 1 {
          ColourAtAppend(p, b, v);
        } else {
          assert (p + b)[4 * v..4 * v + 4] == b;
        }
      }
      forall v: nat | v < n
        ensures Colouring(vb, n)[4 * v + 3] == 1.0
      {
        assert Colouring(vb, n)[4 * v + 3] == ColourAt(Colouring(vb, n), v)[3];
      }
    }
  }

  /** A terrain lying flat at the corners' seed height 0.5 is coloured with
      the fifth colour, (0.9, 0.9, 0.2, 1), at every vertex. */
  lemma FlatColouring(vb: seq<real>, n: nat)
    requires 3 * n <= |vb|
    requires forall v: nat :: v < n ==> vb[3 * v + 2] == 0.5
    ensures |Colouring(vb, n)| == 4 * n
    ensures forall v: nat :: v < n ==> ColourAt(Colouring(vb, n), v) == Colours[4]
  {
    ColouringLayout(vb, n);
  }
}
