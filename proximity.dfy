/** The neighbour query of db_source_match: a catalogued detection is a
    neighbour of a candidate when they are close in the sky plane and in the
    spectral direction, each distance measured against the combined position
    uncertainties scaled by sigma. Written in squared form, so no square root
    is needed; `RootFormAgrees` and `SpectralRootFormAgrees` connect it to the
    form with roots. */
module Proximity {
  import opened Records

  function Sq(v: real): (s: real)
    ensures s >= 0.0
  {
    v * v
  }

  /** Δx²(ex₁² + ex₂²) + Δy²(ey₁² + ey₂²): the planar uncertainty, weighted by
      the direction of the offset. */
  function PlanarWeight(a: Detection, b: Detection): (w: real)
    ensures w >= 0.0
  {
    var wx, wy := Sq(a.errX) + Sq(b.errX), Sq(a.errY) + Sq(b.errY);
    assert Sq(a.x - b.x) * wx >= 0.0 && Sq(a.y - b.y) * wy >= 0.0;
    Sq(a.x - b.x) * wx + Sq(a.y - b.y) * wy
  }

  /** Δx² + Δy², the squared planar distance. */
  function PlanarDistance(a: Detection, b: Detection): real
  {
    Sq(a.x - b.x) + Sq(a.y - b.y)
  }

  /** The divisor of the planar test: the squared distance, or 1 where that is 0. */
  function Divisor(a: Detection, b: Detection): real
  {
    if PlanarDistance(a, b) == 0.0 then 1.0 else PlanarDistance(a, b)
  }

  /** dist² <= σ² · PlanarWeight / Divisor. */
  predicate PlanarNear(sigma: int, a: Detection, b: Detection)
  {
    PlanarDistance(a, b) <= Sq(sigma as real) * PlanarWeight(a, b) / Divisor(a, b)
  }

  /** Δz² <= σ² (ez₁² + ez₂²). */
  predicate SpectralNear(sigma: int, a: Detection, b: Detection)
  {
    Sq(a.z - b.z) <= Sq(sigma as real) * (Sq(a.errZ) + Sq(b.errZ))
  }

  predicate IsNeighbour(sigma: int, a: Detection, b: Detection)
  {
    PlanarNear(sigma, a, b) && SpectralNear(sigma, a, b)
  }

  /** The test does not depend on which detection is the candidate. */
  lemma IsNeighbourSymmetric(sigma: int, a: Detection, b: Detection)
    ensures IsNeighbour(sigma, a, b) <==> IsNeighbour(sigma, b, a)
  {
    assert Sq(a.x - b.x) == Sq(b.x - a.x);
    assert Sq(a.y - b.y) == Sq(b.y - a.y);
    assert Sq(a.z - b.z) == Sq(b.z - a.z);
    assert PlanarWeight(a, b) == PlanarWeight(b, a);
  }

  /** Without the divisor: two detections at distinct planar positions are
      near exactly when dist⁴ <= σ² · PlanarWeight; detections at the same
      planar position always are. */
  lemma PlanarNearWithoutDivision(sigma: int, a: Detection, b: Detection)
    ensures PlanarDistance(a, b) == 0.0 ==> PlanarNear(sigma, a, b)
    ensures PlanarDistance(a, b) != 0.0 ==>
      (PlanarNear(sigma, a, b) <==> Sq(PlanarDistance(a, b)) <= Sq(sigma as real) * PlanarWeight(a, b))
  {
    var dist, w := PlanarDistance(a, b), Sq(sigma as real) * PlanarWeight(a, b);
    assert w >= 0.0;
    if dist != 0.0 {
      assert dist > 0.0;
      DivideBothSides(w, dist);
    }
  }

  lemma DivideBothSides(w: real, d: real)
    requires d > 0.0
    ensures d * d <= w <==> d <= w / d
  {
    var q := w / d;
    assert q * d == w;
    if d <= q {
      assert d * d <= q * d;
    } else {
      assert d * d > q * d;
    }
  }

  /** For non-negative reals, comparing squares is comparing the values. */
  lemma SquaresPreserveOrder(p: real, q: real)
    requires p >= 0.0 && q >= 0.0
    ensures p <= q <==> p * p <= q * q
  {
    var pp, pq, qq := p * p, p * q, q * q;
    if p > q {
      assert pp > pq && pq >= qq;
    } else {
      assert pp <= pq && pq <= qq;
    }
  }

  /** The root form of the query: `dist <= σ · root` with `dist` and `root`
      the square roots of the planar distance and of the weighted
      uncertainty over the divisor, decides exactly what the squared form does. */
  lemma {:induction false} RootFormAgrees(sigma: int, a: Detection, b: Detection, dist: real, root: real)
    requires sigma >= 0 && dist >= 0.0 && root >= 0.0
    requires dist * dist == PlanarDistance(a, b)
    requires root * root == PlanarWeight(a, b) / Divisor(a, b)
    ensures dist <= sigma as real * root <==> PlanarNear(sigma, a, b)
  {
    var s := sigma as real;
    SquaresPreserveOrder(dist, s * root);
    assert (s * root) * (s * root) == Sq(s) * (root * root);
  }

  /** The same for the spectral test: `|Δz| <= σ · sqrt(ez₁² + ez₂²)`. */
  lemma {:induction false} SpectralRootFormAgrees(sigma: int, a: Detection, b: Detection, root: real)
    requires sigma >= 0 && root >= 0.0
    requires root * root == Sq(a.errZ) + Sq(b.errZ)
    ensures (if a.z >= b.z then a.z - b.z else b.z - a.z) <= sigma as real * root <==> SpectralNear(sigma, a, b)
  {
    var s, dz := sigma as real, if a.z >= b.z then a.z - b.z else b.z - a.z;
    SquaresPreserveOrder(dz, s * root);
    assert dz * dz == Sq(a.z - b.z);
    assert (s * root) * (s * root) == Sq(s) * (root * root);
  }

  /** A catalogued detection at exactly the candidate's position. */
  predicate SamePosition(a: Detection, b: Detection)
  {
    a.x == b.x && a.y == b.y && a.z == b.z
  }

  /** No row before index `i` is at the candidate's exact position. */
  predicate NoExactBefore(rows: seq<Row>, c: Detection, i: nat)
    requires i <= |rows|
  {
    forall k :: 0 <= k < i ==> !SamePosition(rows[k].detection, c)
  }

  /** The post-filter of db_source_match: the first row at exactly the
      candidate's position is dropped. */
  function WithoutFirstExact(rows: seq<Row>, c: Detection): (r: seq<Row>)
    ensures |r| == |rows| || |r| == |rows| - 1
    ensures forall x :: x in r ==> x in rows
  {
    if |rows| == 0 then []
    else if SamePosition(rows[0].detection, c) then rows[1..]
    else [rows[0]] + WithoutFirstExact(rows[1..], c)
  }

  /** With no row at the candidate's exact position nothing is dropped. */
  lemma {:induction false} WithoutFirstExactKeepsAll(rows: seq<Row>, c: Detection)
    requires NoExactBefore(rows, c, |rows|)
    ensures WithoutFirstExact(rows, c) == rows
    decreases |rows|
  {
    if |rows| > 0 {
      assert !SamePosition(rows[0].detection, c);
      assert NoExactBefore(rows[1..], c, |rows| - 1) by {
        forall k | 0 <= k < |rows| - 1 ensures !SamePosition(rows[1..][k].detection, c) {
          assert rows[1..][k] == rows[k + 1];
        }
      }
      WithoutFirstExactKeepsAll(rows[1..], c);
      assert rows == [rows[0]] + rows[1..];
    }
  }

  /** When the first row at the candidate's exact position is the i-th,
      exactly that row is dropped and the others keep their order. */
  lemma {:induction false} WithoutFirstExactDropsFirst(rows: seq<Row>, c: Detection, i: nat)
    requires i < |rows| && SamePosition(rows[i].detection, c) && NoExactBefore(rows, c, i)
    ensures WithoutFirstExact(rows, c) == rows[..i] + rows[i + 1..]
    decreases i
  {
    if i > 0 {
      assert !SamePosition(rows[0].detection, c);
      var tail := rows[1..];
      assert tail[i - 1] == rows[i];
      assert NoExactBefore(tail, c, i - 1) by {
        forall k | 0 <= k < i - 1 ensures !SamePosition(tail[k].detection, c) {
          assert tail[k] == rows[k + 1];
        }
      }
      WithoutFirstExactDropsFirst(tail, c, i - 1);
      assert tail[..i - 1] == rows[1..i];
      assert tail[i..] == rows[i + 1..];
      assert rows[..i] == [rows[0]] + rows[1..i];
    }
  }

  /** db_source_match's loop: scan the rows, pop the first exact match and stop. */
  method DropFirstExact(result: seq<Row>, c: Detection) returns (r: seq<Row>)
    ensures r == WithoutFirstExact(result, c)
  {
    r := result;
    var i := 0;
    while i < |result|
      invariant 0 <= i <= |result|
      invariant NoExactBefore(result, c, i)
    {
      if SamePosition(result[i].detection, c) {
        r := result[..i] + result[i + 1..];
        WithoutFirstExactDropsFirst(result, c, i);
        return;
      }
      i := i + 1;
    }
    WithoutFirstExactKeepsAll(result, c);
  }

  /** The index of the first row at the candidate's exact position. */
  function FirstExactIndex(rows: seq<Row>, c: Detection): (i: nat)
    requires exists k :: 0 <= k < |rows| && SamePosition(rows[k].detection, c)
    ensures i < |rows| && SamePosition(rows[i].detection, c)
    ensures NoExactBefore(rows, c, i)
  {
    if SamePosition(rows[0].detection, c) then 0
    else
      var k :| 0 <= k < |rows| && SamePosition(rows[k].detection, c);
      assert SamePosition(rows[1..][k - 1].detection, c);
      1 + FirstExactIndex(rows[1..], c)
  }

  /** At most one row is dropped: a second row at the candidate's exact
      position is still returned, and so is every row at another position. */
  lemma OnlyFirstExactIsDropped(rows: seq<Row>, c: Detection, j: nat)
    requires j < |rows|
    requires !SamePosition(rows[j].detection, c) ||
             exists i :: 0 <= i < j && SamePosition(rows[i].detection, c)
    ensures rows[j] in WithoutFirstExact(rows, c)
  {
    if NoExactBefore(rows, c, |rows|) {
      WithoutFirstExactKeepsAll(rows, c);
    } else {
      var i := FirstExactIndex(rows, c);
      WithoutFirstExactDropsFirst(rows, c, i);
      var r := WithoutFirstExact(rows, c);
      if j < i {
        assert r[j] == rows[j];
      } else {
        assert j != i;
        assert r[j - 1] == rows[j];
      }
    }
  }
}
