/** Boxes of the cube type (contrib/cube/cube.c, cubedata.h), with real coordinates. */
module CubeBox {

  /** A box holds its dim lower coordinates, then its upper ones unless it is flagged as a point. Opposite
      corners may be stored in either order. */
  datatype Box = Box(dim: nat, point: bool, x: seq<real>) {
    predicate Valid() {
      |x| == if point then dim else 2 * dim
    }

    function LL(i: nat): real
      requires Valid() && i < dim
    {
      x[i]
    }

    function UR(i: nat): real
      requires Valid() && i < dim
    {
      if point then x[i] else x[i + dim]
    }
  }

  function Least(a: real, b: real): real {
    if a < b then a else b
  }

  function Greatest(a: real, b: real): real {
    if a > b then a else b
  }

  /** The bounds of a box in every dimension: zero in those it does not have. */
  function Lo(b: Box, i: nat): (r: real)
    requires b.Valid()
    ensures r <= Hi(b, i)
  {
    if i < b.dim then Least(b.LL(i), b.UR(i)) else 0.0
  }

  function Hi(b: Box, i: nat): real
    requires b.Valid()
  {
    if i < b.dim then Greatest(b.LL(i), b.UR(i)) else 0.0
  }

  function MaxDim(a: Box, b: Box): nat {
    if a.dim < b.dim then b.dim else a.dim
  }

  function MinDim(a: Box, b: Box): nat {
    if a.dim < b.dim then a.dim else b.dim
  }

  // ---------------------------------------------------------------- union and intersection

  /** A box from its corners, flagged as a point when they coincide. */
  function FromCorners(lo: seq<real>, hi: seq<real>): (r: Box)
    requires |lo| == |hi|
    ensures r.Valid()
  {
    if lo == hi then Box(|lo|, true, lo) else Box(|lo|, false, lo + hi)
  }

  function UnionLow(a: Box, b: Box): (s: seq<real>)
    requires a.Valid() && b.Valid()
    ensures |s| == MaxDim(a, b)
  {
    seq(MaxDim(a, b), i requires i >= 0 => Least(Lo(a, i), Lo(b, i)))
  }

  function UnionHigh(a: Box, b: Box): (s: seq<real>)
    requires a.Valid() && b.Valid()
    ensures |s| == MaxDim(a, b)
  {
    seq(MaxDim(a, b), i requires i >= 0 => Greatest(Hi(a, i), Hi(b, i)))
  }

  function UnionOf(a: Box, b: Box): (r: Box)
    requires a.Valid() && b.Valid()
    ensures r.Valid() && r.dim == MaxDim(a, b)
  {
    FromCorners(UnionLow(a, b), UnionHigh(a, b))
  }

  function InterOf(a: Box, b: Box): (r: Box)
    requires a.Valid() && b.Valid()
    ensures r.Valid() && r.dim == MaxDim(a, b)
  {
    var n := MaxDim(a, b);
    FromCorners(seq(n, i requires i >= 0 => Greatest(Lo(a, i), Lo(b, i))),
                seq(n, i requires i >= 0 => Least(Hi(a, i), Hi(b, i))))
  }

  /** The union is the hull, dimension by dimension, with missing dimensions read as zero. */
  lemma UnionIsHull(a: Box, b: Box, i: nat)
    requires a.Valid() && b.Valid()
    ensures Lo(UnionOf(a, b), i) == Least(Lo(a, i), Lo(b, i))
    ensures Hi(UnionOf(a, b), i) == Greatest(Hi(a, i), Hi(b, i))
  {
    var r := UnionOf(a, b);
    if i < r.dim {
      assert r.LL(i) == UnionLow(a, b)[i];
      assert r.UR(i) == UnionHigh(a, b)[i];
    }
  }

  /** Two boxes intersect exactly when the corners of their intersection are in order in every dimension. */
  lemma InterExact(a: Box, b: Box)
    requires a.Valid() && b.Valid()
    ensures var r := InterOf(a, b);
            Overlap(a, b) <==> forall i :: 0 <= i < r.dim ==> r.LL(i) <= r.UR(i)
  {
    var r := InterOf(a, b);
    forall i | 0 <= i < r.dim
      ensures r.LL(i) <= r.UR(i) <==> Meets(a, b, i)
    {
      InterCorner(a, b, i);
    }
    forall i: nat | i >= r.dim
      ensures Meets(a, b, i)
    {
    }
  }

  lemma InterCorner(a: Box, b: Box, i: nat)
    requires a.Valid() && b.Valid() && i < MaxDim(a, b)
    ensures InterOf(a, b).LL(i) == Greatest(Lo(a, i), Lo(b, i))
    ensures InterOf(a, b).UR(i) == Least(Hi(a, i), Hi(b, i))
  {
    var n := MaxDim(a, b);
    var lo := seq(n, k requires k >= 0 => Greatest(Lo(a, k), Lo(b, k)));
    var hi := seq(n, k requires k >= 0 => Least(Hi(a, k), Hi(b, k)));
    assert InterOf(a, b) == FromCorners(lo, hi);
    assert InterOf(a, b).LL(i) == lo[i] && InterOf(a, b).UR(i) == hi[i];
  }

  method IsPoint(b: Box) returns (res: bool)
    requires b.Valid()
    ensures res <==> forall i :: 0 <= i < b.dim ==> b.LL(i) == b.UR(i)
  {
    if b.point {
      return true;
    }
    for i := 0 to b.dim
      invariant forall k :: 0 <= k < i ==> b.LL(k) == b.UR(k)
    {
      if b.LL(i) != b.UR(i) {
        return false;
      }
    }
    return true;
  }

  method Finish(lo: seq<real>, hi: seq<real>) returns (r: Box)
    requires |lo| == |hi|
    ensures r == FromCorners(lo, hi)
  {
    r := Box(|lo|, false, lo + hi);
    var p := IsPoint(r);
    assert forall i :: 0 <= i < |lo| ==> r.LL(i) == lo[i] && r.UR(i) == hi[i];
    if p {
      assert lo == hi;
      r := Box(|lo|, true, r.x[..|lo|]);
    } else if lo == hi {
      assert false;
    }
  }

  method UnionCorners(a: Box, b: Box) returns (lo: array<real>, hi: array<real>)
    requires a.Valid() && b.Valid() && b.dim <= a.dim
    ensures lo[..] == UnionLow(a, b) && hi[..] == UnionHigh(a, b)
  {
    lo, hi := new real[a.dim], new real[a.dim];
    for i := 0 to b.dim
      invariant forall k :: 0 <= k < i ==> lo[k] == UnionLow(a, b)[k] && hi[k] == UnionHigh(a, b)[k]
    {
      lo[i] := Least(Least(a.LL(i), a.UR(i)), Least(b.LL(i), b.UR(i)));
      hi[i] := Greatest(Greatest(a.LL(i), a.UR(i)), Greatest(b.LL(i), b.UR(i)));
    }
    for i := b.dim to a.dim
      invariant forall k :: 0 <= k < i ==> lo[k] == UnionLow(a, b)[k] && hi[k] == UnionHigh(a, b)[k]
    {
      lo[i] := Least(0.0, Least(a.LL(i), a.UR(i)));
      hi[i] := Greatest(0.0, Greatest(a.LL(i), a.UR(i)));
    }
  }

  /** cube_union_v0; `same` says that both arguments are one and the same datum. */
  method Union(a: Box, b: Box, same: bool) returns (r: Box)
    requires a.Valid() && b.Valid() && (same ==> a == b)
    ensures r == if same then a else UnionOf(a, b)
  {
    if same {
      return a;
    }
    var big, small := a, b;
    if a.dim < b.dim {
      big, small := b, a;
    }
    UnionSymmetric(a, b);
    var lo, hi := UnionCorners(big, small);
    r := Finish(lo[..], hi[..]);
  }

  lemma UnionSymmetric(a: Box, b: Box)
    requires a.Valid() && b.Valid()
    ensures UnionLow(a, b) == UnionLow(b, a) && UnionHigh(a, b) == UnionHigh(b, a) && UnionOf(a, b) == UnionOf(b, a)
  {
    assert UnionLow(a, b) == UnionLow(b, a) && UnionHigh(a, b) == UnionHigh(b, a);
  }

  // ---------------------------------------------------------------- comparisons

  predicate Within(outer: Box, inner: Box, i: nat)
    requires outer.Valid() && inner.Valid()
  {
    Lo(outer, i) <= Lo(inner, i) && Hi(inner, i) <= Hi(outer, i)
  }

  predicate Meets(a: Box, b: Box, i: nat)
    requires a.Valid() && b.Valid()
  {
    Lo(a, i) <= Hi(b, i) && Lo(b, i) <= Hi(a, i)
  }

  /** a contains b in the dimensions of b; further dimensions of a do not count. */
  predicate Contains(a: Box, b: Box)
    requires a.Valid() && b.Valid()
  {
    forall i :: 0 <= i < b.dim ==> Within(a, b, i)
  }

  ghost predicate Overlap(a: Box, b: Box)
    requires a.Valid() && b.Valid()
  {
    forall i: nat :: Meets(a, b, i)
  }

  predicate Same(a: Box, b: Box)
    requires a.Valid() && b.Valid()
  {
    a.dim == b.dim && forall i :: 0 <= i < a.dim ==> Lo(a, i) == Lo(b, i) && Hi(a, i) == Hi(b, i)
  }

  /** cube_contains_v0. */
  method ContainsV0(a: Box, b: Box) returns (res: bool)
    requires a.Valid() && b.Valid()
    ensures res <==> Contains(a, b)
  {
    if a.dim < b.dim {
      for i := a.dim to b.dim
        invariant forall k :: a.dim <= k < i ==> Within(a, b, k)
      {
        if b.LL(i) != 0.0 || b.UR(i) != 0.0 {
          assert !Within(a, b, i);
          return false;
        }
      }
    }
    for i := 0 to MinDim(a, b)
      invariant forall k :: 0 <= k < i ==> Within(a, b, k)
    {
      if Lo(a, i) > Lo(b, i) || Hi(a, i) < Hi(b, i) {
        assert !Within(a, b, i);
        return false;
      }
    }
    return true;
  }

  /** cube_overlap_v0. */
  method OverlapV0(a: Box, b: Box) returns (res: bool)
    requires a.Valid() && b.Valid()
    ensures res <==> Overlap(a, b)
  {
    var big, small := a, b;
    if a.dim < b.dim {
      big, small := b, a;
    }
    for i := 0 to small.dim
      invariant forall k :: 0 <= k < i ==> Meets(a, b, k)
    {
      if Lo(big, i) > Hi(small, i) || Hi(big, i) < Lo(small, i) {
        assert !Meets(a, b, i);
        return false;
      }
    }
    for i := small.dim to big.dim
      invariant forall k :: 0 <= k < i ==> Meets(a, b, k)
    {
      if Lo(big, i) > 0.0 || Hi(big, i) < 0.0 {
        assert !Meets(a, b, i);
        return false;
      }
    }
    return true;
  }

  /** The j-th coordinate at which cube_cmp_v0 compares a box with another: lower bounds then upper bounds of the
      dimensions both have, then lower and upper bounds of the others. */
  function CmpCoord(b: Box, small: nat, big: nat, j: nat): real
    requires b.Valid() && small <= big && j < 2 * big
  {
    if j < small then Lo(b, j)
    else if j < 2 * small then Hi(b, j - small)
    else if j < small + big then Lo(b, j - small)
    else Hi(b, j - big)
  }

  function SignOf(x: int): int {
    if x > 0 then 1 else if x < 0 then -1 else 0
  }

  /** Lexicographic comparison from coordinate j on; the dimension counts decide a tie. */
  function Order(a: Box, b: Box, j: nat): int
    requires a.Valid() && b.Valid() && j <= 2 * MaxDim(a, b)
    decreases 2 * MaxDim(a, b) - j
  {
    var (s, n) := (MinDim(a, b), MaxDim(a, b));
    if j == 2 * n then SignOf(a.dim - b.dim)
    else if CmpCoord(a, s, n, j) > CmpCoord(b, s, n, j) then 1
    else if CmpCoord(a, s, n, j) < CmpCoord(b, s, n, j) then -1
    else Order(a, b, j + 1)
  }

  /** Positions j0 on are the lower bounds of dimensions lo up to hi, and then their upper bounds. */
  predicate Stretch(a: Box, b: Box, lo: nat, hi: nat, j0: nat) {
    (j0 == 0 && lo == 0 && hi == MinDim(a, b))
    || (j0 == 2 * MinDim(a, b) && lo == MinDim(a, b) && hi == MaxDim(a, b))
  }

  method CompareLows(a: Box, b: Box, lo: nat, hi: nat, j0: nat) returns (r: int)
    requires a.Valid() && b.Valid() && Stretch(a, b, lo, hi, j0)
    ensures if r != 0 then r == Order(a, b, j0) else Order(a, b, j0) == Order(a, b, j0 + (hi - lo))
  {
    for i := lo to hi
      invariant Order(a, b, j0) == Order(a, b, j0 + (i - lo))
    {
      assert CmpCoord(a, MinDim(a, b), MaxDim(a, b), j0 + (i - lo)) == Lo(a, i);
      if Lo(a, i) > Lo(b, i) {
        return 1;
      }
      if Lo(a, i) < Lo(b, i) {
        return -1;
      }
    }
    return 0;
  }

  method CompareHighs(a: Box, b: Box, lo: nat, hi: nat, j0: nat) returns (r: int)
    requires a.Valid() && b.Valid() && Stretch(a, b, lo, hi, j0)
    ensures var j := j0 + (hi - lo);
            if r != 0 then r == Order(a, b, j) else Order(a, b, j) == Order(a, b, j + (hi - lo))
  {
    var j := j0 + (hi - lo);
    for i := lo to hi
      invariant Order(a, b, j) == Order(a, b, j + (i - lo))
    {
      assert CmpCoord(a, MinDim(a, b), MaxDim(a, b), j + (i - lo)) == Hi(a, i);
      if Hi(a, i) > Hi(b, i) {
        return 1;
      }
      if Hi(a, i) < Hi(b, i) {
        return -1;
      }
    }
    return 0;
  }

  /** Compares the bounds of dimensions lo up to hi, lower bounds first. */
  method CompareRange(a: Box, b: Box, lo: nat, hi: nat, j0: nat) returns (r: int)
    requires a.Valid() && b.Valid() && Stretch(a, b, lo, hi, j0)
    ensures if r != 0 then r == Order(a, b, j0) else Order(a, b, j0) == Order(a, b, j0 + 2 * (hi - lo))
  {
    r := CompareLows(a, b, lo, hi, j0);
    if r == 0 {
      r := CompareHighs(a, b, lo, hi, j0);
    }
  }

  /** cube_cmp_v0. */
  method Compare(a: Box, b: Box) returns (r: int)
    requires a.Valid() && b.Valid()
    ensures r == Order(a, b, 0)
  {
    r := CompareRange(a, b, 0, MinDim(a, b), 0);
    if r != 0 {
      return r;
    }
    if a.dim != b.dim {
      r := CompareRange(a, b, MinDim(a, b), MaxDim(a, b), 2 * MinDim(a, b));
      if r != 0 {
        return r;
      }
    }
    return if a.dim > b.dim then 1 else if a.dim < b.dim then -1 else 0;
  }

  /** Swapping the arguments swaps the sign. */
  lemma {:induction false} OrderFlips(a: Box, b: Box, j: nat)
    requires a.Valid() && b.Valid() && j <= 2 * MaxDim(a, b)
    ensures Order(a, b, j) == -Order(b, a, j)
    decreases 2 * MaxDim(a, b) - j
  {
    if j < 2 * MaxDim(a, b) {
      OrderFlips(a, b, j + 1);
    }
  }

  lemma {:induction false} OrderTie(a: Box, b: Box, j: nat)
    requires a.Valid() && b.Valid() && j <= 2 * MaxDim(a, b)
    ensures Order(a, b, j) == 0 <==>
              && a.dim == b.dim
              && forall k :: j <= k < 2 * a.dim ==> CmpCoord(a, a.dim, a.dim, k) == CmpCoord(b, a.dim, a.dim, k)
    decreases 2 * MaxDim(a, b) - j
  {
    if j < 2 * MaxDim(a, b) {
      OrderTie(a, b, j + 1);
    }
  }

  /** Two boxes compare equal exactly when they have the same dimensions and the same bounds. */
  lemma {:induction false} OrderZero(a: Box, b: Box)
    requires a.Valid() && b.Valid()
    ensures Order(a, b, 0) == 0 <==> Same(a, b)
  {
    OrderTie(a, b, 0);
    if a.dim == b.dim {
      var n := a.dim;
      if Same(a, b) {
        forall k | 0 <= k < 2 * n
          ensures CmpCoord(a, n, n, k) == CmpCoord(b, n, n, k)
        {
          assert k < n ==> Lo(a, k) == Lo(b, k);
          assert k >= n ==> Hi(a, k - n) == Hi(b, k - n);
        }
      } else if Order(a, b, 0) == 0 {
        forall i | 0 <= i < n
          ensures Lo(a, i) == Lo(b, i) && Hi(a, i) == Hi(b, i)
        {
          assert CmpCoord(a, n, n, i) == CmpCoord(b, n, n, i);
          assert CmpCoord(a, n, n, n + i) == CmpCoord(b, n, n, n + i);
        }
        assert false;
      }
    }
  }
}
