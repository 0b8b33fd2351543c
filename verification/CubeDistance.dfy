/** Nearest-neighbour search on boxes (contrib/cube/cube.c): no key overstates a distance below it. */
module CubeDistance {
  import opened CubeBox
  import opened CubeSearch
  import opened Options

  /** distance_1D. */
  function Distance1D(a1: real, a2: real, b1: real, b2: real): real {
    if a1 <= b1 && a2 <= b1 && a1 <= b2 && a2 <= b2 then Least(b1, b2) - Greatest(a1, a2)
    else if a1 > b1 && a2 > b1 && a1 > b2 && a2 > b2 then Least(a1, a2) - Greatest(b1, b2)
    else 0.0
  }

  function Abs(x: real): real {
    if x < 0.0 then -x else x
  }

  /** How far apart two boxes are along axis i. */
  function Gap(a: Box, b: Box, i: nat): (r: real)
    requires a.Valid() && b.Valid()
    ensures r >= 0.0
  {
    Greatest(0.0, Greatest(Lo(b, i) - Hi(a, i), Lo(a, i) - Hi(b, i)))
  }

  lemma Distance1DIsGap(a: Box, b: Box, i: nat)
    requires a.Valid() && b.Valid()
    ensures i < a.dim && i < b.dim ==> Distance1D(a.LL(i), a.UR(i), b.LL(i), b.UR(i)) == Gap(a, b, i)
    ensures b.dim <= i < a.dim ==> Distance1D(a.LL(i), a.UR(i), 0.0, 0.0) == Gap(a, b, i)
  {
  }

  function Square(x: real): real {
    x * x
  }

  /** The three metrics over the first n axes. */
  function SumGaps(a: Box, b: Box, n: nat): real
    requires a.Valid() && b.Valid()
  {
    if n == 0 then 0.0 else SumGaps(a, b, n - 1) + Gap(a, b, n - 1)
  }

  function SumSquares(a: Box, b: Box, n: nat): real
    requires a.Valid() && b.Valid()
  {
    if n == 0 then 0.0 else SumSquares(a, b, n - 1) + Square(Gap(a, b, n - 1))
  }

  function MaxGap(a: Box, b: Box, n: nat): (r: real)
    requires a.Valid() && b.Valid()
    ensures r >= 0.0
  {
    if n == 0 then 0.0 else Greatest(MaxGap(a, b, n - 1), Gap(a, b, n - 1))
  }

  lemma GapSymmetric(a: Box, b: Box, i: nat)
    requires a.Valid() && b.Valid()
    ensures Gap(a, b, i) == Gap(b, a, i)
  {
  }

  /** distance_taxicab. */
  method Taxicab(a: Box, b: Box) returns (distance: real)
    requires a.Valid() && b.Valid()
    ensures distance == SumGaps(a, b, MaxDim(a, b))
  {
    var big, small := a, b;
    if a.dim < b.dim {
      big, small := b, a;
    }
    distance := 0.0;
    for i := 0 to small.dim
      invariant distance == SumGaps(a, b, i)
    {
      Distance1DIsGap(big, small, i);
      GapSymmetric(a, b, i);
      distance := distance + Abs(Distance1D(big.LL(i), big.UR(i), small.LL(i), small.UR(i)));
    }
    for i := small.dim to big.dim
      invariant distance == SumGaps(a, b, i)
    {
      Distance1DIsGap(big, small, i);
      GapSymmetric(a, b, i);
      distance := distance + Abs(Distance1D(big.LL(i), big.UR(i), 0.0, 0.0));
    }
  }

  /** cube_distance before its square root. */
  method Euclid(a: Box, b: Box) returns (distance: real)
    requires a.Valid() && b.Valid()
    ensures distance == SumSquares(a, b, MaxDim(a, b))
  {
    var big, small := a, b;
    if a.dim < b.dim {
      big, small := b, a;
    }
    distance := 0.0;
    for i := 0 to small.dim
      invariant distance == SumSquares(a, b, i)
    {
      Distance1DIsGap(big, small, i);
      GapSymmetric(a, b, i);
      var d := Distance1D(big.LL(i), big.UR(i), small.LL(i), small.UR(i));
      distance := distance + Square(d);
    }
    for i := small.dim to big.dim
      invariant distance == SumSquares(a, b, i)
    {
      Distance1DIsGap(big, small, i);
      GapSymmetric(a, b, i);
      var d := Distance1D(big.LL(i), big.UR(i), 0.0, 0.0);
      distance := distance + Square(d);
    }
  }

  /** distance_chebyshev. */
  method Chebyshev(a: Box, b: Box) returns (distance: real)
    requires a.Valid() && b.Valid()
    ensures distance == MaxGap(a, b, MaxDim(a, b))
  {
    var big, small := a, b;
    if a.dim < b.dim {
      big, small := b, a;
    }
    distance := 0.0;
    for i := 0 to small.dim
      invariant distance == MaxGap(a, b, i)
    {
      Distance1DIsGap(big, small, i);
      GapSymmetric(a, b, i);
      var d := Abs(Distance1D(big.LL(i), big.UR(i), small.LL(i), small.UR(i)));
      if d > distance {
        distance := d;
      }
    }
    for i := small.dim to big.dim
      invariant distance == MaxGap(a, b, i)
    {
      Distance1DIsGap(big, small, i);
      GapSymmetric(a, b, i);
      var d := Abs(Distance1D(big.LL(i), big.UR(i), 0.0, 0.0));
      if d > distance {
        distance := d;
      }
    }
  }

  // ---------------------------------------------------------------- lower bounds

  lemma SquareGrows(a: real, b: real)
    requires 0.0 <= a <= b
    ensures Square(a) <= Square(b)
  {
    assert a * a <= a * b <= b * b;
  }

  lemma GapShrinks(key: Box, e: Box, q: Box, i: nat)
    requires key.Valid() && e.Valid() && q.Valid() && Within(key, e, i)
    ensures Gap(key, q, i) <= Gap(e, q, i)
    ensures Square(Gap(key, q, i)) <= Square(Gap(e, q, i))
  {
    SquareGrows(Gap(key, q, i), Gap(e, q, i));
  }

  lemma {:induction false} SumsShrink(key: Box, e: Box, q: Box, n: nat)
    requires key.Valid() && e.Valid() && q.Valid() && Covers(key, e)
    ensures SumGaps(key, q, n) <= SumGaps(e, q, n)
    ensures SumSquares(key, q, n) <= SumSquares(e, q, n)
    ensures MaxGap(key, q, n) <= MaxGap(e, q, n)
  {
    if n > 0 {
      SumsShrink(key, e, q, n - 1);
      assert Within(key, e, n - 1);
      GapShrinks(key, e, q, n - 1);
    }
  }

  /** Axes neither box has add nothing. */
  lemma {:induction false} SumsStop(a: Box, b: Box, n: nat)
    requires a.Valid() && b.Valid() && n >= MaxDim(a, b)
    ensures SumGaps(a, b, n) == SumGaps(a, b, MaxDim(a, b))
    ensures SumSquares(a, b, n) == SumSquares(a, b, MaxDim(a, b))
    ensures MaxGap(a, b, n) == MaxGap(a, b, MaxDim(a, b))
  {
    if n > MaxDim(a, b) {
      SumsStop(a, b, n - 1);
      assert Gap(a, b, n - 1) == 0.0;
      assert Square(0.0) == 0.0;
    }
  }

  /** In each metric the distance from the query to a key is at most that to any entry below it, whatever
      dimensions key, entry and query have. */
  lemma {:induction false} DistanceBound(key: Box, e: Box, q: Box)
    requires key.Valid() && e.Valid() && q.Valid() && Covers(key, e)
    ensures SumGaps(key, q, MaxDim(key, q)) <= SumGaps(e, q, MaxDim(e, q))
    ensures SumSquares(key, q, MaxDim(key, q)) <= SumSquares(e, q, MaxDim(e, q))
    ensures MaxGap(key, q, MaxDim(key, q)) <= MaxGap(e, q, MaxDim(e, q))
  {
    var n := MaxDim(key, q) + MaxDim(e, q);
    SumsShrink(key, e, q, n);
    SumsStop(key, q, n);
    SumsStop(e, q, n);
  }

  /** g_cube_distance for the ~> operator; None is the error for coordinate zero. */
  function CoordDistance(b: Box, coord: int, isLeaf: bool): Option<real>
    requires b.Valid()
  {
    if coord == 0 then None
    else
      var c := if coord < 0 then -coord else coord;
      var v :=
        if c > 2 * b.dim then 0.0
        else
          var i := (c - 1) / 2;
          if b.point then b.x[i]
          else if (if isLeaf then (c - 1) % 2 == 1 else coord < 0) then Greatest(b.x[i], b.x[i + b.dim])
          else Least(b.x[i], b.x[i + b.dim]);
      Some(if coord < 0 then -v else v)
  }

  /** cube_coord_llur, the operator itself: the lower or upper bound of one dimension, negated for a negative
      number. */
  lemma CoordIsBound(e: Box, coord: int)
    requires e.Valid() && coord != 0
    ensures var c := if coord < 0 then -coord else coord;
            var v := if c % 2 == 0 then Hi(e, (c - 1) / 2) else Lo(e, (c - 1) / 2);
            CoordDistance(e, coord, true) == Some(if coord < 0 then -v else v)
  {
    var c := if coord < 0 then -coord else coord;
    var i := (c - 1) / 2;
    assert c <= 2 * e.dim <==> i < e.dim;
    assert (c - 1) % 2 == 1 <==> c % 2 == 0;
  }

  lemma CoordOfKey(key: Box, coord: int)
    requires key.Valid() && coord != 0
    ensures var c := if coord < 0 then -coord else coord;
            CoordDistance(key, coord, false) == Some(if coord < 0 then -Hi(key, (c - 1) / 2) else Lo(key, (c - 1) / 2))
  {
    var c := if coord < 0 then -coord else coord;
    var i := (c - 1) / 2;
    assert c <= 2 * key.dim <==> i < key.dim;
  }

  /** The coordinate used to order by never puts a key after an entry below it, in either direction. */
  lemma CoordBound(key: Box, e: Box, coord: int)
    requires key.Valid() && e.Valid() && Covers(key, e) && coord != 0
    ensures CoordDistance(key, coord, false).value <= CoordDistance(e, coord, true).value
  {
    var c := if coord < 0 then -coord else coord;
    CoordIsBound(e, coord);
    CoordOfKey(key, coord);
    assert Within(key, e, (c - 1) / 2);
  }
}
