/** Guttman's split of a page of boxes (g_cube_picksplit in contrib/cube/cube.c). */
module CubeSplit {
  import opened CubeBox
  import opened CubeSearch

  function Volume(b: Box, n: nat): real
    requires b.Valid() && n <= b.dim
  {
    if n == 0 then 1.0 else Volume(b, n - 1) * Magnitude(b.UR(n - 1) - b.LL(n - 1))
  }

  function Magnitude(x: real): real {
    if x < 0.0 then -x else x
  }

  function Size(b: Box): real
    requires b.Valid()
  {
    if b.point || b.dim == 0 then 0.0 else Volume(b, b.dim)
  }

  /** rt_cube_size. */
  method BoxSize(b: Box) returns (size: real)
    requires b.Valid()
    ensures size == Size(b)
  {
    if b.point || b.dim == 0 {
      return 0.0;
    }
    size := 1.0;
    for i := 0 to b.dim
      invariant size == Volume(b, i)
    {
      size := size * Magnitude(b.UR(i) - b.LL(i));
    }
  }

  function Waste(a: Box, b: Box): real
    requires a.Valid() && b.Valid()
  {
    Size(UnionOf(a, b)) - Size(InterOf(a, b))
  }

  method InterCorners(a: Box, b: Box) returns (lo: array<real>, hi: array<real>)
    requires a.Valid() && b.Valid() && b.dim <= a.dim
    ensures lo.Length == hi.Length == a.dim
    ensures forall k :: 0 <= k < a.dim ==> lo[k] == Greatest(Lo(a, k), Lo(b, k)) && hi[k] == Least(Hi(a, k), Hi(b, k))
  {
    lo, hi := new real[a.dim], new real[a.dim];
    for i := 0 to b.dim
      invariant forall k :: 0 <= k < i ==> lo[k] == Greatest(Lo(a, k), Lo(b, k)) && hi[k] == Least(Hi(a, k), Hi(b, k))
    {
      lo[i] := Greatest(Least(a.LL(i), a.UR(i)), Least(b.LL(i), b.UR(i)));
      hi[i] := Least(Greatest(a.LL(i), a.UR(i)), Greatest(b.LL(i), b.UR(i)));
    }
    for i := b.dim to a.dim
      invariant forall k :: 0 <= k < i ==> lo[k] == Greatest(Lo(a, k), Lo(b, k)) && hi[k] == Least(Hi(a, k), Hi(b, k))
    {
      lo[i] := Greatest(0.0, Least(a.LL(i), a.UR(i)));
      hi[i] := Least(0.0, Greatest(a.LL(i), a.UR(i)));
    }
  }

  /** cube_inter. */
  method Inter(a: Box, b: Box) returns (r: Box)
    requires a.Valid() && b.Valid()
    ensures r == InterOf(a, b)
  {
    var big, small := a, b;
    if a.dim < b.dim {
      big, small := b, a;
    }
    var lo, hi := InterCorners(big, small);
    assert lo[..] == seq(MaxDim(a, b), i requires i >= 0 => Greatest(Lo(a, i), Lo(b, i)));
    assert hi[..] == seq(MaxDim(a, b), i requires i >= 0 => Least(Hi(a, i), Hi(b, i)));
    r := Finish(lo[..], hi[..]);
  }

  // ---------------------------------------------------------------- seeds

  /** Entries sit at 1 up to |es| - 1; position 0 is unused. The last is the new one. */
  predicate PageOk(es: seq<Box>) {
    |es| >= 3 && AllValid(es)
  }

  predicate SeedRange(es: seq<Box>, s1: nat, s2: nat) {
    1 <= s1 < s2 < |es|
  }

  /** (i, j) comes before (m, n) in the order the pairs are tried. */
  predicate Tried(i: nat, j: nat, m: nat, n: nat) {
    i < m || (i == m && j < n)
  }

  /** Among the pairs tried before (m, n), the seeds waste most and were the first to. */
  predicate Wasteful(w: (nat, nat) -> real, last: nat, s1: nat, s2: nat, m: nat, n: nat) {
    forall i: nat, j: nat :: 1 <= i < j <= last && Tried(i, j, m, n) ==>
      if Tried(i, j, s1, s2) then w(i, j) < w(s1, s2) else w(i, j) <= w(s1, s2)
  }

  /** The space wasted by putting entries i and j together. */
  function WasteOf(es: seq<Box>): (nat, nat) -> real
    requires AllValid(es)
  {
    (i: nat, j: nat) => if i < |es| && j < |es| then Waste(es[i], es[j]) else 0.0
  }

  lemma KeepSeeds(w: (nat, nat) -> real, last: nat, s1: nat, s2: nat, i: nat, j: nat)
    requires Wasteful(w, last, s1, s2, i, j) && Tried(s1, s2, i, j) && w(i, j) <= w(s1, s2)
    ensures Wasteful(w, last, s1, s2, i, j + 1) && Tried(s1, s2, i, j + 1)
  {
  }

  lemma ChangeSeeds(w: (nat, nat) -> real, last: nat, s1: nat, s2: nat, i: nat, j: nat)
    requires Wasteful(w, last, s1, s2, i, j) && w(i, j) > w(s1, s2)
    ensures Wasteful(w, last, i, j, i, j + 1)
  {
  }

  lemma FirstSeeds(w: (nat, nat) -> real, last: nat)
    ensures Wasteful(w, last, 1, 2, 1, 3)
  {
  }

  lemma NextRow(w: (nat, nat) -> real, last: nat, s1: nat, s2: nat, i: nat)
    requires Wasteful(w, last, s1, s2, i, last + 1)
    ensures Wasteful(w, last, s1, s2, i + 1, i + 2)
  {
  }

  method PairWaste(a: Box, b: Box) returns (waste: real)
    requires a.Valid() && b.Valid()
    ensures waste == Waste(a, b)
  {
    var u := Union(a, b, false);
    var sizeUnion := BoxSize(u);
    var d := Inter(a, b);
    var sizeInter := BoxSize(d);
    return sizeUnion - sizeInter;
  }

  /** Wasteful up to (i, j), and the seeds were tried, unless no pair was. */
  predicate SeedsSoFar(es: seq<Box>, s1: nat, s2: nat, waste: real, firsttime: bool, i: nat, j: nat) {
    && PageOk(es) && SeedRange(es, s1, s2)
    && if firsttime then i == 1 && j == 2
       else
         && waste == WasteOf(es)(s1, s2) && Tried(s1, s2, i, j)
         && Wasteful(WasteOf(es), |es| - 2, s1, s2, i, j)
  }

  /** The first pair of existing entries that wastes most; with one existing entry, it and the new one. */
  method PickSeeds(es: seq<Box>) returns (s1: nat, s2: nat)
    requires PageOk(es)
    ensures SeedRange(es, s1, s2)
    ensures Wasteful(WasteOf(es), |es| - 2, s1, s2, |es| - 2, |es| - 1)
  {
    var maxoff := |es| - 2;
    var firsttime, waste := true, 0.0;
    s1, s2 := 1, 2;
    for i := 1 to maxoff
      invariant SeedsSoFar(es, s1, s2, waste, firsttime, i, i + 1)
    {
      s1, s2, waste, firsttime := PickInRow(es, i, s1, s2, waste, firsttime);
      NextRow(WasteOf(es), maxoff, s1, s2, i);
    }
  }

  method PickInRow(es: seq<Box>, i: nat, s1: nat, s2: nat, waste: real, firsttime: bool)
    returns (t1: nat, t2: nat, most: real, first: bool)
    requires 1 <= i < |es| - 2 && SeedsSoFar(es, s1, s2, waste, firsttime, i, i + 1)
    ensures SeedsSoFar(es, t1, t2, most, first, i, |es| - 1) && !first
  {
    t1, t2, most, first := s1, s2, waste, firsttime;
    ghost var w, last := WasteOf(es), |es| - 2;
    for j := i + 1 to |es| - 1
      invariant SeedsSoFar(es, t1, t2, most, first, i, j)
      invariant j > i + 1 ==> !first
    {
      var size := PairWaste(es[i], es[j]);
      if first {
        FirstSeeds(w, last);
      } else if size > most {
        ChangeSeeds(w, last, t1, t2, i, j);
      } else {
        KeepSeeds(w, last, t1, t2, i, j);
      }
      if size > most || first {
        most, t1, t2, first := size, i, j, false;
      }
    }
  }

  // ---------------------------------------------------------------- distribution

  datatype Half = Half(list: seq<nat>, datum: Box)

  function Grow(es: seq<Box>, h: Half, i: nat): Half
    requires i < |es| && AllValid(es) && h.datum.Valid()
  {
    Half(h.list + [i], UnionOf(h.datum, es[i]))
  }

  function Enlargement(h: Half, e: Box): real
    requires h.datum.Valid() && e.Valid()
  {
    Size(UnionOf(h.datum, e)) - Size(h.datum)
  }

  /** Says whether an entry goes left. */
  type Rule = (Half, Half, Box) -> bool

  /** The halves once entry i is placed: seeds on their own sides, any other as the rule says. */
  function PlaceOne(rule: Rule, es: seq<Box>, s1: nat, s2: nat, l: Half, r: Half, i: nat): (h: (Half, Half))
    requires AllValid(es) && l.datum.Valid() && r.datum.Valid() && i < |es|
    ensures h.0.datum.Valid() && h.1.datum.Valid()
  {
    if i == s1 then (l.(list := l.list + [i]), r)
    else if i == s2 then (l, r.(list := r.list + [i]))
    else if rule(l, r, es[i]) then (Grow(es, l, i), r)
    else (l, Grow(es, r, i))
  }

  /** Where the entry needs less enlargement. */
  function LeastEnlargement(): Rule {
    (l: Half, r: Half, e: Box) =>
      l.datum.Valid() && r.datum.Valid() && e.Valid() && Enlargement(l, e) < Enlargement(r, e)
  }

  predicate PlacedAt(rule: Rule, es: seq<Box>, s1: nat, s2: nat, hs: seq<(Half, Half)>, k: nat)
    requires AllValid(es) && 1 <= k < |hs| && k < |es|
  {
    && hs[k - 1].0.datum.Valid() && hs[k - 1].1.datum.Valid()
    && hs[k] == PlaceOne(rule, es, s1, s2, hs[k - 1].0, hs[k - 1].1, k)
  }

  /** hs[k] is how the halves stand once the entries up to k are placed. */
  predicate Placing(rule: Rule, es: seq<Box>, s1: nat, s2: nat, hs: seq<(Half, Half)>) {
    && PageOk(es) && SeedRange(es, s1, s2) && 1 <= |hs| <= |es|
    && hs[0] == (Half([], es[s1]), Half([], es[s2]))
    && forall k :: 1 <= k < |hs| ==> PlacedAt(rule, es, s1, s2, hs, k)
  }

  predicate Increasing(s: seq<nat>) {
    forall i, j :: 0 <= i < j < |s| ==> s[i] < s[j]
  }

  /** The entries a half's datum stands for: its seed, whether placed yet or not, and those placed. */
  ghost predicate HalfOk(es: seq<Box>, seed: nat, h: Half, i: nat)
    requires AllValid(es) && seed < |es|
  {
    && h.datum.Valid()
    && Increasing(h.list) && (forall k :: k in h.list ==> 1 <= k < i && k < |es|)
    && (seed < i ==> seed in h.list)
    && Covers(h.datum, es[seed])
    && (forall k :: k in h.list ==> Covers(h.datum, es[k]))
    && (forall d: nat :: Touched(es, seed, h, d))
  }

  /** In dimension d the datum reaches no further than the seed or some placed entry. */
  predicate Touched(es: seq<Box>, seed: nat, h: Half, d: nat)
    requires AllValid(es) && seed < |es| && h.datum.Valid()
  {
    && (Lo(h.datum, d) == Lo(es[seed], d) || exists k :: k in h.list && k < |es| && Lo(h.datum, d) == Lo(es[k], d))
    && (Hi(h.datum, d) == Hi(es[seed], d) || exists k :: k in h.list && k < |es| && Hi(h.datum, d) == Hi(es[k], d))
  }

  /** Each entry below i is on exactly one side. */
  predicate Parted(l: seq<nat>, r: seq<nat>, i: nat) {
    forall k: nat :: 1 <= k < i ==> (k in l <==> k !in r)
  }

  lemma IncreasingAppend(s: seq<nat>, i: nat)
    requires Increasing(s) && forall k :: k in s ==> k < i
    ensures Increasing(s + [i])
  {
    forall a | 0 <= a < |s|
      ensures s[a] < i
    {
      assert s[a] in s;
    }
  }

  lemma SeedPlaced(es: seq<Box>, h: Half, i: nat)
    requires AllValid(es) && 1 <= i < |es| && HalfOk(es, i, h, i)
    ensures HalfOk(es, i, h.(list := h.list + [i]), i + 1)
  {
    var g := h.(list := h.list + [i]);
    IncreasingAppend(h.list, i);
    assert i in g.list;
    forall d: nat
      ensures Touched(es, i, g, d)
    {
      assert Touched(es, i, h, d);
      TouchedMore(es, i, h, g, d);
    }
  }

  lemma TouchedMore(es: seq<Box>, seed: nat, h: Half, g: Half, d: nat)
    requires AllValid(es) && seed < |es| && h.datum.Valid() && g.datum == h.datum
    requires (forall k :: k in h.list ==> k in g.list) && Touched(es, seed, h, d)
    ensures Touched(es, seed, g, d)
  {
  }

  lemma OtherSkipped(es: seq<Box>, seed: nat, h: Half, i: nat)
    requires AllValid(es) && seed < |es| && HalfOk(es, seed, h, i) && i != seed
    ensures HalfOk(es, seed, h, i + 1)
  {
  }

  lemma GrowTouched(es: seq<Box>, seed: nat, h: Half, i: nat, d: nat)
    requires AllValid(es) && seed < |es| && h.datum.Valid() && i < |es| && Touched(es, seed, h, d)
    ensures Touched(es, seed, Grow(es, h, i), d)
  {
    UnionIsHull(h.datum, es[i], d);
    var g := Grow(es, h, i);
    assert i in g.list && forall k :: k in h.list ==> k in g.list;
  }

  lemma GrowCovers(es: seq<Box>, h: Half, i: nat, e: Box)
    requires AllValid(es) && h.datum.Valid() && i < |es| && e.Valid()
    ensures Covers(h.datum, e) ==> Covers(UnionOf(h.datum, es[i]), e)
    ensures Covers(UnionOf(h.datum, es[i]), es[i])
  {
    forall d: nat
      ensures Within(h.datum, e, d) ==> Within(UnionOf(h.datum, es[i]), e, d)
      ensures Within(UnionOf(h.datum, es[i]), es[i], d)
    {
      UnionIsHull(h.datum, es[i], d);
    }
  }

  lemma Grown(es: seq<Box>, seed: nat, h: Half, i: nat)
    requires AllValid(es) && seed < |es| && 1 <= i < |es| && i != seed && HalfOk(es, seed, h, i)
    ensures HalfOk(es, seed, Grow(es, h, i), i + 1)
  {
    var g := Grow(es, h, i);
    IncreasingAppend(h.list, i);
    GrowCovers(es, h, i, es[seed]);
    assert forall k :: k in h.list ==> k in g.list;
    forall k | k in g.list
      ensures 1 <= k < i + 1 && k < |es| && Covers(g.datum, es[k])
    {
      if k in h.list {
        GrowCovers(es, h, i, es[k]);
      }
    }
    forall d: nat
      ensures Touched(es, seed, g, d)
    {
      GrowTouched(es, seed, h, i, d);
    }
  }

  lemma PlaceOneIs(rule: Rule, es: seq<Box>, s1: nat, s2: nat, l: Half, r: Half, i: nat)
    requires PageOk(es) && SeedRange(es, s1, s2) && 1 <= i < |es|
    requires HalfOk(es, s1, l, i) && HalfOk(es, s2, r, i)
    ensures var h := PlaceOne(rule, es, s1, s2, l, r, i); HalfOk(es, s1, h.0, i + 1) && HalfOk(es, s2, h.1, i + 1)
  {
    if i == s1 {
      SeedPlaced(es, l, i);
      OtherSkipped(es, s2, r, i);
    } else if i == s2 {
      SeedPlaced(es, r, i);
      OtherSkipped(es, s1, l, i);
    } else if rule(l, r, es[i]) {
      Grown(es, s1, l, i);
      OtherSkipped(es, s2, r, i);
    } else {
      Grown(es, s2, r, i);
      OtherSkipped(es, s1, l, i);
    }
  }

  lemma PartedOne(rule: Rule, es: seq<Box>, s1: nat, s2: nat, l: Half, r: Half, i: nat)
    requires AllValid(es) && l.datum.Valid() && r.datum.Valid() && i < |es| && Parted(l.list, r.list, i)
    requires i !in l.list && i !in r.list
    ensures var h := PlaceOne(rule, es, s1, s2, l, r, i); Parted(h.0.list, h.1.list, i + 1)
  {
    PartedAppend(l.list, r.list, i);
  }

  lemma PartedAppend(l: seq<nat>, r: seq<nat>, i: nat)
    requires Parted(l, r, i) && i !in l && i !in r
    ensures Parted(l + [i], r, i + 1) && Parted(l, r + [i], i + 1)
  {
  }

  lemma PlacingStarts(es: seq<Box>, seed: nat)
    requires AllValid(es) && 1 <= seed < |es|
    ensures HalfOk(es, seed, Half([], es[seed]), 1)
  {
    forall d: nat
      ensures Touched(es, seed, Half([], es[seed]), d)
    {
    }
  }

  /** At every point of the distribution, whatever the rule: both halves are exact hulls of increasing lists, and
      the lists part the entries placed so far between them. */
  lemma {:induction false} PlacingIs(rule: Rule, es: seq<Box>, s1: nat, s2: nat, hs: seq<(Half, Half)>, k: nat)
    requires Placing(rule, es, s1, s2, hs) && k < |hs|
    ensures HalfOk(es, s1, hs[k].0, k + 1) && HalfOk(es, s2, hs[k].1, k + 1)
    ensures Parted(hs[k].0.list, hs[k].1.list, k + 1)
    decreases k
  {
    if k == 0 {
      PlacingStarts(es, s1);
      PlacingStarts(es, s2);
    } else {
      PlacingIs(rule, es, s1, s2, hs, k - 1);
      assert PlacedAt(rule, es, s1, s2, hs, k);
      PlaceOneIs(rule, es, s1, s2, hs[k - 1].0, hs[k - 1].1, k);
      PartedOne(rule, es, s1, s2, hs[k - 1].0, hs[k - 1].1, k);
    }
  }

  /** A half is nonempty, increasing, and its datum is the least box around its entries. */
  ghost predicate HalfExact(es: seq<Box>, h: Half)
    requires AllValid(es)
  {
    && h.list != [] && Increasing(h.list) && (forall k :: k in h.list ==> 1 <= k < |es|)
    && h.datum.Valid()
    && Hull(h.datum, seq(|h.list|, k requires 0 <= k < |h.list| => if h.list[k] < |es| then es[h.list[k]] else h.datum))
  }

  lemma HalfIsExact(es: seq<Box>, seed: nat, h: Half)
    requires AllValid(es) && seed < |es| && HalfOk(es, seed, h, |es|)
    ensures HalfExact(es, h)
  {
    var bs := seq(|h.list|, k requires 0 <= k < |h.list| => if h.list[k] < |es| then es[h.list[k]] else h.datum);
    forall k | 0 <= k < |bs|
      ensures bs[k].Valid() && Covers(h.datum, bs[k])
    {
      assert h.list[k] in h.list;
    }
    forall d: nat
      ensures Attained(h.datum, bs, d)
    {
      assert Touched(es, seed, h, d);
      var m := if Lo(h.datum, d) == Lo(es[seed], d) then seed else Reaching(es, h, d, true);
      var k :| 0 <= k < |h.list| && h.list[k] == m;
      assert Lo(h.datum, d) == Lo(bs[k], d);
      var n := if Hi(h.datum, d) == Hi(es[seed], d) then seed else Reaching(es, h, d, false);
      var j :| 0 <= j < |h.list| && h.list[j] == n;
      assert Hi(h.datum, d) == Hi(bs[j], d);
    }
  }

  ghost function Reaching(es: seq<Box>, h: Half, d: nat, low: bool): (k: nat)
    requires AllValid(es) && h.datum.Valid()
    requires low ==> exists k :: k in h.list && k < |es| && Lo(h.datum, d) == Lo(es[k], d)
    requires !low ==> exists k :: k in h.list && k < |es| && Hi(h.datum, d) == Hi(es[k], d)
    ensures k in h.list && k < |es|
    ensures if low then Lo(h.datum, d) == Lo(es[k], d) else Hi(h.datum, d) == Hi(es[k], d)
  {
    if low then var k :| k in h.list && k < |es| && Lo(h.datum, d) == Lo(es[k], d); k
    else var k :| k in h.list && k < |es| && Hi(h.datum, d) == Hi(es[k], d); k
  }

  /** The split parts the page into two nonempty increasing lists, each with its exact hull. */
  lemma SplitIs(rule: Rule, es: seq<Box>, s1: nat, s2: nat, hs: seq<(Half, Half)>)
    requires Placing(rule, es, s1, s2, hs) && |hs| == |es|
    ensures var h := hs[|es| - 1];
            HalfExact(es, h.0) && HalfExact(es, h.1) && Parted(h.0.list, h.1.list, |es|)
  {
    PlacingIs(rule, es, s1, s2, hs, |es| - 1);
    HalfIsExact(es, s1, hs[|es| - 1].0);
    HalfIsExact(es, s2, hs[|es| - 1].1);
  }

  /** One side of a split under way: an array with room for every entry and the sentinel. */
  class Side {
    const list: array<nat>
    var n: nat
    var datum: Box
    var size: real

    constructor (room: nat, seed: Box)
      requires seed.Valid()
      ensures fresh(list) && list.Length == room && n == 0 && datum == seed && size == Size(seed)
    {
      list := new nat[room];
      n, datum, size := 0, seed, Size(seed);
    }

    ghost predicate Shows(h: Half)
      reads this, list
    {
      n <= list.Length && list[..n] == h.list && datum == h.datum && datum.Valid() && size == Size(datum)
    }

    method Close(ghost h: Half)
      requires Shows(h) && n < list.Length
      modifies list
      ensures Shows(h) && list[n] == 1
    {
      list[n] := 1;
    }

    method Append(i: nat)
      requires n < list.Length
      modifies this`n, list
      ensures n == old(n) + 1 && list[..n] == old(list[..n]) + [i]
    {
      list[n] := i;
      n := n + 1;
    }
  }

  /** The two sides, seen while entry i is about to be placed. */
  ghost predicate Showing(es: seq<Box>, l: Side, r: Side, left: Half, right: Half, i: nat)
    reads l, l.list, r, r.list
  {
    && l.Shows(left) && r.Shows(right) && l != r && l.list != r.list
    && l.list.Length == r.list.Length == |es|
    && l.n + 1 <= i && r.n + 1 <= i
  }

  method PlaceOther(es: seq<Box>, l: Side, r: Side, i: nat, ghost left: Half, ghost right: Half)
    requires AllValid(es) && 1 <= i < |es| && Showing(es, l, r, left, right, i)
    modifies l, l.list, r, r.list
    ensures if Enlargement(left, es[i]) < Enlargement(right, es[i])
            then Showing(es, l, r, Grow(es, left, i), right, i + 1)
            else Showing(es, l, r, left, Grow(es, right, i), i + 1)
  {
    var unionL := Union(l.datum, es[i], false);
    var unionR := Union(r.datum, es[i], false);
    var sizeAlpha := BoxSize(unionL);
    var sizeBeta := BoxSize(unionR);
    if sizeAlpha - l.size < sizeBeta - r.size {
      l.datum, l.size := unionL, sizeAlpha;
      l.Append(i);
    } else {
      r.datum, r.size := unionR, sizeBeta;
      r.Append(i);
    }
  }

  /** One turn of the placing loop. */
  method PlaceEntry(es: seq<Box>, s1: nat, s2: nat, l: Side, r: Side, i: nat, ghost left: Half, ghost right: Half)
    returns (ghost h: (Half, Half))
    requires AllValid(es) && 1 <= i < |es| && Showing(es, l, r, left, right, i)
    modifies l, l.list, r, r.list
    ensures left.datum.Valid() && right.datum.Valid()
    ensures h == PlaceOne(LeastEnlargement(), es, s1, s2, left, right, i)
    ensures Showing(es, l, r, h.0, h.1, i + 1)
  {
    h := PlaceOne(LeastEnlargement(), es, s1, s2, left, right, i);
    if i == s1 {
      l.Append(i);
    } else if i == s2 {
      r.Append(i);
    } else {
      PlaceOther(es, l, r, i, left, right);
    }
  }

  method PlaceAll(es: seq<Box>, s1: nat, s2: nat) returns (l: Side, r: Side, ghost hs: seq<(Half, Half)>)
    requires PageOk(es) && SeedRange(es, s1, s2)
    ensures Placing(LeastEnlargement(), es, s1, s2, hs) && |hs| == |es|
    ensures l.Shows(hs[|es| - 1].0) && r.Shows(hs[|es| - 1].1)
    ensures l.n < l.list.Length && l.list[l.n] == 1 && r.n < r.list.Length && r.list[r.n] == 1
  {
    l := new Side(|es|, es[s1]);
    r := new Side(|es|, es[s2]);
    hs := PlaceLoop(es, s1, s2, l, r);
    l.Close(hs[|es| - 1].0);
    r.Close(hs[|es| - 1].1);
  }

  method PlaceLoop(es: seq<Box>, s1: nat, s2: nat, l: Side, r: Side) returns (ghost hs: seq<(Half, Half)>)
    requires PageOk(es) && SeedRange(es, s1, s2)
    requires Showing(es, l, r, Half([], es[s1]), Half([], es[s2]), 1)
    modifies l, l.list, r, r.list
    ensures Placing(LeastEnlargement(), es, s1, s2, hs) && |hs| == |es|
    ensures Showing(es, l, r, hs[|es| - 1].0, hs[|es| - 1].1, |es|)
  {
    hs := [(Half([], es[s1]), Half([], es[s2]))];
    for i := 1 to |es|
      invariant |hs| == i && Placing(LeastEnlargement(), es, s1, s2, hs)
      invariant Showing(es, l, r, hs[i - 1].0, hs[i - 1].1, i)
    {
      ghost var h := PlaceEntry(es, s1, s2, l, r, i, hs[i - 1].0, hs[i - 1].1);
      PlacingExtends(LeastEnlargement(), es, s1, s2, hs, h);
      hs := hs + [h];
    }
  }

  lemma PlacingExtends(rule: Rule, es: seq<Box>, s1: nat, s2: nat, hs: seq<(Half, Half)>, h: (Half, Half))
    requires Placing(rule, es, s1, s2, hs) && |hs| < |es|
    requires var k := |hs|;
             && hs[k - 1].0.datum.Valid() && hs[k - 1].1.datum.Valid()
             && h == PlaceOne(rule, es, s1, s2, hs[k - 1].0, hs[k - 1].1, k)
    ensures Placing(rule, es, s1, s2, hs + [h])
  {
    var gs := hs + [h];
    forall k | 1 <= k < |gs|
      ensures PlacedAt(rule, es, s1, s2, gs, k)
    {
      if k < |hs| {
        assert PlacedAt(rule, es, s1, s2, hs, k);
        assert gs[k] == hs[k] && gs[k - 1] == hs[k - 1];
      }
    }
  }

  /** g_cube_picksplit: the seeds waste most, every other entry goes where it enlarges less, the lists part the page
      and stay within their arrays with the sentinel behind them, and each datum is the hull of its list. */
  method PickSplit(es: seq<Box>)
    returns (l: Side, r: Side, ghost s1: nat, ghost s2: nat, ghost hs: seq<(Half, Half)>)
    requires PageOk(es)
    ensures SeedRange(es, s1, s2) && Wasteful(WasteOf(es), |es| - 2, s1, s2, |es| - 2, |es| - 1)
    ensures Placing(LeastEnlargement(), es, s1, s2, hs) && |hs| == |es|
    ensures l.Shows(hs[|es| - 1].0) && r.Shows(hs[|es| - 1].1)
    ensures l.n < l.list.Length && l.list[l.n] == 1 && r.n < r.list.Length && r.list[r.n] == 1
    ensures HalfExact(es, Half(l.list[..l.n], l.datum)) && HalfExact(es, Half(r.list[..r.n], r.datum))
    ensures Parted(l.list[..l.n], r.list[..r.n], |es|)
  {
    var seed1, seed2 := PickSeeds(es);
    s1, s2 := seed1, seed2;
    l, r, hs := PlaceAll(es, seed1, seed2);
    SplitIs(LeastEnlargement(), es, s1, s2, hs);
  }
}
