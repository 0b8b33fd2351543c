/** Searching a GiST index of boxes (contrib/cube/cube.c): keys built by unions never hide an entry, and never
    overstate a distance. */
module CubeSearch {
  import opened CubeBox
  import opened Options

  /** The key's bounds enclose the box's in every dimension, missing ones being zero. */
  ghost predicate Covers(key: Box, e: Box)
    requires key.Valid() && e.Valid()
  {
    forall i: nat :: Within(key, e, i)
  }

  predicate AllValid(es: seq<Box>) {
    forall i :: 0 <= i < |es| ==> es[i].Valid()
  }

  /** Some entry has the bound the key has, in dimension i. */
  predicate Attained(key: Box, es: seq<Box>, i: nat)
    requires key.Valid() && AllValid(es)
  {
    && (exists k :: 0 <= k < |es| && Lo(key, i) == Lo(es[k], i))
    && (exists k :: 0 <= k < |es| && Hi(key, i) == Hi(es[k], i))
  }

  /** The key is the least box around the entries. */
  ghost predicate Hull(key: Box, es: seq<Box>)
    requires key.Valid() && AllValid(es)
  {
    && (forall k :: 0 <= k < |es| ==> Covers(key, es[k]))
    && (forall i: nat :: Attained(key, es, i))
  }

  lemma HullOne(e: Box)
    requires e.Valid()
    ensures Hull(e, [e])
  {
    forall i: nat
      ensures Attained(e, [e], i)
    {
      assert Lo(e, i) == Lo([e][0], i) && Hi(e, i) == Hi([e][0], i);
    }
  }

  lemma HullCovers(key: Box, es: seq<Box>, e: Box)
    requires key.Valid() && AllValid(es) && e.Valid() && Hull(key, es)
    ensures forall k :: 0 <= k < |es| ==> Covers(UnionOf(key, e), es[k])
    ensures Covers(UnionOf(key, e), e)
  {
    forall i: nat
      ensures Within(UnionOf(key, e), key, i) && Within(UnionOf(key, e), e, i)
    {
      UnionIsHull(key, e, i);
    }
    forall k | 0 <= k < |es|
      ensures Covers(UnionOf(key, e), es[k])
    {
      forall i: nat
        ensures Within(UnionOf(key, e), es[k], i)
      {
        assert Within(key, es[k], i);
      }
    }
  }

  lemma HullAttained(key: Box, es: seq<Box>, e: Box, i: nat)
    requires key.Valid() && AllValid(es) && e.Valid() && Attained(key, es, i)
    ensures Attained(UnionOf(key, e), es + [e], i)
  {
    UnionIsHull(key, e, i);
    var fs := es + [e];
    var k :| 0 <= k < |es| && Lo(key, i) == Lo(es[k], i);
    var m :| 0 <= m < |es| && Hi(key, i) == Hi(es[m], i);
    assert fs[k] == es[k] && fs[m] == es[m] && fs[|es|] == e;
  }

  /** Adding a box to a hull by a union gives the hull of them all. */
  lemma HullExtends(key: Box, es: seq<Box>, e: Box)
    requires key.Valid() && AllValid(es) && e.Valid() && Hull(key, es)
    ensures Hull(UnionOf(key, e), es + [e])
  {
    HullCovers(key, es, e);
    forall i: nat
      ensures Attained(UnionOf(key, e), es + [e], i)
    {
      HullAttained(key, es, e, i);
    }
  }

  /** g_cube_union; `same` says that the first two entries are one datum, as GiST passes a lone entry twice. With
      fewer than two entries there is no result. */
  method GistUnion(es: seq<Box>, same: bool) returns (out: Option<Box>)
    requires es != [] && AllValid(es) && (same ==> |es| >= 2 && es[0] == es[1])
    ensures out.None? <==> |es| == 1
    ensures out.Some? ==> out.value.Valid() && Hull(out.value, es)
  {
    var tmp := es[0];
    out := None;
    HullOne(es[0]);
    assert es[..1] == [es[0]];
    for i := 1 to |es|
      invariant out.None? <==> i == 1
      invariant tmp.Valid() && Hull(tmp, es[..i])
      invariant out.Some? ==> out.value == tmp
      invariant i == 1 ==> tmp == es[0]
    {
      var u := Union(tmp, es[i], same && i == 1);
      HullExtends(tmp, es[..i], es[i]);
      assert es[..i + 1] == es[..i] + [es[i]];
      if same && i == 1 {
        HullTwice(tmp);
        assert es[..2] == [tmp, tmp];
      }
      tmp := u;
      out := Some(u);
    }
    assert es[..|es|] == es;
  }

  lemma HullTwice(e: Box)
    requires e.Valid()
    ensures Hull(e, [e, e])
  {
    forall i: nat
      ensures Attained(e, [e, e], i)
    {
      assert Lo(e, i) == Lo([e, e][0], i) && Hi(e, i) == Hi([e, e][0], i);
    }
  }

  // ---------------------------------------------------------------- consistency

  datatype Strategy = Overlaps | SameAs | ContainsQuery | ContainedByQuery | Unknown

  /** g_cube_leaf_consistent. */
  ghost predicate LeafConsistent(e: Box, q: Box, st: Strategy)
    requires e.Valid() && q.Valid()
  {
    match st
    case Overlaps => Overlap(e, q)
    case SameAs => Order(e, q, 0) == 0
    case ContainsQuery => Contains(e, q)
    case ContainedByQuery => Contains(q, e)
    case Unknown => false
  }

  /** g_cube_internal_consistent. */
  ghost predicate InternalConsistent(key: Box, q: Box, st: Strategy)
    requires key.Valid() && q.Valid()
  {
    match st
    case Overlaps => Overlap(key, q)
    case SameAs => Contains(key, q)
    case ContainsQuery => Contains(key, q)
    case ContainedByQuery => Overlap(key, q)
    case Unknown => false
  }

  /** The dimensions the query has beyond the entry's all reach zero. */
  predicate ExcessReachesZero(e: Box, q: Box)
    requires e.Valid() && q.Valid()
  {
    forall i :: e.dim <= i < q.dim ==> Lo(q, i) <= 0.0 <= Hi(q, i)
  }

  lemma OverlapGrows(key: Box, e: Box, q: Box)
    requires key.Valid() && e.Valid() && q.Valid() && Covers(key, e) && Overlap(e, q)
    ensures Overlap(key, q)
  {
    forall i: nat
      ensures Meets(key, q, i)
    {
      assert Within(key, e, i) && Meets(e, q, i);
    }
  }

  lemma ContainsGrows(key: Box, e: Box, q: Box)
    requires key.Valid() && e.Valid() && q.Valid() && Covers(key, e) && Contains(e, q)
    ensures Contains(key, q)
  {
    forall i | 0 <= i < q.dim
      ensures Within(key, q, i)
    {
      assert Within(key, e, i) && Within(e, q, i);
    }
  }

  lemma ContainedMeets(e: Box, q: Box)
    requires e.Valid() && q.Valid() && Contains(q, e)
    ensures Overlap(e, q) <==> ExcessReachesZero(e, q)
  {
    forall i: nat
      ensures Meets(e, q, i) <==> (e.dim <= i < q.dim ==> Lo(q, i) <= 0.0 <= Hi(q, i))
    {
      if i < e.dim {
        assert Within(q, e, i);
      }
    }
  }

  /** An entry that satisfies the operator is never hidden by a key above it; for the contained-by operator this
      takes the query to reach zero in its excess dimensions. */
  lemma ConsistentBelow(key: Box, e: Box, q: Box, st: Strategy)
    requires key.Valid() && e.Valid() && q.Valid() && Covers(key, e) && LeafConsistent(e, q, st)
    requires st == ContainedByQuery ==> ExcessReachesZero(e, q)
    ensures InternalConsistent(key, q, st)
  {
    match st
    case Overlaps => OverlapGrows(key, e, q);
    case SameAs =>
      OrderZero(e, q);
      forall i | 0 <= i < q.dim
        ensures Within(e, q, i)
      {
      }
      ContainsGrows(key, e, q);
    case ContainsQuery => ContainsGrows(key, e, q);
    case ContainedByQuery =>
      ContainedMeets(e, q);
      OverlapGrows(key, e, q);
  }

  /** For the contained-by operator the condition is exact: without it some key around the entry hides it. */
  lemma ContainedByExact(e: Box, q: Box)
    requires e.Valid() && q.Valid() && LeafConsistent(e, q, ContainedByQuery)
    ensures (forall key: Box :: key.Valid() && Covers(key, e) ==> InternalConsistent(key, q, ContainedByQuery))
            <==> ExcessReachesZero(e, q)
  {
    ContainedMeets(e, q);
    forall key: Box | key.Valid() && Covers(key, e) && Overlap(e, q)
      ensures InternalConsistent(key, q, ContainedByQuery)
    {
      OverlapGrows(key, e, q);
    }
    assert Covers(e, e);
  }

  /** A point on the line inside a flat query two units up the second axis: the entry satisfies the operator and
      its own hull does not. */
  lemma ContainedByHidden()
    ensures var e := Box(1, true, [1.0]);
            var q := Box(2, false, [0.0, 5.0, 2.0, 6.0]);
            LeafConsistent(e, q, ContainedByQuery) && !InternalConsistent(e, q, ContainedByQuery)
  {
    var e := Box(1, true, [1.0]);
    var q := Box(2, false, [0.0, 5.0, 2.0, 6.0]);
    assert Within(q, e, 0);
    assert !Meets(e, q, 1);
  }

  // ---------------------------------------------------------------- whole searches

  datatype Tree = Leaf(entries: seq<Box>) | Node(kids: seq<Down>)
  datatype Down = Down(key: Box, child: Tree)

  function EntriesOf(ds: seq<Down>): seq<Box>
    decreases ds, 0
  {
    if ds == [] then []
    else
      assert ds[0].child < ds[0];
      Entries(ds[0].child) + EntriesOf(ds[1..])
  }

  function Entries(t: Tree): seq<Box> {
    match t
    case Leaf(es) => es
    case Node(ds) => EntriesOf(ds)
  }

  ghost predicate KidsSound(ds: seq<Down>)
    decreases ds, 0
  {
    ds == [] || (
      assert ds[0].child < ds[0];
      && ds[0].key.Valid() && TreeSound(ds[0].child)
      && (forall e :: e in Entries(ds[0].child) ==> e.Valid() && Covers(ds[0].key, e))
      && KidsSound(ds[1..]))
  }

  /** Every key covers every entry below it. */
  ghost predicate TreeSound(t: Tree) {
    match t
    case Leaf(es) => forall e :: e in es ==> e.Valid()
    case Node(ds) => KidsSound(ds)
  }

  // ---------------------------------------------------------------- keys made level by level

  /** The boxes on a page itself: the keys of its downlinks, or its entries. */
  function OnPage(t: Tree): seq<Box> {
    match t
    case Leaf(es) => es
    case Node(ds) => KeysOf(ds)
  }

  function KeysOf(ds: seq<Down>): seq<Box> {
    seq(|ds|, i requires 0 <= i < |ds| => ds[i].key)
  }

  ghost predicate CoversAll(key: Box, es: seq<Box>)
    requires key.Valid() && AllValid(es)
  {
    forall b :: b in es ==> Covers(key, b)
  }

  lemma HullCoversEach(key: Box, es: seq<Box>)
    requires key.Valid() && AllValid(es) && Hull(key, es)
    ensures CoversAll(key, es)
  {
    forall b | b in es
      ensures Covers(key, b)
    {
      var k :| 0 <= k < |es| && es[k] == b;
    }
  }

  ghost predicate KidsLayered(ds: seq<Down>)
    decreases ds, 0
  {
    ds == [] || (
      assert ds[0].child < ds[0];
      && ds[0].key.Valid() && Layered(ds[0].child) && AllValid(OnPage(ds[0].child))
      && CoversAll(ds[0].key, OnPage(ds[0].child)) && KidsLayered(ds[1..]))
  }

  /** Every key covers the boxes on the page it leads to, as their union does and goes on doing when some are
      deleted. */
  ghost predicate Layered(t: Tree) {
    match t
    case Leaf(es) => AllValid(es)
    case Node(ds) => KidsLayered(ds)
  }

  lemma CoversTransitive(a: Box, b: Box, c: Box)
    requires a.Valid() && b.Valid() && c.Valid() && Covers(a, b) && Covers(b, c)
    ensures Covers(a, c)
  {
    forall i: nat
      ensures Within(a, c, i)
    {
      assert Within(a, b, i) && Within(b, c, i);
    }
  }

  /** What covers the boxes on a page covers every entry below it. */
  lemma {:induction false} CoversBelow(key: Box, t: Tree, e: Box)
    requires key.Valid() && Layered(t) && AllValid(OnPage(t)) && CoversAll(key, OnPage(t)) && e in Entries(t)
    ensures e.Valid() && Covers(key, e)
    decreases t, 1
  {
    match t
    case Leaf(es) =>
      var k :| 0 <= k < |es| && es[k] == e;
    case Node(ds) => CoversBelowKids(key, ds, e);
  }

  lemma {:induction false} CoversBelowKids(key: Box, ds: seq<Down>, e: Box)
    requires key.Valid() && KidsLayered(ds) && AllValid(KeysOf(ds)) && CoversAll(key, KeysOf(ds)) && e in EntriesOf(ds)
    ensures e.Valid() && Covers(key, e)
    decreases ds, 0
  {
    var d := ds[0];
    assert d.child < d;
    assert KeysOf(ds)[0] == d.key && d.key in KeysOf(ds);
    if e in Entries(d.child) {
      CoversBelow(d.key, d.child, e);
      CoversTransitive(key, d.key, e);
    } else {
      assert KeysOf(ds[1..]) == KeysOf(ds)[1..];
      CoversBelowKids(key, ds[1..], e);
    }
  }

  /** Keys made of unions level by level cover every entry below them, to any depth. */
  lemma {:induction false} LayeredIsSound(t: Tree)
    requires Layered(t)
    ensures TreeSound(t)
    decreases t, 1
  {
    match t
    case Leaf(es) =>
    case Node(ds) => LayeredKidsAreSound(ds);
  }

  lemma {:induction false} LayeredKidsAreSound(ds: seq<Down>)
    requires KidsLayered(ds)
    ensures KidsSound(ds)
    decreases ds, 0
  {
    if ds != [] {
      var d := ds[0];
      assert d.child < d;
      LayeredIsSound(d.child);
      forall e | e in Entries(d.child)
        ensures e.Valid() && Covers(d.key, e)
      {
        CoversBelow(d.key, d.child, e);
      }
      LayeredKidsAreSound(ds[1..]);
    }
  }

  ghost function Keep(es: seq<Box>, f: Box -> bool): seq<Box> {
    if es == [] then [] else (if f(es[0]) then [es[0]] else []) + Keep(es[1..], f)
  }

  ghost function Satisfying(q: Box, st: Strategy): Box -> bool
    requires q.Valid()
  {
    (e: Box) => e.Valid() && LeafConsistent(e, q, st)
  }

  /** The entries that satisfy the operator, in order. */
  ghost function Select(es: seq<Box>, q: Box, st: Strategy): seq<Box>
    requires q.Valid()
  {
    Keep(es, Satisfying(q, st))
  }

  ghost function SearchKids(ds: seq<Down>, q: Box, st: Strategy): seq<Box>
    requires KidsSound(ds) && q.Valid()
    decreases ds, 0
  {
    if ds == [] then []
    else
      assert ds[0].child < ds[0];
      (if InternalConsistent(ds[0].key, q, st) then Search(ds[0].child, q, st) else []) + SearchKids(ds[1..], q, st)
  }

  /** Descends where the key is consistent, and tests each entry at the leaves. */
  ghost function Search(t: Tree, q: Box, st: Strategy): seq<Box>
    requires TreeSound(t) && q.Valid()
  {
    match t
    case Leaf(es) => Select(es, q, st)
    case Node(ds) => SearchKids(ds, q, st)
  }

  ghost predicate Searchable(es: seq<Box>, q: Box, st: Strategy)
    requires q.Valid()
  {
    forall e :: e in es ==> e.Valid() && (st == ContainedByQuery && Contains(q, e) ==> ExcessReachesZero(e, q))
  }

  lemma {:induction false} KeepAppend(a: seq<Box>, b: seq<Box>, f: Box -> bool)
    ensures Keep(a + b, f) == Keep(a, f) + Keep(b, f)
  {
    if a == [] {
      assert a + b == b;
    } else {
      var ab, first := a + b, if f(a[0]) then [a[0]] else [];
      assert ab[0] == a[0] && ab[1..] == a[1..] + b;
      KeepAppend(a[1..], b, f);
      assert first + (Keep(a[1..], f) + Keep(b, f)) == (first + Keep(a[1..], f)) + Keep(b, f);
    }
  }

  lemma {:induction false} KeepNone(es: seq<Box>, f: Box -> bool)
    requires forall e :: e in es ==> !f(e)
    ensures Keep(es, f) == []
  {
    if es != [] {
      KeepNone(es[1..], f);
    }
  }

  /** A search returns exactly the entries that satisfy the operator, in index order. */
  lemma {:induction false} SearchIsFilter(t: Tree, q: Box, st: Strategy)
    requires TreeSound(t) && q.Valid() && Searchable(Entries(t), q, st)
    ensures Search(t, q, st) == Select(Entries(t), q, st)
    decreases t, 1
  {
    if t.Node? {
      SearchKidsIsFilter(t.kids, q, st);
    }
  }

  lemma {:induction false} SearchKidsIsFilter(ds: seq<Down>, q: Box, st: Strategy)
    requires KidsSound(ds) && q.Valid() && Searchable(EntriesOf(ds), q, st)
    ensures SearchKids(ds, q, st) == Select(EntriesOf(ds), q, st)
    decreases ds, 0
  {
    if ds != [] {
      assert ds[0].child < ds[0];
      var below, rest := Entries(ds[0].child), EntriesOf(ds[1..]);
      assert EntriesOf(ds) == below + rest;
      SearchIsFilter(ds[0].child, q, st);
      SearchKidsIsFilter(ds[1..], q, st);
      KeepAppend(below, rest, Satisfying(q, st));
      if !InternalConsistent(ds[0].key, q, st) {
        forall e | e in below
          ensures !LeafConsistent(e, q, st)
        {
          if LeafConsistent(e, q, st) {
            ConsistentBelow(ds[0].key, e, q, st);
          }
        }
        KeepNone(below, Satisfying(q, st));
      }
    }
  }
}
