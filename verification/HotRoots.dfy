/** Where the update chains of a page that passes verify_heapam begin (contrib/amcheck/verify_heapam.c). */
module HotRoots {
  import opened HotChain

  /** What a chain may start with: a redirect or a tuple that is not heap-only. */
  predicate Root(p: Page, i: nat) {
    Usable(p, i) && (p.items[i].Redirect? || !p.items[i].header.heapOnly)
  }

  predicate HeapOnly(p: Page, i: nat) {
    IsTuple(p, i) && p.items[i].header.heapOnly
  }

  /** The member n links after i; zero past the end. */
  function Walk(p: Page, i: nat, n: nat): nat
    decreases n
  {
    if n == 0 then i else if !p.Has(i) then 0 else Walk(p, Next(p, i), n - 1)
  }

  predicate Reaches(p: Page, i: nat, n: nat, j: nat) {
    Root(p, i) && Walk(p, i, n) == j
  }

  /** Some root's chain comes to j. */
  ghost predicate Rooted(p: Page, j: nat) {
    exists i: nat, n: nat :: Reaches(p, i, n, j)
  }

  predicate RingOf(p: Page, j: nat, n: nat) {
    n >= 1 && Walk(p, j, n) == j && forall k :: 0 <= k < n ==> HeapOnly(p, Walk(p, j, k))
  }

  /** j is on a closed ring of heap-only tuples. */
  ghost predicate OnRing(p: Page, j: nat) {
    exists n: nat :: RingOf(p, j, n)
  }

  /** Every heap-only tuple's xmin is known to have committed or to be in progress. */
  ghost predicate AllLive(p: Page) {
    forall i: nat :: HeapOnly(p, i) ==>
      Known(p, i) && (StatusOf(p, i).Committed? || StatusOf(p, i).InProgress?)
  }

  lemma {:induction false} WalkLast(p: Page, i: nat, n: nat)
    ensures Walk(p, i, n + 1) == if p.Has(Walk(p, i, n)) then Next(p, Walk(p, i, n)) else 0
    decreases n
  {
    if n > 0 && p.Has(i) {
      WalkLast(p, Next(p, i), n - 1);
    }
  }

  // ---------------------------------------------------------------- backwards along a chain

  /** bs leads backwards from its first member, over heap-only tuples. */
  ghost predicate Trail(p: Page, bs: seq<nat>) {
    && bs != []
    && (forall k :: 0 <= k < |bs| ==> HeapOnly(p, bs[k]))
    && (forall k :: 0 <= k < |bs| - 1 ==> Linked(p, bs[k + 1], bs[k]))
  }

  lemma {:induction false} TrailWalk(p: Page, bs: seq<nat>, m: nat, k: nat)
    requires Trail(p, bs) && m <= |bs| - 1 && k <= m
    ensures Walk(p, bs[m], k) == bs[m - k]
    decreases k
  {
    if k > 0 {
      assert Linked(p, bs[m - 1 + 1], bs[m - 1]);
      TrailWalk(p, bs, m - 1, k - 1);
    }
  }

  /** The way back from j ends at a heap-only tuple that nothing on the page links to. */
  ghost predicate Orphaned(p: Page, j: nat) {
    exists bs: seq<nat> :: Trail(p, bs) && bs[0] == j && !HasPredecessor(p, bs[|bs| - 1])
  }

  /** While the way back from j does not end, it goes on for ever. */
  lemma {:induction false} MakeTrail(p: Page, j: nat, n: nat) returns (bs: seq<nat>)
    requires HeapOnly(p, j) && !Rooted(p, j) && !Orphaned(p, j)
    ensures |bs| == n + 1 && bs[0] == j && Trail(p, bs)
  {
    if n == 0 {
      bs := [j];
    } else {
      var cs := MakeTrail(p, j, n - 1);
      assert HasPredecessor(p, cs[n - 1]);
      var i: nat :| Linked(p, i, cs[n - 1]);
      if Root(p, i) {
        TrailWalk(p, cs, n - 1, n - 1);
        assert Reaches(p, i, n, j);
      }
      bs := cs + [i];
      forall k | 0 <= k < n
        ensures Linked(p, bs[k + 1], bs[k])
      {
        assert k < n - 1 ==> Linked(p, cs[k + 1], cs[k]);
      }
    }
  }

  /** Among more numbers below n than n, two are equal. */
  lemma {:induction false} Pigeonhole(s: seq<nat>, n: nat) returns (a: nat, b: nat)
    requires |s| > n && forall k :: 0 <= k < |s| ==> s[k] < n
    ensures a < b < |s| && s[a] == s[b]
    decreases n
  {
    if n - 1 !in s {
      assert s[0] < n;
      a, b := Pigeonhole(s, n - 1);
    } else {
      var i :| 0 <= i < |s| && s[i] == n - 1;
      var t := s[..i] + s[i + 1..];
      if n - 1 in t {
        var k :| 0 <= k < |t| && t[k] == n - 1;
        var k' := if k < i then k else k + 1;
        assert s[k'] == n - 1;
        a, b := if k < i then k else i, if k < i then i else k';
      } else {
        a, b := Pigeonhole(t, n - 1);
        a, b := if a < i then a else a + 1, if b < i then b else b + 1;
      }
    }
  }

  /** Equal members of a trail are equally far from it forwards too. */
  lemma {:induction false} Rewind(p: Page, bs: seq<nat>, a: nat, b: nat)
    requires Trail(p, bs) && a <= b < |bs| && bs[a] == bs[b]
    ensures bs[0] == bs[b - a]
    decreases a
  {
    if a > 0 {
      assert Linked(p, bs[a - 1 + 1], bs[a - 1]) && Linked(p, bs[b - 1 + 1], bs[b - 1]);
      Rewind(p, bs, a - 1, b - 1);
    }
  }

  lemma UnrootedIsOnRing(p: Page, j: nat)
    requires p.Valid() && HeapOnly(p, j) && !Rooted(p, j) && !Orphaned(p, j)
    ensures OnRing(p, j)
  {
    var bs := MakeTrail(p, j, |p.items|);
    var a, b := Pigeonhole(bs, |p.items|);
    Rewind(p, bs, a, b);
    var n := b - a;
    forall k | 0 <= k <= n
      ensures Walk(p, j, k) == bs[n - k]
    {
      TrailWalk(p, bs, n, k);
    }
    assert RingOf(p, j, n);
  }

  // ---------------------------------------------------------------- and rings have no way in

  lemma {:induction false} RingBefore(p: Page, j: nat, n: nat, k: nat, i: nat)
    requires Sound(p) && RingOf(p, j, n) && k < n && Linked(p, i, Walk(p, j, k))
    ensures exists m :: 0 <= m < n && i == Walk(p, j, m)
  {
    var m := if k == 0 then n - 1 else k - 1;
    WalkLast(p, j, m);
    assert HeapOnly(p, Walk(p, j, m));
    assert Linked(p, Walk(p, j, m), Walk(p, j, k));
  }

  lemma {:induction false} LeadsFromRing(p: Page, j: nat, n: nat, i: nat, m: nat)
    requires Sound(p) && RingOf(p, j, n) && Walk(p, i, m) == j
    ensures exists k :: 0 <= k < n && i == Walk(p, j, k)
    decreases m
  {
    if m == 0 {
      assert i == Walk(p, j, 0);
    } else {
      assert HeapOnly(p, Walk(p, j, 0));
      LeadsFromRing(p, j, n, Next(p, i), m - 1);
      var k :| 0 <= k < n && Next(p, i) == Walk(p, j, k);
      assert HeapOnly(p, Walk(p, j, k));
      RingBefore(p, j, n, k, i);
    }
  }

  lemma RingHasNoWayIn(p: Page, j: nat, n: nat, i: nat, m: nat)
    requires Sound(p) && RingOf(p, j, n)
    ensures !Reaches(p, i, m, j)
  {
    if Walk(p, i, m) == j {
      LeadsFromRing(p, j, n, i, m);
      var k :| 0 <= k < n && i == Walk(p, j, k);
      assert HeapOnly(p, Walk(p, j, k));
    }
  }

  // ---------------------------------------------------------------- nor have orphans

  /** Any walk to the start of a trail came along the trail. */
  lemma {:induction false} BackAlong(p: Page, bs: seq<nat>, i: nat, m: nat, k: nat)
    requires Sound(p) && Trail(p, bs) && Walk(p, i, m) == bs[0] && k <= m && k < |bs|
    ensures Walk(p, i, m - k) == bs[k]
    decreases k
  {
    if k > 0 {
      BackAlong(p, bs, i, m, k - 1);
      WalkLast(p, i, m - k);
      assert Linked(p, bs[k - 1 + 1], bs[k - 1]);
      assert Linked(p, Walk(p, i, m - k), bs[k - 1]);
    }
  }

  lemma OrphanHasNoWayIn(p: Page, bs: seq<nat>, i: nat, m: nat)
    requires Sound(p) && Trail(p, bs) && !HasPredecessor(p, bs[|bs| - 1])
    ensures !Reaches(p, i, m, bs[0])
  {
    if Reaches(p, i, m, bs[0]) {
      var e := |bs| - 1;
      if m <= e {
        BackAlong(p, bs, i, m, m);
      } else {
        BackAlong(p, bs, i, m, e);
        WalkLast(p, i, m - e - 1);
        assert HeapOnly(p, bs[e]);
        assert Linked(p, Walk(p, i, m - e - 1), bs[e]);
      }
    }
  }

  /** On a page that passes, a heap-only tuple belongs to a chain that starts at a root unless it is on a ring or the
      way back from it ends at a heap-only tuple without predecessor, and then to none. */
  lemma ChainsStartAtRoots(p: Page, j: nat)
    requires p.Valid() && Sound(p) && HeapOnly(p, j)
    ensures Rooted(p, j) <==> !OnRing(p, j) && !Orphaned(p, j)
  {
    forall i: nat, m: nat | Reaches(p, i, m, j)
      ensures !OnRing(p, j) && !Orphaned(p, j)
    {
      if OnRing(p, j) {
        var n: nat :| RingOf(p, j, n);
        RingHasNoWayIn(p, j, n, i, m);
      }
      if Orphaned(p, j) {
        var bs: seq<nat> :| Trail(p, bs) && bs[0] == j && !HasPredecessor(p, bs[|bs| - 1]);
        OrphanHasNoWayIn(p, bs, i, m);
      }
    }
    if !OnRing(p, j) && !Orphaned(p, j) && !Rooted(p, j) {
      UnrootedIsOnRing(p, j);
    }
  }

  /** Where every heap-only tuple is known to have committed or to be in progress, no passing page has an orphan. */
  lemma NoOrphans(p: Page, j: nat)
    requires Sound(p) && AllLive(p)
    ensures !Orphaned(p, j)
  {
    forall bs: seq<nat> | Trail(p, bs)
      ensures HasPredecessor(p, bs[|bs| - 1])
    {
      assert HeapOnly(p, bs[|bs| - 1]);
    }
  }

  /** One heap-only tuple, its insertion rolled back and its predecessor gone. */
  function OrphanPage(): Page {
    Page(7, [Unused, Normal(8000, 24, Header(7, 1, 10, 0, false, true, true, Aborted, false, true))])
  }

  /** The three passes do not see an aborted orphan. */
  lemma OrphanPasses()
    ensures OrphanPage().Valid() && Sound(OrphanPage()) && HeapOnly(OrphanPage(), 1) && Orphaned(OrphanPage(), 1)
  {
    var p := OrphanPage();
    assert Next(p, 1) == 0;
    assert forall i :: !Linked(p, i, 1);
    assert Trail(p, [1]) && [1][0] == 1;
  }

  /** Two heap-only tuples, each the update of the other. */
  function RingPage(): Page {
    var first := Header(7, 2, 10, 11, true, true, true, Committed, false, true);
    var second := Header(7, 1, 11, 10, true, true, true, Committed, false, true);
    Page(7, [Unused, Normal(8000, 24, first), Normal(8032, 24, second)])
  }

  /** The three passes do not see a ring. */
  lemma RingPasses()
    ensures RingPage().Valid() && Sound(RingPage()) && AllLive(RingPage()) && OnRing(RingPage(), 1)
  {
    var p := RingPage();
    assert Next(p, 1) == 2 && Next(p, 2) == 1;
    assert Linked(p, 1, 2) && Linked(p, 2, 1);
    assert Walk(p, 1, 0) == 1 && Walk(p, 1, 1) == 2;
    assert Walk(p, 1, 2) == 1 by {
      WalkLast(p, 1, 1);
    }
    assert RingOf(p, 1, 2);
  }
}
