/** The posting-tree check of contrib/amcheck/verify_gin.c. */
module PostingTree {

  /** A tuple identifier, ordered by block and then offset; one with offset zero is no valid pointer. As a downlink
      key it means that nothing bounds the child. */
  datatype Tid = Tid(block: nat, offset: nat)

  predicate Finite(k: Tid) {
    k.offset != 0
  }

  /** ItemPointerCompare(a, b) <= 0. */
  predicate Leq(a: Tid, b: Tid) {
    a.block < b.block || (a.block == b.block && a.offset <= b.offset)
  }

  /** A page and everything below it. An inner page holds pd_lower, whether it is the last of its level, its right
      bound, and its downlinks. */
  datatype Tree = Leaf(tids: seq<Tid>) | Inner(lower: nat, last: bool, bound: Tid, items: seq<Item>)
  datatype Item = Item(key: Tid, child: Tree)

  /** pd_lower agrees with the number of items: a page header, the right bound and ten bytes an item. */
  predicate LowerOk(lower: nat, n: nat) {
    lower >= 32 && (lower - 32) / 10 == n
  }

  predicate ItemOk(t: Tree, key: Tid, i: nat)
    requires t.Inner? && i < |t.items|
  {
    && (if i == |t.items| - 1 && t.last then t.items[i].key == Tid(0, 0)
        else i == 0 || Leq(t.items[i - 1].key, t.items[i].key))
    && (i == |t.items| - 1 && Finite(key) ==> Leq(t.items[i].key, key))
  }

  /** The tests on a page reached through a downlink with the given key. */
  predicate PageOk(t: Tree, key: Tid) {
    match t
    case Leaf(tids) => Finite(key) && tids != [] ==> Leq(tids[|tids| - 1], key)
    case Inner(lower, last, bound, items) =>
      && LowerOk(lower, |items|)
      && (Finite(key) && !last ==> bound == key)
      && forall i :: 0 <= i < |items| ==> ItemOk(t, key, i)
  }

  predicate AllPagesOk(t: Tree, key: Tid)
    decreases t
  {
    PageOk(t, key) && (t.Inner? ==> forall i :: 0 <= i < |t.items| ==> AllPagesOk(t.items[i].child, t.items[i].key))
  }

  /** t has a leaf d levels down. */
  ghost predicate LeafAt(t: Tree, d: int)
    decreases t
  {
    match t
    case Leaf(_) => d == 0
    case Inner(_, _, _, items) => exists i :: 0 <= i < |items| && LeafAt(items[i].child, d - 1)
  }

  ghost predicate OneDepth(t: Tree) {
    forall c, d :: LeafAt(t, c) && LeafAt(t, d) ==> c == d
  }

  // ---------------------------------------------------------------- the traversal

  datatype Entry = Entry(depth: nat, key: Tid, tree: Tree)

  function Weight(t: Tree): nat
    decreases t, 0
  {
    match t
    case Leaf(_) => 1
    case Inner(_, _, _, items) => 1 + ItemsWeight(items, |items|)
  }

  function ItemsWeight(items: seq<Item>, n: nat): nat
    requires n <= |items|
    decreases items, n
  {
    if n == 0 then 0
    else
      assert items[n - 1].child < items[n - 1];
      ItemsWeight(items, n - 1) + Weight(items[n - 1].child)
  }

  function StackWeight(st: seq<Entry>): nat {
    if st == [] then 0 else Weight(st[0].tree) + StackWeight(st[1..])
  }

  /** Some leaf still to be seen, or one already seen, is at depth d. */
  ghost predicate SeenAt(st: seq<Entry>, leafdepth: int, d: int) {
    (leafdepth >= 0 && d == leafdepth) || exists e :: e in st && LeafAt(e.tree, d - e.depth)
  }

  /** What remains to be checked is in order, and agrees with the leaf depth seen so far. */
  ghost predicate InOrder(st: seq<Entry>, leafdepth: int) {
    && (forall e :: e in st ==> AllPagesOk(e.tree, e.key))
    && (forall c, d :: SeenAt(st, leafdepth, c) && SeenAt(st, leafdepth, d) ==> c == d)
  }

  /** The entries of the first n downlinks of a page on top of a stack, last first. */
  function Pushed(e: Entry, n: nat, st: seq<Entry>): seq<Entry>
    requires e.tree.Inner? && n <= |e.tree.items|
  {
    if n == 0 then st
    else [Entry(e.depth + 1, e.tree.items[n - 1].key, e.tree.items[n - 1].child)] + Pushed(e, n - 1, st)
  }

  lemma {:induction false} PushedIs(e: Entry, n: nat, st: seq<Entry>, f: Entry)
    requires e.tree.Inner? && n <= |e.tree.items|
    ensures f in Pushed(e, n, st) <==> f in st || IsKid(e, n, f)
  {
    if n > 0 {
      PushedIs(e, n - 1, st, f);
      var top := Entry(e.depth + 1, e.tree.items[n - 1].key, e.tree.items[n - 1].child);
      assert f in Pushed(e, n, st) <==> f == top || f in Pushed(e, n - 1, st);
      assert KidAt(e, n - 1, f) <==> f == top;
    }
  }

  lemma {:induction false} PushedWeight(e: Entry, n: nat, st: seq<Entry>)
    requires e.tree.Inner? && n <= |e.tree.items|
    ensures StackWeight(Pushed(e, n, st)) == StackWeight(st) + ItemsWeight(e.tree.items, n)
  {
    if n > 0 {
      PushedWeight(e, n - 1, st);
      assert Pushed(e, n, st)[1..] == Pushed(e, n - 1, st);
    }
  }

  predicate KidAt(e: Entry, i: nat, f: Entry)
    requires e.tree.Inner? && i < |e.tree.items|
  {
    f == Entry(e.depth + 1, e.tree.items[i].key, e.tree.items[i].child)
  }

  predicate IsKid(e: Entry, n: nat, f: Entry)
    requires e.tree.Inner? && n <= |e.tree.items|
  {
    exists i :: 0 <= i < n && KidAt(e, i, f)
  }

  lemma {:induction false} InnerStep(e: Entry, rest: seq<Entry>, leafdepth: int)
    requires e.tree.Inner?
    ensures InOrder([e] + rest, leafdepth) <==>
              PageOk(e.tree, e.key) && InOrder(Pushed(e, |e.tree.items|, rest), leafdepth)
  {
    var n := |e.tree.items|;
    var st, st' := [e] + rest, Pushed(e, n, rest);
    forall f
      ensures f in st' <==> f in rest || IsKid(e, n, f)
    {
      PushedIs(e, n, rest, f);
    }
    InnerPages(e, rest, st');
    forall d
      ensures SeenAt(st, leafdepth, d) <==> SeenAt(st', leafdepth, d)
    {
      InnerDepths(e, rest, st', leafdepth, d);
    }
  }

  lemma InnerPages(e: Entry, rest: seq<Entry>, st': seq<Entry>)
    requires e.tree.Inner? && forall f :: f in st' <==> f in rest || IsKid(e, |e.tree.items|, f)
    ensures (forall f :: f in [e] + rest ==> AllPagesOk(f.tree, f.key))
            <==> PageOk(e.tree, e.key) && forall f :: f in st' ==> AllPagesOk(f.tree, f.key)
  {
    var items := e.tree.items;
    if forall f :: f in st' ==> AllPagesOk(f.tree, f.key) {
      forall i | 0 <= i < |items|
        ensures AllPagesOk(items[i].child, items[i].key)
      {
        assert KidAt(e, i, Entry(e.depth + 1, items[i].key, items[i].child));
      }
    }
    if forall f :: f in [e] + rest ==> AllPagesOk(f.tree, f.key) {
      assert e in [e] + rest;
      forall f | f in st'
        ensures AllPagesOk(f.tree, f.key)
      {
        if f in rest {
          assert f in [e] + rest;
        } else {
          var i :| 0 <= i < |items| && KidAt(e, i, f);
        }
      }
    }
  }

  lemma InnerDepths(e: Entry, rest: seq<Entry>, st': seq<Entry>, leafdepth: int, d: int)
    requires e.tree.Inner? && forall f :: f in st' <==> f in rest || IsKid(e, |e.tree.items|, f)
    ensures SeenAt([e] + rest, leafdepth, d) <==> SeenAt(st', leafdepth, d)
  {
    var items := e.tree.items;
    if LeafAt(e.tree, d - e.depth) {
      var i :| 0 <= i < |items| && LeafAt(items[i].child, d - e.depth - 1);
      var f := Entry(e.depth + 1, items[i].key, items[i].child);
      assert KidAt(e, i, f) && f in st';
    }
    forall f | f in st' && LeafAt(f.tree, d - f.depth)
      ensures SeenAt([e] + rest, leafdepth, d)
    {
      if f in rest {
        assert f in [e] + rest;
      } else {
        var i :| 0 <= i < |items| && KidAt(e, i, f);
        assert LeafAt(items[i].child, d - e.depth - 1);
        assert e in [e] + rest && LeafAt(e.tree, d - e.depth);
      }
    }
  }

  lemma LeafStep(e: Entry, rest: seq<Entry>, leafdepth: int)
    requires e.tree.Leaf? && leafdepth >= -1
    ensures InOrder([e] + rest, leafdepth) <==>
              PageOk(e.tree, e.key) && (leafdepth == -1 || e.depth == leafdepth) && InOrder(rest, e.depth)
  {
    var st := [e] + rest;
    assert e in st;
    assert LeafAt(e.tree, e.depth - e.depth);
    assert SeenAt(st, leafdepth, e.depth) && SeenAt(rest, e.depth, e.depth);
    if leafdepth >= 0 {
      assert SeenAt(st, leafdepth, leafdepth);
    }
    forall d | leafdepth == -1 || e.depth == leafdepth
      ensures SeenAt(st, leafdepth, d) <==> SeenAt(rest, e.depth, d)
    {
      forall f | f in rest && LeafAt(f.tree, d - f.depth)
        ensures SeenAt(st, leafdepth, d)
      {
        assert f in st;
      }
    }
  }

  /** One inner page: its own tests, then its items in order, each pushed once it passes. */
  method VisitInner(e: Entry, rest: seq<Entry>) returns (ok: bool, st: seq<Entry>)
    requires e.tree.Inner?
    ensures ok <==> PageOk(e.tree, e.key)
    ensures ok ==> st == Pushed(e, |e.tree.items|, rest)
  {
    var t := e.tree;
    st := rest;
    if !LowerOk(t.lower, |t.items|) {
      return false, st;
    }
    if Finite(e.key) && !t.last && e.key != t.bound {
      return false, st;
    }
    for i := 0 to |t.items|
      invariant forall k :: 0 <= k < i ==> ItemOk(t, e.key, k)
      invariant st == Pushed(e, i, rest)
    {
      var item := t.items[i];
      if i == |t.items| - 1 && t.last {
        if item.key.block != 0 || item.key.offset != 0 {
          assert !ItemOk(t, e.key, i);
          return false, st;
        }
      } else if i != 0 {
        if !Leq(t.items[i - 1].key, item.key) {
          assert !ItemOk(t, e.key, i);
          return false, st;
        }
      }
      if i == |t.items| - 1 && Finite(e.key) && !Leq(item.key, e.key) {
        assert !ItemOk(t, e.key, i);
        return false, st;
      }
      st := [Entry(e.depth + 1, item.key, item.child)] + st;
    }
    return true, st;
  }

  /** The whole check, with its stack and the depth of the first leaf. It raises nothing exactly when every page
      passes its tests and all leaves are at one depth. */
  method CheckPostingTree(root: Tree) returns (ok: bool)
    ensures ok <==> AllPagesOk(root, Tid(0xFFFF_FFFF, 0)) && OneDepth(root)
  {
    var leafdepth: int := -1;
    var st := [Entry(0, Tid(0xFFFF_FFFF, 0), root)];
    Start(root);
    while st != []
      invariant leafdepth >= -1
      invariant InOrder(st, leafdepth) <==> AllPagesOk(root, Tid(0xFFFF_FFFF, 0)) && OneDepth(root)
      decreases StackWeight(st)
    {
      var e, rest := st[0], st[1..];
      assert st == [e] + rest;
      if e.tree.Leaf? {
        LeafStep(e, rest, leafdepth);
        if leafdepth == -1 {
          leafdepth := e.depth;
        } else if e.depth != leafdepth {
          return false;
        }
        var tids := e.tree.tids;
        if Finite(e.key) && |tids| > 0 && !Leq(tids[|tids| - 1], e.key) {
          return false;
        }
        st := rest;
      } else {
        InnerStep(e, rest, leafdepth);
        PushedWeight(e, |e.tree.items|, rest);
        var good;
        good, st := VisitInner(e, rest);
        if !good {
          return false;
        }
      }
    }
    return true;
  }

  lemma {:induction false} Start(root: Tree)
    ensures InOrder([Entry(0, Tid(0xFFFF_FFFF, 0), root)], -1)
            <==> AllPagesOk(root, Tid(0xFFFF_FFFF, 0)) && OneDepth(root)
  {
    var e := Entry(0, Tid(0xFFFF_FFFF, 0), root);
    assert e in [e];
    forall d
      ensures SeenAt([e], -1, d) <==> LeafAt(root, d)
    {
      assert LeafAt(root, d) ==> LeafAt(e.tree, d - e.depth);
    }
  }

  // ---------------------------------------------------------------- what passing means

  predicate Sorted(tids: seq<Tid>) {
    forall i, j :: 0 <= i < j < |tids| ==> Leq(tids[i], tids[j])
  }

  /** What GIN keeps and the check does not test: leaf lists are sorted, an open key is only ever the last of a page
      at the right edge, and pages at the right edge are only reached through open keys. */
  predicate WellShaped(t: Tree, key: Tid)
    decreases t
  {
    match t
    case Leaf(tids) => Sorted(tids)
    case Inner(_, last, _, items) =>
      && (last ==> !Finite(key))
      && (forall i :: 0 <= i < |items| ==> Finite(items[i].key) || (last && i == |items| - 1))
      && (forall i :: 0 <= i < |items| ==> WellShaped(items[i].child, items[i].key))
  }

  /** Every tid below t is at most k. */
  predicate Below(t: Tree, k: Tid)
    decreases t
  {
    match t
    case Leaf(tids) => forall i :: 0 <= i < |tids| ==> Leq(tids[i], k)
    case Inner(_, _, _, items) => forall i :: 0 <= i < |items| ==> Below(items[i].child, k)
  }

  /** Every finite key bounds everything below it, at every level. */
  predicate Bounded(t: Tree)
    decreases t
  {
    t.Inner? ==> forall i :: 0 <= i < |t.items| ==>
      (Finite(t.items[i].key) ==> Below(t.items[i].child, t.items[i].key)) && Bounded(t.items[i].child)
  }

  lemma {:induction false} BelowGrows(t: Tree, k: Tid, m: Tid)
    requires Below(t, k) && Leq(k, m)
    ensures Below(t, m)
    decreases t
  {
    if t.Inner? {
      forall i | 0 <= i < |t.items|
        ensures Below(t.items[i].child, m)
      {
        BelowGrows(t.items[i].child, k, m);
      }
    }
  }

  lemma {:induction false} KeysRise(t: Tree, key: Tid, i: nat)
    requires t.Inner? && PageOk(t, key) && !t.last && i < |t.items|
    ensures Leq(t.items[i].key, t.items[|t.items| - 1].key)
    decreases |t.items| - i
  {
    if i < |t.items| - 1 {
      KeysRise(t, key, i + 1);
      assert ItemOk(t, key, i + 1);
    }
  }

  /** A page that passes under a finite key holds nothing beyond it. */
  lemma {:induction false} PassIsBelow(t: Tree, key: Tid)
    requires AllPagesOk(t, key) && WellShaped(t, key) && Finite(key)
    ensures Below(t, key)
    decreases t
  {
    if t.Inner? {
      forall i | 0 <= i < |t.items|
        ensures Below(t.items[i].child, key)
      {
        PassIsBelow(t.items[i].child, t.items[i].key);
        KeysRise(t, key, i);
        assert ItemOk(t, key, |t.items| - 1);
        BelowGrows(t.items[i].child, t.items[i].key, key);
      }
    }
  }

  /** If the check raises nothing, every tid in every leaf is at most every finite downlink key on its path. */
  lemma {:induction false} PassIsBounded(t: Tree, key: Tid)
    requires AllPagesOk(t, key) && WellShaped(t, key)
    ensures Bounded(t)
    decreases t
  {
    if t.Inner? {
      forall i | 0 <= i < |t.items|
        ensures (Finite(t.items[i].key) ==> Below(t.items[i].child, t.items[i].key)) && Bounded(t.items[i].child)
      {
        PassIsBounded(t.items[i].child, t.items[i].key);
        if Finite(t.items[i].key) {
          PassIsBelow(t.items[i].child, t.items[i].key);
        }
      }
    }
  }
}
