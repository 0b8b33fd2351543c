/** GiST keys of variable-length data (contrib/btree_gist/btree_utils_var.c) for bytea: node keys are
    (lower, upper) ranges that every union cuts to the common prefix plus two bytes. */
module VarKeys {
  import opened ByteOrder

  /** A readable key. A leaf entry holds the same value as both bounds. */
  datatype Key = Key(lower: Bytes, upper: Bytes)

  datatype Strategy = LessThan | LessEqual | Equal | GreaterEqual | Greater | NotEqual

  /** The operator a strategy stands for, on a stored value v and a query q. */
  predicate Satisfies(s: Strategy, v: Bytes, q: Bytes) {
    match s
    case LessThan => Less(v, q)
    case LessEqual => Leq(v, q)
    case Equal => v == q
    case GreaterEqual => Leq(q, v)
    case Greater => Less(q, v)
    case NotEqual => v != q
  }

  predicate Ordered(k: Key) {
    Leq(k.lower, k.upper)
  }

  /** An upper bound this long may have been cut, so it also stands for everything it is a prefix of. */
  predicate Open(k: Key) {
    CommonPrefix(k.lower, k.upper) + 2 <= |k.upper|
  }

  /** What a node key owes to every leaf value below it. */
  predicate Covers(k: Key, v: Bytes) {
    Leq(k.lower, v) && (Leq(v, k.upper) || (k.upper <= v && Open(k)))
  }

  // ---------------------------------------------------------------- operations

  function BinUnion(u: Key, e: Key): Key {
    Key(if Compare(u.lower, e.lower) > 0 then e.lower else u.lower,
        if Compare(u.upper, e.upper) < 0 then e.upper else u.upper)
  }

  /** The untruncated union of a nonempty list. */
  function Hull(es: seq<Key>): Key
    requires es != []
  {
    if |es| == 1 then es[0] else BinUnion(Hull(es[..|es| - 1]), es[|es| - 1])
  }

  function Cut(k: Key, m: nat): Key {
    Key(Take(k.lower, m), Take(k.upper, m))
  }

  function Union(es: seq<Key>): Key
    requires es != []
  {
    var h := Hull(es);
    Cut(h, CommonPrefix(h.lower, h.upper) + 2)
  }

  predicate NodePrefixMatch(k: Key, q: Bytes) {
    k.lower <= q || k.upper <= q
  }

  predicate Consistent(k: Key, q: Bytes, s: Strategy, isLeaf: bool) {
    match s
    case LessEqual =>
      if isLeaf then Compare(q, k.lower) >= 0 else Compare(q, k.lower) >= 0 || NodePrefixMatch(k, q)
    case LessThan =>
      if isLeaf then Compare(q, k.lower) > 0 else Compare(q, k.lower) >= 0 || NodePrefixMatch(k, q)
    case Equal =>
      if isLeaf then Compare(q, k.lower) == 0
      else (Compare(k.lower, q) <= 0 && Compare(q, k.upper) <= 0) || NodePrefixMatch(k, q)
    case Greater =>
      if isLeaf then Compare(q, k.upper) < 0 else Compare(q, k.upper) <= 0 || NodePrefixMatch(k, q)
    case GreaterEqual =>
      if isLeaf then Compare(q, k.upper) <= 0 else Compare(q, k.upper) <= 0 || NodePrefixMatch(k, q)
    case NotEqual =>
      !(Compare(q, k.lower) == 0 && Compare(q, k.upper) == 0)
  }

  method NodeCommonPrefix(k: Key) returns (i: nat)
    ensures i == CommonPrefix(k.lower, k.upper)
  {
    var ml := if |k.lower| < |k.upper| then |k.lower| else |k.upper|;
    i := 0;
    while i < ml
      invariant i <= ml
      invariant forall j :: 0 <= j < i ==> k.lower[j] == k.upper[j]
    {
      if k.lower[i] != k.upper[i] {
        break;
      }
      i := i + 1;
    }
    CommonPrefixIs(k.lower, k.upper, i);
  }

  method ComputeUnion(es: seq<Key>) returns (out: Key)
    requires es != []
    ensures out == Union(es)
  {
    out := es[0];
    assert es[..1] == [es[0]];
    for i := 1 to |es|
      invariant out == Hull(es[..i])
    {
      assert es[..i + 1][..i] == es[..i];
      out := BinUnion(out, es[i]);
    }
    assert es[..|es|] == es;
    var n := NodeCommonPrefix(out);
    out := Cut(out, n + 2);
  }

  // ---------------------------------------------------------------- coverage

  predicate AllOrdered(es: seq<Key>) {
    forall e :: e in es ==> Ordered(e)
  }

  lemma {:induction false} HullBounds(es: seq<Key>)
    requires es != [] && AllOrdered(es)
    ensures Ordered(Hull(es))
    ensures forall e :: e in es ==> Leq(Hull(es).lower, e.lower) && Leq(e.upper, Hull(es).upper)
  {
    var n := |es| - 1;
    var x := es[n];
    if n == 0 {
      CompareFlip(x.lower, x.lower);
      CompareFlip(x.upper, x.upper);
    } else {
      var front := es[..n];
      assert es == front + [x];
      HullBounds(front);
      var u := Hull(front);
      var h := Hull(es);
      BinUnionBounds(u, x);
      forall e | e in front
        ensures Leq(h.lower, e.lower) && Leq(e.upper, h.upper)
      {
        LeqTransitive(h.lower, u.lower, e.lower);
        LeqTransitive(e.upper, u.upper, h.upper);
      }
    }
  }

  lemma BinUnionBounds(u: Key, e: Key)
    requires Ordered(u) && Ordered(e)
    ensures var h := BinUnion(u, e);
            && Ordered(h) && Leq(h.lower, u.lower) && Leq(h.lower, e.lower)
            && Leq(u.upper, h.upper) && Leq(e.upper, h.upper)
  {
    CompareFlip(u.lower, e.lower);
    CompareFlip(u.upper, e.upper);
    CompareFlip(u.lower, u.lower);
    CompareFlip(u.upper, u.upper);
    CompareFlip(e.lower, e.lower);
    CompareFlip(e.upper, e.upper);
    var h := BinUnion(u, e);
    LeqTransitive(h.lower, u.lower, u.upper);
    LeqTransitive(h.lower, u.upper, h.upper);
  }

  /** The condition under which cutting the hull of es to m bytes loses nothing: an open upper bound is cut
      again below its own length, or only 0xFF bytes follow it in the new upper bound. */
  predicate CutSafe(es: seq<Key>, m: nat)
    requires es != []
  {
    var u := Take(Hull(es).upper, m);
    forall e :: e in es && Open(e) && e.upper <= u ==> forall j :: |e.upper| <= j < |u| ==> u[j] == 255
  }

  ghost predicate CoversAll(k: Key, es: seq<Key>) {
    forall e, v :: e in es && Covers(e, v) ==> Covers(k, v)
  }

  lemma {:induction false} CutStep(es: seq<Key>, m: nat, e: Key, v: Bytes)
    requires es != [] && AllOrdered(es) && e in es
    requires CommonPrefix(Hull(es).lower, Hull(es).upper) + 2 <= m
    requires CutSafe(es, m)
    requires Covers(e, v)
    ensures Covers(Cut(Hull(es), m), v)
  {
    HullBounds(es);
    var h := Hull(es);
    var out := Cut(h, m);
    CutKeepsCommonPrefix(h.lower, h.upper, m);
    PrefixLeq(out.lower, h.lower);
    LeqTransitive(out.lower, h.lower, e.lower);
    LeqTransitive(out.lower, e.lower, v);
    if Leq(v, e.upper) {
      LeqTransitive(v, e.upper, h.upper);
      CutUpper(v, h.upper, m);
      if !Leq(v, out.upper) {
        UncutIsExact(v, h, m);
      }
    } else {
      OpenStep(es, m, e, v);
    }
  }

  lemma UncutIsExact(v: Bytes, h: Key, m: nat)
    requires CommonPrefix(h.lower, h.upper) + 2 <= m
    requires Leq(v, h.upper) && Take(h.upper, m) <= v && !Leq(v, Take(h.upper, m))
    ensures Open(Cut(h, m))
  {
    CutKeepsCommonPrefix(h.lower, h.upper, m);
  }

  lemma {:induction false} OpenStep(es: seq<Key>, m: nat, e: Key, v: Bytes)
    requires es != [] && AllOrdered(es) && e in es
    requires CommonPrefix(Hull(es).lower, Hull(es).upper) + 2 <= m
    requires CutSafe(es, m)
    requires e.upper <= v && Open(e)
    ensures Leq(v, Cut(Hull(es), m).upper) || (Cut(Hull(es), m).upper <= v && Open(Cut(Hull(es), m)))
  {
    HullBounds(es);
    var h := Hull(es);
    var u := Take(h.upper, m);
    CutKeepsCommonPrefix(h.lower, h.upper, m);
    CommonPrefixShrinks(h.lower, e.lower, e.upper, h.upper);
    var n := CommonPrefix(v, u);
    if n == |u| {
      assert u == v[..|u|];
      if |u| < |e.upper| {
        // the cut fell inside e.upper
      } else {
        CommonPrefixIs(e.upper, h.upper, |e.upper|);
      }
    } else if n < |e.upper| {
      CommonPrefixIs(e.upper, h.upper, n);
    } else {
      assert e.upper == u[..|e.upper|];
      assert u[n] == 255;
    }
  }

  lemma LossWitness(es: seq<Key>, m: nat, e: Key, j: nat) returns (v: Bytes)
    requires es != [] && AllOrdered(es) && e in es && Open(e)
    requires var u := Take(Hull(es).upper, m); e.upper <= u && |e.upper| <= j < |u| && u[j] != 255
    ensures Covers(e, v) && !Covers(Cut(Hull(es), m), v)
  {
    var u := Take(Hull(es).upper, m);
    v := u[..j] + [255];
    assert e.upper == v[..|e.upper|];
    PrefixLeq(e.upper, v);
    LeqTransitive(e.lower, e.upper, v);
    CommonPrefixIs(v, u, j);
    assert |u| <= |v| ==> v[j] != u[j];
  }

  /** A cut at m bytes covers whatever the united keys covered exactly when CutSafe holds. */
  lemma {:induction false} CutCoverageExact(es: seq<Key>, m: nat)
    requires es != [] && AllOrdered(es)
    requires CommonPrefix(Hull(es).lower, Hull(es).upper) + 2 <= m
    ensures CoversAll(Cut(Hull(es), m), es) <==> CutSafe(es, m)
  {
    if CutSafe(es, m) {
      forall e, v | e in es && Covers(e, v)
        ensures Covers(Cut(Hull(es), m), v)
      {
        CutStep(es, m, e, v);
      }
    } else {
      var u := Take(Hull(es).upper, m);
      var e :| e in es && Open(e) && e.upper <= u && !forall j :: |e.upper| <= j < |u| ==> u[j] == 255;
      var j :| |e.upper| <= j < |u| && u[j] != 255;
      var v := LossWitness(es, m, e, j);
    }
  }

  /** The cut a union makes is always safe: gbt_var_union never loses a value its inputs cover. */
  lemma UnionCovers(es: seq<Key>)
    requires es != [] && AllOrdered(es)
    ensures Ordered(Union(es))
    ensures CoversAll(Union(es), es)
  {
    HullBounds(es);
    var h := Hull(es);
    var m := CommonPrefix(h.lower, h.upper) + 2;
    forall e | e in es && Open(e)
      ensures m <= |e.upper|
    {
      CommonPrefixShrinks(h.lower, e.lower, e.upper, h.upper);
    }
    CutCoverageExact(es, m);
    CutOrdered(h, m);
  }

  lemma CutOrdered(k: Key, m: nat)
    requires Ordered(k) && CommonPrefix(k.lower, k.upper) < m
    ensures Ordered(Cut(k, m))
  {
    CutKeepsCommonPrefix(k.lower, k.upper, m);
  }

  // ---------------------------------------------------------------- searching

  /** A node whose key covers v is visited by every search v satisfies. */
  lemma ConsistentIfCovered(k: Key, v: Bytes, q: Bytes, s: Strategy)
    requires Covers(k, v) && Satisfies(s, v, q)
    ensures Consistent(k, q, s, false)
  {
    CompareFlip(q, k.lower);
    CompareFlip(q, k.upper);
    CompareFlip(v, q);
    CompareFlip(v, k.lower);
    CompareFlip(v, k.upper);
    match s {
      case LessThan => LeqTransitive(k.lower, v, q);
      case LessEqual => LeqTransitive(k.lower, v, q);
      case Equal =>
      case GreaterEqual => UpperReaches(k, v, q);
      case Greater => UpperReaches(k, v, q);
      case NotEqual => CommonPrefixIs(q, q, |q|);
    }
  }

  lemma UpperReaches(k: Key, v: Bytes, q: Bytes)
    requires Covers(k, v) && Leq(q, v)
    ensures Leq(q, k.upper) || k.upper <= q
  {
    CompareFlip(q, k.upper);
    if Leq(v, k.upper) {
      LeqTransitive(q, v, k.upper);
    } else if !Leq(q, k.upper) {
      PrefixBetween(k.upper, k.upper, q, v);
    }
  }

  lemma LeafConsistentExact(v: Bytes, q: Bytes, s: Strategy)
    ensures Consistent(Key(v, v), q, s, true) <==> Satisfies(s, v, q)
  {
    CompareFlip(q, v);
  }

  /** How a downlink key came about: stored values, unions of keys, and halves of a page split. */
  datatype History =
    | Stored(value: Bytes)
    | Joined(parts: seq<History>)
    | SplitHalf(parts: seq<History>, cut: nat)

  function Keys(hs: seq<History>): (ks: seq<Key>)
    ensures |ks| == |hs|
    ensures forall i :: 0 <= i < |hs| ==> ks[i] == KeyOf(hs[i])
    decreases hs, 1
  {
    seq(|hs|, i requires 0 <= i < |hs| => KeyOf(hs[i]))
  }

  predicate Sound(h: History) {
    match h
    case Stored(_) => true
    case Joined(parts) => parts != [] && forall p :: p in parts ==> Sound(p)
    case SplitHalf(parts, cut) =>
      && parts != []
      && (forall p :: p in parts ==> Sound(p))
      && var hull := Hull(Keys(parts));
         CommonPrefix(hull.lower, hull.upper) + 2 <= cut && CutSafe(Keys(parts), cut)
  }

  function KeyOf(h: History): Key
    decreases h, 0
  {
    match h
    case Stored(v) => Key(v, v)
    case Joined(parts) => if parts == [] then Key([], []) else Union(Keys(parts))
    case SplitHalf(parts, cut) => if parts == [] then Key([], []) else Cut(Hull(Keys(parts)), cut)
  }

  predicate Holds(h: History, v: Bytes) {
    match h
    case Stored(x) => v == x
    case Joined(parts) => exists i :: 0 <= i < |parts| && Holds(parts[i], v)
    case SplitHalf(parts, _) => exists i :: 0 <= i < |parts| && Holds(parts[i], v)
  }

  lemma {:induction false} HistoryOrdered(h: History)
    requires Sound(h)
    ensures Ordered(KeyOf(h))
    decreases h, 0
  {
    match h
    case Stored(v) => CompareFlip(v, v);
    case Joined(parts) =>
      PartsOrdered(parts);
      UnionCovers(Keys(parts));
    case SplitHalf(parts, cut) =>
      PartsOrdered(parts);
      HullBounds(Keys(parts));
      CutOrdered(Hull(Keys(parts)), cut);
  }

  lemma {:induction false} PartsOrdered(parts: seq<History>)
    requires forall p :: p in parts ==> Sound(p)
    ensures AllOrdered(Keys(parts))
    decreases parts, 1
  {
    var ks := Keys(parts);
    forall k | k in ks ensures Ordered(k) {
      var i :| 0 <= i < |ks| && ks[i] == k;
      HistoryOrdered(parts[i]);
    }
  }

  /** Through any depth of re-union and re-truncation a key covers every leaf value it was made from. */
  lemma {:induction false} HistoryCovers(h: History, v: Bytes)
    requires Sound(h) && Holds(h, v)
    ensures Covers(KeyOf(h), v)
    decreases h
  {
    if h.Stored? {
      CompareFlip(v, v);
    } else {
      var i :| 0 <= i < |h.parts| && Holds(h.parts[i], v);
      HistoryCovers(h.parts[i], v);
      PartsOrdered(h.parts);
      assert Keys(h.parts)[i] in Keys(h.parts);
      if h.Joined? {
        UnionCovers(Keys(h.parts));
      } else {
        CutCoverageExact(Keys(h.parts), h.cut);
      }
    }
  }

  datatype Tree = Page(values: seq<Bytes>) | Inner(downs: seq<Downlink>)
  datatype Downlink = Downlink(history: History, child: Tree)

  function Leaves(t: Tree): seq<Bytes>
    decreases t, 1
  {
    match t
    case Page(vs) => vs
    case Inner(ds) => LeavesOf(ds)
  }

  function LeavesOf(ds: seq<Downlink>): seq<Bytes>
    decreases ds, 0
  {
    if ds == [] then [] else
      assert ds[0].child < ds[0];
      Leaves(ds[0].child) + LeavesOf(ds[1..])
  }

  /** Every downlink key has a sound history that holds every value below it. */
  predicate ValidTree(t: Tree) {
    match t
    case Page(_) => true
    case Inner(ds) =>
      forall d :: d in ds ==>
        Sound(d.history) && ValidTree(d.child) && forall v :: v in Leaves(d.child) ==> Holds(d.history, v)
  }

  function Filter(vs: seq<Bytes>, s: Strategy, q: Bytes): seq<Bytes> {
    if vs == [] then [] else (if Satisfies(s, vs[0], q) then [vs[0]] else []) + Filter(vs[1..], s, q)
  }

  /** A GiST search: descend where the internal test holds, report where the leaf test holds. */
  function Search(t: Tree, q: Bytes, s: Strategy): seq<Bytes>
    requires ValidTree(t)
    decreases t, 1
  {
    match t
    case Page(vs) => SearchPage(vs, q, s)
    case Inner(ds) => SearchDownlinks(ds, q, s)
  }

  function SearchPage(vs: seq<Bytes>, q: Bytes, s: Strategy): seq<Bytes> {
    if vs == [] then []
    else (if Consistent(Key(vs[0], vs[0]), q, s, true) then [vs[0]] else []) + SearchPage(vs[1..], q, s)
  }

  function SearchDownlinks(ds: seq<Downlink>, q: Bytes, s: Strategy): seq<Bytes>
    requires ValidTree(Inner(ds))
    decreases ds, 0
  {
    if ds == [] then []
    else
      (if Consistent(KeyOf(ds[0].history), q, s, false) then Search(ds[0].child, q, s) else [])
      + SearchDownlinks(ds[1..], q, s)
  }

  lemma {:induction false} FilterAppend(a: seq<Bytes>, b: seq<Bytes>, s: Strategy, q: Bytes)
    ensures Filter(a + b, s, q) == Filter(a, s, q) + Filter(b, s, q)
  {
    if a == [] {
      assert a + b == b;
    } else {
      var ab, first := a + b, if Satisfies(s, a[0], q) then [a[0]] else [];
      assert ab[0] == a[0] && ab[1..] == a[1..] + b;
      FilterAppend(a[1..], b, s, q);
      assert first + (Filter(a[1..], s, q) + Filter(b, s, q)) == (first + Filter(a[1..], s, q)) + Filter(b, s, q);
    }
  }

  lemma {:induction false} FilterNothing(vs: seq<Bytes>, s: Strategy, q: Bytes)
    requires forall v :: v in vs ==> !Satisfies(s, v, q)
    ensures Filter(vs, s, q) == []
  {
    if vs != [] {
      assert vs[0] in vs;
      FilterNothing(vs[1..], s, q);
    }
  }

  lemma {:induction false} SearchPageIsFilter(vs: seq<Bytes>, q: Bytes, s: Strategy)
    ensures SearchPage(vs, q, s) == Filter(vs, s, q)
  {
    if vs != [] {
      LeafConsistentExact(vs[0], q, s);
      SearchPageIsFilter(vs[1..], q, s);
    }
  }

  /** For all six strategies an index search returns exactly what scanning every leaf would. */
  lemma {:induction false} SearchIsFilter(t: Tree, q: Bytes, s: Strategy)
    requires ValidTree(t)
    ensures Search(t, q, s) == Filter(Leaves(t), s, q)
    decreases t, 1
  {
    match t
    case Page(vs) => SearchPageIsFilter(vs, q, s);
    case Inner(ds) => SearchDownlinksIsFilter(ds, q, s);
  }

  lemma {:induction false} SearchDownlinksIsFilter(ds: seq<Downlink>, q: Bytes, s: Strategy)
    requires ValidTree(Inner(ds))
    ensures SearchDownlinks(ds, q, s) == Filter(LeavesOf(ds), s, q)
    decreases ds, 0
  {
    if ds != [] {
      var d := ds[0];
      FilterAppend(Leaves(d.child), LeavesOf(ds[1..]), s, q);
      SearchDownlinksIsFilter(ds[1..], q, s);
      if Consistent(KeyOf(d.history), q, s, false) {
        SearchIsFilter(d.child, q, s);
      } else {
        forall v | v in Leaves(d.child)
          ensures !Satisfies(s, v, q)
        {
          HistoryCovers(d.history, v);
          if Satisfies(s, v, q) {
            ConsistentIfCovered(KeyOf(d.history), v, q, s);
          }
        }
        FilterNothing(Leaves(d.child), s, q);
      }
    }
  }

  // ---------------------------------------------------------------- page split

  function MaxNat(a: nat, b: nat): nat {
    if a < b then b else a
  }

  /** The length both halves of a split are cut to. */
  function SplitCut(left: seq<Key>, right: seq<Key>): nat
    requires left != [] && right != []
  {
    var l, r := Hull(left), Hull(right);
    MaxNat(CommonPrefix(l.lower, l.upper), CommonPrefix(r.lower, r.upper)) + 2
  }

  function Select(es: seq<Key>, offs: seq<nat>): (ks: seq<Key>)
    requires InRange(offs, |es|)
    ensures |ks| == |offs|
    ensures forall i :: 0 <= i < |offs| ==> ks[i] == es[offs[i] - 1]
  {
    seq(|offs|, i requires 0 <= i < |offs| => es[offs[i] - 1])
  }

  predicate InRange(offs: seq<nat>, n: nat) {
    forall i :: 0 <= i < |offs| ==> 1 <= offs[i] <= n
  }

  /** `order` lists every offset up to n once. */
  predicate IsPermutation(order: seq<nat>, n: nat) {
    && |order| == n
    && InRange(order, n)
    && forall i, j :: 0 <= i < j < n ==> order[i] != order[j]
  }

  predicate LeafEntries(es: seq<Key>) {
    forall i :: 0 <= i < |es| ==> es[i].lower == es[i].upper
  }

  /** A half keeps covering its entries exactly when the shared cut is safe for it, and always does when
      the entries are leaf entries. */
  ghost predicate HalfExact(datum: Key, half: seq<Key>, m: nat)
    requires half != []
  {
    && (CoversAll(datum, half) <==> CutSafe(half, m))
    && (LeafEntries(half) ==> CoversAll(datum, half))
  }

  // ---------------------------------------------------------------- the sort

  /** gbt_vsrt_cmp: by the lower ends, and by the upper ends where those agree. */
  predicate KeyLeq(a: Key, b: Key) {
    Less(a.lower, b.lower) || (a.lower == b.lower && Leq(a.upper, b.upper))
  }

  lemma KeyLeqTotal(a: Key, b: Key)
    ensures KeyLeq(a, b) || KeyLeq(b, a)
  {
    CompareFlip(a.lower, b.lower);
    CompareFlip(a.upper, b.upper);
  }

  lemma KeyLeqTransitive(a: Key, b: Key, c: Key)
    requires KeyLeq(a, b) && KeyLeq(b, c)
    ensures KeyLeq(a, c)
  {
    CompareFlip(a.lower, b.lower);
    CompareFlip(b.lower, c.lower);
    LeqTransitive(a.lower, b.lower, c.lower);
    if a.lower == b.lower == c.lower {
      LeqTransitive(a.upper, b.upper, c.upper);
    }
  }

  /** The order of the entries of es, on their offsets. */
  function ByKey(es: seq<Key>): (nat, nat) -> bool {
    (i: nat, j: nat) => 1 <= i <= |es| && 1 <= j <= |es| && KeyLeq(es[i - 1], es[j - 1])
  }

  predicate Rising(order: seq<nat>, leq: (nat, nat) -> bool) {
    forall i, j :: 0 <= i < j < |order| ==> leq(order[i], order[j])
  }

  /** What the sort leaves: every offset once, and the keys rising. */
  predicate Sorts(order: seq<nat>, es: seq<Key>) {
    IsPermutation(order, |es|) && Rising(order, ByKey(es))
  }

  /** The next offset belongs at place k of the order. */
  predicate Fits(order: seq<nat>, k: nat, leq: (nat, nat) -> bool)
    requires k <= |order|
  {
    && (forall i :: 0 <= i < k ==> leq(order[i], |order| + 1))
    && (forall i :: k <= i < |order| ==> leq(|order| + 1, order[i]))
  }

  function Placed(order: seq<nat>, k: nat): seq<nat>
    requires k <= |order|
  {
    order[..k] + [|order| + 1] + order[k..]
  }

  /** leq orders the offsets up to n. */
  ghost predicate Orders(leq: (nat, nat) -> bool, n: nat) {
    && (forall a, b :: 1 <= a <= n && 1 <= b <= n ==> leq(a, b) || leq(b, a))
    && (forall a, b, c :: 1 <= a <= n && 1 <= b <= n && 1 <= c <= n && leq(a, b) && leq(b, c) ==> leq(a, c))
  }

  lemma KeysOrder(es: seq<Key>)
    ensures Orders(ByKey(es), |es|)
  {
    forall a: nat, b: nat | 1 <= a <= |es| && 1 <= b <= |es|
      ensures ByKey(es)(a, b) || ByKey(es)(b, a)
    {
      KeyLeqTotal(es[a - 1], es[b - 1]);
    }
    forall a: nat, b: nat, c: nat | ByKey(es)(a, b) && ByKey(es)(b, c)
      ensures ByKey(es)(a, c)
    {
      KeyLeqTransitive(es[a - 1], es[b - 1], es[c - 1]);
    }
  }

  /** The place of the next offset among those before it: after the last that is at most it. */
  method Place(order: seq<nat>, leq: (nat, nat) -> bool) returns (k: nat)
    requires IsPermutation(order, |order|) && Orders(leq, |order| + 1) && Rising(order, leq)
    ensures k <= |order| && Fits(order, k, leq)
  {
    k := |order|;
    while k > 0 && !leq(order[k - 1], |order| + 1)
      invariant k <= |order|
      invariant forall i :: k <= i < |order| ==> leq(|order| + 1, order[i])
    {
      k := k - 1;
    }
  }

  /** Putting one more offset where it belongs keeps the order. */
  lemma PlacedIs(order: seq<nat>, k: nat, leq: (nat, nat) -> bool)
    requires k <= |order| && IsPermutation(order, |order|) && Rising(order, leq) && Fits(order, k, leq)
    ensures IsPermutation(Placed(order, k), |order| + 1) && Rising(Placed(order, k), leq)
  {
    var placed := Placed(order, k);
    forall i, j | 0 <= i < j < |placed|
      ensures placed[i] != placed[j] && leq(placed[i], placed[j])
    {
      if i == k {
        assert placed[j] == order[j - 1];
      } else if j == k {
        assert placed[i] == order[i];
      } else {
        var a, b := if i < k then i else i - 1, if j < k then j else j - 1;
        assert placed[i] == order[a] && placed[j] == order[b];
      }
    }
  }

  /** qsort_arg: all offsets up to n, rising; equal ones may come in any order. */
  method SortOffsets(n: nat, leq: (nat, nat) -> bool) returns (order: seq<nat>)
    requires Orders(leq, n)
    ensures IsPermutation(order, n) && Rising(order, leq)
  {
    order := [];
    for m := 0 to n
      invariant IsPermutation(order, m) && Rising(order, leq)
    {
      var k := Place(order, leq);
      PlacedIs(order, k, leq);
      order := Placed(order, k);
    }
  }

  /** gbt_var_picksplit: the lower half of the sorted entries goes left and the rest right, and both keys are cut to
      the length the longer prefix asks for. */
  method PickSplit(es: seq<Key>) returns (left: seq<nat>, right: seq<nat>, ldatum: Key, rdatum: Key)
    requires 2 <= |es|
    ensures |left| == |es| / 2 && Sorts(left + right, es)
    ensures InRange(left, |es|) && InRange(right, |es|) && right != []
    ensures ldatum == Cut(Hull(Select(es, left)), SplitCut(Select(es, left), Select(es, right)))
    ensures rdatum == Cut(Hull(Select(es, right)), SplitCut(Select(es, left), Select(es, right)))
  {
    KeysOrder(es);
    var order := SortOffsets(|es|, ByKey(es));
    left, right := order[..|es| / 2], order[|es| / 2..];
    assert left + right == order;
    ldatum := UnionAt(es, left);
    rdatum := UnionAt(es, right);
    var ll := NodeCommonPrefix(ldatum);
    var lr := NodeCommonPrefix(rdatum);
    var m := MaxNat(ll, lr) + 2;
    ldatum, rdatum := Cut(ldatum, m), Cut(rdatum, m);
  }

  /** The ends of a hull are ends of its entries. */
  lemma {:induction false} HullReached(es: seq<Key>) returns (i: nat, j: nat)
    requires es != []
    ensures i < |es| && Hull(es).lower == es[i].lower
    ensures j < |es| && Hull(es).upper == es[j].upper
  {
    if |es| == 1 {
      i, j := 0, 0;
    } else {
      var n := |es| - 1;
      i, j := HullReached(es[..n]);
      i, j := if Hull(es).lower == es[i].lower then i else n, if Hull(es).upper == es[j].upper then j else n;
    }
  }

  /** What two keys with separate ranges both cover. */
  lemma SharedValues(l: Key, r: Key, v: Bytes)
    requires Ordered(l) && Leq(l.upper, r.lower) && Covers(r, v)
    ensures Covers(l, v) <==> v == l.upper || (Open(l) && l.upper <= v)
  {
    LeqTransitive(l.upper, r.lower, v);
    LeqTransitive(l.lower, l.upper, v);
    CompareFlip(v, l.upper);
  }

  lemma {:induction false} LeafHullOrdered(es: seq<Key>, m: nat)
    requires es != [] && LeafEntries(es)
    ensures Ordered(Cut(Hull(es), m))
  {
    forall e | e in es
      ensures Ordered(e)
    {
      CompareFlip(e.lower, e.upper);
    }
    HullBounds(es);
    CutKeepsOrder(Hull(es).lower, Hull(es).upper, m);
  }

  lemma LeafRangesApart(es: seq<Key>, left: seq<nat>, right: seq<nat>, m: nat)
    requires LeafEntries(es) && Sorts(left + right, es) && left != [] && right != []
    requires InRange(left, |es|) && InRange(right, |es|)
    ensures Leq(Cut(Hull(Select(es, left)), m).upper, Cut(Hull(Select(es, right)), m).lower)
  {
    var ls, rs := Select(es, left), Select(es, right);
    var _, j := HullReached(ls);
    var i, _ := HullReached(rs);
    var order := left + right;
    assert order[j] == left[j] && order[|left| + i] == right[i];
    assert ByKey(es)(order[j], order[|left| + i]);
    assert ls[j].lower == ls[j].upper && rs[i].lower == rs[i].upper;
    CompareFlip(ls[j].lower, rs[i].lower);
    CutKeepsOrder(ls[j].upper, rs[i].lower, m);
  }

  /** Splitting a page of leaf entries leaves keys whose ranges meet in at most one value. What the right key covers the
      left one covers too only if it is that value, or the left one's upper bound was cut and it goes on from there. */
  lemma LeafHalvesApart(es: seq<Key>, left: seq<nat>, right: seq<nat>, m: nat)
    requires LeafEntries(es) && Sorts(left + right, es) && left != [] && right != []
    requires InRange(left, |es|) && InRange(right, |es|)
    ensures var l, r := Cut(Hull(Select(es, left)), m), Cut(Hull(Select(es, right)), m);
            && Leq(l.upper, r.lower)
            && forall v :: Covers(r, v) ==> (Covers(l, v) <==> v == l.upper || (Open(l) && l.upper <= v))
  {
    var l, r := Cut(Hull(Select(es, left)), m), Cut(Hull(Select(es, right)), m);
    LeafRangesApart(es, left, right, m);
    LeafHullOrdered(Select(es, left), m);
    forall v | Covers(r, v)
      ensures Covers(l, v) <==> v == l.upper || (Open(l) && l.upper <= v)
    {
      SharedValues(l, r, v);
    }
  }

  /** What a split promises of each half, for every page and every way of halving it. */
  lemma SplitCoverage(es: seq<Key>, left: seq<nat>, right: seq<nat>)
    requires AllOrdered(es) && InRange(left, |es|) && InRange(right, |es|) && left != [] && right != []
    ensures var m := SplitCut(Select(es, left), Select(es, right));
            && HalfExact(Cut(Hull(Select(es, left)), m), Select(es, left), m)
            && HalfExact(Cut(Hull(Select(es, right)), m), Select(es, right), m)
  {
    var m := SplitCut(Select(es, left), Select(es, right));
    CutHalfExact(es, left, m);
    CutHalfExact(es, right, m);
  }

  lemma CutHalfExact(es: seq<Key>, offs: seq<nat>, m: nat)
    requires AllOrdered(es) && InRange(offs, |es|) && offs != []
    requires var h := Hull(Select(es, offs)); CommonPrefix(h.lower, h.upper) + 2 <= m
    ensures HalfExact(Cut(Hull(Select(es, offs)), m), Select(es, offs), m)
  {
    var half := Select(es, offs);
    forall e | e in half ensures Ordered(e) {
      var i :| 0 <= i < |half| && half[i] == e;
      assert es[offs[i] - 1] in es;
    }
    CutCoverageExact(half, m);
    if LeafEntries(half) {
      LeavesCutSafe(half, m);
    }
  }

  lemma HullAppend(ks: seq<Key>, i: nat)
    requires 1 <= i < |ks|
    ensures Hull(ks[..i + 1]) == BinUnion(Hull(ks[..i]), ks[i])
  {
    var more := ks[..i + 1];
    assert more[..|more| - 1] == ks[..i] && more[|more| - 1] == ks[i];
  }

  /** One half of the dealing loop: fold gbt_var_bin_union over the entries at the given offsets. */
  method UnionAt(es: seq<Key>, offs: seq<nat>) returns (datum: Key)
    requires offs != [] && InRange(offs, |es|)
    ensures datum == Hull(Select(es, offs))
  {
    ghost var ks := Select(es, offs);
    datum := es[offs[0] - 1];
    for i := 1 to |offs|
      invariant datum == Hull(ks[..i])
    {
      HullAppend(ks, i);
      datum := BinUnion(datum, es[offs[i] - 1]);
    }
    assert ks[..|offs|] == ks;
  }

  lemma LeavesCutSafe(es: seq<Key>, m: nat)
    requires es != []
    requires LeafEntries(es)
    ensures CutSafe(es, m)
  {
    forall e | e in es
      ensures !Open(e)
    {
      CommonPrefixIs(e.upper, e.upper, |e.upper|);
    }
  }

  lemma MakePair(a: Bytes, b: Bytes, n: nat) returns (p: History)
    requires Less(a, b) && CommonPrefix(a, b) == n
    ensures p.Joined? && Sound(p) && Holds(p, b)
    ensures KeyOf(p) == Key(Take(a, n + 2), Take(b, n + 2))
  {
    p := Joined([Stored(a), Stored(b)]);
    CompareFlip(a, b);
    var es := [Key(a, a), Key(b, b)];
    assert Keys(p.parts) == es;
    assert es[..1] == [Key(a, a)];
    assert Hull(es) == BinUnion(es[0], es[1]) == Key(a, b);
    assert Holds(p.parts[1], b);
  }

  lemma MakeShortPair(a: Bytes, b: Bytes, n: nat) returns (p: History)
    requires Less(a, b) && CommonPrefix(a, b) == n && |a| <= n + 2 && |b| <= n + 2
    ensures p.Joined? && Sound(p) && KeyOf(p) == Key(a, b)
  {
    p := MakePair(a, b, n);
    assert Take(a, n + 2) == a && Take(b, n + 2) == b;
  }

  /** What makes a split of [a..b], [c..d] | [e..f], [g..h] lose b. */
  predicate LossShape(a: Bytes, b: Bytes, c: Bytes, d: Bytes, e: Bytes, f: Bytes, g: Bytes, h: Bytes) {
    && Less(a, b) && CommonPrefix(a, b) == 0 && |a| <= 2
    && Less(c, d) && CommonPrefix(c, d) == 2 && |c| <= 4 && |d| <= 4
    && Less(e, f) && CommonPrefix(e, f) == 3 && |e| <= 5 && |f| <= 5
    && Less(g, h) && CommonPrefix(g, h) == 3 && |g| <= 5 && |h| <= 5
    && Less(a, c) && Less(c, e) && Less(e, g) && Less(f, h) && Less(Take(b, 2), d)
    && CommonPrefix(a, d) == 0 && CommonPrefix(e, h) == 3
    && Less(d, b) && !(d <= b) && !(a <= b)
  }

  lemma HullOfTwo(x: Key, y: Key)
    requires Less(x.lower, y.lower) && Less(x.upper, y.upper)
    ensures Hull([x, y]) == Key(x.lower, y.upper)
  {
    assert [x, y][..1] == [x];
  }

  lemma SplitLoss(ks: seq<Key>, a: Bytes, b: Bytes, c: Bytes, d: Bytes, e: Bytes, f: Bytes, g: Bytes, h: Bytes)
    requires LossShape(a, b, c, d, e, f, g, h) && ks == [Key(a, Take(b, 2)), Key(c, d), Key(e, f), Key(g, h)]
    ensures !Consistent(Cut(Hull(ks[..2]), SplitCut(ks[..2], ks[2..])), b, Equal, false)
    ensures Less(ks[0].lower, ks[1].lower) && Less(ks[1].lower, ks[2].lower) && Less(ks[2].lower, ks[3].lower)
  {
    assert ks[..2] == [ks[0], ks[1]] && ks[2..] == [ks[2], ks[3]];
    HullOfTwo(ks[0], ks[1]);
    HullOfTwo(ks[2], ks[3]);
    CompareFlip(b, d);
  }

  lemma MakeLeft(a: Bytes, b: Bytes, c: Bytes, d: Bytes) returns (p: History, q: History)
    requires Less(a, b) && CommonPrefix(a, b) == 0 && |a| <= 2
    requires Less(c, d) && CommonPrefix(c, d) == 2 && |c| <= 4 && |d| <= 4
    ensures p.Joined? && Sound(p) && Holds(p, b) && KeyOf(p) == Key(a, Take(b, 2))
    ensures q.Joined? && Sound(q) && KeyOf(q) == Key(c, d)
  {
    p := MakePair(a, b, 0);
    assert Take(a, 2) == a;
    q := MakeShortPair(c, d, 2);
  }

  lemma MakeRight(e: Bytes, f: Bytes, g: Bytes, h: Bytes) returns (r: History, s: History)
    requires Less(e, f) && CommonPrefix(e, f) == 3 && |e| <= 5 && |f| <= 5
    requires Less(g, h) && CommonPrefix(g, h) == 3 && |g| <= 5 && |h| <= 5
    ensures r.Joined? && Sound(r) && KeyOf(r) == Key(e, f)
    ensures s.Joined? && Sound(s) && KeyOf(s) == Key(g, h)
  {
    r := MakeShortPair(e, f, 3);
    s := MakeShortPair(g, h, 3);
  }

  lemma MakeLossPage(a: Bytes, b: Bytes, c: Bytes, d: Bytes, e: Bytes, f: Bytes, g: Bytes, h: Bytes)
    returns (page: seq<History>)
    requires LossShape(a, b, c, d, e, f, g, h)
    ensures |page| == 4 && page[0].Joined? && page[1].Joined? && page[2].Joined? && page[3].Joined?
    ensures Sound(page[0]) && Sound(page[1]) && Sound(page[2]) && Sound(page[3])
    ensures Keys(page) == [Key(a, Take(b, 2)), Key(c, d), Key(e, f), Key(g, h)]
    ensures Holds(page[0], b)
  {
    var p, q := MakeLeft(a, b, c, d);
    var r, s := MakeRight(e, f, g, h);
    page := PageOfFour(p, q, r, s);
  }

  lemma PageOfFour(p: History, q: History, r: History, s: History) returns (page: seq<History>)
    ensures |page| == 4 && page[0] == p && page[1] == q && page[2] == r && page[3] == s
    ensures Keys(page) == [KeyOf(p), KeyOf(q), KeyOf(r), KeyOf(s)]
  {
    page := [p, q, r, s];
  }

  /** Splitting a page of internal keys can lose a value: every key below is a union of two stored values and
      the page is sorted, but the left half no longer matches an equality search for a value stored below it. */
  lemma SplitLosesValue() returns (page: seq<History>, v: Bytes)
    ensures |page| == 4 && page[0].Joined? && page[1].Joined? && page[2].Joined? && page[3].Joined?
    ensures Sound(page[0]) && Sound(page[1]) && Sound(page[2]) && Sound(page[3])
    ensures forall i :: 0 <= i < 3 ==> Less(Keys(page)[i].lower, Keys(page)[i + 1].lower)
    ensures Holds(page[0], v)
    ensures var left, right := Keys(page)[..2], Keys(page)[2..];
            !Consistent(Cut(Hull(left), SplitCut(left, right)), v, Equal, false)
  {
    var a, b, c, d, e, f, g, h := LossBytes();
    v := b;
    page := MakeLossPage(a, b, c, d, e, f, g, h);
    SplitLoss(Keys(page), a, b, c, d, e, f, g, h);
  }

  lemma LossBytes() returns (a: Bytes, b: Bytes, c: Bytes, d: Bytes, e: Bytes, f: Bytes, g: Bytes, h: Bytes)
    ensures LossShape(a, b, c, d, e, f, g, h)
  {
    a, b, c, d := [48], [97, 98, 122], [97, 98, 65], [97, 98, 97];
    e, f, g, h := [122, 122, 122, 65], [122, 122, 122, 66], [122, 122, 122, 67], [122, 122, 122, 68];
    CommonPrefixIs(a, b, 0);
    CommonPrefixIs(c, d, 2);
    CommonPrefixIs(e, f, 3);
    CommonPrefixIs(g, h, 3);
    CommonPrefixIs(a, c, 0);
    CommonPrefixIs(c, e, 0);
    CommonPrefixIs(e, g, 3);
    CommonPrefixIs(f, h, 3);
    CommonPrefixIs(Take(b, 2), d, 2);
    CommonPrefixIs(a, d, 0);
    CommonPrefixIs(e, h, 3);
    CommonPrefixIs(d, b, 2);
    assert d[2] != b[2] && a[0] != b[0];
  }
}
