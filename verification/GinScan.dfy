/** Range scans of btree_gin (contrib/btree_gin/btree_gin.c): a start point and a stop rule that together must pick
    out exactly the keys an operator accepts. Values of all types are placed on one line of reals. */
module GinScan {
  import opened Options

  datatype Strategy = Less | LessEqual | Equal | GreaterEqual | Greater

  /** The operator: indexed key against query. */
  predicate Accepts(st: Strategy, q: real, key: real) {
    match st
    case Less => key < q
    case LessEqual => key <= q
    case Equal => key == q
    case GreaterEqual => key >= q
    case Greater => key > q
  }

  /** What gin_btree_extract_query hands to GIN: where to start, and whether to go on from there. */
  datatype Query = Query(entry: real, partial: bool)

  function ExtractQuery(st: Strategy, q: real, leftmost: real, converted: Option<real>): Query {
    match st
    case Less => Query(leftmost, true)
    case LessEqual => Query(leftmost, true)
    case _ =>
      if converted.Some? then Query(converted.value, true)
      else Query(q, st.GreaterEqual? || st.Greater?)
  }

  datatype Verdict = Match | Skip | Stop

  function Compare(a: real, b: real): int {
    if a < b then -1 else if a > b then 1 else 0
  }

  /** gin_btree_compare_prefix. */
  function ComparePrefix(st: Strategy, q: real, key: real): Verdict {
    var cmp := Compare(q, key);
    match st
    case Less => if cmp > 0 then Match else Stop
    case LessEqual => if cmp >= 0 then Match else Stop
    case Equal => if cmp == 0 then Match else Stop
    case GreaterEqual => if cmp <= 0 then Match else Skip
    case Greater => if cmp < 0 then Match else Skip
  }

  // ---------------------------------------------------------------- GIN's side

  /** The keys of a partial match, from position i on. */
  function Follow(keys: seq<real>, i: nat, st: Strategy, q: real): seq<real>
    requires i <= |keys|
    decreases |keys| - i
  {
    if i == |keys| then []
    else
      match ComparePrefix(st, q, keys[i])
      case Match => [keys[i]] + Follow(keys, i + 1, st, q)
      case Skip => Follow(keys, i + 1, st, q)
      case Stop => []
  }

  /** The first position from i on with a key at least `entry`. */
  function Seek(keys: seq<real>, i: nat, entry: real): (r: nat)
    requires i <= |keys|
    ensures i <= r <= |keys|
    ensures forall k :: i <= k < r ==> keys[k] < entry
    ensures r < |keys| ==> keys[r] >= entry
    decreases |keys| - i
  {
    if i == |keys| || keys[i] >= entry then i else Seek(keys, i + 1, entry)
  }

  /** Keys equal to the entry, for a query without partial match. */
  function Exact(keys: seq<real>, i: nat, entry: real): seq<real>
    requires i <= |keys|
    decreases |keys| - i
  {
    if i == |keys| then [] else (if keys[i] == entry then [keys[i]] else []) + Exact(keys, i + 1, entry)
  }

  function Scan(keys: seq<real>, st: Strategy, q: real, query: Query): seq<real> {
    if query.partial then Follow(keys, Seek(keys, 0, query.entry), st, q) else Exact(keys, 0, query.entry)
  }

  // ---------------------------------------------------------------- the reference

  function Filter(keys: seq<real>, i: nat, st: Strategy, q: real): seq<real>
    requires i <= |keys|
    decreases |keys| - i
  {
    if i == |keys| then [] else (if Accepts(st, q, keys[i]) then [keys[i]] else []) + Filter(keys, i + 1, st, q)
  }

  predicate Sorted(keys: seq<real>) {
    forall i, j :: 0 <= i < j < |keys| ==> keys[i] <= keys[j]
  }

  /** A sorted list of values the indexed type has. */
  predicate Index(has: real -> bool, keys: seq<real>) {
    Sorted(keys) && forall i :: 0 <= i < |keys| ==> has(keys[i])
  }

  lemma {:induction false} FilterNone(keys: seq<real>, i: nat, st: Strategy, q: real)
    requires i <= |keys| && forall k :: i <= k < |keys| ==> !Accepts(st, q, keys[k])
    ensures Filter(keys, i, st, q) == []
    decreases |keys| - i
  {
    if i < |keys| {
      FilterNone(keys, i + 1, st, q);
    }
  }

  lemma {:induction false} FilterSkips(keys: seq<real>, i: nat, j: nat, st: Strategy, q: real)
    requires i <= j <= |keys| && forall k :: i <= k < j ==> !Accepts(st, q, keys[k])
    ensures Filter(keys, i, st, q) == Filter(keys, j, st, q)
    decreases j - i
  {
    if i < j {
      FilterSkips(keys, i + 1, j, st, q);
    }
  }

  /** From a proper start the stop rule loses nothing. Only an equality search can start too early. */
  lemma {:induction false} FollowIsFilter(keys: seq<real>, i: nat, st: Strategy, q: real)
    requires i <= |keys| && Sorted(keys)
    requires st.Equal? && i < |keys| && keys[i] < q ==> forall k :: i <= k < |keys| ==> keys[k] != q
    ensures Follow(keys, i, st, q) == Filter(keys, i, st, q)
    decreases |keys| - i
  {
    if i < |keys| {
      if ComparePrefix(st, q, keys[i]).Stop? {
        FilterNone(keys, i, st, q);
      } else {
        FollowIsFilter(keys, i + 1, st, q);
      }
    }
  }

  lemma {:induction false} ExactIsFilter(keys: seq<real>, i: nat, q: real)
    requires i <= |keys|
    ensures Exact(keys, i, q) == Filter(keys, i, Equal, q)
    decreases |keys| - i
  {
    if i < |keys| {
      ExactIsFilter(keys, i + 1, q);
    }
  }

  // ---------------------------------------------------------------- which start points will do

  /** The start is at or before every value that can match; an equality search must not start at a value before
      the query when the query itself can occur. */
  ghost predicate GoodStart(has: real -> bool, st: Strategy, q: real, entry: real) {
    && (forall v :: has(v) && Accepts(st, q, v) ==> entry <= v)
    && (st.Equal? && has(q) ==> forall v :: has(v) && v < q ==> v < entry)
  }

  lemma {:induction false} GoodScans(has: real -> bool, st: Strategy, q: real, entry: real, keys: seq<real>)
    requires GoodStart(has, st, q, entry) && Index(has, keys)
    ensures Scan(keys, st, q, Query(entry, true)) == Filter(keys, 0, st, q)
  {
    var i := Seek(keys, 0, entry);
    forall k | 0 <= k < i
      ensures !Accepts(st, q, keys[k])
    {
      assert has(keys[k]);
    }
    FilterSkips(keys, 0, i, st, q);
    if st.Equal? && i < |keys| && keys[i] < q {
      assert has(keys[i]);
      forall k | i <= k < |keys|
        ensures keys[k] != q
      {
        assert has(keys[k]);
      }
    }
    FollowIsFilter(keys, i, st, q);
  }

  ghost predicate ScansAll(has: real -> bool, st: Strategy, q: real, entry: real) {
    forall keys :: Index(has, keys) ==> Scan(keys, st, q, Query(entry, true)) == Filter(keys, 0, st, q)
  }

  lemma LateStartMisses(has: real -> bool, st: Strategy, q: real, entry: real, v: real)
    requires has(v) && Accepts(st, q, v) && v < entry
    ensures !ScansAll(has, st, q, entry)
  {
    var keys := [v];
    assert Index(has, keys);
    assert Seek(keys, 0, entry) == 1;
    assert Scan(keys, st, q, Query(entry, true)) == [];
    assert Filter(keys, 0, st, q) == [v] + Filter(keys, 1, st, q);
  }

  lemma EarlyStartMisses(has: real -> bool, q: real, entry: real, v: real)
    requires has(q) && has(v) && entry <= v < q
    ensures !ScansAll(has, Equal, q, entry)
  {
    var keys := [v, q];
    assert Index(has, keys);
    assert Seek(keys, 0, entry) == 0;
    assert Scan(keys, Equal, q, Query(entry, true)) == [];
    assert Filter(keys, 1, Equal, q) == [q] + Filter(keys, 2, Equal, q);
    assert Filter(keys, 0, Equal, q) == Filter(keys, 1, Equal, q);
  }

  /** A start point serves every index exactly when it is a good one. */
  lemma StartExact(has: real -> bool, st: Strategy, q: real, entry: real)
    ensures ScansAll(has, st, q, entry) <==> GoodStart(has, st, q, entry)
  {
    if GoodStart(has, st, q, entry) {
      forall keys | Index(has, keys)
        ensures Scan(keys, st, q, Query(entry, true)) == Filter(keys, 0, st, q)
      {
        GoodScans(has, st, q, entry, keys);
      }
    } else if v :| has(v) && Accepts(st, q, v) && v < entry {
      LateStartMisses(has, st, q, entry, v);
    } else {
      var v :| has(v) && v < q && entry <= v;
      EarlyStartMisses(has, q, entry, v);
    }
  }

  // ---------------------------------------------------------------- conversions

  /** What the source asks of a conversion: no greater than any indexable value the query does not exceed, and exact
      when the query is indexable. */
  ghost predicate GoodConversion(has: real -> bool, q: real, c: real) {
    (forall v :: has(v) && v >= q ==> c <= v) && (has(q) ==> c == q)
  }

  lemma ConversionIsGoodStart(has: real -> bool, st: Strategy, q: real, c: real)
    requires GoodConversion(has, q, c) && (st.Equal? || st.GreaterEqual? || st.Greater?)
    ensures GoodStart(has, st, q, c)
  {
  }

  /** For all five operators the scan is the filter, with a good conversion or, when the query is of the indexed
      type, with none. */
  lemma {:induction false} ScanIsFilter(has: real -> bool, keys: seq<real>, st: Strategy, q: real, leftmost: real,
                                        converted: Option<real>)
    requires Index(has, keys) && (forall v :: has(v) ==> leftmost <= v)
    requires if converted.Some? then GoodConversion(has, q, converted.value) else has(q)
    ensures Scan(keys, st, q, ExtractQuery(st, q, leftmost, converted)) == Filter(keys, 0, st, q)
  {
    var query := ExtractQuery(st, q, leftmost, converted);
    if !query.partial {
      ExactIsFilter(keys, 0, q);
    } else {
      if !st.Less? && !st.LessEqual? {
        ConversionIsGoodStart(has, st, q, query.entry);
      }
      GoodScans(has, st, q, query.entry, keys);
    }
  }

  // ---------------------------------------------------------------- integers

  predicate Whole(v: real) {
    v == v.Floor as real
  }

  /** The values of an integer type. */
  predicate InType(lo: real, hi: real, v: real) {
    lo <= v <= hi && Whole(v)
  }

  /** cvt_int4_int2 and its like: Max with the least value, then Min with the greatest. */
  function Clamp(lo: real, hi: real, q: real): real {
    var val := if q < lo then lo else q;
    if val > hi then hi else val
  }

  /** Clamping is a good conversion from any integer type to any other, and gives a value of the indexed type. */
  lemma ClampIsGood(lo: real, hi: real, q: real)
    requires lo <= hi && Whole(lo) && Whole(hi) && Whole(q)
    ensures GoodConversion(v => InType(lo, hi, v), q, Clamp(lo, hi, q)) && InType(lo, hi, Clamp(lo, hi, q))
  {
  }

  /** Hence every scan of an int2, int4 or int8 index with a query of any of those types is its filter. */
  lemma {:induction false} IntegerScans(lo: real, hi: real, keys: seq<real>, st: Strategy, q: real, cross: bool)
    requires lo <= hi && Whole(lo) && Whole(hi) && Whole(q) && Index(v => InType(lo, hi, v), keys)
    requires !cross ==> InType(lo, hi, q)
    ensures var query := ExtractQuery(st, q, lo, if cross then Some(Clamp(lo, hi, q)) else None);
            Scan(keys, st, q, query) == Filter(keys, 0, st, q)
  {
    ClampIsGood(lo, hi, q);
    ScanIsFilter(v => InType(lo, hi, v), keys, st, q, lo, if cross then Some(Clamp(lo, hi, q)) else None);
  }
}
