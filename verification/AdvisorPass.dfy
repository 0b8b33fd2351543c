/** The second half of an advisor pass (src/backend/autoindex/index_advisor.c): order the triggered columns by
    rent and create their indexes under the per-table cap. */
module AdvisorPass {
  import opened Workload

  datatype Candidate = Candidate(relid: nat, attnum: int, usage: Usage, rent: real)

  function Column(c: Candidate): ColumnRef {
    ColumnRef(c.relid, c.attnum)
  }

  // ---------------------------------------------------------------- ordering

  predicate Descending(s: seq<Candidate>) {
    forall i, j :: 0 <= i < j < |s| ==> s[j].rent <= s[i].rent
  }

  function Swap(s: seq<Candidate>, i: nat, j: nat): seq<Candidate>
    requires i < |s| && j < |s|
  {
    s[i := s[j]][j := s[i]]
  }

  /** The inner loop from j on: whatever has more rent than position i is exchanged with it. */
  function Settled(s: seq<Candidate>, i: nat, j: nat): seq<Candidate>
    requires i < |s|
    decreases |s| - j
  {
    if j >= |s| then s else Settled(if s[j].rent > s[i].rent then Swap(s, i, j) else s, i, j + 1)
  }

  function SortedFrom(s: seq<Candidate>, i: nat): (t: seq<Candidate>)
    decreases |s| - i
  {
    if i >= |s| then s else
      SettledIs(s, i, i + 1);
      SortedFrom(Settled(s, i, i + 1), i + 1)
  }

  /** The exchange sort, in place, on an array of just the candidates. */
  method SortByRent(a: array<Candidate>)
    modifies a
    ensures a[..] == SortedFrom(old(a[..]), 0)
  {
    for i := 0 to a.Length
      invariant SortedFrom(a[..], i) == SortedFrom(old(a[..]), 0)
    {
      ghost var s := a[..];
      for j := i + 1 to a.Length
        invariant Settled(a[..], i, j) == Settled(s, i, i + 1)
      {
        ghost var b := a[..];
        if a[j].rent > a[i].rent {
          a[i], a[j] := a[j], a[i];
          assert a[..] == Swap(b, i, j);
        }
      }
    }
  }

  /** The inner loop brings the largest rent from i on to i and only rearranges from there. */
  lemma {:induction false} SettledIs(s: seq<Candidate>, i: nat, j: nat)
    requires i < j && i < |s|
    requires forall q :: i <= q < j && q < |s| ==> s[q].rent <= s[i].rent
    ensures var t := Settled(s, i, j);
            && |t| == |s| && t[..i] == s[..i] && multiset(t) == multiset(s)
            && (forall q :: i <= q < |s| ==> t[q].rent <= t[i].rent)
    decreases |s| - j
  {
    if j < |s| {
      SettledIs(if s[j].rent > s[i].rent then Swap(s, i, j) else s, i, j + 1);
    }
  }

  lemma {:induction false} SettledKeepsBound(s: seq<Candidate>, i: nat, j: nat, r: real)
    requires i < j && i < |s|
    requires forall q :: i <= q < |s| ==> s[q].rent <= r
    ensures |Settled(s, i, j)| == |s|
    ensures forall q :: i <= q < |s| ==> Settled(s, i, j)[q].rent <= r
    decreases |s| - j
  {
    if j < |s| {
      SettledKeepsBound(if s[j].rent > s[i].rent then Swap(s, i, j) else s, i, j + 1, r);
    }
  }

  /** The result is a rearrangement in descending order of rent. */
  lemma {:induction false} SortedIsDescending(s: seq<Candidate>, i: nat)
    requires i <= |s|
    requires forall p, q :: 0 <= p < i && p < q < |s| ==> s[q].rent <= s[p].rent
    ensures Descending(SortedFrom(s, i)) && multiset(SortedFrom(s, i)) == multiset(s)
    decreases |s| - i
  {
    if i < |s| {
      SettledIs(s, i, i + 1);
      var t := Settled(s, i, i + 1);
      forall p, q | 0 <= p < i + 1 && p < q < |t|
        ensures t[q].rent <= t[p].rent
      {
        if p < i {
          assert t[..i][p] == s[..i][p];
          if q < i {
            assert t[..i][q] == s[..i][q];
          } else {
            SettledKeepsBound(s, i, i + 1, s[p].rent);
          }
        }
      }
      SortedIsDescending(t, i + 1);
    }
  }

  // ---------------------------------------------------------------- creation

  /** What the pass's snapshot shows of the catalog: automatic indexes per table, and columns that lead some
      index. The counting and existence queries run read-only, so they do not see the pass's own indexes. */
  datatype Catalog = Catalog(autoCount: map<nat, nat>, indexed: set<ColumnRef>)

  function AutoCount(cat: Catalog, relid: nat): nat {
    if relid in cat.autoCount then cat.autoCount[relid] else 0
  }

  predicate UnderCap(cat: Catalog, cap: nat, c: Candidate) {
    AutoCount(cat, c.relid) < cap
  }

  /** The columns that get an index: those of the candidates whose table the snapshot shows under the cap and
      which it does not show indexed. */
  function CreatedColumns(cat: Catalog, cap: nat, cs: seq<Candidate>): set<ColumnRef> {
    set i | 0 <= i < |cs| && UnderCap(cat, cap, cs[i]) && Column(cs[i]) !in cat.indexed :: Column(cs[i])
  }

  /** The candidates whose removal from the rent table is called for: all whose table is under the cap. */
  function SettledKeys(cat: Catalog, cap: nat, cs: seq<Candidate>): set<ColumnKey> {
    set i | 0 <= i < |cs| && UnderCap(cat, cap, cs[i]) :: ColumnKey(cs[i].relid, cs[i].attnum, cs[i].usage)
  }

  predicate Tried(cat: Catalog, cap: nat, c: Candidate) {
    UnderCap(cat, cap, c) && Column(c) !in cat.indexed
  }

  /** How an attempt to create an index ends: made, given up without an error (a table or column that has gone, a
      failure SPI only warns of), or an error, which ends the pass and aborts its transaction. */
  datatype Ending = Made | GivenUp | Error

  predicate FailsAt(cat: Catalog, cap: nat, cs: seq<Candidate>, how: seq<Ending>, i: nat)
    requires i < |cs| == |how|
  {
    Tried(cat, cap, cs[i]) && how[i].Error?
  }

  /** How far the pass comes, from i on: to the first attempt that ends in an error, or through. */
  function Stop(cat: Catalog, cap: nat, cs: seq<Candidate>, how: seq<Ending>, i: nat): (n: nat)
    requires i <= |cs| == |how|
    ensures i <= n <= |cs| && (n < |cs| ==> FailsAt(cat, cap, cs, how, n))
    ensures forall k :: i <= k < n ==> !FailsAt(cat, cap, cs, how, k)
    decreases |cs| - i
  {
    if i == |cs| || FailsAt(cat, cap, cs, how, i) then i else Stop(cat, cap, cs, how, i + 1)
  }

  /** The columns whose index the first n attempts made. */
  function MadeColumns(cat: Catalog, cap: nat, cs: seq<Candidate>, how: seq<Ending>, n: nat): set<ColumnRef>
    requires n <= |cs| == |how|
  {
    set i | 0 <= i < n && Tried(cat, cap, cs[i]) && how[i].Made? :: Column(cs[i])
  }

  /** The indexes a pass leaves behind: none if it ended in an error. */
  function LeftBehind(cat: Catalog, cap: nat, cs: seq<Candidate>, how: seq<Ending>): set<ColumnRef>
    requires |cs| == |how|
  {
    if Stop(cat, cap, cs, how, 0) < |cs| then {} else MadeColumns(cat, cap, cs, how, |cs|)
  }

  /** The creation loop, in the transaction of the pass; the removals from the rent table are in memory and stay
      done. */
  method CreateIndexes(cat: Catalog, cap: nat, cs: seq<Candidate>, how: seq<Ending>)
    returns (created: set<ColumnRef>, settled: set<ColumnKey>)
    requires |how| == |cs|
    ensures created == LeftBehind(cat, cap, cs, how)
    ensures settled == SettledKeys(cat, cap, cs[..Stop(cat, cap, cs, how, 0)])
  {
    created, settled := {}, {};
    for i := 0 to |cs|
      invariant Stop(cat, cap, cs, how, i) == Stop(cat, cap, cs, how, 0)
      invariant created == MadeColumns(cat, cap, cs, how, i)
      invariant settled == SettledKeys(cat, cap, cs[..i])
    {
      assert cs[..i + 1] == cs[..i] + [cs[i]];
      SettledNext(cat, cap, cs[..i], cs[i]);
      if AutoCount(cat, cs[i].relid) >= cap {
        continue;
      }
      if Column(cs[i]) in cat.indexed {
        settled := settled + {ColumnKey(cs[i].relid, cs[i].attnum, cs[i].usage)};
        continue;
      }
      if how[i].Error? {
        return {}, settled;
      }
      if how[i].Made? {
        created := created + {Column(cs[i])};
      }
      settled := settled + {ColumnKey(cs[i].relid, cs[i].attnum, cs[i].usage)};
    }
    assert cs[..|cs|] == cs;
  }

  lemma SettledNext(cat: Catalog, cap: nat, cs: seq<Candidate>, c: Candidate)
    ensures SettledKeys(cat, cap, cs + [c]) == SettledKeys(cat, cap, cs) +
              if UnderCap(cat, cap, c) then {ColumnKey(c.relid, c.attnum, c.usage)} else {}
  {
    var all := cs + [c];
    assert all[|cs|] == c;
    forall i | 0 <= i < |cs| ensures all[i] == cs[i] {}
  }

  /** A pass leaves no index it should not, and all it should if no attempt goes wrong. */
  lemma {:induction false} LeftBehindIs(cat: Catalog, cap: nat, cs: seq<Candidate>, how: seq<Ending>)
    requires |how| == |cs|
    ensures LeftBehind(cat, cap, cs, how) <= CreatedColumns(cat, cap, cs)
    ensures (forall i :: 0 <= i < |cs| && Tried(cat, cap, cs[i]) ==> how[i].Made?) ==>
              Stop(cat, cap, cs, how, 0) == |cs| && LeftBehind(cat, cap, cs, how) == CreatedColumns(cat, cap, cs)
  {
    var n := Stop(cat, cap, cs, how, 0);
    if n == |cs| {
      forall col | col in MadeColumns(cat, cap, cs, how, n)
        ensures col in CreatedColumns(cat, cap, cs)
      {
        var i :| 0 <= i < n && Tried(cat, cap, cs[i]) && how[i].Made? && col == Column(cs[i]);
      }
    }
  }

  predicate SettledAreIndexed(cat: Catalog, cap: nat, cs: seq<Candidate>, how: seq<Ending>)
    requires |cs| == |how|
  {
    forall k :: k in SettledKeys(cat, cap, cs[..Stop(cat, cap, cs, how, 0)]) ==>
      ColumnRef(k.relid, k.attnum) in cat.indexed + LeftBehind(cat, cap, cs, how)
  }

  lemma SettledHas(cat: Catalog, cap: nat, cs: seq<Candidate>, n: nat, i: nat)
    requires i < n <= |cs| && UnderCap(cat, cap, cs[i])
    ensures ColumnKey(cs[i].relid, cs[i].attnum, cs[i].usage) in SettledKeys(cat, cap, cs[..n])
  {
    assert cs[..n][i] == cs[i];
  }

  lemma SettledFrom(cat: Catalog, cap: nat, cs: seq<Candidate>, n: nat, k: ColumnKey) returns (i: nat)
    requires n <= |cs| && k in SettledKeys(cat, cap, cs[..n])
    ensures i < n && UnderCap(cat, cap, cs[i]) && Column(cs[i]) == ColumnRef(k.relid, k.attnum)
  {
    var ds := cs[..n];
    i :| 0 <= i < |ds| && UnderCap(cat, cap, ds[i]) && k == ColumnKey(ds[i].relid, ds[i].attnum, ds[i].usage);
  }

  /** In terms of what the pass left behind. */
  lemma {:induction false} SettledIndexedIs(cat: Catalog, cap: nat, cs: seq<Candidate>, how: seq<Ending>)
    requires |cs| == |how|
    ensures var n := Stop(cat, cap, cs, how, 0);
            SettledAreIndexed(cat, cap, cs, how) <==>
              forall i :: 0 <= i < n && Tried(cat, cap, cs[i]) ==>
                n == |cs| && Column(cs[i]) in MadeColumns(cat, cap, cs, how, n)
  {
    var n := Stop(cat, cap, cs, how, 0);
    var done := LeftBehind(cat, cap, cs, how);
    if SettledAreIndexed(cat, cap, cs, how) {
      forall i | 0 <= i < n && Tried(cat, cap, cs[i])
        ensures Column(cs[i]) in done
      {
        SettledHas(cat, cap, cs, n, i);
      }
    } else {
      var k :| k in SettledKeys(cat, cap, cs[..n]) && ColumnRef(k.relid, k.attnum) !in cat.indexed + done;
      var i := SettledFrom(cat, cap, cs, n, k);
      assert Tried(cat, cap, cs[i]);
    }
  }

  /** Some attempt ends in an error. */
  predicate SomeFails(cat: Catalog, cap: nat, cs: seq<Candidate>, how: seq<Ending>)
    requires |cs| == |how|
  {
    exists j :: 0 <= j < |cs| && FailsAt(cat, cap, cs, how, j)
  }

  /** An attempt up to i ends in an error. */
  predicate FailsBy(cat: Catalog, cap: nat, cs: seq<Candidate>, how: seq<Ending>, i: nat)
    requires i < |cs| == |how|
  {
    exists j :: 0 <= j <= i && FailsAt(cat, cap, cs, how, j)
  }

  /** Some attempt for the column of candidate i is made. */
  predicate MadeFor(cat: Catalog, cap: nat, cs: seq<Candidate>, how: seq<Ending>, i: nat)
    requires i < |cs| == |how|
  {
    exists j :: 0 <= j < |cs| && Tried(cat, cap, cs[j]) && how[j].Made? && Column(cs[j]) == Column(cs[i])
  }

  /** Every column whose removal from the rent table a pass calls for is indexed afterwards exactly when, if some
      attempt ends in an error, there is none before the first that does, and otherwise some attempt for each column
      attempted is made. */
  lemma SettledIndexedExact(cat: Catalog, cap: nat, cs: seq<Candidate>, how: seq<Ending>)
    requires |cs| == |how|
    ensures SettledAreIndexed(cat, cap, cs, how) <==>
              forall i :: 0 <= i < |cs| && Tried(cat, cap, cs[i]) ==>
                if SomeFails(cat, cap, cs, how) then FailsBy(cat, cap, cs, how, i) else MadeFor(cat, cap, cs, how, i)
  {
    SettledIndexedIs(cat, cap, cs, how);
    var n := Stop(cat, cap, cs, how, 0);
    if SomeFails(cat, cap, cs, how) {
      var j :| 0 <= j < |cs| && FailsAt(cat, cap, cs, how, j);
      assert n < |cs| && FailsAt(cat, cap, cs, how, n);
      forall i | 0 <= i < |cs|
        ensures FailsBy(cat, cap, cs, how, i) <==> n <= i
      {
      }
    } else {
      assert n == |cs|;
      forall i | 0 <= i < |cs|
        ensures MadeFor(cat, cap, cs, how, i) <==> Column(cs[i]) in MadeColumns(cat, cap, cs, how, n)
      {
      }
    }
  }

  /** Two tables, the second gone wrong: the first one's index is rolled back, but its rent is forgotten. */
  lemma SettledNotIndexed(relid: nat, cap: nat) returns (cat: Catalog, cs: seq<Candidate>, how: seq<Ending>)
    requires cap >= 1
    ensures |how| == |cs| && LeftBehind(cat, cap, cs, how) == {}
    ensures ColumnKey(relid, 1, Predicate) in SettledKeys(cat, cap, cs[..Stop(cat, cap, cs, how, 0)])
    ensures ColumnRef(relid, 1) !in cat.indexed
  {
    cat := Catalog(map[], {});
    cs := [Candidate(relid, 1, Predicate, 100.0), Candidate(relid + 1, 1, Predicate, 90.0)];
    how := [Made, Error];
    assert Stop(cat, cap, cs, how, 1) == 1;
    SettledHas(cat, cap, cs, 1, 0);
  }

  function OfTable(cols: set<ColumnRef>, relid: nat): set<ColumnRef> {
    set c | c in cols && c.relid == relid
  }

  /** The columns of one table the candidates ask for and the snapshot does not show indexed. */
  function Wanted(cat: Catalog, cs: seq<Candidate>, relid: nat): set<ColumnRef> {
    set i | 0 <= i < |cs| && cs[i].relid == relid && Column(cs[i]) !in cat.indexed :: Column(cs[i])
  }

  function CountAfter(cat: Catalog, cap: nat, cs: seq<Candidate>, relid: nat): nat {
    AutoCount(cat, relid) + |OfTable(CreatedColumns(cat, cap, cs), relid)|
  }

  /** A pass creates everything a table's candidates ask for, or nothing. */
  lemma AllOrNothing(cat: Catalog, cap: nat, cs: seq<Candidate>, relid: nat)
    ensures OfTable(CreatedColumns(cat, cap, cs), relid) ==
              if AutoCount(cat, relid) < cap then Wanted(cat, cs, relid) else {}
  {
  }

  /** The hard cap on automatic indexes per table survives a pass exactly when the table was at the cap before,
      or the pass's wishes for it fit under the cap. */
  lemma CapExact(cat: Catalog, cap: nat, cs: seq<Candidate>, relid: nat)
    requires AutoCount(cat, relid) <= cap
    ensures CountAfter(cat, cap, cs, relid) <= cap <==>
              AutoCount(cat, relid) == cap || AutoCount(cat, relid) + |Wanted(cat, cs, relid)| <= cap
  {
    AllOrNothing(cat, cap, cs, relid);
  }

  /** The ordering by rent does not decide which indexes are made: any rearrangement of the candidates creates the
      same ones. */
  lemma OrderDoesNotMatter(cat: Catalog, cap: nat, cs: seq<Candidate>, ds: seq<Candidate>)
    requires multiset(cs) == multiset(ds)
    ensures CreatedColumns(cat, cap, cs) == CreatedColumns(cat, cap, ds)
  {
    forall c ensures c in cs <==> c in ds {
      assert c in multiset(cs) <==> c in multiset(ds);
    }
    CreatedByMembership(cat, cap, cs, ds);
    CreatedByMembership(cat, cap, ds, cs);
  }

  lemma CreatedByMembership(cat: Catalog, cap: nat, cs: seq<Candidate>, ds: seq<Candidate>)
    requires forall c :: c in cs ==> c in ds
    ensures CreatedColumns(cat, cap, cs) <= CreatedColumns(cat, cap, ds)
  {
    forall col | col in CreatedColumns(cat, cap, cs)
      ensures col in CreatedColumns(cat, cap, ds)
    {
      var i :| 0 <= i < |cs| && UnderCap(cat, cap, cs[i]) && Column(cs[i]) !in cat.indexed && Column(cs[i]) == col;
      assert cs[i] in ds;
      var j :| 0 <= j < |ds| && ds[j] == cs[i];
    }
  }

  /** One pass can take a table from one below the cap to one above it. */
  lemma CapExceeded(relid: nat, cap: nat) returns (cat: Catalog, cs: seq<Candidate>)
    requires cap >= 1
    ensures AutoCount(cat, relid) < cap && CountAfter(cat, cap, cs, relid) == cap + 1
  {
    cat := Catalog(map[relid := cap - 1], {});
    cs := [Candidate(relid, 1, Predicate, 100.0), Candidate(relid, 2, Predicate, 100.0)];
    AllOrNothing(cat, cap, cs, relid);
    assert Column(cs[0]) in Wanted(cat, cs, relid) && Column(cs[1]) in Wanted(cat, cs, relid);
    assert Wanted(cat, cs, relid) == {ColumnRef(relid, 1), ColumnRef(relid, 2)};
  }
}
