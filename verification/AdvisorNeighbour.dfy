/** A column that would meet the promised ratio alone and does not in the shared table, because a neighbour's index
    makes the table forget its rent (src/backend/autoindex/index_advisor.c). */
module AdvisorNeighbour {
  import opened AdvisorColumn
  import opened AdvisorRun
  import opened AdvisorTable
  import opened Options
  import opened SkiRental
  import opened Workload

  // ---------------------------------------------------------------- draining single columns

  /** A query with one predicate column. */
  function Single(k: ColumnKey, cost: real): WorkloadEntry {
    WorkloadEntry([ColumnRef(k.relid, k.attnum)], [], [], cost, 1)
  }

  lemma SingleCharges(j: ColumnKey, cost: real, k: ColumnKey)
    requires j.usage == Predicate
    ensures Charges(Single(j, cost)) == [Charge(j, cost, 1)]
    ensures Mentions(Single(j, cost), k) == if j == k then 1 else 0
  {
    var cs := [Charge(j, cost, 1)];
    assert Charges(Single(j, cost)) == cs;
    assert cs[..|cs| - 1] == [];
    assert TimesCharged(cs, k) == TimesCharged([], k) + if j == k then 1 else 0;
  }

  lemma {:induction false} DrainOne(t: Table, j: ColumnKey, cost: real)
    requires j.usage == Predicate
    ensures Drained(t, AllCharges([Single(j, cost)])) == ApplyCharge(t, Charge(j, cost, 1))
  {
    SingleCharges(j, cost, j);
    var es, cs := [Single(j, cost)], [Charge(j, cost, 1)];
    assert es[..0] == [] && cs[..0] == [];
    assert AllCharges(es) == AllCharges([]) + Charges(es[0]) == cs;
  }

  lemma {:induction false} DrainTwo(t: Table, i: ColumnKey, x: real, j: ColumnKey, y: real)
    requires i.usage == Predicate && j.usage == Predicate
    ensures Drained(t, AllCharges([Single(i, x), Single(j, y)]))
            == ApplyCharge(ApplyCharge(t, Charge(i, x, 1)), Charge(j, y, 1))
  {
    var es := [Single(i, x), Single(j, y)];
    assert es == [Single(i, x)] + [Single(j, y)];
    AllChargesAppend([Single(i, x)], [Single(j, y)]);
    DrainedAppend(t, AllCharges([Single(i, x)]), AllCharges([Single(j, y)]));
    DrainOne(t, i, x);
    DrainOne(ApplyCharge(t, Charge(i, x, 1)), j, y);
  }

  // ---------------------------------------------------------------- what stays true of the table

  /** Every entry was last seen at time one, so nothing is stale then. */
  predicate AllNew(t: Table) {
    forall i :: 0 <= i < SIZE && t[i].Used? ==> t[i].stats.lastSeen == 1
  }

  /** No slot of column k, reachable or not, has more rent than x. */
  ghost predicate Capped(t: Table, k: ColumnKey, x: real) {
    forall j: nat :: Holds(t, k, j) ==> t[j].stats.rent <= x
  }

  lemma NothingStale(t: Table, maxAge: int)
    requires AllNew(t) && maxAge >= 0
    ensures Cleared(t, Stale(t, 1, maxAge)) == t
  {
  }

  lemma ChargeKeeps(t: Table, ch: Charge, k: ColumnKey, x: real)
    requires AllNew(t) && Capped(t, k, x) && ch.ts == 1
    requires ch.key == k ==> TrackedOf(t, k) == None && ch.cost <= x
    ensures AllNew(ApplyCharge(t, ch)) && Capped(ApplyCharge(t, ch), k, x)
  {
    var t' := ApplyCharge(t, ch);
    forall j: nat | Holds(t', k, j)
      ensures t'[j].stats.rent <= x
    {
      assert t'[j] == t[j] ==> Holds(t, k, j);
    }
  }

  lemma RemovalKeeps(t: Table, j: ColumnKey, k: ColumnKey, x: real)
    requires AllNew(t) && Capped(t, k, x)
    ensures AllNew(Removed(t, j)) && Capped(Removed(t, j), k, x)
  {
    var t' := Removed(t, j);
    forall i: nat | Holds(t', k, i)
      ensures t'[i].stats.rent <= x
    {
      assert Holds(t, k, i);
    }
  }

  lemma NotFound(c: Config, t: Table, k: ColumnKey, x: real)
    requires Capped(t, k, x) && x < c.cBuy
    ensures !Found(c, t, k)
  {
  }

  lemma TrackedIsFound(c: Config, t: Table, k: ColumnKey)
    requires Triggers(c, TrackedOf(t, k))
    ensures Found(c, t, k)
  {
    assert FoundAt(c, t, k, Probe(t, k).value);
  }

  lemma {:induction false} OneRemoval(t: Table, j: ColumnKey)
    ensures RemoveAll(t, [j]) == Removed(t, j)
  {
    assert [j][..0] == [];
  }

  // ---------------------------------------------------------------- the workload

  /** The neighbour n is charged once and indexed; the column is charged x, x and y. */
  function SpoiledPasses(n: ColumnKey, k: ColumnKey, x: real, y: real): seq<Pass> {
    [Pass(1, [Single(n, x), Single(k, x)], true, [n]), Pass(1, [Single(k, x)], true, []),
     Pass(1, [Single(k, y)], true, [k])]
  }

  /** The queries of the three passes as the column sees them. */
  predicate SpoiledQueries(rs: seq<Round>, x: real, y: real) {
    && |rs| == 3
    && rs[0] == Round(1, [Query(x, 0, 0, 1), Query(x, 1, 0, 1)], true)
    && rs[1] == Round(1, [Query(x, 1, 0, 1)], true)
    && rs[2] == Round(1, [Query(y, 1, 0, 1)], true)
  }

  lemma SingleFor(j: ColumnKey, cost: real, col: ColumnRef)
    requires j.usage == Predicate
    ensures QueryFor(Single(j, cost), col) == Query(cost, if j == KeyOf(col, Predicate) then 1 else 0, 0, 1)
  {
    SingleCharges(j, cost, KeyOf(col, Predicate));
    SingleCharges(j, cost, KeyOf(col, Join));
  }

  lemma SpoiledRounds(n: ColumnKey, col: ColumnRef, x: real, y: real) returns (rs: seq<Round>)
    requires n != KeyOf(col, Predicate) && n.usage == Predicate
    ensures rs == Rounds(SpoiledPasses(n, KeyOf(col, Predicate), x, y), col) && SpoiledQueries(rs, x, y)
  {
    var k := KeyOf(col, Predicate);
    SingleFor(n, x, col);
    SingleFor(k, x, col);
    SingleFor(k, y, col);
    var ps := SpoiledPasses(n, k, x, y);
    assert Queries(ps[0].es, col) == [Query(x, 0, 0, 1), Query(x, 1, 0, 1)];
    assert Queries(ps[1].es, col) == [Query(x, 1, 0, 1)];
    assert Queries(ps[2].es, col) == [Query(y, 1, 0, 1)];
    rs := Rounds(ps, col);
  }

  lemma OneQuery(st: Rents, x: real)
    ensures Spent([Query(x, 1, 0, 1)]) == x
    ensures ChargeBoth(st, [Query(x, 1, 0, 1)])
            == Rents(Some(Tracked(CountIn(st.pred) + 1, RentIn(st.pred) + x, 1)), st.join)
  {
    FewTimes(x);
    LastQuery([], Query(x, 1, 0, 1), Predicate, st.pred);
    LastQuery([], Query(x, 1, 0, 1), Join, st.join);
    assert [] + [Query(x, 1, 0, 1)] == [Query(x, 1, 0, 1)];
  }

  lemma TwoQueries(x: real)
    ensures var qs := [Query(x, 0, 0, 1), Query(x, 1, 0, 1)];
            Spent(qs) == x && ChargeBoth(NOTHING, qs) == Rents(Some(Tracked(1, x, 1)), None)
  {
    var first, second := [Query(x, 0, 0, 1)], Query(x, 1, 0, 1);
    FewTimes(x);
    assert first[..0] == [];
    assert first + [second] == [first[0], second];
    LastQuery(first, second, Predicate, None);
    LastQuery(first, second, Join, None);
  }

  /** A pass that buys, whatever comes after it. */
  lemma {:induction false} BuyingRound(c: Config, before: Rents, paid: real, qs: seq<Query>, st: Rents,
                                       rest: seq<Round>)
    requires EvictBoth(c, before, 1) == before && st == ChargeBoth(before, qs) && Due(c, st)
    ensures var rs := [Round(1, qs, true)] + rest;
            && Unhindered(c, before, rs) && Total(rs) == Spent(qs) + Total(rest)
            && Advise(c, before, paid, rs) == Bought(paid + Spent(qs))
  {
    var rs := [Round(1, qs, true)] + rest;
    assert rs[0] == Round(1, qs, true) && rs[1..] == rest;
  }

  /** Alone the column is bought at the second pass, as soon as its queries have cost the price. */
  lemma {:induction false} SpoiledAlone(c: Config, x: real, y: real, rs: seq<Round>)
    requires c.minFreq == 1 && c.maxAge >= 0 && c.cBuy == x + x && x > 0.0 && SpoiledQueries(rs, x, y)
    ensures Unhindered(c, NOTHING, rs) && Total(rs) == x + x + y && Advise(c, NOTHING, 0.0, rs) == Bought(x + x)
  {
    var qs0, qs1, qs2 := rs[0].queries, rs[1].queries, rs[2].queries;
    var st0, st1 := Rents(Some(Tracked(1, x, 1)), None), Rents(Some(Tracked(2, x + x, 1)), None);
    TwoQueries(x);
    OneQuery(st0, x);
    OneQuery(NOTHING, y);
    LastRoundIs(c, NOTHING, 0.0, qs2, ChargeBoth(NOTHING, qs2));
    BuyingRound(c, st0, x, qs1, st1, [Round(1, qs2, true)]);
    EarlyRoundIs(c, qs0, st0, [Round(1, qs1, true)] + [Round(1, qs2, true)]);
    assert rs == [Round(1, qs0, true)] + ([Round(1, qs1, true)] + [Round(1, qs2, true)]);
  }

  lemma {:induction false} SpoiledFate(rs: seq<Round>, due: seq<bool>, x: real, y: real)
    requires SpoiledQueries(rs, x, y) && |due| == 3 && !due[0] && !due[1] && due[2]
    ensures Fate(0.0, rs, due, 0) == Bought(x + x + y)
  {
    TwoQueries(x);
    OneQuery(NOTHING, x);
    OneQuery(NOTHING, y);
    assert Fate(x + x, rs, due, 2) == Bought(x + x + y);
    assert Fate(x, rs, due, 1) == Fate(x + x, rs, due, 2);
  }

  // ---------------------------------------------------------------- the run

  /** The first pass stores both columns and removes the neighbour. */
  lemma FirstPass(n: ColumnKey, k: ColumnKey, j: ColumnKey, x: real, p: Pass, maxAge: int) returns (u: Table, t: Table)
    requires n != k && Home(n) == Home(k) && n.usage == k.usage == Predicate && j.usage == Join && maxAge >= 0
    requires p == Pass(1, [Single(n, x), Single(k, x)], true, [n])
    ensures u == Evaluated(Blank(), maxAge, p) && t == RemoveAll(u, p.gone)
    ensures Capped(u, k, x) && Capped(u, j, 0.0) && AllNew(t) && Capped(t, k, x) && Capped(t, j, 0.0)
    ensures Probe(t, k) == Some(Home(k)) && t[Home(k)].Empty?
  {
    var c1, c2 := Charge(n, x, 1), Charge(k, x, 1);
    NothingStale(Blank(), maxAge);
    DrainTwo(Blank(), n, x, k, x);
    u := TwoCharged(c1, c2);
    t := Removed(u, n);
    OneRemoval(u, n);
    LookupExact(u, n, Home(k));
    ProbeAt(t, k, Home(k));
    FirstKeeps(c1, c2, j);
    RemovalKeeps(u, n, k, x);
    RemovalKeeps(u, n, j, 0.0);
  }

  lemma FirstKeeps(c1: Charge, c2: Charge, j: ColumnKey)
    requires c1.key != c2.key && c1.key != j && c2.key != j && c1.ts == c2.ts == 1
    ensures var u := ApplyCharge(ApplyCharge(Blank(), c1), c2);
            AllNew(u) && Capped(u, c2.key, c2.cost) && Capped(u, j, 0.0)
  {
    var t1 := ApplyCharge(Blank(), c1);
    BlankIsEmpty(c2.key);
    OtherCharge(Blank(), c1, c2.key);
    ChargeKeeps(Blank(), c1, c2.key, c2.cost);
    ChargeKeeps(Blank(), c1, j, 0.0);
    ChargeKeeps(t1, c2, c2.key, c2.cost);
    ChargeKeeps(t1, c2, j, 0.0);
  }

  /** The second pass finds the column's home free and starts it again from nothing. */
  lemma SecondPass(t: Table, k: ColumnKey, j: ColumnKey, x: real, p: Pass, maxAge: int) returns (u: Table)
    requires AllNew(t) && Probe(t, k) == Some(Home(k)) && t[Home(k)].Empty? && k.usage == Predicate && j.usage == Join
    requires Capped(t, k, x) && Capped(t, j, 0.0) && p == Pass(1, [Single(k, x)], true, []) && maxAge >= 0
    ensures u == Evaluated(t, maxAge, p) == RemoveAll(u, p.gone) && AllNew(u) && Capped(u, k, x) && Capped(u, j, 0.0)
    ensures Probe(u, k) == Some(Home(k)) && TrackedOf(u, k) == Some(Tracked(1, x, 1))
  {
    var ch := Charge(k, x, 1);
    u := ApplyCharge(t, ch);
    StoreKeepsFirst(t, ch, Home(k));
    ChargeKeeps(t, ch, k, x);
    ChargeKeeps(t, ch, j, 0.0);
    NothingStale(t, maxAge);
    DrainOne(t, k, x);
  }

  /** The third finds it there. */
  lemma ThirdPass(t: Table, k: ColumnKey, x: real, y: real, p: Pass, maxAge: int) returns (u: Table)
    requires AllNew(t) && Probe(t, k) == Some(Home(k)) && TrackedOf(t, k) == Some(Tracked(1, x, 1))
    requires k.usage == Predicate && p == Pass(1, [Single(k, y)], true, [k]) && maxAge >= 0
    ensures u == Evaluated(t, maxAge, p) && TrackedOf(u, k) == Some(Tracked(2, x + y, 1))
  {
    u := ApplyCharge(t, Charge(k, y, 1));
    BumpKeepsFirst(t, Charge(k, y, 1), Home(k));
    NothingStale(t, maxAge);
    DrainOne(t, k, y);
  }

  lemma {:induction false} OneStep(c: Config, ts: seq<Table>, ps: seq<Pass>, col: ColumnRef, due: seq<bool>, i: nat,
                                   u: Table)
    requires i < |ps| == |due| && |ts| == |ps| + 1
    requires u == Evaluated(ts[i], c.maxAge, ps[i]) && ts[i + 1] == RemoveAll(u, ps[i].gone)
    requires due[i] <==> Candidate(c, u, col)
    ensures PassAt(c, ts, ps, col, due, i)
  {
  }

  lemma ThreePasses(c: Config, ts: seq<Table>, ps: seq<Pass>, col: ColumnRef, due: seq<bool>)
    requires |ps| == |due| == 3 && |ts| == 4 && ts[0] == Blank() && col.attnum > 0
    requires PassAt(c, ts, ps, col, due, 0) && PassAt(c, ts, ps, col, due, 1) && PassAt(c, ts, ps, col, due, 2)
    ensures Run(c, ts, ps, col, due)
  {
    forall i | 0 <= i < 3
      ensures PassAt(c, ts, ps, col, due, i)
    {
      assert i == 0 || i == 1 || i == 2;
    }
  }

  lemma NotYet(c: Config, u: Table, col: ColumnRef, x: real)
    requires Capped(u, KeyOf(col, Predicate), x) && Capped(u, KeyOf(col, Join), 0.0) && 0.0 < x < c.cBuy
    ensures !Candidate(c, u, col)
  {
    NotFound(c, u, KeyOf(col, Predicate), x);
    NotFound(c, u, KeyOf(col, Join), 0.0);
  }

  lemma SpoiledRun(c: Config, n: ColumnKey, col: ColumnRef, x: real, y: real, ps: seq<Pass>)
    returns (ts: seq<Table>, due: seq<bool>)
    requires c.minFreq == 1 && c.maxAge >= 0 && c.cBuy == x + x && 0.0 < x && c.cBuy <= y && col.attnum > 0
    requires n != KeyOf(col, Predicate) && Home(n) == Home(KeyOf(col, Predicate)) && n.usage == Predicate
    requires ps == SpoiledPasses(n, KeyOf(col, Predicate), x, y)
    ensures Run(c, ts, ps, col, due) && |due| == 3 && !due[0] && !due[1] && due[2]
  {
    var k, j := KeyOf(col, Predicate), KeyOf(col, Join);
    var u0, t1 := FirstPass(n, k, j, x, ps[0], c.maxAge);
    var u1 := SecondPass(t1, k, j, x, ps[1], c.maxAge);
    var u2 := ThirdPass(u1, k, x, y, ps[2], c.maxAge);
    ts := [Blank(), t1, u1, RemoveAll(u2, ps[2].gone)];
    due := [false, false, true];
    NotYet(c, u0, col, x);
    OneStep(c, ts, ps, col, due, 0, u0);
    NotYet(c, u1, col, x);
    OneStep(c, ts, ps, col, due, 1, u1);
    TrackedIsFound(c, u2, k);
    OneStep(c, ts, ps, col, due, 2, u2);
    ThreePasses(c, ts, ps, col, due);
  }

  /** Two columns with one home, the first indexed after the first pass. Alone the second is bought when its queries
      have cost the price, and meets the ratio of two; in the table its first charge is forgotten with the neighbour,
      and it is bought only after another query of whatever cost y. */
  lemma NeighbourSpoilsRatio(relid: nat, price: real, y: real)
    returns (c: Config, ts: seq<Table>, ps: seq<Pass>, col: ColumnRef, due: seq<bool>)
    requires relid < 0xFFFF_FFFF && 0.0 < price <= y
    ensures EntriesOk(ps) && Run(c, ts, ps, col, due) && Unhindered(c, NOTHING, Rounds(ps, col))
    ensures Optimum(c, Rounds(ps, col)) == price
    ensures Cost(c, Advise(c, NOTHING, 0.0, Rounds(ps, col))) == price + price
    ensures Cost(c, Fate(0.0, Rounds(ps, col), due, 0)) == price + price + y
  {
    var x := price / 2.0;
    c := Config(1, 10, price);
    var n := ColumnKey(relid, 32, Predicate);
    col := ColumnRef(relid + 1, 1);
    SameHome(relid, Predicate);
    ps := SpoiledPasses(n, KeyOf(col, Predicate), x, y);
    ts, due := SpoiledRun(c, n, col, x, y, ps);
    var rs := SpoiledRounds(n, col, x, y);
    SpoiledAlone(c, x, y, rs);
    SpoiledFate(rs, due, x, y);
  }
}
