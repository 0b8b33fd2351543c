/** The rent-or-buy rule over passes of the whole rent table (src/backend/autoindex/index_advisor.c): when one column of
    many fares as it would alone. */
module AdvisorColumn {
  import opened AdvisorRun
  import opened AdvisorTable
  import opened Options
  import opened SkiRental
  import opened Workload

  /** One advisor pass over the whole table: evict, drain, evaluate, and remove the columns that are settled. */
  datatype Pass = Pass(now: int, es: seq<WorkloadEntry>, roomUnderCap: bool, gone: seq<ColumnKey>)

  function KeyOf(col: ColumnRef, u: Usage): ColumnKey {
    ColumnKey(col.relid, col.attnum, u)
  }

  function Mentions(e: WorkloadEntry, k: ColumnKey): nat {
    TimesCharged(Charges(e), k)
  }

  function QueryFor(e: WorkloadEntry, col: ColumnRef): Query {
    Query(e.cost, Mentions(e, KeyOf(col, Predicate)), Mentions(e, KeyOf(col, Join)), e.ts)
  }

  function Queries(es: seq<WorkloadEntry>, col: ColumnRef): (qs: seq<Query>)
    ensures |qs| == |es|
  {
    seq(|es|, i requires 0 <= i < |es| => QueryFor(es[i], col))
  }

  /** What the passes are for one column alone. */
  function Rounds(ps: seq<Pass>, col: ColumnRef): (rs: seq<Round>)
    ensures |rs| == |ps|
  {
    seq(|ps|, i requires 0 <= i < |ps| => Round(ps[i].now, Queries(ps[i].es, col), ps[i].roomUnderCap))
  }

  /** The table as the evaluation loop of a pass finds it. */
  function Evaluated(t: Table, maxAge: int, p: Pass): Table {
    Drained(Cleared(t, Stale(t, p.now, maxAge)), AllCharges(p.es))
  }

  function RemoveAll(t: Table, gone: seq<ColumnKey>): Table {
    if gone == [] then t else Removed(RemoveAll(t, gone[..|gone| - 1]), gone[|gone| - 1])
  }

  // ---------------------------------------------------------------- what the evaluation loop sees

  predicate FoundAt(c: Config, t: Table, k: ColumnKey, j: nat) {
    Holds(t, k, j) && Triggers(c, Some(Stored(t, j)))
  }

  /** The loop goes over all slots, also those no lookup reaches. */
  ghost predicate Found(c: Config, t: Table, k: ColumnKey) {
    exists j: nat :: FoundAt(c, t, k, j)
  }

  /** Only predicate and join uses of a column with a real attribute number are considered. */
  ghost predicate Candidate(c: Config, t: Table, col: ColumnRef) {
    col.attnum > 0 && (Found(c, t, KeyOf(col, Predicate)) || Found(c, t, KeyOf(col, Join)))
  }

  /** For a column whose path has no hole it sees what a lookup would. */
  lemma FoundIsTracked(c: Config, t: Table, k: ColumnKey)
    requires PathOk(t, k)
    ensures Found(c, t, k) <==> Triggers(c, TrackedOf(t, k))
  {
    TrackedIsStored(t, k);
    if Triggers(c, TrackedOf(t, k)) {
      var j: nat :| Holds(t, k, j);
      assert FoundAt(c, t, k, j);
    }
  }

  /** After its removal a column triggers again if and only if an entry a lookup did not reach did before. */
  lemma RetriggersExact(c: Config, t: Table, k: ColumnKey)
    ensures Found(c, Removed(t, k), k) <==> exists j: nat :: FoundAt(c, t, k, j) && Probe(t, k) != Some(j)
  {
    var t' := Removed(t, k);
    forall j: nat
      ensures FoundAt(c, t', k, j) <==> FoundAt(c, t, k, j) && Probe(t, k) != Some(j)
    {
    }
  }

  // ---------------------------------------------------------------- one pass

  lemma {:induction false} SameCharges(st: Option<Tracked>, cs: seq<Charge>, k: ColumnKey, x: real, ts: int)
    requires forall i :: 0 <= i < |cs| ==> cs[i].cost == x && cs[i].ts == ts
    ensures Owed(st, cs, k) == ChargeTimes(st, TimesCharged(cs, k), x, ts)
  {
    if cs != [] {
      SameCharges(st, cs[..|cs| - 1], k, x, ts);
    }
  }

  lemma {:induction false} DrainIsQueries(st: Option<Tracked>, es: seq<WorkloadEntry>, col: ColumnRef, u: Usage)
    requires !u.Sort?
    ensures Owed(st, AllCharges(es), KeyOf(col, u)) == ChargeAll(st, Queries(es, col), u)
  {
    if es != [] {
      var n := |es| - 1;
      var k := KeyOf(col, u);
      DrainIsQueries(st, es[..n], col, u);
      assert Queries(es, col)[..n] == Queries(es[..n], col);
      OwedAppend(st, AllCharges(es[..n]), Charges(es[n]), k);
      SameCharges(Owed(st, AllCharges(es[..n]), k), Charges(es[n]), k, es[n].cost, es[n].ts);
    }
  }

  predicate SparesAll(t: Table, gone: seq<ColumnKey>, k: ColumnKey) {
    gone == [] ||
    (var n := |gone| - 1;
     && SparesAll(t, gone[..n], k) && gone[n] != k
     && Spared(RemoveAll(t, gone[..n]), Slots(RemoveAll(t, gone[..n]), gone[n]), k))
  }

  lemma {:induction false} RemovalsSpare(t: Table, gone: seq<ColumnKey>, k: ColumnKey)
    requires PathOk(t, k) && SparesAll(t, gone, k)
    ensures PathOk(RemoveAll(t, gone), k) && TrackedOf(RemoveAll(t, gone), k) == TrackedOf(t, k)
  {
    if gone != [] {
      var n := |gone| - 1;
      RemovalsSpare(t, gone[..n], k);
      RemoveExact(RemoveAll(t, gone[..n]), gone[n], k);
    }
  }

  /** The pass clears nothing on k's probe path before the rule reads it, and turns none of its charges away. */
  predicate ReadsWell(t: Table, maxAge: int, p: Pass, k: ColumnKey) {
    && Spares(t, maxAge, k, Evict(p.now))
    && Spares(Cleared(t, Stale(t, p.now, maxAge)), maxAge, k, Drain(p.es))
  }

  lemma {:induction false} EvaluatedIs(t: Table, maxAge: int, p: Pass, col: ColumnRef, u: Usage)
    requires !u.Sort? && PathOk(t, KeyOf(col, u)) && ReadsWell(t, maxAge, p, KeyOf(col, u))
    ensures PathOk(Evaluated(t, maxAge, p), KeyOf(col, u))
    ensures TrackedOf(Evaluated(t, maxAge, p), KeyOf(col, u))
            == ChargeAll(Evicted(TrackedOf(t, KeyOf(col, u)), p.now, maxAge), Queries(p.es, col), u)
  {
    var k := KeyOf(col, u);
    StepExact(t, maxAge, k, Evict(p.now));
    StepExact(Cleared(t, Stale(t, p.now, maxAge)), maxAge, k, Drain(p.es));
    DrainIsQueries(Evicted(TrackedOf(t, k), p.now, maxAge), p.es, col, u);
  }

  predicate BothOk(t: Table, col: ColumnRef) {
    PathOk(t, KeyOf(col, Predicate)) && PathOk(t, KeyOf(col, Join))
  }

  function RentsOf(t: Table, col: ColumnRef): Rents {
    Rents(TrackedOf(t, KeyOf(col, Predicate)), TrackedOf(t, KeyOf(col, Join)))
  }

  predicate BothReadWell(t: Table, maxAge: int, p: Pass, col: ColumnRef) {
    ReadsWell(t, maxAge, p, KeyOf(col, Predicate)) && ReadsWell(t, maxAge, p, KeyOf(col, Join))
  }

  predicate BothSpared(t: Table, gone: seq<ColumnKey>, col: ColumnRef) {
    SparesAll(t, gone, KeyOf(col, Predicate)) && SparesAll(t, gone, KeyOf(col, Join))
  }

  /** What the evaluation of a pass finds of a column is what the column's own rents say. */
  lemma ReadingIs(c: Config, t: Table, p: Pass, col: ColumnRef, u: Table, st: Rents, qs: seq<Query>)
    requires BothOk(t, col) && BothReadWell(t, c.maxAge, p, col) && col.attnum > 0
    requires u == Evaluated(t, c.maxAge, p) && st == RentsOf(t, col) && qs == Queries(p.es, col)
    ensures BothOk(u, col) && RentsOf(u, col) == ChargeBoth(EvictBoth(c, st, p.now), qs)
    ensures Candidate(c, u, col) <==> Due(c, ChargeBoth(EvictBoth(c, st, p.now), qs))
  {
    EvaluatedIs(t, c.maxAge, p, col, Predicate);
    EvaluatedIs(t, c.maxAge, p, col, Join);
    FoundIsTracked(c, u, KeyOf(col, Predicate));
    FoundIsTracked(c, u, KeyOf(col, Join));
  }

  lemma {:induction false} RemovalsLeave(u: Table, gone: seq<ColumnKey>, col: ColumnRef, t': Table, st: Rents)
    requires BothOk(u, col) && BothSpared(u, gone, col) && t' == RemoveAll(u, gone) && st == RentsOf(u, col)
    ensures BothOk(t', col) && RentsOf(t', col) == st
  {
    RemovalsSpare(u, gone, KeyOf(col, Predicate));
    RemovalsSpare(u, gone, KeyOf(col, Join));
  }

  // ---------------------------------------------------------------- the rule on the table

  predicate BuysAt(rs: seq<Round>, due: seq<bool>, i: nat)
    requires i < |rs| == |due|
  {
    due[i] && rs[i].roomUnderCap
  }

  /** The rule at pass i and after, given whether each pass finds the column among the candidates. */
  function Fate(paid: real, rs: seq<Round>, due: seq<bool>, i: nat): Outcome
    requires i <= |rs| == |due|
    decreases |rs| - i
  {
    if i == |rs| then Renting(paid)
    else
      var paid' := paid + Spent(rs[i].queries);
      if BuysAt(rs, due, i) then Bought(paid') else Fate(paid', rs, due, i + 1)
  }

  /** The column is not bought before pass i. */
  predicate RentingUntil(rs: seq<Round>, due: seq<bool>, i: nat)
    requires i <= |rs| == |due|
  {
    forall j :: 0 <= j < i ==> !BuysAt(rs, due, j)
  }

  ghost predicate PassAt(c: Config, ts: seq<Table>, ps: seq<Pass>, col: ColumnRef, due: seq<bool>, i: nat)
    requires i < |ps| == |due| && |ts| == |ps| + 1
  {
    var u := Evaluated(ts[i], c.maxAge, ps[i]);
    ts[i + 1] == RemoveAll(u, ps[i].gone) && (due[i] <==> Candidate(c, u, col))
  }

  /** ts are the tables before the first pass and after each, and `due` whether each pass finds the column due. */
  ghost predicate Run(c: Config, ts: seq<Table>, ps: seq<Pass>, col: ColumnRef, due: seq<bool>) {
    && col.attnum > 0 && |ts| == |ps| + 1 && |due| == |ps| && ts[0] == Blank()
    && forall i :: 0 <= i < |ps| ==> PassAt(c, ts, ps, col, due, i)
  }

  predicate UndisturbedAt(c: Config, ts: seq<Table>, ps: seq<Pass>, col: ColumnRef, due: seq<bool>, i: nat)
    requires i < |ps| == |due| && |ts| == |ps| + 1
  {
    && BothReadWell(ts[i], c.maxAge, ps[i], col)
    && (!BuysAt(Rounds(ps, col), due, i) ==> BothSpared(Evaluated(ts[i], c.maxAge, ps[i]), ps[i].gone, col))
  }

  /** Until the column is bought nothing is cleared on its probe paths, none of its charges is turned away, and it is
      not settled for another reason. */
  predicate Undisturbed(c: Config, ts: seq<Table>, ps: seq<Pass>, col: ColumnRef, due: seq<bool>)
    requires |ps| == |due| && |ts| == |ps| + 1
  {
    forall i {:trigger UndisturbedAt(c, ts, ps, col, due, i)} ::
      0 <= i < |ps| && RentingUntil(Rounds(ps, col), due, i) ==> UndisturbedAt(c, ts, ps, col, due, i)
  }

  lemma PassKeeps(c: Config, t: Table, p: Pass, col: ColumnRef, t': Table)
    requires BothOk(t, col) && BothReadWell(t, c.maxAge, p, col) && col.attnum > 0
    requires BothSpared(Evaluated(t, c.maxAge, p), p.gone, col) && t' == RemoveAll(Evaluated(t, c.maxAge, p), p.gone)
    ensures BothOk(t', col)
    ensures RentsOf(t', col) == ChargeBoth(EvictBoth(c, RentsOf(t, col), p.now), Queries(p.es, col))
  {
    var u := Evaluated(t, c.maxAge, p);
    ReadingIs(c, t, p, col, u, RentsOf(t, col), Queries(p.es, col));
    RemovalsLeave(u, p.gone, col, t', RentsOf(u, col));
  }

  lemma RunStarts(c: Config, ts: seq<Table>, ps: seq<Pass>, col: ColumnRef, due: seq<bool>, t: Table)
    requires Run(c, ts, ps, col, due) && t == ts[0]
    ensures BothOk(t, col) && RentsOf(t, col) == NOTHING
  {
    BlankIsEmpty(KeyOf(col, Predicate));
    BlankIsEmpty(KeyOf(col, Join));
  }

  lemma RunGoesOn(c: Config, ts: seq<Table>, ps: seq<Pass>, col: ColumnRef, due: seq<bool>, i: nat, t: Table, t': Table)
    requires Run(c, ts, ps, col, due) && i < |ps| && UndisturbedAt(c, ts, ps, col, due, i)
    requires !BuysAt(Rounds(ps, col), due, i) && t == ts[i] && t' == ts[i + 1] && BothOk(t, col)
    ensures BothOk(t', col)
    ensures RentsOf(t', col) == ChargeBoth(EvictBoth(c, RentsOf(t, col), ps[i].now), Queries(ps[i].es, col))
  {
    assert PassAt(c, ts, ps, col, due, i);
    PassKeeps(c, t, ps[i], col, t');
  }

  lemma {:induction false} RunKeeps(c: Config, ts: seq<Table>, ps: seq<Pass>, col: ColumnRef, due: seq<bool>, i: nat,
                                    t: Table)
    requires Run(c, ts, ps, col, due) && Undisturbed(c, ts, ps, col, due)
    requires i <= |ps| && RentingUntil(Rounds(ps, col), due, i) && t == ts[i]
    ensures BothOk(t, col)
  {
    if i == 0 {
      RunStarts(c, ts, ps, col, due, t);
    } else {
      var j := i - 1;
      assert RentingUntil(Rounds(ps, col), due, j);
      RunKeeps(c, ts, ps, col, due, j, ts[j]);
      assert UndisturbedAt(c, ts, ps, col, due, j);
      RunGoesOn(c, ts, ps, col, due, j, ts[j], t);
    }
  }

  /** Pass i finds the column due, and leaves its rents, as the rents before it say. */
  predicate StepOk(c: Config, rs: seq<Round>, due: seq<bool>, sts: seq<Rents>, i: nat)
    requires i < |rs| == |due| && |sts| == |rs| + 1
  {
    var st' := ChargeBoth(EvictBoth(c, sts[i], rs[i].now), rs[i].queries);
    (due[i] <==> Due(c, st')) && (!BuysAt(rs, due, i) ==> sts[i + 1] == st')
  }

  lemma RunSteps(c: Config, ts: seq<Table>, ps: seq<Pass>, col: ColumnRef, due: seq<bool>, sts: seq<Rents>, i: nat)
    requires Run(c, ts, ps, col, due) && Undisturbed(c, ts, ps, col, due)
    requires i < |ps| && RentingUntil(Rounds(ps, col), due, i)
    requires |sts| == |ts| && sts[i] == RentsOf(ts[i], col) && sts[i + 1] == RentsOf(ts[i + 1], col)
    ensures StepOk(c, Rounds(ps, col), due, sts, i)
  {
    RunKeeps(c, ts, ps, col, due, i, ts[i]);
    assert PassAt(c, ts, ps, col, due, i) && UndisturbedAt(c, ts, ps, col, due, i);
    ReadingIs(c, ts[i], ps[i], col, Evaluated(ts[i], c.maxAge, ps[i]), sts[i], Queries(ps[i].es, col));
    if !BuysAt(Rounds(ps, col), due, i) {
      RunGoesOn(c, ts, ps, col, due, i, ts[i], ts[i + 1]);
    }
  }

  /** A column every pass treats as its own rents say is decided as if it were alone. */
  lemma {:induction false} FateAlone(c: Config, paid: real, rs: seq<Round>, due: seq<bool>, sts: seq<Rents>, i: nat)
    requires i <= |rs| == |due| && |sts| == |rs| + 1 && RentingUntil(rs, due, i)
    requires forall j {:trigger StepOk(c, rs, due, sts, j)} ::
               0 <= j < |rs| && RentingUntil(rs, due, j) ==> StepOk(c, rs, due, sts, j)
    ensures Fate(paid, rs, due, i) == Advise(c, sts[i], paid, rs[i..])
    decreases |rs| - i
  {
    if i < |rs| {
      assert StepOk(c, rs, due, sts, i);
      assert rs[i..][0] == rs[i] && rs[i..][1..] == rs[i + 1..];
      if !BuysAt(rs, due, i) {
        FateAlone(c, paid + Spent(rs[i].queries), rs, due, sts, i + 1);
      }
    }
  }

  /** An undisturbed column fares in the shared table as it would alone. */
  lemma {:induction false} FateRefines(c: Config, ts: seq<Table>, ps: seq<Pass>, col: ColumnRef, due: seq<bool>)
    requires Run(c, ts, ps, col, due) && Undisturbed(c, ts, ps, col, due)
    ensures Fate(0.0, Rounds(ps, col), due, 0) == Advise(c, NOTHING, 0.0, Rounds(ps, col))
  {
    var rs, sts := Rounds(ps, col), seq(|ts|, i requires 0 <= i < |ts| => RentsOf(ts[i], col));
    forall i | 0 <= i < |rs| && RentingUntil(rs, due, i)
      ensures StepOk(c, rs, due, sts, i)
    {
      RunSteps(c, ts, ps, col, due, sts, i);
    }
    RunStarts(c, ts, ps, col, due, ts[0]);
    FateAlone(c, 0.0, rs, due, sts, 0);
    assert rs[0..] == rs;
  }

  predicate EntriesOk(ps: seq<Pass>) {
    forall i, j :: 0 <= i < |ps| && 0 <= j < |ps[i].es| ==> ps[i].es[j].cost >= 0.0
  }

  lemma RoundsOk(ps: seq<Pass>, col: ColumnRef)
    requires EntriesOk(ps)
    ensures CostsOk(Rounds(ps, col))
  {
    forall i | 0 <= i < |ps|
      ensures QueriesOk(Rounds(ps, col)[i].queries)
    {
    }
  }

  /** The promised ratio of two, for a column of the table the code keeps: undisturbed and unhindered it meets it
      exactly when the sums of its workload say so. */
  lemma {:induction false} TableRatioExact(c: Config, ts: seq<Table>, ps: seq<Pass>, col: ColumnRef, due: seq<bool>)
    requires EntriesOk(ps) && c.cBuy > 0.0 && Run(c, ts, ps, col, due)
    requires Undisturbed(c, ts, ps, col, due) && Unhindered(c, NOTHING, Rounds(ps, col))
    ensures Cost(c, Fate(0.0, Rounds(ps, col), due, 0)) <= 2.0 * Optimum(c, Rounds(ps, col))
            <==> WithinTwo(c.cBuy, Rounds(ps, col))
  {
    FateRefines(c, ts, ps, col, due);
    RoundsOk(ps, col);
    RatioTwoExact(c, Rounds(ps, col));
  }

  /** And the bound it really has: one pass above three times the optimum, or above one more than the mentions a query
      can have. */
  lemma {:induction false} TableCompetitive(c: Config, ts: seq<Table>, ps: seq<Pass>, col: ColumnRef, due: seq<bool>,
                                            w: real, m: nat)
    requires EntriesOk(ps) && c.cBuy > 0.0 && Run(c, ts, ps, col, due) && w >= 0.0 && m >= 1
    requires Undisturbed(c, ts, ps, col, due) && Unhindered(c, NOTHING, Rounds(ps, col))
    requires RoundsAtMost(Rounds(ps, col), w, m)
    ensures Cost(c, Fate(0.0, Rounds(ps, col), due, 0)) <= Repeated(Factors(m), Optimum(c, Rounds(ps, col))) + w
  {
    FateRefines(c, ts, ps, col, due);
    RoundsOk(ps, col);
    CompetitiveUpToOneRound(c, Rounds(ps, col), w, m, Predicate);
  }
}
