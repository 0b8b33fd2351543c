/** The advisor's rent-or-buy rule for one column over whole runs (src/backend/autoindex/index_advisor.c),
    against the offline optimum the documentation promises to stay within a factor of two of. The rule keeps the rents
    of a column's predicate and join uses apart, but one index serves both. */
module SkiRental {
  import opened Options
  import opened Workload

  /** A finished query that mentions the column so often in predicates and so often in joins: it costs the workload
      `cost` once, and the drain charges it once per mention. */
  datatype Query = Query(cost: real, preds: nat, joins: nat, ts: int)

  /** One advisor pass: its clock, the queries drained since the last one, and whether the per-table cap lets an
      index be created. */
  datatype Round = Round(now: int, queries: seq<Query>, roomUnderCap: bool)

  datatype Config = Config(minFreq: nat, maxAge: int, cBuy: real)

  datatype Outcome = Bought(paid: real) | Renting(paid: real)

  /** What is kept of the column under each usage that is considered for indexes. */
  datatype Rents = Rents(pred: Option<Tracked>, join: Option<Tracked>)

  const NOTHING := Rents(None, None)

  /** x added up n times. */
  function Repeated(n: nat, x: real): real {
    if n == 0 then 0.0 else x + Repeated(n - 1, x)
  }

  function Times(q: Query, u: Usage): nat {
    match u case Predicate => q.preds case Join => q.joins case Sort => 0
  }

  /** The query would have used the index. */
  predicate Mentioned(q: Query) {
    q.preds > 0 || q.joins > 0
  }

  /** n charges of x at the time ts. */
  function ChargeTimes(st: Option<Tracked>, n: nat, x: real, ts: int): Option<Tracked> {
    if n == 0 then st else Some(Tracked(CountIn(st) + n, RentIn(st) + Repeated(n, x), ts))
  }

  /** All mentions of one query under one usage. */
  function ChargeQuery(st: Option<Tracked>, q: Query, u: Usage): Option<Tracked> {
    ChargeTimes(st, Times(q, u), q.cost, q.ts)
  }

  function ChargeAll(st: Option<Tracked>, qs: seq<Query>, u: Usage): Option<Tracked> {
    if qs == [] then st else ChargeQuery(ChargeAll(st, qs[..|qs| - 1], u), qs[|qs| - 1], u)
  }

  /** What the queries that mention the column cost, each once. */
  function Spent(qs: seq<Query>): real {
    if qs == [] then 0.0
    else Spent(qs[..|qs| - 1]) + if Mentioned(qs[|qs| - 1]) then qs[|qs| - 1].cost else 0.0
  }

  /** What they are charged as under one usage. */
  function Rented(qs: seq<Query>, u: Usage): real {
    if qs == [] then 0.0 else Rented(qs[..|qs| - 1], u) + Repeated(Times(qs[|qs| - 1], u), qs[|qs| - 1].cost)
  }

  /** What all the queries cost if the index is never built. */
  function Total(rs: seq<Round>): real {
    if rs == [] then 0.0 else Spent(rs[0].queries) + Total(rs[1..])
  }

  predicate Triggers(c: Config, st: Option<Tracked>) {
    st.Some? && c.minFreq <= st.value.count && c.cBuy <= st.value.rent
  }

  /** Either usage makes the column a candidate. */
  predicate Due(c: Config, st: Rents) {
    Triggers(c, st.pred) || Triggers(c, st.join)
  }

  function EvictBoth(c: Config, st: Rents, now: int): Rents {
    Rents(Evicted(st.pred, now, c.maxAge), Evicted(st.join, now, c.maxAge))
  }

  function ChargeBoth(st: Rents, qs: seq<Query>): Rents {
    Rents(ChargeAll(st.pred, qs, Predicate), ChargeAll(st.join, qs, Join))
  }

  /** Pass after pass: evict, drain, evaluate, and buy when the rule triggers and the cap allows. Once the index
      is there the column's queries are free. */
  function Advise(c: Config, st: Rents, paid: real, rs: seq<Round>): Outcome
    decreases |rs|
  {
    if rs == [] then Renting(paid)
    else
      var st' := ChargeBoth(EvictBoth(c, st, rs[0].now), rs[0].queries);
      var paid' := paid + Spent(rs[0].queries);
      if Due(c, st') && rs[0].roomUnderCap then Bought(paid') else Advise(c, st', paid', rs[1..])
  }

  function Cost(c: Config, o: Outcome): real {
    match o case Bought(p) => p + c.cBuy case Renting(p) => p
  }

  function MinReal(a: real, b: real): real {
    if a <= b then a else b
  }

  /** The offline optimum: buy at once or never. */
  function Optimum(c: Config, rs: seq<Round>): real {
    MinReal(Total(rs), c.cBuy)
  }

  predicate QueriesOk(qs: seq<Query>) {
    forall j :: 0 <= j < |qs| ==> qs[j].cost >= 0.0
  }

  predicate CostsOk(rs: seq<Round>) {
    forall i :: 0 <= i < |rs| ==> QueriesOk(rs[i].queries)
  }

  /** No query mentions the column more than m times under one usage. */
  predicate MentionsAtMost(qs: seq<Query>, m: nat) {
    forall j :: 0 <= j < |qs| ==> qs[j].preds <= m && qs[j].joins <= m
  }

  // ---------------------------------------------------------------- sums

  lemma {:induction false} RepeatedSum(n: nat, x: real, y: real)
    ensures Repeated(n, x + y) == Repeated(n, x) + Repeated(n, y)
  {
    if n > 0 {
      RepeatedSum(n - 1, x, y);
    }
  }

  lemma {:induction false} RepeatedMore(m: nat, n: nat, x: real)
    requires m <= n && x >= 0.0
    ensures 0.0 <= Repeated(m, x) <= Repeated(n, x)
    decreases n
  {
    if m < n {
      RepeatedMore(m, n - 1, x);
    } else if n > 0 {
      RepeatedMore(m - 1, n - 1, x);
    }
  }

  lemma {:induction false} RepeatedLarger(n: nat, x: real, y: real)
    requires x <= y
    ensures Repeated(n, x) <= Repeated(n, y)
  {
    if n > 0 {
      RepeatedLarger(n - 1, x, y);
    }
  }

  /** One query is charged at least what it costs, and at most as often as it mentions the column. */
  lemma QueryBounds(q: Query, m: nat)
    requires q.cost >= 0.0 && q.preds <= m && q.joins <= m
    ensures var spent := if Mentioned(q) then q.cost else 0.0;
            && 0.0 <= Repeated(q.preds, q.cost) <= Repeated(m, spent)
            && 0.0 <= Repeated(q.joins, q.cost) <= Repeated(m, spent)
            && 0.0 <= spent <= Repeated(q.preds, q.cost) + Repeated(q.joins, q.cost)
  {
    RepeatedMore(0, m, 0.0);
    RepeatedMore(q.preds, m, q.cost);
    RepeatedMore(q.joins, m, q.cost);
    if q.preds > 0 {
      RepeatedMore(1, q.preds, q.cost);
    }
    if q.joins > 0 {
      RepeatedMore(1, q.joins, q.cost);
    }
    assert Repeated(1, q.cost) == q.cost + Repeated(0, q.cost);
  }

  /** So are many. */
  lemma {:induction false} RentedBounds(qs: seq<Query>, m: nat)
    requires QueriesOk(qs) && MentionsAtMost(qs, m)
    ensures 0.0 <= Rented(qs, Predicate) <= Repeated(m, Spent(qs))
    ensures 0.0 <= Rented(qs, Join) <= Repeated(m, Spent(qs))
    ensures 0.0 <= Spent(qs) <= Rented(qs, Predicate) + Rented(qs, Join)
  {
    if qs == [] {
      RepeatedMore(0, m, 0.0);
    } else {
      var n := |qs| - 1;
      var q := qs[n];
      RentedBounds(qs[..n], m);
      QueryBounds(q, m);
      RepeatedSum(m, Spent(qs[..n]), if Mentioned(q) then q.cost else 0.0);
    }
  }

  lemma {:induction false} SomeBound(qs: seq<Query>) returns (m: nat)
    ensures MentionsAtMost(qs, m)
  {
    if qs == [] {
      m := 0;
    } else {
      var n := |qs| - 1;
      m := SomeBound(qs[..n]);
      m := m + qs[n].preds + qs[n].joins;
      forall j | 0 <= j < |qs|
        ensures qs[j].preds <= m && qs[j].joins <= m
      {
        if j < n {
          assert qs[..n][j] == qs[j];
        }
      }
    }
  }

  lemma {:induction false} SpentBounds(qs: seq<Query>)
    requires QueriesOk(qs)
    ensures 0.0 <= Spent(qs) <= Rented(qs, Predicate) + Rented(qs, Join)
    ensures 0.0 <= Rented(qs, Predicate) && 0.0 <= Rented(qs, Join)
  {
    var m := SomeBound(qs);
    RentedBounds(qs, m);
  }

  lemma {:induction false} TotalNonNegative(rs: seq<Round>)
    requires CostsOk(rs)
    ensures Total(rs) >= 0.0
  {
    if rs != [] {
      SpentBounds(rs[0].queries);
      TotalNonNegative(rs[1..]);
    }
  }

  /** What the workload has paid when the run ends or buys is the cost of a prefix of the queries: of all of
      them unless it bought. */
  lemma {:induction false} PaidWithinTotal(c: Config, st: Rents, paid: real, rs: seq<Round>)
    requires CostsOk(rs)
    ensures var o := Advise(c, st, paid, rs);
            paid <= o.paid <= paid + Total(rs) && (o.Renting? ==> o.paid == paid + Total(rs))
    decreases |rs|
  {
    if rs != [] {
      SpentBounds(rs[0].queries);
      TotalNonNegative(rs[1..]);
      PaidWithinTotal(c, ChargeBoth(EvictBoth(c, st, rs[0].now), rs[0].queries), paid + Spent(rs[0].queries), rs[1..]);
    }
  }

  lemma {:induction false} RentGrows(st: Option<Tracked>, qs: seq<Query>, u: Usage)
    ensures RentIn(ChargeAll(st, qs, u)) == RentIn(st) + Rented(qs, u)
  {
    if qs != [] {
      RentGrows(st, qs[..|qs| - 1], u);
    }
  }

  // ---------------------------------------------------------------- when the rule is not hindered

  /** Some rent has reached the price. */
  predicate Reached(c: Config, st: Rents) {
    c.cBuy <= RentIn(st.pred) || c.cBuy <= RentIn(st.join)
  }

  /** Until a rent reaches the price nothing is evicted, and then neither the frequency guard nor the cap holds the
      column back. */
  predicate Unhindered(c: Config, st: Rents, rs: seq<Round>)
    decreases |rs|
  {
    rs == [] ||
    (var st' := ChargeBoth(st, rs[0].queries);
     && EvictBoth(c, st, rs[0].now) == st
     && if Reached(c, st') then Due(c, st') && rs[0].roomUnderCap else Unhindered(c, st', rs[1..]))
  }

  /** What has been charged under either usage, and what has been paid. */
  datatype Sums = Sums(pred: real, join: real, paid: real)

  const ZERO := Sums(0.0, 0.0, 0.0)

  function Add(at: Sums, qs: seq<Query>): Sums {
    Sums(at.pred + Rented(qs, Predicate), at.join + Rented(qs, Join), at.paid + Spent(qs))
  }

  /** The sums over the workload at the first pass that finds the price charged under one usage. */
  function Crossing(price: real, at: Sums, rs: seq<Round>): Option<Sums>
    decreases |rs|
  {
    if rs == [] then None
    else
      var at' := Add(at, rs[0].queries);
      if price <= at'.pred || price <= at'.join then Some(at') else Crossing(price, at', rs[1..])
  }

  lemma {:induction false} BuysAtCrossing(c: Config, st: Rents, at: Sums, rs: seq<Round>)
    requires CostsOk(rs) && Unhindered(c, st, rs) && !Reached(c, st)
    requires at.pred == RentIn(st.pred) && at.join == RentIn(st.join) && at.paid <= at.pred + at.join
    ensures var o := Advise(c, st, at.paid, rs);
            match Crossing(c.cBuy, at, rs)
            case Some(x) => o == Bought(x.paid)
            case None => o.Renting? && at.paid + Total(rs) < 2.0 * c.cBuy
    decreases |rs|
  {
    if rs != [] {
      var qs := rs[0].queries;
      RentGrows(st.pred, qs, Predicate);
      RentGrows(st.join, qs, Join);
      SpentBounds(qs);
      if !Reached(c, ChargeBoth(st, qs)) {
        BuysAtCrossing(c, ChargeBoth(st, qs), Add(at, qs), rs[1..]);
      }
    }
  }

  /** What has to be true of the workload for the promised ratio of two: no pass finds the price charged under either
      usage, or the first that does finds no more than the price paid, and no less than the rest of the workload leaves
      room for. */
  predicate WithinTwo(price: real, rs: seq<Round>) {
    match Crossing(price, ZERO, rs)
    case None => true
    case Some(x) => x.paid <= price && x.paid + price <= 2.0 * Total(rs)
  }

  /** For unhindered workloads the promised ratio holds exactly then. */
  lemma {:induction false} RatioTwoExact(c: Config, rs: seq<Round>)
    requires CostsOk(rs) && c.cBuy > 0.0 && Unhindered(c, NOTHING, rs)
    ensures Cost(c, Advise(c, NOTHING, 0.0, rs)) <= 2.0 * Optimum(c, rs) <==> WithinTwo(c.cBuy, rs)
  {
    BuysAtCrossing(c, NOTHING, ZERO, rs);
    PaidWithinTotal(c, NOTHING, 0.0, rs);
    TotalNonNegative(rs);
  }

  // ---------------------------------------------------------------- the bound it really has

  /** No pass costs more than w, and no query mentions the column more than m times under one usage. */
  predicate RoundsAtMost(rs: seq<Round>, w: real, m: nat) {
    forall i :: 0 <= i < |rs| ==> Spent(rs[i].queries) <= w && MentionsAtMost(rs[i].queries, m)
  }

  predicate LoneIn(qs: seq<Query>, u: Usage) {
    forall j :: 0 <= j < |qs| ==> (u.Predicate? || qs[j].preds == 0) && (u.Join? || qs[j].joins == 0)
  }

  /** The column is used in one way only. */
  predicate Lone(rs: seq<Round>, u: Usage) {
    forall i :: 0 <= i < |rs| ==> LoneIn(rs[i].queries, u)
  }

  lemma {:induction false} LoneSums(qs: seq<Query>, u: Usage)
    requires LoneIn(qs, u)
    ensures !u.Predicate? ==> Rented(qs, Predicate) == 0.0
    ensures !u.Join? ==> Rented(qs, Join) == 0.0
  {
    if qs != [] {
      LoneSums(qs[..|qs| - 1], u);
    }
  }

  /** Sums a workload can reach before the price is charged. */
  predicate Below(price: real, at: Sums, m: nat) {
    && 0.0 <= at.pred < price && at.pred <= Repeated(m, at.paid)
    && 0.0 <= at.join < price && at.join <= Repeated(m, at.paid)
    && at.paid <= at.pred + at.join
  }

  predicate LoneAt(at: Sums, u: Usage) {
    (u.Predicate? || at.pred == 0.0) && (u.Join? || at.join == 0.0)
  }

  /** The pass that crosses the price found the sums below it, and cost no more than w. */
  lemma {:induction false} CrossingBounds(price: real, at: Sums, rs: seq<Round>, w: real, m: nat, u: Usage)
    requires CostsOk(rs) && RoundsAtMost(rs, w, m) && Below(price, at, m)
    ensures match Crossing(price, at, rs)
            case None => true
            case Some(x) =>
              && price <= Repeated(m, x.paid) && x.paid < 2.0 * price + w
              && (Lone(rs, u) && LoneAt(at, u) ==> x.paid < price + w)
    decreases |rs|
  {
    if rs != [] {
      var qs := rs[0].queries;
      RentedBounds(qs, m);
      RepeatedSum(m, at.paid, Spent(qs));
      if Lone(rs, u) {
        LoneSums(qs, u);
      }
      if Below(price, Add(at, qs), m) {
        CrossingBounds(price, Add(at, qs), rs[1..], w, m, u);
      }
    }
  }

  lemma {:induction false} RentedUntil(price: real, at: Sums, rs: seq<Round>, u: Usage)
    requires CostsOk(rs) && Lone(rs, u) && LoneAt(at, u) && at.pred < price && at.join < price
    requires at.paid <= at.pred + at.join && Crossing(price, at, rs).None?
    ensures at.paid + Total(rs) < price
    decreases |rs|
  {
    if rs != [] {
      SpentBounds(rs[0].queries);
      LoneSums(rs[0].queries, u);
      RentedUntil(price, Add(at, rs[0].queries), rs[1..], u);
    }
  }

  /** n prices, and w besides, cover what was paid at the purchase and the price. */
  lemma LateBuy(price: real, total: real, paid: real, w: real, m: nat, n: nat)
    requires price > 0.0 && 1 <= m <= n && 0.0 <= paid <= total && w >= 0.0
    requires price <= Repeated(m, paid) && paid + price <= Repeated(n + 1, price) + w
    ensures paid + price <= Repeated(n + 1, MinReal(total, price)) + w
  {
    if total < price {
      RepeatedLarger(m, paid, total);
      RepeatedMore(m, n, total);
    }
  }

  lemma {:induction false} FewTimes(x: real)
    ensures Repeated(1, x) == x && Repeated(2, x) == x + x && Repeated(3, x) == x + x + x
  {
    assert Repeated(1, x) == x + Repeated(0, x) && Repeated(2, x) == x + Repeated(1, x);
  }

  /** Three, or one more than the mentions a query can have. */
  function Factors(m: nat): nat {
    if m <= 1 then 3 else m + 1
  }

  lemma BoughtBound(price: real, total: real, paid: real, w: real, m: nat)
    requires price > 0.0 && m >= 1 && 0.0 <= paid <= total && w >= 0.0 && price <= Repeated(m, paid)
    ensures paid < 2.0 * price + w ==> paid + price <= Repeated(Factors(m), MinReal(total, price)) + w
    ensures paid < price + w ==> paid + price <= Repeated(m + 1, MinReal(total, price)) + w
  {
    FewTimes(price);
    RepeatedMore(2, m + 1, price);
    RepeatedMore(3, Factors(m), price);
    if paid < 2.0 * price + w {
      LateBuy(price, total, paid, w, m, Factors(m) - 1);
    }
    if paid < price + w {
      LateBuy(price, total, paid, w, m, m);
    }
  }

  lemma {:induction false} RentingBound(total: real, best: real, m: nat)
    requires m >= 1 && 0.0 <= best && total <= 2.0 * best
    ensures total <= Repeated(m + 1, best) && total <= Repeated(Factors(m), best)
  {
    FewTimes(best);
    RepeatedMore(2, m + 1, best);
    RepeatedMore(2, Factors(m), best);
  }

  /** The competitive bound the rule really has, when a query mentions the column at most m times under one usage and a
      pass costs at most w: the greater of three and m + 1 times the optimum, plus w. With one usage it is m + 1 times
      the optimum plus w, and the optimum itself when nothing is bought. */
  lemma {:induction false} CompetitiveUpToOneRound(c: Config, rs: seq<Round>, w: real, m: nat, u: Usage)
    requires CostsOk(rs) && RoundsAtMost(rs, w, m) && m >= 1 && w >= 0.0 && c.cBuy > 0.0
    requires Unhindered(c, NOTHING, rs)
    ensures var o, best := Advise(c, NOTHING, 0.0, rs), Optimum(c, rs);
            && Cost(c, o) <= Repeated(Factors(m), best) + w
            && (o.Renting? ==> Cost(c, o) <= 2.0 * best)
            && (Lone(rs, u) ==> Cost(c, o) <= Repeated(m + 1, best) + w && (o.Renting? ==> Cost(c, o) == best))
  {
    BuysAtCrossing(c, NOTHING, ZERO, rs);
    PaidWithinTotal(c, NOTHING, 0.0, rs);
    TotalNonNegative(rs);
    match Crossing(c.cBuy, ZERO, rs)
    case None =>
      RentingBound(Total(rs), Optimum(c, rs), m);
      if Lone(rs, u) {
        RentedUntil(c.cBuy, ZERO, rs, u);
      }
    case Some(x) =>
      RepeatedMore(0, m, 0.0);
      CrossingBounds(c.cBuy, ZERO, rs, w, m, u);
      BoughtBound(c.cBuy, Total(rs), x.paid, w, m);
  }

  // ---------------------------------------------------------------- runs of one and two passes

  /** The last pass of a run, under a cap with room. */
  lemma {:induction false} LastRoundIs(c: Config, before: Rents, paid: real, qs: seq<Query>, st: Rents)
    requires EvictBoth(c, before, 1) == before && st == ChargeBoth(before, qs)
    ensures var rs := [Round(1, qs, true)];
            && Total(rs) == Spent(qs)
            && (Advise(c, before, paid, rs)
                == if Due(c, st) then Bought(paid + Spent(qs)) else Renting(paid + Spent(qs)))
            && (Unhindered(c, before, rs) <==> (Reached(c, st) ==> Due(c, st)))
  {
    var rs := [Round(1, qs, true)];
    assert rs[1..] == [];
  }

  /** A pass before it that finds no rent at the price. */
  lemma {:induction false} EarlyRoundIs(c: Config, qs: seq<Query>, st: Rents, rest: seq<Round>)
    requires st == ChargeBoth(NOTHING, qs) && !Reached(c, st)
    ensures var rs := [Round(1, qs, true)] + rest;
            && Total(rs) == Spent(qs) + Total(rest)
            && Advise(c, NOTHING, 0.0, rs) == Advise(c, st, Spent(qs), rest)
            && (Unhindered(c, NOTHING, rs) <==> Unhindered(c, st, rest))
  {
    var rs := [Round(1, qs, true)] + rest;
    assert rs[0] == Round(1, qs, true) && rs[1..] == rest;
    assert EvictBoth(c, NOTHING, 1) == NOTHING;
    assert !Due(c, st);
  }

  /** A run of two, of which the first does not buy. */
  lemma {:induction false} TwoRoundsAre(c: Config, qs: seq<Query>, qs': seq<Query>, st: Rents, st': Rents)
    requires st == ChargeBoth(NOTHING, qs) && st' == ChargeBoth(st, qs') && EvictBoth(c, st, 1) == st && !Reached(c, st)
    ensures var rs, all := [Round(1, qs, true), Round(1, qs', true)], Spent(qs) + Spent(qs');
            && Total(rs) == all
            && Advise(c, NOTHING, 0.0, rs) == (if Due(c, st') then Bought(all) else Renting(all))
            && (Unhindered(c, NOTHING, rs) <==> (Reached(c, st') ==> Due(c, st')))
  {
    assert [Round(1, qs, true), Round(1, qs', true)] == [Round(1, qs, true)] + [Round(1, qs', true)];
    EarlyRoundIs(c, qs, st, [Round(1, qs', true)]);
    LastRoundIs(c, st, Spent(qs), qs', st');
  }

  function Mention(cost: real, k: nat, u: Usage): Query {
    Query(cost, if u.Predicate? then k else 0, if u.Join? then k else 0, 1)
  }

  /** n free queries that mention the column once. */
  function Free(n: nat, u: Usage): seq<Query> {
    seq(n, _ => Mention(0.0, 1, u))
  }

  /** Such queries, and then one of cost x that mentions it k times. */
  function Burst(n: nat, x: real, k: nat, u: Usage): seq<Query> {
    Free(n, u) + [Mention(x, k, u)]
  }

  lemma {:induction false} FreeIs(n: nat, u: Usage, v: Usage, st: Option<Tracked>)
    requires !u.Sort? && !v.Sort?
    ensures Spent(Free(n, u)) == 0.0
    ensures u != v ==> ChargeAll(st, Free(n, u), v) == st
    ensures CountIn(ChargeAll(None, Free(n, u), u)) == n && RentIn(ChargeAll(None, Free(n, u), u)) == 0.0
  {
    if n > 0 {
      var qs := Free(n, u);
      assert qs[..n - 1] == Free(n - 1, u) && qs[n - 1] == Mention(0.0, 1, u);
      FreeIs(n - 1, u, v, st);
      assert Repeated(1, 0.0) == 0.0 + Repeated(0, 0.0);
    }
  }

  lemma {:induction false} LastQuery(qs: seq<Query>, q: Query, u: Usage, st: Option<Tracked>)
    ensures ChargeAll(st, qs + [q], u) == ChargeQuery(ChargeAll(st, qs, u), q, u)
    ensures Spent(qs + [q]) == Spent(qs) + if Mentioned(q) then q.cost else 0.0
  {
    var all := qs + [q];
    assert all[..|all| - 1] == qs && all[|all| - 1] == q;
  }

  lemma {:induction false} AfterFree(qs: seq<Query>, n: nat, x: real, k: nat, u: Usage, v: Usage, st: Option<Tracked>)
    requires k > 0 && !u.Sort? && !v.Sort? && Spent(qs) == 0.0 && (u != v ==> ChargeAll(st, qs, v) == st)
    requires CountIn(ChargeAll(None, qs, u)) == n && RentIn(ChargeAll(None, qs, u)) == 0.0
    ensures Spent(qs + [Mention(x, k, u)]) == x
    ensures u != v ==> ChargeAll(st, qs + [Mention(x, k, u)], v) == st
    ensures ChargeAll(None, qs + [Mention(x, k, u)], u) == Some(Tracked(n + k, Repeated(k, x), 1))
  {
    LastQuery(qs, Mention(x, k, u), u, None);
    LastQuery(qs, Mention(x, k, u), v, st);
  }

  lemma {:induction false} BurstIs(n: nat, x: real, k: nat, u: Usage, v: Usage, st: Option<Tracked>)
    requires k > 0 && !u.Sort? && !v.Sort?
    ensures Spent(Burst(n, x, k, u)) == x
    ensures u != v ==> ChargeAll(st, Burst(n, x, k, u), v) == st
    ensures ChargeAll(None, Burst(n, x, k, u), u) == Some(Tracked(n + k, Repeated(k, x), 1))
  {
    FreeIs(n, u, v, st);
    AfterFree(Free(n, u), n, x, k, u, v, st);
  }

  lemma BurstLone(n: nat, x: real, k: nat, u: Usage)
    requires x >= 0.0
    ensures LoneIn(Burst(n, x, k, u), u) && QueriesOk(Burst(n, x, k, u))
  {
  }

  /** One pass with a burst on predicates. */
  lemma OneBurst(c: Config, n: nat, x: real, k: nat) returns (rs: seq<Round>)
    requires k > 0 && x >= 0.0
    ensures CostsOk(rs) && Total(rs) == x
    ensures Advise(c, NOTHING, 0.0, rs)
            == if c.minFreq <= n + k && c.cBuy <= Repeated(k, x) then Bought(x) else Renting(x)
    ensures c.cBuy > 0.0 && c.minFreq <= n + k ==> Unhindered(c, NOTHING, rs)
  {
    var qs := Burst(n, x, k, Predicate);
    BurstIs(n, x, k, Predicate, Join, None);
    BurstLone(n, x, k, Predicate);
    LastRoundIs(c, NOTHING, 0.0, qs, Rents(Some(Tracked(n + k, Repeated(k, x), 1)), None));
    rs := [Round(1, qs, true)];
  }

  // ---------------------------------------------------------------- no factor holds

  lemma Factor(f: real, price: real) returns (x: real)
    requires f >= 1.0 && price > 0.0
    ensures x == f * price && x >= price
  {
    x := f * price;
    assert x - price == (f - 1.0) * price;
  }

  /** One query of cost x, no less than the price, in a pass that meets the frequency guard. */
  lemma OneBuy(c: Config, x: real) returns (rs: seq<Round>)
    requires x >= c.cBuy > 0.0
    ensures CostsOk(rs) && Unhindered(c, NOTHING, rs)
    ensures Cost(c, Advise(c, NOTHING, 0.0, rs)) == x + c.cBuy && Optimum(c, rs) == c.cBuy
  {
    FewTimes(x);
    rs := OneBurst(c, c.minFreq, x, 1);
  }

  /** No factor bounds the advisor, whatever its settings: one query past the price between two passes already exceeds
      any. */
  lemma NoFactor(c: Config, f: real) returns (rs: seq<Round>)
    requires c.cBuy > 0.0 && f >= 1.0
    ensures CostsOk(rs) && Unhindered(c, NOTHING, rs)
    ensures Optimum(c, rs) == c.cBuy && Cost(c, Advise(c, NOTHING, 0.0, rs)) > f * c.cBuy
  {
    var x := Factor(f, c.cBuy);
    rs := OneBuy(c, x);
  }

  /** The same without meeting the guard. */
  lemma OneRental(c: Config, x: real) returns (rs: seq<Round>)
    requires x >= c.cBuy > 0.0 && c.minFreq >= 2
    ensures CostsOk(rs) && Advise(c, NOTHING, 0.0, rs).Renting?
    ensures Cost(c, Advise(c, NOTHING, 0.0, rs)) == x && Optimum(c, rs) == c.cBuy
  {
    rs := OneBurst(c, 0, x, 1);
  }

  /** The frequency guard lets an infrequent column pay any rent without ever buying. */
  lemma GuardNeverBuys(c: Config, f: real) returns (rs: seq<Round>)
    requires c.cBuy > 0.0 && f >= 1.0 && c.minFreq >= 2
    ensures CostsOk(rs) && Advise(c, NOTHING, 0.0, rs).Renting?
    ensures Optimum(c, rs) == c.cBuy && Cost(c, Advise(c, NOTHING, 0.0, rs)) > f * c.cBuy
  {
    var x := Factor(f, c.cBuy);
    rs := OneRental(c, x + c.cBuy);
  }

  /** A column mentioned twice in a query is charged twice, so the advisor can buy before the queries have paid
      the price; a workload that stops there costs three times its optimum. */
  lemma DoubleChargeBuysEarly(c: Config) returns (rs: seq<Round>)
    requires c.cBuy > 0.0
    ensures CostsOk(rs) && Unhindered(c, NOTHING, rs) && Advise(c, NOTHING, 0.0, rs) == Bought(c.cBuy / 2.0)
    ensures Cost(c, Advise(c, NOTHING, 0.0, rs)) == 3.0 * Optimum(c, rs)
  {
    var x := c.cBuy / 2.0;
    FewTimes(x);
    rs := OneBurst(c, c.minFreq, x, 2);
  }

  // ---------------------------------------------------------------- two rents for one index

  function OnlyIn(qs: seq<Query>, u: Usage): (ps: seq<Query>)
    ensures |ps| == |qs|
  {
    seq(|qs|, i requires 0 <= i < |qs| =>
      Query(qs[i].cost, if u.Predicate? then qs[i].preds else 0, if u.Join? then qs[i].joins else 0, qs[i].ts))
  }

  /** The workload as one of the two rents sees it. */
  function Only(rs: seq<Round>, u: Usage): (ts: seq<Round>)
    ensures |ts| == |rs|
  {
    seq(|rs|, i requires 0 <= i < |rs| => Round(rs[i].now, OnlyIn(rs[i].queries, u), rs[i].roomUnderCap))
  }

  /** Queries under one usage are nothing to the other rent. */
  lemma {:induction false} OthersSeeNothing(qs: seq<Query>, u: Usage, v: Usage, st: Rents)
    requires LoneIn(qs, u) && u != v
    ensures Spent(OnlyIn(qs, v)) == 0.0 && ChargeBoth(st, OnlyIn(qs, v)) == st
  {
    if qs != [] {
      var n := |qs| - 1;
      assert OnlyIn(qs, v)[..n] == OnlyIn(qs[..n], v);
      OthersSeeNothing(qs[..n], u, v, st);
    }
  }

  lemma LoneSeesAll(qs: seq<Query>, u: Usage)
    requires LoneIn(qs, u)
    ensures OnlyIn(qs, u) == qs
  {
  }

  /** A burst on predicates of almost the price, and then one on joins of the price: what they come to. */
  lemma PredicatesThenJoins(c: Config, d: real) returns (qs: seq<Query>, qs': seq<Query>, st: Rents, st': Rents)
    requires 0.0 < d < c.cBuy
    ensures QueriesOk(qs) && LoneIn(qs, Predicate) && Spent(qs) == c.cBuy - d
    ensures QueriesOk(qs') && LoneIn(qs', Join) && Spent(qs') == c.cBuy
    ensures st == ChargeBoth(NOTHING, qs) == Rents(Some(Tracked(c.minFreq + 1, c.cBuy - d, 1)), None)
    ensures st' == ChargeBoth(NOTHING, qs') == Rents(None, Some(Tracked(c.minFreq + 1, c.cBuy, 1)))
    ensures ChargeBoth(st, qs') == Rents(st.pred, st'.join)
  {
    var n, x := c.minFreq, c.cBuy - d;
    qs, qs' := Burst(n, x, 1, Predicate), Burst(n, c.cBuy, 1, Join);
    FewTimes(x);
    FewTimes(c.cBuy);
    BurstLone(n, x, 1, Predicate);
    BurstLone(n, c.cBuy, 1, Join);
    BurstIs(n, x, 1, Predicate, Join, None);
    st := Rents(Some(Tracked(n + 1, x, 1)), None);
    BurstIs(n, c.cBuy, 1, Join, Predicate, None);
    BurstIs(n, c.cBuy, 1, Join, Predicate, st.pred);
    st' := Rents(None, Some(Tracked(n + 1, c.cBuy, 1)));
  }

  lemma OnlyTwo(qs: seq<Query>, qs': seq<Query>, u: Usage)
    ensures Only([Round(1, qs, true), Round(1, qs', true)], u)
            == [Round(1, OnlyIn(qs, u), true), Round(1, OnlyIn(qs', u), true)]
  {
  }

  /** Whatever the settings, each of the two rents can keep the ratio on its own account while the index they share
      costs as near to three times its optimum as one likes. */
  lemma TwoRentsOneIndex(c: Config, d: real) returns (rs: seq<Round>)
    requires 0.0 < d < c.cBuy && c.maxAge >= 0
    ensures CostsOk(rs) && Unhindered(c, NOTHING, rs)
    ensures Cost(c, Advise(c, NOTHING, 0.0, rs)) == 3.0 * Optimum(c, rs) - d && Optimum(c, rs) == c.cBuy
    ensures forall u: Usage :: !u.Sort? ==>
              Cost(c, Advise(c, NOTHING, 0.0, Only(rs, u))) <= 2.0 * Optimum(c, Only(rs, u))
  {
    var qs, qs', st, st' := PredicatesThenJoins(c, d);
    rs := [Round(1, qs, true), Round(1, qs', true)];
    TwoRoundsAre(c, qs, qs', st, Rents(st.pred, st'.join));
    LoneSeesAll(qs, Predicate);
    OthersSeeNothing(qs', Join, Predicate, st);
    TwoRoundsAre(c, qs, OnlyIn(qs', Predicate), st, st);
    OnlyTwo(qs, qs', Predicate);
    LoneSeesAll(qs', Join);
    OthersSeeNothing(qs, Predicate, Join, NOTHING);
    TwoRoundsAre(c, OnlyIn(qs, Join), qs', NOTHING, st');
    OnlyTwo(qs, qs', Join);
  }
}
