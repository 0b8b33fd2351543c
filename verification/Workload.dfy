/** The captured workload: one entry per finished query (src/include/autoindex/autoindex.h). */
module Workload {
  import opened Options

  datatype Usage = Predicate | Sort | Join

  datatype ColumnRef = ColumnRef(relid: nat, attnum: int)

  datatype ColumnKey = ColumnKey(relid: nat, attnum: int, usage: Usage)

  datatype WorkloadEntry = WorkloadEntry(preds: seq<ColumnRef>, joins: seq<ColumnRef>, sorts: seq<ColumnRef>,
                                         cost: real, ts: int)

  /** What one query charges to one column. */
  datatype Charge = Charge(key: ColumnKey, cost: real, ts: int)

  function ChargesFor(cols: seq<ColumnRef>, usage: Usage, cost: real, ts: int): (cs: seq<Charge>)
    ensures |cs| == |cols|
  {
    seq(|cols|, i requires 0 <= i < |cols| => Charge(ColumnKey(cols[i].relid, cols[i].attnum, usage), cost, ts))
  }

  /** The charges of one entry in the order the drain makes them: predicates, joins, sorts. */
  function Charges(e: WorkloadEntry): seq<Charge> {
    ChargesFor(e.preds, Predicate, e.cost, e.ts)
    + ChargesFor(e.joins, Join, e.cost, e.ts)
    + ChargesFor(e.sorts, Sort, e.cost, e.ts)
  }

  function AllCharges(es: seq<WorkloadEntry>): seq<Charge> {
    if es == [] then [] else AllCharges(es[..|es| - 1]) + Charges(es[|es| - 1])
  }

  /** Total cost charged to one column. */
  function ChargedTo(cs: seq<Charge>, k: ColumnKey): real {
    if cs == [] then 0.0
    else ChargedTo(cs[..|cs| - 1], k) + if cs[|cs| - 1].key == k then cs[|cs| - 1].cost else 0.0
  }

  /** Number of charges to one column. */
  function TimesCharged(cs: seq<Charge>, k: ColumnKey): nat {
    if cs == [] then 0
    else TimesCharged(cs[..|cs| - 1], k) + if cs[|cs| - 1].key == k then 1 else 0
  }

  /** What the advisor keeps of a column: charges, their cost, and when it was last charged. */
  datatype Tracked = Tracked(count: nat, rent: real, lastSeen: int)

  function RentIn(st: Option<Tracked>): real {
    if st.Some? then st.value.rent else 0.0
  }

  function CountIn(st: Option<Tracked>): nat {
    if st.Some? then st.value.count else 0
  }

  /** One more charge. */
  function Charged(st: Option<Tracked>, cost: real, ts: int): Option<Tracked> {
    Some(Tracked(CountIn(st) + 1, RentIn(st) + cost, ts))
  }

  /** What a list of charges makes of a column. */
  function Owed(st: Option<Tracked>, cs: seq<Charge>, k: ColumnKey): Option<Tracked> {
    if cs == [] then st
    else
      var (rest, c) := (Owed(st, cs[..|cs| - 1], k), cs[|cs| - 1]);
      if c.key == k then Charged(rest, c.cost, c.ts) else rest
  }

  /** A column last charged before the window is given up. */
  function Evicted(st: Option<Tracked>, now: int, maxAge: int): Option<Tracked> {
    if st.Some? && st.value.lastSeen != 0 && now - st.value.lastSeen > maxAge then None else st
  }

  lemma {:induction false} OwedAmounts(st: Option<Tracked>, cs: seq<Charge>, k: ColumnKey)
    ensures RentIn(Owed(st, cs, k)) == RentIn(st) + ChargedTo(cs, k)
    ensures CountIn(Owed(st, cs, k)) == CountIn(st) + TimesCharged(cs, k)
  {
    if cs != [] {
      OwedAmounts(st, cs[..|cs| - 1], k);
    }
  }

  lemma {:induction false} OwedAppend(st: Option<Tracked>, a: seq<Charge>, b: seq<Charge>, k: ColumnKey)
    ensures Owed(st, a + b, k) == Owed(Owed(st, a, k), b, k)
  {
    if b == [] {
      assert a + b == a;
    } else {
      var n := |b| - 1;
      assert (a + b)[..|a + b| - 1] == a + b[..n];
      OwedAppend(st, a, b[..n], k);
    }
  }
}
