/** From executed queries to rents: the ring and the table together (src/backend/autoindex/workload_capture.c and
    index_advisor.c). */
module AdvisorPipeline {
  import opened AdvisorRun
  import opened Options
  import opened Workload
  import Ring = WorkloadRing
  import Tab = AdvisorTable

  /** In every interleaving of producers and the drain in which no slot is read too early, and every run of drains,
      evictions and removals over what the drain delivers, the advisor holds against a column exactly the entries
      claimed since that column was itself last evicted or removed, once per mention, as long as nothing else is cleared
      on its probe path and none of its charges is turned away. */
  lemma {:induction false} RentIsWorkload(pids: set<nat>, ls: seq<Ring.Label>, maxAge: int, ops: seq<Op>, k: ColumnKey)
    requires Ring.IsRun(Ring.Init(pids), ls) && Ring.TimelyRun(Ring.Init(pids), ls)
    requires Batches(ops) == Ring.After(Ring.Init(pids), ls).drained
    requires SparesRun(Tab.Blank(), maxAge, k, ops)
    ensures var s, st := Ring.After(Ring.Init(pids), ls), Tab.TrackedOf(TableAfter(Tab.Blank(), maxAge, ops), k);
            var kept := Kept(maxAge, k, ops);
            var n := |s.drained|;
            && |kept| <= n <= |s.claims| && kept == s.claims[n - |kept|..n]
            && RentIn(st) == ChargedTo(AllCharges(kept), k) && CountIn(st) == TimesCharged(AllCharges(kept), k)
  {
    KeptIsSuffix(maxAge, k, ops);
    KeptIsClaimed(pids, ls, Batches(ops), Kept(maxAge, k, ops));
    RunIsKept(maxAge, k, ops);
  }

  lemma {:induction false} KeptIsClaimed(pids: set<nat>, ls: seq<Ring.Label>, es: seq<WorkloadEntry>,
                                         kept: seq<WorkloadEntry>)
    requires Ring.IsRun(Ring.Init(pids), ls) && Ring.TimelyRun(Ring.Init(pids), ls)
    requires es == Ring.After(Ring.Init(pids), ls).drained && |kept| <= |es| && kept == es[|es| - |kept|..]
    ensures var s := Ring.After(Ring.Init(pids), ls);
            |es| <= |s.claims| && kept == s.claims[|es| - |kept|..|es|]
  {
    Ring.InitExact(pids);
    Ring.TimelyRunDeliversExactly(Ring.Init(pids), ls);
    var s := Ring.After(Ring.Init(pids), ls);
    assert s.claims[|es| - |kept|..|es|] == s.claims[..|es|][|es| - |kept|..];
  }
}
