/** Whole runs of the advisor's rent table (src/backend/autoindex/index_advisor.c): what evictions, drains and removals
    make of one column, and when that is what the column's own history says. */
module AdvisorRun {
  import opened AdvisorTable
  import opened Options
  import opened Workload

  datatype Op = Drain(es: seq<WorkloadEntry>) | Evict(now: int) | Remove(key: ColumnKey)

  function TableStep(t: Table, maxAge: int, op: Op): Table {
    match op
    case Drain(es) => Drained(t, AllCharges(es))
    case Evict(now) => Cleared(t, Stale(t, now, maxAge))
    case Remove(key) => Removed(t, key)
  }

  /** What the operation means for column k, whatever else is in the table. */
  function ColumnStep(st: Option<Tracked>, maxAge: int, k: ColumnKey, op: Op): Option<Tracked> {
    match op
    case Drain(es) => Owed(st, AllCharges(es), k)
    case Evict(now) => Evicted(st, now, maxAge)
    case Remove(key) => if key == k then None else st
  }

  /** No charge to k is turned away, and no slot cleared is on k's probe path. */
  predicate Spares(t: Table, maxAge: int, k: ColumnKey, op: Op) {
    match op
    case Drain(es) => Admitted(t, AllCharges(es), k)
    case Evict(now) => Spared(t, Stale(t, now, maxAge), k)
    case Remove(key) => Spared(t, Slots(t, key), k)
  }

  lemma StepExact(t: Table, maxAge: int, k: ColumnKey, op: Op)
    requires PathOk(t, k)
    ensures TrackedOf(TableStep(t, maxAge, op), k) == ColumnStep(TrackedOf(t, k), maxAge, k, op)
            <==> Spares(t, maxAge, k, op)
    ensures Spares(t, maxAge, k, op) ==> PathOk(TableStep(t, maxAge, op), k)
  {
    match op
    case Drain(es) => DrainExact(t, AllCharges(es), k);
    case Evict(now) => EvictExact(t, now, maxAge, k);
    case Remove(key) => RemoveExact(t, key, k);
  }

  function TableAfter(t: Table, maxAge: int, ops: seq<Op>): Table {
    if ops == [] then t else TableStep(TableAfter(t, maxAge, ops[..|ops| - 1]), maxAge, ops[|ops| - 1])
  }

  function ColumnAfter(st: Option<Tracked>, maxAge: int, k: ColumnKey, ops: seq<Op>): Option<Tracked> {
    if ops == [] then st
    else ColumnStep(ColumnAfter(st, maxAge, k, ops[..|ops| - 1]), maxAge, k, ops[|ops| - 1])
  }

  predicate SparesRun(t: Table, maxAge: int, k: ColumnKey, ops: seq<Op>) {
    ops == [] ||
    (var n := |ops| - 1;
     SparesRun(t, maxAge, k, ops[..n]) && Spares(TableAfter(t, maxAge, ops[..n]), maxAge, k, ops[n]))
  }

  /** At every point of the run a lookup says of k what its own history says. */
  predicate AgreesRun(t: Table, maxAge: int, k: ColumnKey, ops: seq<Op>) {
    && (ops == [] || AgreesRun(t, maxAge, k, ops[..|ops| - 1]))
    && TrackedOf(TableAfter(t, maxAge, ops), k) == ColumnAfter(TrackedOf(t, k), maxAge, k, ops)
  }

  /** Over whole runs the table answers for a column as the column's own history does, at every point, if and only if
      no charge to it is turned away and no other column is cleared on its probe path. */
  lemma {:induction false} RunExact(t: Table, maxAge: int, k: ColumnKey, ops: seq<Op>)
    requires PathOk(t, k)
    ensures AgreesRun(t, maxAge, k, ops) <==> SparesRun(t, maxAge, k, ops)
    ensures SparesRun(t, maxAge, k, ops) ==> PathOk(TableAfter(t, maxAge, ops), k)
  {
    if ops != [] {
      var n := |ops| - 1;
      RunExact(t, maxAge, k, ops[..n]);
      if SparesRun(t, maxAge, k, ops[..n]) {
        StepExact(TableAfter(t, maxAge, ops[..n]), maxAge, k, ops[n]);
      }
    }
  }

  // ---------------------------------------------------------------- since the last clearing

  /** Everything the drains of a run read, in order. */
  function Batches(ops: seq<Op>): seq<WorkloadEntry> {
    if ops == [] then []
    else Batches(ops[..|ops| - 1]) + if ops[|ops| - 1].Drain? then ops[|ops| - 1].es else []
  }

  /** What was drained since column k itself was last removed or evicted. */
  function Kept(maxAge: int, k: ColumnKey, ops: seq<Op>): seq<WorkloadEntry> {
    if ops == [] then []
    else
      var rest := Kept(maxAge, k, ops[..|ops| - 1]);
      match ops[|ops| - 1]
      case Drain(es) => rest + es
      case Evict(now) => if Evicted(Owed(None, AllCharges(rest), k), now, maxAge) == None then [] else rest
      case Remove(key) => if key == k then [] else rest
  }

  lemma {:induction false} AllChargesAppend(a: seq<WorkloadEntry>, b: seq<WorkloadEntry>)
    ensures AllCharges(a + b) == AllCharges(a) + AllCharges(b)
  {
    if b == [] {
      assert a + b == a;
    } else {
      var n := |b| - 1;
      assert (a + b)[..|a + b| - 1] == a + b[..n];
      AllChargesAppend(a, b[..n]);
      assert AllCharges(a + b) == AllCharges(a) + AllCharges(b[..n]) + Charges(b[n]);
      assert AllCharges(b) == AllCharges(b[..n]) + Charges(b[n]);
    }
  }

  lemma {:induction false} KeptIsColumn(maxAge: int, k: ColumnKey, ops: seq<Op>)
    ensures ColumnAfter(None, maxAge, k, ops) == Owed(None, AllCharges(Kept(maxAge, k, ops)), k)
  {
    if ops != [] {
      var n := |ops| - 1;
      var rest := Kept(maxAge, k, ops[..n]);
      KeptIsColumn(maxAge, k, ops[..n]);
      if ops[n].Drain? {
        AllChargesAppend(rest, ops[n].es);
        OwedAppend(None, AllCharges(rest), AllCharges(ops[n].es), k);
      }
    }
  }

  lemma {:induction false} KeptIsSuffix(maxAge: int, k: ColumnKey, ops: seq<Op>)
    ensures |Kept(maxAge, k, ops)| <= |Batches(ops)|
    ensures Kept(maxAge, k, ops) == Batches(ops)[|Batches(ops)| - |Kept(maxAge, k, ops)|..]
  {
    if ops != [] {
      KeptIsSuffix(maxAge, k, ops[..|ops| - 1]);
    }
  }

  /** Over a spared run from a blank table, a lookup says exactly what was drained since the column's last clearing. */
  lemma {:induction false} RunIsKept(maxAge: int, k: ColumnKey, ops: seq<Op>)
    requires SparesRun(Blank(), maxAge, k, ops)
    ensures var st, cs := TrackedOf(TableAfter(Blank(), maxAge, ops), k), AllCharges(Kept(maxAge, k, ops));
            st == Owed(None, cs, k) && RentIn(st) == ChargedTo(cs, k) && CountIn(st) == TimesCharged(cs, k)
  {
    BlankIsEmpty(k);
    RunExact(Blank(), maxAge, k, ops);
    KeptIsColumn(maxAge, k, ops);
    OwedAmounts(None, AllCharges(Kept(maxAge, k, ops)), k);
  }
}
