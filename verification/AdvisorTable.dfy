/** The advisor's rent table (src/backend/autoindex/index_advisor.c): open addressing with linear probing,
    where removal only clears a slot. */
module AdvisorTable {
  import opened Options
  import opened Workload

  const SIZE: nat := 2048

  datatype ColStats = ColStats(key: ColumnKey, execCount: nat, rent: real, lastSeen: int)

  datatype Slot = Empty | Used(stats: ColStats)

  type Table = t: seq<Slot> | |t| == SIZE witness seq(SIZE, _ => Empty)

  function UsageCode(u: Usage): nat {
    match u case Predicate => 112 case Sort => 115 case Join => 106
  }

  /** advisor_hash_fn in 32-bit unsigned arithmetic. */
  function Home(k: ColumnKey): (h: nat)
    ensures h < SIZE
  {
    var h1 := (k.relid * 31 + k.attnum % 0x1_0000_0000) % 0x1_0000_0000;
    (h1 * 31 + UsageCode(k.usage)) % 0x1_0000_0000 % SIZE
  }

  /** The slot d steps after h, going round. */
  function At(h: nat, d: nat): (j: nat)
    requires h < SIZE && d < SIZE
    ensures j < SIZE
  {
    if h + d < SIZE then h + d else h + d - SIZE
  }

  /** How many steps lead from h to j. */
  function Dist(h: nat, j: nat): (d: nat)
    requires h < SIZE && j < SIZE
    ensures d < SIZE && At(h, d) == j
  {
    if h <= j then j - h else j + SIZE - h
  }

  predicate Holds(t: Table, k: ColumnKey, j: nat) {
    j < SIZE && t[j].Used? && t[j].stats.key == k
  }

  predicate Stops(t: Table, k: ColumnKey, j: nat)
    requires j < SIZE
  {
    t[j].Empty? || t[j].stats.key == k
  }

  /** The first slot on k's probe path that is free or holds k, from step d on. */
  function ProbeFrom(t: Table, k: ColumnKey, d: nat): (r: Option<nat>)
    requires d <= SIZE
    ensures r.Some? ==> r.value < SIZE && Stops(t, k, r.value)
    decreases SIZE - d
  {
    if d == SIZE then None
    else if Stops(t, k, At(Home(k), d)) then Some(At(Home(k), d))
    else ProbeFrom(t, k, d + 1)
  }

  lemma {:induction false} ProbeFromIs(t: Table, k: ColumnKey, d: nat)
    requires d <= SIZE
    ensures match ProbeFrom(t, k, d)
            case Some(j) =>
              d <= Dist(Home(k), j) && forall i :: d <= i < Dist(Home(k), j) ==> !Stops(t, k, At(Home(k), i))
            case None => forall i :: d <= i < SIZE ==> !Stops(t, k, At(Home(k), i))
    decreases SIZE - d
  {
    if d < SIZE && !Stops(t, k, At(Home(k), d)) {
      ProbeFromIs(t, k, d + 1);
    }
  }

  function Probe(t: Table, k: ColumnKey): Option<nat> {
    ProbeFrom(t, k, 0)
  }

  function Fresh(k: ColumnKey): ColStats {
    ColStats(k, 0, 0.0, 0)
  }

  /** advisor_hash_find_or_create. */
  function FindOrCreate(t: Table, k: ColumnKey): Table {
    match Probe(t, k)
    case None => t
    case Some(j) => if t[j].Empty? then t[j := Used(Fresh(k))] else t
  }

  function Bump(s: ColStats, c: Charge): ColStats {
    s.(execCount := s.execCount + 1, rent := s.rent + c.cost, lastSeen := c.ts)
  }

  function ApplyCharge(t: Table, c: Charge): Table {
    match Probe(t, c.key)
    case None => t
    case Some(j) => t[j := Used(Bump(if t[j].Empty? then Fresh(c.key) else t[j].stats, c))]
  }

  function Drained(t: Table, cs: seq<Charge>): Table {
    if cs == [] then t else ApplyCharge(Drained(t, cs[..|cs| - 1]), cs[|cs| - 1])
  }

  /** advisor_hash_remove. */
  function Removed(t: Table, k: ColumnKey): Table {
    match Probe(t, k)
    case None => t
    case Some(j) => t[j := Empty]
  }

  /** What a slot says of its column. */
  function Stored(t: Table, j: nat): Tracked
    requires j < SIZE && t[j].Used?
  {
    Tracked(t[j].stats.execCount, t[j].stats.rent, t[j].stats.lastSeen)
  }

  /** What a lookup says of a column. */
  function TrackedOf(t: Table, k: ColumnKey): Option<Tracked> {
    match Probe(t, k)
    case Some(j) => if t[j].Used? then Some(Stored(t, j)) else None
    case None => None
  }

  // ---------------------------------------------------------------- the probe invariant

  /** j lies strictly before i on the probe path of the entry in slot i. */
  predicate OnPath(t: Table, i: nat, j: nat)
    requires i < SIZE && j < SIZE && t[i].Used?
  {
    Dist(Home(t[i].stats.key), j) < Dist(Home(t[i].stats.key), i)
  }

  /** Every slot before an entry of column k on its probe path is used, by another column. */
  predicate PathOk(t: Table, k: ColumnKey) {
    forall i, j :: 0 <= i < SIZE && 0 <= j < SIZE && Holds(t, k, i) && OnPath(t, i, j) ==>
      t[j].Used? && t[j].stats.key != k
  }

  lemma ProbeAt(t: Table, k: ColumnKey, j: nat)
    requires j < SIZE && Stops(t, k, j)
    requires forall i :: 0 <= i < SIZE && Dist(Home(k), i) < Dist(Home(k), j) ==> !Stops(t, k, i)
    ensures Probe(t, k) == Some(j)
  {
    var d := Dist(Home(k), j);
    assert Stops(t, k, At(Home(k), d));
    ProbeFromIs(t, k, 0);
    var r := Probe(t, k);
    assert r.Some? && Dist(Home(k), r.value) <= d;
  }

  lemma ProbeBefore(t: Table, k: ColumnKey, i: nat)
    requires Probe(t, k).Some? && i < SIZE && Dist(Home(k), i) < Dist(Home(k), Probe(t, k).value)
    ensures !Stops(t, k, i)
  {
    ProbeFromIs(t, k, 0);
    var h := Home(k);
    assert At(h, Dist(h, i)) == i;
  }

  /** While its path has no hole a lookup finds a stored column, and only there. */
  lemma LookupExact(t: Table, k: ColumnKey, j: nat)
    requires PathOk(t, k) && j < SIZE
    ensures Holds(t, k, j) <==> Probe(t, k) == Some(j) && t[j].Used?
  {
    if Holds(t, k, j) {
      forall i | 0 <= i < SIZE && Dist(Home(k), i) < Dist(Home(k), j)
        ensures !Stops(t, k, i)
      {
        assert OnPath(t, j, i);
      }
      ProbeAt(t, k, j);
    }
  }

  /** A column whose path has no hole has one slot. */
  lemma OneSlotPerColumn(t: Table, k: ColumnKey, i: nat, j: nat)
    requires PathOk(t, k) && Holds(t, k, i) && Holds(t, k, j)
    ensures i == j
  {
    LookupExact(t, k, i);
    LookupExact(t, k, j);
  }

  /** A column is tracked exactly when some slot holds it, and as that slot says. */
  lemma TrackedIsStored(t: Table, k: ColumnKey)
    requires PathOk(t, k)
    ensures TrackedOf(t, k).Some? <==> exists j: nat :: Holds(t, k, j)
    ensures forall j: nat :: Holds(t, k, j) ==> TrackedOf(t, k) == Some(Stored(t, j))
  {
    forall j: nat | Holds(t, k, j)
      ensures Probe(t, k) == Some(j)
    {
      LookupExact(t, k, j);
    }
    if TrackedOf(t, k).Some? {
      assert Holds(t, k, Probe(t, k).value);
    }
  }

  /** A lookup is turned away exactly when every slot is used, and none by the column. */
  lemma TurnedAway(t: Table, k: ColumnKey)
    ensures Probe(t, k).None? <==> forall j :: 0 <= j < SIZE ==> t[j].Used? && t[j].stats.key != k
  {
    ProbeFromIs(t, k, 0);
    if Probe(t, k).None? {
      forall j | 0 <= j < SIZE
        ensures t[j].Used? && t[j].stats.key != k
      {
        assert !Stops(t, k, At(Home(k), Dist(Home(k), j)));
      }
    }
  }

  // ---------------------------------------------------------------- charging

  /** Tables that hold k in the same slots, with a good path in both, say the same of it. */
  lemma SameTracked(t: Table, t': Table, k: ColumnKey)
    requires PathOk(t, k) && PathOk(t', k)
    requires forall j :: 0 <= j < SIZE ==> (Holds(t, k, j) <==> Holds(t', k, j)) && (Holds(t, k, j) ==> t[j] == t'[j])
    ensures TrackedOf(t, k) == TrackedOf(t', k)
  {
    TrackedIsStored(t, k);
    TrackedIsStored(t', k);
    if j: nat :| Holds(t, k, j) {
      assert Holds(t', k, j);
    }
  }

  /** Charging another column leaves a column and its path alone. */
  lemma OtherCharge(t: Table, c: Charge, k: ColumnKey)
    requires PathOk(t, k) && c.key != k
    ensures PathOk(ApplyCharge(t, c), k) && TrackedOf(ApplyCharge(t, c), k) == TrackedOf(t, k)
  {
    var t' := ApplyCharge(t, c);
    forall i, j | 0 <= i < SIZE && 0 <= j < SIZE && Holds(t', k, i) && OnPath(t', i, j)
      ensures t'[j].Used? && t'[j].stats.key != k
    {
      assert Holds(t, k, i) && OnPath(t, i, j);
    }
    SameTracked(t, t', k);
  }

  /** A charge that finds a slot is added to what its column had. */
  lemma OwnCharge(t: Table, c: Charge)
    requires PathOk(t, c.key) && Probe(t, c.key).Some?
    ensures PathOk(ApplyCharge(t, c), c.key)
    ensures TrackedOf(ApplyCharge(t, c), c.key) == Charged(TrackedOf(t, c.key), c.cost, c.ts)
  {
    var k, j := c.key, Probe(t, c.key).value;
    var t' := ApplyCharge(t, c);
    TrackedIsStored(t, k);
    forall i: nat | Holds(t', k, i)
      ensures i == j
    {
      if i != j {
        assert Holds(t, k, i);
        LookupExact(t, k, i);
      }
    }
    forall a, b | 0 <= a < SIZE && 0 <= b < SIZE && Holds(t', k, a) && OnPath(t', a, b)
      ensures t'[b].Used? && t'[b].stats.key != k
    {
      ProbeBefore(t, k, b);
    }
    LookupExact(t', k, j);
  }

  /** No charge to k is turned away. */
  predicate Admitted(t: Table, cs: seq<Charge>, k: ColumnKey) {
    cs == [] ||
    (var n := |cs| - 1;
     Admitted(t, cs[..n], k) && (cs[n].key == k ==> Probe(Drained(t, cs[..n]), k).Some?))
  }

  lemma {:induction false} DrainKeepsPath(t: Table, cs: seq<Charge>, k: ColumnKey)
    requires PathOk(t, k)
    ensures PathOk(Drained(t, cs), k)
  {
    if cs != [] {
      var n := |cs| - 1;
      DrainKeepsPath(t, cs[..n], k);
      if cs[n].key != k {
        OtherCharge(Drained(t, cs[..n]), cs[n], k);
      } else if Probe(Drained(t, cs[..n]), k).Some? {
        OwnCharge(Drained(t, cs[..n]), cs[n]);
      }
    }
  }

  lemma {:induction false} DrainLags(t: Table, cs: seq<Charge>, k: ColumnKey)
    requires PathOk(t, k)
    ensures var got, owed := TrackedOf(Drained(t, cs), k), Owed(TrackedOf(t, k), cs, k);
            if Admitted(t, cs, k) then got == owed else CountIn(got) < CountIn(owed)
  {
    if cs != [] {
      var n := |cs| - 1;
      var u := Drained(t, cs[..n]);
      DrainLags(t, cs[..n], k);
      DrainKeepsPath(t, cs[..n], k);
      if cs[n].key != k {
        OtherCharge(u, cs[n], k);
      } else if Probe(u, k).Some? {
        OwnCharge(u, cs[n]);
      }
    }
  }

  /** Draining any charges makes of a column exactly what they amount to, if and only if none of its own is turned
      away. */
  lemma {:induction false} DrainExact(t: Table, cs: seq<Charge>, k: ColumnKey)
    requires PathOk(t, k)
    ensures PathOk(Drained(t, cs), k)
    ensures TrackedOf(Drained(t, cs), k) == Owed(TrackedOf(t, k), cs, k) <==> Admitted(t, cs, k)
    ensures Admitted(t, cs, k) ==>
              && RentIn(TrackedOf(Drained(t, cs), k)) == RentIn(TrackedOf(t, k)) + ChargedTo(cs, k)
              && CountIn(TrackedOf(Drained(t, cs), k)) == CountIn(TrackedOf(t, k)) + TimesCharged(cs, k)
  {
    DrainKeepsPath(t, cs, k);
    DrainLags(t, cs, k);
    OwedAmounts(TrackedOf(t, k), cs, k);
  }

  // ---------------------------------------------------------------- removal and eviction

  function Cleared(t: Table, dead: set<nat>): Table {
    seq(SIZE, i requires 0 <= i < SIZE => if i in dead then Empty else t[i])
  }

  /** advisor_hash_evict_stale: entries seen before but not within the window. */
  function Stale(t: Table, now: int, maxAge: int): set<nat> {
    set i | 0 <= i < SIZE && t[i].Used? && t[i].stats.lastSeen != 0 && now - t[i].stats.lastSeen > maxAge
  }

  /** No cleared slot is on the path of the entry in slot i. */
  predicate Clear(t: Table, dead: set<nat>, i: nat)
    requires i < SIZE && t[i].Used?
  {
    forall j :: 0 <= j < SIZE && j in dead ==> !OnPath(t, i, j)
  }

  lemma ClearedFound(t: Table, dead: set<nat>, i: nat)
    requires i < SIZE && t[i].Used? && PathOk(t, t[i].stats.key) && i !in dead && Clear(t, dead, i)
    ensures Probe(Cleared(t, dead), t[i].stats.key) == Some(i)
  {
    var k, t' := t[i].stats.key, Cleared(t, dead);
    assert Holds(t, k, i);
    forall a | 0 <= a < SIZE && Dist(Home(k), a) < Dist(Home(k), i)
      ensures !Stops(t', k, a)
    {
      assert OnPath(t, i, a);
    }
    ProbeAt(t', k, i);
  }

  lemma ClearedHidden(t: Table, dead: set<nat>, i: nat, j: nat)
    requires i < SIZE && t[i].Used? && PathOk(t, t[i].stats.key) && i !in dead
    requires j < SIZE && j in dead && OnPath(t, i, j)
    ensures TrackedOf(Cleared(t, dead), t[i].stats.key) == None
    ensures Probe(Cleared(t, dead), t[i].stats.key) != Some(i)
  {
    var k, t' := t[i].stats.key, Cleared(t, dead);
    assert Holds(t, k, i) && Stops(t', k, j);
    var r := Probe(t', k);
    ProbeFromIs(t', k, 0);
    assert Stops(t', k, At(Home(k), Dist(Home(k), j)));
    assert Dist(Home(k), r.value) <= Dist(Home(k), j) < Dist(Home(k), i);
    assert OnPath(t, i, r.value);
    assert t[r.value].Used? && t[r.value].stats.key != k;
  }

  /** Clearing slots leaves a surviving column where a lookup finds it, with its rent, if and only if none of them is
      on its probe path; otherwise a lookup finds nothing of it. */
  lemma ClearExact(t: Table, dead: set<nat>, i: nat)
    requires i < SIZE && t[i].Used? && PathOk(t, t[i].stats.key) && i !in dead
    ensures Probe(Cleared(t, dead), t[i].stats.key) == Some(i) <==> Clear(t, dead, i)
    ensures RentIn(TrackedOf(Cleared(t, dead), t[i].stats.key)) == if Clear(t, dead, i) then t[i].stats.rent else 0.0
    ensures TrackedOf(Cleared(t, dead), t[i].stats.key).Some? <==> Clear(t, dead, i)
  {
    if Clear(t, dead, i) {
      ClearedFound(t, dead, i);
    } else {
      var j :| 0 <= j < SIZE && j in dead && OnPath(t, i, j);
      ClearedHidden(t, dead, i, j);
    }
  }

  /** The column's own slot is cleared, or its path is spared. */
  predicate Spared(t: Table, dead: set<nat>, k: ColumnKey) {
    forall i :: 0 <= i < SIZE && Holds(t, k, i) && i !in dead ==> Clear(t, dead, i)
  }

  predicate OwnCleared(t: Table, dead: set<nat>, k: ColumnKey) {
    exists i :: 0 <= i < SIZE && Holds(t, k, i) && i in dead
  }

  lemma NotHeld(t: Table, dead: set<nat>, k: ColumnKey)
    requires forall j: nat :: Holds(t, k, j) ==> j in dead
    ensures PathOk(Cleared(t, dead), k) && TrackedOf(Cleared(t, dead), k) == None
  {
    var t' := Cleared(t, dead);
    assert forall j: nat :: !Holds(t', k, j);
    TrackedIsStored(t', k);
  }

  /** What clearing slots does to a column, cleared itself or not. */
  lemma ClearTracks(t: Table, dead: set<nat>, k: ColumnKey)
    requires PathOk(t, k)
    ensures TrackedOf(Cleared(t, dead), k) == (if OwnCleared(t, dead, k) then None else TrackedOf(t, k))
            <==> Spared(t, dead, k)
    ensures Spared(t, dead, k) ==> PathOk(Cleared(t, dead), k)
  {
    TrackedIsStored(t, k);
    if i: nat :| Holds(t, k, i) && i !in dead {
      SurvivorTracks(t, dead, k, i);
    } else {
      NotHeld(t, dead, k);
      assert TrackedOf(t, k).Some? ==> OwnCleared(t, dead, k);
    }
  }

  lemma SurvivorTracks(t: Table, dead: set<nat>, k: ColumnKey, i: nat)
    requires PathOk(t, k) && Holds(t, k, i) && i !in dead
    ensures !OwnCleared(t, dead, k) && (Spared(t, dead, k) <==> Clear(t, dead, i))
    ensures TrackedOf(Cleared(t, dead), k) == TrackedOf(t, k) <==> Clear(t, dead, i)
    ensures Clear(t, dead, i) ==> PathOk(Cleared(t, dead), k)
  {
    forall j: nat | Holds(t, k, j) ensures j == i { OneSlotPerColumn(t, k, i, j); }
    LookupExact(t, k, i);
    ClearExact(t, dead, i);
    if Clear(t, dead, i) {
      SparedKeepsPath(t, dead, k, i);
    }
  }

  lemma SparedKeepsPath(t: Table, dead: set<nat>, k: ColumnKey, i: nat)
    requires PathOk(t, k) && Holds(t, k, i) && i !in dead && Clear(t, dead, i)
    requires forall j: nat :: Holds(t, k, j) ==> j == i
    ensures PathOk(Cleared(t, dead), k)
  {
    var t' := Cleared(t, dead);
    forall a, b | 0 <= a < SIZE && 0 <= b < SIZE && Holds(t', k, a) && OnPath(t', a, b)
      ensures t'[b].Used? && t'[b].stats.key != k
    {
      assert Holds(t, k, a) && OnPath(t, a, b);
    }
  }

  /** An eviction does to a column what its own age says, if and only if no stale slot is on its path. */
  lemma EvictExact(t: Table, now: int, maxAge: int, k: ColumnKey)
    requires PathOk(t, k)
    ensures var dead := Stale(t, now, maxAge);
            && (TrackedOf(Cleared(t, dead), k) == Evicted(TrackedOf(t, k), now, maxAge) <==> Spared(t, dead, k))
            && (Spared(t, dead, k) ==> PathOk(Cleared(t, dead), k))
  {
    var dead := Stale(t, now, maxAge);
    ClearTracks(t, dead, k);
    TrackedIsStored(t, k);
    if i: nat :| Holds(t, k, i) {
      forall j: nat | Holds(t, k, j) ensures j == i { OneSlotPerColumn(t, k, i, j); }
      assert OwnCleared(t, dead, k) <==> i in dead;
    }
  }

  /** The slot advisor_hash_remove clears for a key. */
  function Slots(t: Table, k: ColumnKey): set<nat> {
    match Probe(t, k) case None => {} case Some(j) => {j}
  }

  lemma RemovedIsCleared(t: Table, k: ColumnKey)
    ensures Removed(t, k) == Cleared(t, Slots(t, k))
  {
  }

  /** A removal makes its own column forgotten and no other, if and only if the slot it clears is on no path of the
      other. */
  lemma RemoveExact(t: Table, gone: ColumnKey, k: ColumnKey)
    requires PathOk(t, k)
    ensures TrackedOf(Removed(t, gone), k) == (if gone == k then None else TrackedOf(t, k))
            <==> Spared(t, Slots(t, gone), k)
    ensures Spared(t, Slots(t, gone), k) ==> PathOk(Removed(t, gone), k)
    ensures gone == k ==> Spared(t, Slots(t, gone), k)
  {
    RemovedIsCleared(t, gone);
    ClearTracks(t, Slots(t, gone), k);
    if gone == k {
      forall i: nat | Holds(t, k, i) ensures i in Slots(t, k) { LookupExact(t, k, i); }
      TrackedIsStored(t, k);
    } else {
      forall i: nat | Holds(t, k, i) ensures i !in Slots(t, gone) {}
    }
  }

  /** Otherwise the next charge to an entry behind the hole starts that column again from zero: its rent so far
      stays in a slot no lookup reaches, and the column has two entries. */
  lemma RemovalForgetsRent(t: Table, j: nat, i: nat, c: Charge)
    requires i < SIZE && j < SIZE && t[i].Used? && t[j].Used? && OnPath(t, i, j)
    requires c.key == t[i].stats.key && PathOk(t, c.key) && PathOk(t, t[j].stats.key)
    ensures var t' := Removed(t, t[j].stats.key);
            && RentIn(TrackedOf(t, c.key)) == t[i].stats.rent
            && TrackedOf(t', c.key) == None
            && TrackedOf(ApplyCharge(t', c), c.key) == Some(Tracked(1, c.cost, c.ts))
            && Holds(ApplyCharge(t', c), c.key, i) && Holds(ApplyCharge(t', c), c.key, j) && i != j
  {
    var k := c.key;
    LookupExact(t, t[j].stats.key, j);
    LookupExact(t, k, i);
    HoleStopsProbe(t, j, i);
    var t' := t[j := Empty];
    StoreKeepsFirst(t', c, j);
  }

  /** A removal takes a column out of the table altogether if and only if no slot but the one a lookup finds holds
      it. */
  lemma RemovesAllExact(t: Table, k: ColumnKey)
    ensures (forall j: nat :: !Holds(Removed(t, k), k, j)) <==>
              (forall j: nat :: Holds(t, k, j) ==> Probe(t, k) == Some(j))
  {
    var t' := Removed(t, k);
    forall j: nat
      ensures Holds(t', k, j) <==> Holds(t, k, j) && Probe(t, k) != Some(j)
    {
    }
  }

  /** So a column with an entry behind a hole keeps that entry, and the rent in it, when it is removed. */
  lemma RemovalLeavesEntry(t: Table, j: nat, i: nat, c: Charge)
    requires i < SIZE && j < SIZE && t[i].Used? && t[j].Used? && OnPath(t, i, j)
    requires c.key == t[i].stats.key && PathOk(t, c.key) && PathOk(t, t[j].stats.key)
    ensures var u := Removed(ApplyCharge(Removed(t, t[j].stats.key), c), c.key);
            Holds(u, c.key, i) && Stored(u, i) == Stored(t, i) && TrackedOf(u, c.key) == None
  {
    var t' := t[j := Empty];
    LookupExact(t, t[j].stats.key, j);
    HoleStopsProbe(t, j, i);
    StoreKeepsFirst(t', c, j);
    var u := ApplyCharge(t', c)[j := Empty];
    assert u == t';
  }

  lemma StoreKeepsFirst(t: Table, c: Charge, j: nat)
    requires Probe(t, c.key) == Some(j) && t[j].Empty?
    ensures Probe(ApplyCharge(t, c), c.key) == Some(j)
    ensures TrackedOf(ApplyCharge(t, c), c.key) == Some(Tracked(1, c.cost, c.ts))
  {
    var t' := ApplyCharge(t, c);
    forall a | 0 <= a < SIZE && Dist(Home(c.key), a) < Dist(Home(c.key), j)
      ensures !Stops(t', c.key, a)
    {
      ProbeBefore(t, c.key, a);
    }
    ProbeAt(t', c.key, j);
  }

  /** A charge to the slot a lookup finds is found there too. */
  lemma BumpKeepsFirst(t: Table, c: Charge, j: nat)
    requires Probe(t, c.key) == Some(j) && t[j].Used?
    ensures TrackedOf(ApplyCharge(t, c), c.key) == Charged(TrackedOf(t, c.key), c.cost, c.ts)
  {
    var t' := ApplyCharge(t, c);
    forall a | 0 <= a < SIZE && Dist(Home(c.key), a) < Dist(Home(c.key), j)
      ensures !Stops(t', c.key, a)
    {
      ProbeBefore(t, c.key, a);
    }
    ProbeAt(t', c.key, j);
    assert t'[j] == Used(Bump(t[j].stats, c));
    assert TrackedOf(t, c.key) == Some(Stored(t, j)) && TrackedOf(t', c.key) == Some(Stored(t', j));
  }

  lemma HoleStopsProbe(t: Table, j: nat, i: nat)
    requires i < SIZE && j < SIZE && t[i].Used? && OnPath(t, i, j) && PathOk(t, t[i].stats.key)
    ensures Probe(t[j := Empty], t[i].stats.key) == Some(j)
  {
    var k := t[i].stats.key;
    var t' := t[j := Empty];
    assert Holds(t, k, i);
    forall a | 0 <= a < SIZE && Dist(Home(k), a) < Dist(Home(k), j)
      ensures !Stops(t', k, a)
    {
      assert OnPath(t, i, a);
    }
    ProbeAt(t', k, j);
  }

  function Blank(): Table {
    seq(SIZE, _ => Empty)
  }

  lemma BlankIsEmpty(k: ColumnKey)
    ensures PathOk(Blank(), k) && TrackedOf(Blank(), k) == None && Probe(Blank(), k) == Some(Home(k))
  {
    ProbeAt(Blank(), k, Home(k));
  }

  /** Attribute 32 of one relation and attribute 1 of the next one have the same home slot. */
  lemma SameHome(relid: nat, usage: Usage)
    ensures Home(ColumnKey(relid, 32, usage)) == Home(ColumnKey(relid + 1, 1, usage))
  {
    var a, b := ColumnKey(relid, 32, usage), ColumnKey(relid + 1, 1, usage);
    assert a.relid * 31 + a.attnum % 0x1_0000_0000 == b.relid * 31 + b.attnum % 0x1_0000_0000;
  }

  /** The table after the first of two colliding columns is charged, and after both are. */
  lemma TwoCharged(c1: Charge, c2: Charge) returns (t: Table)
    requires c1.key != c2.key && Home(c1.key) == Home(c2.key)
    ensures t == ApplyCharge(ApplyCharge(Blank(), c1), c2)
    ensures PathOk(t, c1.key) && PathOk(t, c2.key)
    ensures var h := Home(c1.key); Holds(t, c1.key, h) && Holds(t, c2.key, At(h, 1)) && OnPath(t, At(h, 1), h)
    ensures TrackedOf(t, c2.key) == Some(Tracked(1, c2.cost, c2.ts))
  {
    var h := Home(c1.key);
    BlankIsEmpty(c1.key);
    BlankIsEmpty(c2.key);
    var t1 := ApplyCharge(Blank(), c1);
    OwnCharge(Blank(), c1);
    OtherCharge(Blank(), c1, c2.key);
    ProbeAt(t1, c2.key, At(h, 1));
    t := ApplyCharge(t1, c2);
    OwnCharge(t1, c2);
    OtherCharge(t1, c2, c1.key);
  }

  /** So indexing the first column makes the advisor forget everything it charged to the second. */
  lemma NeighboursCollide(relid: nat, usage: Usage, c1: Charge, c2: Charge)
    requires relid < 0xFFFF_FFFF
    requires c1.key == ColumnKey(relid, 32, usage) && c2.key == ColumnKey(relid + 1, 1, usage)
    ensures Home(c1.key) == Home(c2.key)
    ensures var t := ApplyCharge(ApplyCharge(Blank(), c1), c2);
            && TrackedOf(t, c2.key) == Some(Tracked(1, c2.cost, c2.ts))
            && TrackedOf(Removed(t, c1.key), c2.key) == None
  {
    SameHome(relid, usage);
    var h := Home(c1.key);
    var t := TwoCharged(c1, c2);
    RemovalForgetsRent(t, h, At(h, 1), c2);
  }

  // ---------------------------------------------------------------- the static arrays

  class AdvisorHash {
    /** advisor_hash and advisor_hash_used together. */
    const slots: array<Slot>

    constructor ()
      ensures fresh(slots) && slots.Length == SIZE && slots[..] == Blank()
    {
      slots := new Slot[SIZE](_ => Empty);
    }

    /** The probing loop that lookup and removal share: the first slot on k's path that is free or holds k, or
        SIZE when the loop comes round to its start. */
    method Search(k: ColumnKey) returns (idx: nat)
      requires slots.Length == SIZE
      ensures idx == match Probe(slots[..], k) case Some(j) => j case None => SIZE
    {
      var start := Home(k);
      idx := start;
      ghost var d := 0;
      while true
        invariant d < SIZE && idx == At(start, d)
        invariant Probe(slots[..], k) == ProbeFrom(slots[..], k, d)
        decreases SIZE - d
      {
        if slots[idx].Empty? || slots[idx].stats.key == k {
          return;
        }
        idx := if idx + 1 == SIZE then 0 else idx + 1;
        d := d + 1;
        if idx == start {
          assert d == SIZE;
          idx := SIZE;
          return;
        }
      }
    }

    /** advisor_hash_find_or_create; SIZE stands for NULL. */
    method Find(k: ColumnKey) returns (idx: nat)
      requires slots.Length == SIZE
      modifies slots
      ensures idx == match Probe(old(slots[..]), k) case Some(j) => j case None => SIZE
      ensures slots[..] == FindOrCreate(old(slots[..]), k)
    {
      idx := Search(k);
      if idx < SIZE && slots[idx].Empty? {
        slots[idx] := Used(Fresh(k));
      }
    }

    /** The body of the three drain loops. */
    method Add(c: Charge)
      requires slots.Length == SIZE
      modifies slots
      ensures slots[..] == ApplyCharge(old(slots[..]), c)
    {
      var idx := Find(c.key);
      if idx < SIZE {
        slots[idx] := Used(Bump(slots[idx].stats, c));
      }
    }

    method AddColumns(cols: seq<ColumnRef>, usage: Usage, cost: real, ts: int)
      requires slots.Length == SIZE
      modifies slots
      ensures slots[..] == Drained(old(slots[..]), ChargesFor(cols, usage, cost, ts))
    {
      ghost var t: Table := slots[..];
      ghost var cs := ChargesFor(cols, usage, cost, ts);
      for i := 0 to |cols|
        invariant slots[..] == Drained(t, cs[..i])
      {
        DrainedNext(t, cs, i);
        Add(Charge(ColumnKey(cols[i].relid, cols[i].attnum, usage), cost, ts));
      }
      assert cs[..|cols|] == cs;
    }

    /** One round of the drain's outer loop. */
    method DrainEntry(e: WorkloadEntry)
      requires slots.Length == SIZE
      modifies slots
      ensures slots[..] == Drained(old(slots[..]), Charges(e))
    {
      ghost var t: Table := slots[..];
      ghost var p, j := ChargesFor(e.preds, Predicate, e.cost, e.ts), ChargesFor(e.joins, Join, e.cost, e.ts);
      AddColumns(e.preds, Predicate, e.cost, e.ts);
      AddColumns(e.joins, Join, e.cost, e.ts);
      AddColumns(e.sorts, Sort, e.cost, e.ts);
      DrainedAppend(t, p, j);
      DrainedAppend(t, p + j, ChargesFor(e.sorts, Sort, e.cost, e.ts));
    }

    /** drain_ring_buffer, given the entries it reads. */
    method Drain(es: seq<WorkloadEntry>)
      requires slots.Length == SIZE
      modifies slots
      ensures slots[..] == Drained(old(slots[..]), AllCharges(es))
    {
      ghost var t: Table := slots[..];
      for i := 0 to |es|
        invariant slots[..] == Drained(t, AllCharges(es[..i]))
      {
        assert es[..i + 1][..i] == es[..i];
        DrainEntry(es[i]);
        DrainedAppend(t, AllCharges(es[..i]), Charges(es[i]));
      }
      assert es[..|es|] == es;
    }

    method Remove(k: ColumnKey)
      requires slots.Length == SIZE
      modifies slots
      ensures slots[..] == Removed(old(slots[..]), k)
    {
      var idx := Search(k);
      if idx < SIZE {
        slots[idx] := Empty;
      }
    }

    method EvictStale(now: int, maxAge: int)
      requires slots.Length == SIZE
      modifies slots
      ensures slots[..] == Cleared(old(slots[..]), Stale(old(slots[..]), now, maxAge))
    {
      ghost var t: Table := slots[..];
      for i := 0 to SIZE
        invariant forall j :: 0 <= j < SIZE ==>
                    slots[j] == if j < i && j in Stale(t, now, maxAge) then Empty else t[j]
      {
        if slots[i].Used? && slots[i].stats.lastSeen != 0 && now - slots[i].stats.lastSeen > maxAge {
          slots[i] := Empty;
        }
      }
    }
  }

  lemma {:induction false} DrainedNext(t: Table, cs: seq<Charge>, i: nat)
    requires i < |cs|
    ensures Drained(t, cs[..i + 1]) == ApplyCharge(Drained(t, cs[..i]), cs[i])
  {
    assert cs[..i + 1][..i] == cs[..i];
  }

  lemma {:induction false} DrainedAppend(t: Table, a: seq<Charge>, b: seq<Charge>)
    ensures Drained(t, a + b) == Drained(Drained(t, a), b)
  {
    if b == [] {
      assert a + b == a;
    } else {
      var n := |b| - 1;
      assert (a + b)[..|a + b| - 1] == a + b[..n];
      DrainedAppend(t, a, b[..n]);
    }
  }
}
