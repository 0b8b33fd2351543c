/** The lock-free ring between the executor hook and the advisor (src/backend/autoindex/workload_capture.c
    and index_advisor.c) as a state machine: any number of producers and one consumer, one atomic access a
    step. */
module WorkloadRing {
  import opened Options
  import opened Workload

  const N: nat := 4096

  /** The slot content shared memory starts with. */
  const ZERO: WorkloadEntry := WorkloadEntry([], [], [], 0.0, 0)

  type Slots = s: seq<WorkloadEntry> | |s| == N witness seq(N, _ => ZERO)

  datatype Producer =
    | Idle
    | Want(e: WorkloadEntry)
    | SawTail(e: WorkloadEntry, tail: nat)
    | SawBoth(e: WorkloadEntry, tail: nat, head: nat)
    | Claimed(e: WorkloadEntry, ticket: nat)
    | Copied

  datatype Consumer = Asleep | SawHead(from: nat) | Draining(pos: nat, end: nat)

  /** `claims[k]` is the entry whose push won ticket k and `drained[k]` what the consumer read for it: history,
      not part of shared memory. */
  datatype State = State(head: nat, tail: nat, slots: Slots, written: nat, dropped: nat,
                         producers: map<nat, Producer>, consumer: Consumer,
                         claims: seq<WorkloadEntry>, drained: seq<WorkloadEntry>)

  datatype Label =
    | Push(p: nat, e: WorkloadEntry)
    | ReadTail(p: nat)
    | ReadHead(p: nat)
    | Decide(p: nat)
    | Copy(p: nat)
    | Count(p: nat)
    | StartDrain
    | BoundDrain
    | Take
    | EndDrain

  function Init(pids: set<nat>): State {
    State(0, 0, seq(N, _ => ZERO), 0, 0, map p | p in pids :: Idle, Asleep, [], [])
  }

  predicate Full(tail: nat, head: nat) {
    (tail + 1) % N == head % N
  }

  predicate Enabled(s: State, l: Label) {
    match l
    case Push(p, _) => p in s.producers && s.producers[p].Idle?
    case ReadTail(p) => p in s.producers && s.producers[p].Want?
    case ReadHead(p) => p in s.producers && s.producers[p].SawTail?
    case Decide(p) => p in s.producers && s.producers[p].SawBoth?
    case Copy(p) => p in s.producers && s.producers[p].Claimed?
    case Count(p) => p in s.producers && s.producers[p].Copied?
    case StartDrain => s.consumer.Asleep?
    case BoundDrain => s.consumer.SawHead?
    case Take => s.consumer.Draining? && s.consumer.pos != s.consumer.end
    case EndDrain => s.consumer.Draining? && s.consumer.pos == s.consumer.end
  }

  function Step(s: State, l: Label): State
    requires Enabled(s, l)
  {
    match l
    case Push(p, e) => s.(producers := s.producers[p := Want(e)])
    case ReadTail(p) => s.(producers := s.producers[p := SawTail(s.producers[p].e, s.tail)])
    case ReadHead(p) =>
      s.(producers := s.producers[p := SawBoth(s.producers[p].e, s.producers[p].tail, s.head)])
    case Decide(p) =>
      var SawBoth(e, t, h) := s.producers[p];
      if Full(t, h) then s.(dropped := s.dropped + 1, producers := s.producers[p := Idle])
      else if s.tail == t then
        s.(tail := t + 1, claims := s.claims + [e], producers := s.producers[p := Claimed(e, t)])
      else s.(producers := s.producers[p := Want(e)])
    case Copy(p) =>
      var Claimed(e, t) := s.producers[p];
      s.(slots := s.slots[t % N := e], producers := s.producers[p := Copied])
    case Count(p) => s.(written := s.written + 1, producers := s.producers[p := Idle])
    case StartDrain => s.(consumer := SawHead(s.head))
    case BoundDrain => s.(consumer := Draining(s.consumer.from, s.tail))
    case Take =>
      var Draining(pos, end) := s.consumer;
      s.(drained := s.drained + [s.slots[pos % N]], consumer := Draining(pos + 1, end))
    case EndDrain => s.(head := s.consumer.pos, consumer := Asleep)
  }

  /** ls is a schedule that can run from s. */
  predicate IsRun(s: State, ls: seq<Label>)
    decreases |ls|
  {
    ls == [] || (Enabled(s, ls[0]) && IsRun(Step(s, ls[0]), ls[1..]))
  }

  function After(s: State, ls: seq<Label>): State
    requires IsRun(s, ls)
    decreases |ls|
  {
    if ls == [] then s else After(Step(s, ls[0]), ls[1..])
  }

  // ---------------------------------------------------------------- safety of every run

  predicate ProducerOk(s: State, p: nat)
    requires p in s.producers
  {
    match s.producers[p]
    case SawTail(_, t) => t <= s.tail
    case SawBoth(_, t, h) => t <= s.tail && h <= s.head && t < h + N && (t == s.tail ==> h <= t)
    case Claimed(e, k) => k < |s.claims| && s.claims[k] == e
    case _ => true
  }

  predicate Bounds(s: State) {
    && |s.claims| == s.tail
    && s.head <= |s.drained| <= s.tail < s.head + N
    && (match s.consumer
        case Asleep => |s.drained| == s.head
        case SawHead(h) => h == s.head == |s.drained|
        case Draining(pos, end) => pos == |s.drained| && pos <= end <= s.tail)
  }

  predicate OneClaimant(s: State) {
    forall p, q :: p in s.producers && q in s.producers && p != q && s.producers[p].Claimed? && s.producers[q].Claimed?
      ==> s.producers[p].ticket != s.producers[q].ticket
  }

  /** What every interleaving keeps: at most N - 1 unread tickets, the consumer between head and tail, and one
      claimant per ticket. */
  predicate Inv(s: State) {
    && Bounds(s)
    && (forall p :: p in s.producers ==> ProducerOk(s, p))
    && OneClaimant(s)
  }

  lemma FullIsExact(t: nat, h: nat)
    requires h <= t < h + N
    ensures Full(t, h) <==> t + 1 == h + N
  {
  }

  lemma StepKeepsInv(s: State, l: Label)
    requires Inv(s) && Enabled(s, l)
    ensures Inv(Step(s, l))
  {
    StepKeepsBounds(s, l);
    StepKeepsProducers(s, l);
    StepKeepsClaimants(s, l);
  }

  lemma StepKeepsBounds(s: State, l: Label)
    requires Inv(s) && Enabled(s, l)
    ensures Bounds(Step(s, l))
  {
    if l.Decide? {
      assert ProducerOk(s, l.p);
      if s.tail == s.producers[l.p].tail {
        FullIsExact(s.producers[l.p].tail, s.producers[l.p].head);
      }
    }
  }

  lemma StepKeepsProducer(s: State, l: Label, p: nat)
    requires Bounds(s) && Enabled(s, l) && p in s.producers && ProducerOk(s, p)
    ensures ProducerOk(Step(s, l), p)
  {
  }

  lemma StepKeepsProducers(s: State, l: Label)
    requires Inv(s) && Enabled(s, l)
    ensures forall p :: p in Step(s, l).producers ==> ProducerOk(Step(s, l), p)
  {
    forall p | p in Step(s, l).producers
      ensures ProducerOk(Step(s, l), p)
    {
      StepKeepsProducer(s, l, p);
    }
  }

  lemma StepKeepsClaimants(s: State, l: Label)
    requires Inv(s) && Enabled(s, l)
    ensures OneClaimant(Step(s, l))
  {
    var s' := Step(s, l);
    forall p, q | p in s'.producers && q in s'.producers && p != q
                  && s'.producers[p].Claimed? && s'.producers[q].Claimed?
      ensures s'.producers[p].ticket != s'.producers[q].ticket
    {
      assert ProducerOk(s, p) && ProducerOk(s, q);
    }
  }

  lemma {:induction false} RunKeepsInv(s: State, ls: seq<Label>)
    requires Inv(s) && IsRun(s, ls)
    ensures Inv(After(s, ls))
    decreases |ls|
  {
    if ls != [] {
      StepKeepsInv(s, ls[0]);
      RunKeepsInv(Step(s, ls[0]), ls[1..]);
    }
  }

  // ---------------------------------------------------------------- the counters

  function Busy(s: State): set<nat> {
    set p | p in s.producers && !s.producers[p].Idle?
  }

  function Filling(s: State): set<nat> {
    set p | p in s.producers && (s.producers[p].Claimed? || s.producers[p].Copied?)
  }

  function Pushes(ls: seq<Label>): nat {
    if ls == [] then 0 else (if ls[0].Push? then 1 else 0) + Pushes(ls[1..])
  }

  /** Every push so far was written, was dropped or is under way, and every claim was written or is being filled. */
  predicate Counted(s: State, pushes: nat) {
    pushes == s.written + s.dropped + |Busy(s)| && |s.claims| == s.written + |Filling(s)|
  }

  function One(b: bool): nat {
    if b then 1 else 0
  }

  lemma SizesDiffer(a: set<nat>, b: set<nat>, p: nat)
    requires a - {p} == b - {p}
    ensures |a| + One(p in b) == |b| + One(p in a)
  {
    assert |a| == |a - {p}| + One(p in a) && |b| == |b - {p}| + One(p in b);
  }

  lemma OneMoves(s: State, s': State, p: nat)
    requires p in s.producers && p in s'.producers && s'.producers == s.producers[p := s'.producers[p]]
    ensures |Busy(s)| + One(!s'.producers[p].Idle?) == |Busy(s')| + One(!s.producers[p].Idle?)
    ensures |Filling(s)| + One(s'.producers[p].Claimed? || s'.producers[p].Copied?)
            == |Filling(s')| + One(s.producers[p].Claimed? || s.producers[p].Copied?)
  {
    SizesDiffer(Busy(s), Busy(s'), p);
    SizesDiffer(Filling(s), Filling(s'), p);
  }

  lemma ProducerCounts(s: State, l: Label, pushes: nat)
    requires Enabled(s, l) && Counted(s, pushes)
    requires l.Push? || l.ReadTail? || l.ReadHead? || l.Decide? || l.Copy? || l.Count?
    ensures Counted(Step(s, l), pushes + if l.Push? then 1 else 0)
  {
    OneMoves(s, Step(s, l), l.p);
  }

  lemma StepCounts(s: State, l: Label, pushes: nat)
    requires Enabled(s, l) && Counted(s, pushes)
    ensures Counted(Step(s, l), pushes + if l.Push? then 1 else 0)
  {
    if l.StartDrain? || l.BoundDrain? || l.Take? || l.EndDrain? {
      assert Step(s, l).producers == s.producers;
      assert Busy(Step(s, l)) == Busy(s) && Filling(Step(s, l)) == Filling(s);
    } else {
      ProducerCounts(s, l, pushes);
    }
  }

  /** The statistics are exact in every interleaving: no push is counted twice or not at all. */
  lemma {:induction false} RunCounts(s: State, ls: seq<Label>, pushes: nat)
    requires Counted(s, pushes) && IsRun(s, ls)
    ensures Counted(After(s, ls), pushes + Pushes(ls))
    decreases |ls|
  {
    if ls != [] {
      StepCounts(s, ls[0], pushes);
      RunCounts(Step(s, ls[0]), ls[1..], pushes + if ls[0].Push? then 1 else 0);
    }
  }

  lemma InitCounted(pids: set<nat>)
    ensures Counted(Init(pids), 0)
  {
    assert Busy(Init(pids)) == {} && Filling(Init(pids)) == {};
  }

  lemma InitInv(pids: set<nat>)
    ensures Inv(Init(pids))
  {
  }

  // ---------------------------------------------------------------- exact delivery

  predicate InFlight(s: State, k: nat) {
    exists p :: p in s.producers && s.producers[p].Claimed? && s.producers[p].ticket == k
  }

  /** The consumer reads a slot only after its claimant has copied the entry in. */
  predicate Timely(s: State, l: Label) {
    l.Take? && s.consumer.Draining? ==> !InFlight(s, s.consumer.pos)
  }

  predicate TimelyRun(s: State, ls: seq<Label>)
    requires IsRun(s, ls)
    decreases |ls|
  {
    ls == [] || (Timely(s, ls[0]) && TimelyRun(Step(s, ls[0]), ls[1..]))
  }

  /** What a slot held before ticket k was copied into it: a blank entry, or the entry of the previous lap. */
  function Before(claims: seq<WorkloadEntry>, k: nat): WorkloadEntry
    requires k < |claims|
  {
    if k < N then ZERO else claims[k - N]
  }

  /** What a slot holds while its newest ticket is k: that entry once copied, before that the entry of the
      previous lap. */
  function Expected(s: State, k: nat): WorkloadEntry
    requires k < |s.claims|
  {
    if !InFlight(s, k) then s.claims[k] else Before(s.claims, k)
  }

  /** Delivery so far is exact, and every slot of the last lap holds what it should. */
  predicate Exact(s: State) {
    && Inv(s)
    && s.drained == s.claims[..|s.drained|]
    && (forall k :: InFlight(s, k) ==> |s.drained| <= k)
    && (forall k: nat :: s.tail <= k + N && k < s.tail ==> s.slots[k % N] == Expected(s, k))
    && (forall r :: s.tail <= r < N ==> s.slots[r] == ZERO)
  }

  lemma ModApart(a: nat, b: nat)
    requires a < b < a + N
    ensures a % N != b % N
  {
  }

  lemma LapBack(k: nat)
    requires N <= k
    ensures (k - N) % N == k % N
  {
  }

  lemma SameFlights(s: State, s': State, k: nat)
    requires forall p :: p in s.producers <==> p in s'.producers
    requires forall p :: p in s.producers && (s.producers[p].Claimed? || s'.producers[p].Claimed?) ==>
               s.producers[p] == s'.producers[p]
    ensures InFlight(s, k) <==> InFlight(s', k)
  {
    if InFlight(s, k) {
      var p :| p in s.producers && s.producers[p].Claimed? && s.producers[p].ticket == k;
      assert p in s'.producers;
    }
    if InFlight(s', k) {
      var p :| p in s'.producers && s'.producers[p].Claimed? && s'.producers[p].ticket == k;
      assert p in s.producers;
    }
  }

  lemma ClaimInFlight(s: State, p: nat, k: nat)
    requires Enabled(s, Decide(p)) && k != s.tail
    requires !Full(s.producers[p].tail, s.producers[p].head) && s.producers[p].tail == s.tail
    ensures InFlight(Step(s, Decide(p)), k) <==> InFlight(s, k)
  {
    var s' := Step(s, Decide(p));
    if InFlight(s, k) {
      var q :| q in s.producers && s.producers[q].Claimed? && s.producers[q].ticket == k;
      assert q in s'.producers && s'.producers[q] == s.producers[q];
    }
    if InFlight(s', k) {
      var q :| q in s'.producers && s'.producers[q].Claimed? && s'.producers[q].ticket == k;
      assert q in s.producers && s'.producers[q] == s.producers[q];
    }
  }

  lemma ClaimKeepsExact(s: State, p: nat)
    requires Exact(s) && Enabled(s, Decide(p))
    requires !Full(s.producers[p].tail, s.producers[p].head) && s.producers[p].tail == s.tail
    ensures Exact(Step(s, Decide(p)))
  {
    var s' := Step(s, Decide(p));
    StepKeepsInv(s, Decide(p));
    var t := s.tail;
    assert InFlight(s', t) by { assert p in s'.producers && s'.producers[p].Claimed?; }
    forall k: nat | k != t
      ensures InFlight(s', k) <==> InFlight(s, k)
    {
      ClaimInFlight(s, p, k);
    }
    forall k: nat | s'.tail <= k + N && k < s'.tail
      ensures s'.slots[k % N] == Expected(s', k)
    {
      if k == t && N <= t {
        LapBack(t);
        assert s.slots[(t - N) % N] == Expected(s, t - N);
      }
    }
  }

  lemma CopyKeepsExact(s: State, p: nat)
    requires Exact(s) && Enabled(s, Copy(p))
    ensures Exact(Step(s, Copy(p)))
  {
    var s' := Step(s, Copy(p));
    StepKeepsInv(s, Copy(p));
    var t := s.producers[p].ticket;
    assert ProducerOk(s, p);
    assert InFlight(s, t);
    forall k
      ensures InFlight(s', k) <==> InFlight(s, k) && k != t
    {
      if InFlight(s, k) && k != t {
        var q :| q in s.producers && s.producers[q].Claimed? && s.producers[q].ticket == k;
        assert q in s'.producers && s'.producers[q] == s.producers[q];
      }
      if InFlight(s', k) {
        var q :| q in s'.producers && s'.producers[q].Claimed? && s'.producers[q].ticket == k;
        assert q in s.producers && s'.producers[q] == s.producers[q];
        assert s.producers[p].ticket != s.producers[q].ticket;
      }
    }
    forall k: nat | s'.tail <= k + N && k < s'.tail
      ensures s'.slots[k % N] == Expected(s', k)
    {
      if k < t {
        ModApart(k, t);
      } else if t < k {
        ModApart(t, k);
      }
    }
  }

  lemma TakeKeepsExact(s: State)
    requires Exact(s) && Enabled(s, Take) && Timely(s, Take)
    ensures Exact(Step(s, Take))
  {
    var s' := Step(s, Take);
    StepKeepsInv(s, Take);
    var k := s.consumer.pos;
    assert s.slots[k % N] == Expected(s, k);
    forall j ensures InFlight(s', j) <==> InFlight(s, j) { SameFlights(s, s', j); }
  }

  lemma StepKeepsExact(s: State, l: Label)
    requires Exact(s) && Enabled(s, l) && Timely(s, l)
    ensures Exact(Step(s, l))
  {
    var s' := Step(s, l);
    StepKeepsInv(s, l);
    if l.Take? {
      TakeKeepsExact(s);
    } else if l.Copy? {
      CopyKeepsExact(s, l.p);
    } else if l.Decide? && !Full(s.producers[l.p].tail, s.producers[l.p].head) && s.producers[l.p].tail == s.tail {
      ClaimKeepsExact(s, l.p);
    } else {
      forall k ensures InFlight(s', k) <==> InFlight(s, k) { SameFlights(s, s', k); }
    }
  }

  /** In every interleaving where no slot is read before its claimant has copied its entry in, the consumer
      receives exactly the claimed entries, each once and in ticket order. */
  lemma {:induction false} TimelyRunDeliversExactly(s: State, ls: seq<Label>)
    requires Exact(s) && IsRun(s, ls) && TimelyRun(s, ls)
    ensures Exact(After(s, ls))
    decreases |ls|
  {
    if ls != [] {
      StepKeepsExact(s, ls[0]);
      TimelyRunDeliversExactly(Step(s, ls[0]), ls[1..]);
    }
  }

  lemma InitExact(pids: set<nat>)
    ensures Exact(Init(pids))
  {
  }

  /** The first read that comes too early delivers the slot's previous content: a blank entry, or one that was
      delivered N tickets before. The claimed entry itself is never read. */
  lemma EarlyTakeRepeats(s: State)
    requires Exact(s) && Enabled(s, Take) && !Timely(s, Take)
    ensures var s' := Step(s, Take);
            var k := s.consumer.pos;
            && k < |s.claims| && |s'.drained| == k + 1
            && s'.drained == s.drained + [Before(s.claims, k)]
            && (k >= N ==> Before(s.claims, k) == s.drained[k - N])
            && (s'.drained[k] == s'.claims[k] <==> s.claims[k] == Before(s.claims, k))
  {
    var k := s.consumer.pos;
    assert s.slots[k % N] == Expected(s, k);
  }

  /** Each claimed entry differs from what its slot held before. */
  predicate Telling(claims: seq<WorkloadEntry>) {
    forall k :: 0 <= k < |claims| ==> claims[k] != Before(claims, k)
  }

  /** What was drained is what was claimed, in ticket order. */
  predicate Delivered(s: State) {
    |s.drained| <= |s.claims| && s.drained == s.claims[..|s.drained|]
  }

  lemma {:induction false} HistoryGrows(s: State, ls: seq<Label>)
    requires IsRun(s, ls)
    ensures s.claims <= After(s, ls).claims && s.drained <= After(s, ls).drained
    decreases |ls|
  {
    if ls != [] {
      HistoryGrows(Step(s, ls[0]), ls[1..]);
    }
  }

  /** A wrong read is never made good. */
  lemma {:induction false} EarlyTakeSpoils(s: State, ls: seq<Label>)
    requires Exact(s) && Enabled(s, Take) && !Timely(s, Take) && IsRun(Step(s, Take), ls)
    requires Telling(After(Step(s, Take), ls).claims)
    ensures !Delivered(After(Step(s, Take), ls))
  {
    var s1, k := Step(s, Take), s.consumer.pos;
    var s' := After(s1, ls);
    EarlyTakeRepeats(s);
    HistoryGrows(s1, ls);
    assert s'.claims[k] == s.claims[k] && s'.drained[k] == Before(s.claims, k) == Before(s'.claims, k);
    assert k < |s'.drained|;
  }

  /** In every interleaving whose entries can be told from the previous lap's, the drain receives exactly the claimed
      entries if and only if it reads no slot before its claimant has filled it. */
  lemma {:induction false} DeliveryExact(s: State, ls: seq<Label>)
    requires Exact(s) && IsRun(s, ls) && Telling(After(s, ls).claims)
    ensures Delivered(After(s, ls)) <==> TimelyRun(s, ls)
    decreases |ls|
  {
    if ls != [] {
      if Timely(s, ls[0]) {
        StepKeepsExact(s, ls[0]);
        DeliveryExact(Step(s, ls[0]), ls[1..]);
      } else {
        EarlyTakeSpoils(s, ls[1..]);
      }
    }
  }

  // ---------------------------------------------------------------- drops

  /** No step is p's own. */
  predicate OthersOnly(ls: seq<Label>, p: nat) {
    forall i :: 0 <= i < |ls| ==> Actor(ls[i]) != Some(p)
  }

  /** The producer that takes the step; None is the consumer. */
  function Actor(l: Label): Option<nat> {
    if l.StartDrain? || l.BoundDrain? || l.Take? || l.EndDrain? then None else Some(l.p)
  }

  lemma {:induction false} OthersLeave(s: State, ls: seq<Label>, p: nat)
    requires IsRun(s, ls) && OthersOnly(ls, p) && p in s.producers
    ensures p in After(s, ls).producers && After(s, ls).producers[p] == s.producers[p]
    decreases |ls|
  {
    if ls != [] {
      assert Actor(ls[0]) != Some(p);
      OthersLeave(Step(s, ls[0]), ls[1..], p);
    }
  }

  lemma FullAt(s: State, t: nat)
    requires Bounds(s) && t <= s.tail
    ensures Full(t, s.head) <==>
              (t == s.tail && s.tail + 1 == s.head + N) || (t < s.head && (s.head - t - 1) % N == 0)
  {
    if s.head <= t {
      FullIsExact(t, s.head);
    } else {
      assert (t + 1) % N == s.head % N <==> (s.head - (t + 1)) % N == 0;
    }
  }

  /** A producer that reads head, whatever the others do until it decides, drops its entry if and only if the ring is
      full as it reads head and tail has not moved since it read that, or head has passed the tail it read and stands
      one slot ahead of it round the ring. */
  lemma {:induction false} DropExact(s: State, p: nat, ls: seq<Label>)
    requires Inv(s) && Enabled(s, ReadHead(p)) && IsRun(Step(s, ReadHead(p)), ls) && OthersOnly(ls, p)
    ensures var t, s' := s.producers[p].tail, After(Step(s, ReadHead(p)), ls);
            && Enabled(s', Decide(p))
            && (Step(s', Decide(p)).dropped == s'.dropped + 1 <==>
                (t == s.tail && s.tail + 1 == s.head + N) || (t < s.head && (s.head - t - 1) % N == 0))
  {
    assert ProducerOk(s, p);
    FullAt(s, s.producers[p].tail);
    OthersLeave(Step(s, ReadHead(p)), ls, p);
  }

  lemma {:induction false} Extend(s: State, ls: seq<Label>, l: Label)
    requires IsRun(s, ls) && Enabled(After(s, ls), l)
    ensures IsRun(s, ls + [l]) && After(s, ls + [l]) == Step(After(s, ls), l)
    decreases |ls|
  {
    if ls != [] {
      assert (ls + [l])[1..] == ls[1..] + [l];
      Extend(Step(s, ls[0]), ls[1..], l);
    }
  }

  function Blank(): Slots {
    seq(N, _ => ZERO)
  }

  /** The second case happens: an entry is dropped although the ring is empty. */
  lemma DropOnEmptyRing(a: WorkloadEntry, b: WorkloadEntry) returns (ls: seq<Label>)
    ensures IsRun(Init({1, 2}), ls)
    ensures var s := After(Init({1, 2}), ls);
            s.head == s.tail == 1 && s.drained == [b] && Enabled(s, Decide(1)) && Step(s, Decide(1)).dropped == 1
  {
    ls := LateClaim(a, b);
    ls := Deliver(ls, a, b);
  }

  /** An early read happens: the one claimed entry is never delivered and the drain moves past it. */
  lemma ClaimedEntryLost(a: WorkloadEntry, b: WorkloadEntry) returns (ls: seq<Label>)
    ensures IsRun(Init({1, 2}), ls)
    ensures var s := After(Init({1, 2}), ls);
            s.claims == [b] && s.drained == [ZERO] && s.head == s.tail == 1
  {
    var s := Init({1, 2});
    ls := LateClaim(a, b);
    Extend(s, ls, StartDrain);
    ls := ls + [StartDrain];
    Extend(s, ls, BoundDrain);
    ls := ls + [BoundDrain];
    Extend(s, ls, Take);
    ls := ls + [Take];
    Extend(s, ls, EndDrain);
    ls := ls + [EndDrain];
  }

  lemma LateClaim(a: WorkloadEntry, b: WorkloadEntry) returns (ls: seq<Label>)
    ensures IsRun(Init({1, 2}), ls)
    ensures After(Init({1, 2}), ls) ==
              State(0, 1, Blank(), 0, 0, map[1 := SawTail(a, 0), 2 := Claimed(b, 0)], Asleep, [b], [])
  {
    var s := Init({1, 2});
    assert s.producers == map[1 := Idle, 2 := Idle];
    ls := [];
    Extend(s, ls, Push(1, a));
    ls := ls + [Push(1, a)];
    Extend(s, ls, ReadTail(1));
    ls := ls + [ReadTail(1)];
    Extend(s, ls, Push(2, b));
    ls := ls + [Push(2, b)];
    Extend(s, ls, ReadTail(2));
    ls := ls + [ReadTail(2)];
    Extend(s, ls, ReadHead(2));
    ls := ls + [ReadHead(2)];
    Extend(s, ls, Decide(2));
    ls := ls + [Decide(2)];
  }

  lemma Deliver(before: seq<Label>, a: WorkloadEntry, b: WorkloadEntry) returns (ls: seq<Label>)
    requires IsRun(Init({1, 2}), before)
    requires After(Init({1, 2}), before) ==
               State(0, 1, Blank(), 0, 0, map[1 := SawTail(a, 0), 2 := Claimed(b, 0)], Asleep, [b], [])
    ensures IsRun(Init({1, 2}), ls)
    ensures After(Init({1, 2}), ls) ==
              State(1, 1, Blank()[0 := b], 0, 0, map[1 := SawBoth(a, 0, 1), 2 := Copied], Asleep, [b], [b])
  {
    var s := Init({1, 2});
    ls := before;
    Extend(s, ls, Copy(2));
    ls := ls + [Copy(2)];
    Extend(s, ls, StartDrain);
    ls := ls + [StartDrain];
    Extend(s, ls, BoundDrain);
    ls := ls + [BoundDrain];
    Extend(s, ls, Take);
    ls := ls + [Take];
    Extend(s, ls, EndDrain);
    ls := ls + [EndDrain];
    Extend(s, ls, ReadHead(1));
    ls := ls + [ReadHead(1)];
  }
}
