/** The bloom index as a concurrent machine (contrib/bloom/blinsert.c, blvacuum.c, blscan.c): any number of
    inserters, vacuums and scans, one locked page access a step. */
module BloomIndex {
  import opened BloomPage
  import opened BloomRandom
  import opened BloomSignature
  import opened Options

  /** BloomMetaBlockN for 8 kB pages. */
  const META_BLOCKS: nat := 2004

  datatype Page = Meta | New | Deleted | Live(items: seq<BloomTuple>)

  function Items(p: Page): seq<BloomTuple> {
    if p.Live? then p.items else []
  }

  datatype Process =
    | Idle
    | Inserting(t: BloomTuple)                          // tuple formed, metapage not read yet
    | TryingFirst(t: BloomTuple, blk: nat)              // metapage unlocked, about to lock the first listed page
    | Waiting(t: BloomTuple, tried: Option<nat>)        // wants the metapage exclusively
    | Holding(t: BloomTuple, n: nat)                    // holds the metapage, trying the n-th listed page
    | Vacuuming(dead: set<nat>, npages: nat, blk: nat, list: seq<nat>)
    | Scanning(q: Signature, npages: nat, blk: nat, found: set<nat>)

  /** `inserted` and `removed` are history: every tuple ever put on a page or vacuumed off one. */
  datatype State = State(pages: seq<Page>, nStart: nat, nEnd: nat, notFull: seq<nat>, holder: Option<nat>,
                         procs: map<nat, Process>, inserted: multiset<BloomTuple>, removed: multiset<BloomTuple>)

  datatype Label =
    | BeginInsert(p: nat, t: BloomTuple)
    | PeekMeta(p: nat)
    | AddToFirst(p: nat)
    | LockMeta(p: nat)
    | AddToListed(p: nat)
    | AddToFree(p: nat, recycled: Option<nat>)
    | LeaveNewPage
    | BeginVacuum(p: nat, dead: set<nat>)
    | VacuumBlock(p: nat)
    | EndVacuum(p: nat)
    | BeginScan(p: nat, q: Signature)
    | ScanBlock(p: nat)
    | EndScan(p: nat)

  // ---------------------------------------------------------------- steps

  /** Lock a page, reinitialise it if it is new or deleted, and add the tuple if it fits. */
  function TryAdd(cap: nat, p: Page, t: BloomTuple): Option<Page> {
    if |Items(p)| < cap then Some(Live(Items(p) + [t])) else None
  }

  /** What blbulkdelete makes of one page. */
  function VacuumPage(p: Page, dead: set<nat>): Page {
    if !p.Live? then p
    else
      var kept := Keep(p.items, dead);
      if |kept| != |p.items| && kept == [] then Deleted else Live(kept)
  }

  predicate Free(p: Page) {
    p.New? || p.Deleted?
  }

  predicate IsIdle(s: State, p: nat) {
    p in s.procs && s.procs[p].Idle?
  }

  predicate Enabled(cap: nat, s: State, l: Label) {
    match l
    case BeginInsert(p, _) => IsIdle(s, p)
    case PeekMeta(p) => p in s.procs && s.procs[p].Inserting? && s.holder.None? && s.nEnd <= |s.notFull|
    case AddToFirst(p) => p in s.procs && s.procs[p].TryingFirst? && s.procs[p].blk < |s.pages|
    case LockMeta(p) => p in s.procs && s.procs[p].Waiting? && s.holder.None? && s.nEnd <= |s.notFull|
    case AddToListed(p) =>
      && p in s.procs && s.procs[p].Holding?
      && s.procs[p].n < s.nEnd <= |s.notFull| && s.notFull[s.procs[p].n] < |s.pages|
    case AddToFree(p, recycled) =>
      && p in s.procs && s.procs[p].Holding? && s.procs[p].n >= s.nEnd && s.notFull != [] && cap >= 1
      && (recycled.Some? ==> recycled.value < |s.pages| && Free(s.pages[recycled.value]))
    case LeaveNewPage => true
    case BeginVacuum(p, _) => IsIdle(s, p)
    case VacuumBlock(p) =>
      p in s.procs && s.procs[p].Vacuuming? && s.procs[p].blk < s.procs[p].npages <= |s.pages|
    case EndVacuum(p) =>
      && p in s.procs && s.procs[p].Vacuuming? && s.procs[p].blk >= s.procs[p].npages && s.holder.None?
      && |s.procs[p].list| <= |s.notFull|
    case BeginScan(p, _) => IsIdle(s, p)
    case ScanBlock(p) => p in s.procs && s.procs[p].Scanning? && s.procs[p].blk < s.procs[p].npages <= |s.pages|
    case EndScan(p) => p in s.procs && s.procs[p].Scanning? && s.procs[p].blk >= s.procs[p].npages
  }

  function Put(s: State, b: nat, page: Page, t: BloomTuple): State
    requires b < |s.pages|
  {
    s.(pages := s.pages[b := page], inserted := s.inserted + multiset{t})
  }

  function Matching(items: seq<BloomTuple>, q: Signature): set<nat> {
    set i | 0 <= i < |items| && Superset(items[i].sign, q) :: items[i].tid
  }

  function Step(cap: nat, s: State, l: Label): State
    requires Enabled(cap, s, l)
  {
    match l
    case BeginInsert(p, t) => s.(procs := s.procs[p := Inserting(t)])
    case PeekMeta(p) =>
      var t := s.procs[p].t;
      if s.nEnd > s.nStart then s.(procs := s.procs[p := TryingFirst(t, s.notFull[s.nStart])])
      else s.(procs := s.procs[p := Waiting(t, None)])
    case AddToFirst(p) =>
      var TryingFirst(t, b) := s.procs[p];
      (match TryAdd(cap, s.pages[b], t)
       case Some(page) => Put(s, b, page, t).(procs := s.procs[p := Idle])
       case None => s.(procs := s.procs[p := Waiting(t, Some(b))]))
    case LockMeta(p) =>
      var Waiting(t, tried) := s.procs[p];
      var skip := s.nStart < s.nEnd && tried == Some(s.notFull[s.nStart]);
      s.(holder := Some(p), procs := s.procs[p := Holding(t, if skip then s.nStart + 1 else s.nStart)])
    case AddToListed(p) =>
      var Holding(t, n) := s.procs[p];
      var b := s.notFull[n];
      (match TryAdd(cap, s.pages[b], t)
       case Some(page) => Put(s, b, page, t).(procs := s.procs[p := Idle], holder := None, nStart := n)
       case None => s.(procs := s.procs[p := Holding(t, n + 1)]))
    case AddToFree(p, recycled) =>
      var t := s.procs[p].t;
      var s' := if recycled.Some? then s else s.(pages := s.pages + [New]);
      var b := if recycled.Some? then recycled.value else |s.pages|;
      Put(s', b, Live([t]), t).(procs := s.procs[p := Idle], holder := None,
                                nStart := 0, nEnd := 1, notFull := s.notFull[0 := b])
    case LeaveNewPage => s.(pages := s.pages + [New])
    case BeginVacuum(p, dead) => s.(procs := s.procs[p := Vacuuming(dead, |s.pages|, 1, [])])
    case VacuumBlock(p) =>
      var Vacuuming(dead, npages, b, list) := s.procs[p];
      var page := VacuumPage(s.pages[b], dead);
      var listed := page.Live? && page.items != [] && |page.items| < cap && |list| < META_BLOCKS;
      s.(pages := s.pages[b := page],
         removed := s.removed + (multiset(Items(s.pages[b])) - multiset(Items(page))),
         procs := s.procs[p := Vacuuming(dead, npages, b + 1, if listed then list + [b] else list)])
    case EndVacuum(p) =>
      var list := s.procs[p].list;
      s.(notFull := list + s.notFull[|list|..], nStart := 0, nEnd := |list|, procs := s.procs[p := Idle])
    case BeginScan(p, q) => s.(procs := s.procs[p := Scanning(q, |s.pages|, 1, {})])
    case ScanBlock(p) =>
      var Scanning(q, npages, b, found) := s.procs[p];
      s.(procs := s.procs[p := Scanning(q, npages, b + 1, found + Matching(Items(s.pages[b]), q))])
    case EndScan(p) => s.(procs := s.procs[p := Idle])
  }

  /** ls is a schedule that can run from s. */
  predicate IsRun(cap: nat, s: State, ls: seq<Label>)
    decreases |ls|
  {
    ls == [] || (Enabled(cap, s, ls[0]) && IsRun(cap, Step(cap, s, ls[0]), ls[1..]))
  }

  function After(cap: nat, s: State, ls: seq<Label>): State
    requires IsRun(cap, s, ls)
    decreases |ls|
  {
    if ls == [] then s else After(cap, Step(cap, s, ls[0]), ls[1..])
  }

  // ---------------------------------------------------------------- structure

  predicate Block(s: State, b: nat) {
    1 <= b < |s.pages|
  }

  predicate PageOk(cap: nat, p: Page) {
    !p.Meta? && (p.Live? ==> 1 <= |p.items| <= cap)
  }

  predicate PagesOk(cap: nat, s: State) {
    && |s.pages| >= 1 && s.pages[0].Meta?
    && forall b :: 1 <= b < |s.pages| ==> PageOk(cap, s.pages[b])
  }

  predicate MetaOk(s: State) {
    && |s.notFull| == META_BLOCKS
    && s.nStart <= s.nEnd <= META_BLOCKS
    && forall i :: 0 <= i < s.nEnd ==> Block(s, s.notFull[i])
  }

  predicate ProcessOk(s: State, p: nat)
    requires p in s.procs
  {
    match s.procs[p]
    case TryingFirst(_, b) => Block(s, b)
    case Holding(_, n) => s.holder == Some(p) && n <= s.nEnd
    case Vacuuming(_, npages, b, list) =>
      && 1 <= b <= npages <= |s.pages| && |list| <= META_BLOCKS
      && forall i :: 0 <= i < |list| ==> Block(s, list[i])
    case Scanning(_, npages, b, _) => 1 <= b <= npages <= |s.pages|
    case _ => true
  }

  predicate ProcessesOk(s: State) {
    && (forall p :: p in s.procs ==> ProcessOk(s, p))
    && (s.holder.Some? ==> s.holder.value in s.procs && s.procs[s.holder.value].Holding?)
  }

  /** What every interleaving keeps: the metapage lists only data blocks within its bounds, only the holder of
      the metapage works on the list, and every live page holds a tuple and no more than fit. */
  predicate Inv(cap: nat, s: State) {
    PagesOk(cap, s) && MetaOk(s) && ProcessesOk(s)
  }

  lemma UpdateKeepsPages(cap: nat, s: State, b: nat, page: Page)
    requires PagesOk(cap, s) && Block(s, b) && PageOk(cap, page)
    ensures PagesOk(cap, s.(pages := s.pages[b := page]))
  {
  }

  lemma ExtendKeepsPages(cap: nat, s: State)
    requires PagesOk(cap, s)
    ensures PagesOk(cap, s.(pages := s.pages + [New]))
  {
  }

  lemma AddKeepsPages(cap: nat, s: State, b: nat, t: BloomTuple)
    requires PagesOk(cap, s) && Block(s, b)
    ensures TryAdd(cap, s.pages[b], t).Some? ==>
              PagesOk(cap, s.(pages := s.pages[b := TryAdd(cap, s.pages[b], t).value]))
  {
    assert PageOk(cap, s.pages[b]);
  }

  lemma FreeKeepsPages(cap: nat, s: State, b: nat, t: BloomTuple)
    requires cap >= 1 && PagesOk(cap, s) && b < |s.pages| && Free(s.pages[b])
    ensures PagesOk(cap, s.(pages := s.pages[b := Live([t])]))
  {
  }

  lemma StepKeepsPages(cap: nat, s: State, l: Label)
    requires cap >= 1 && Inv(cap, s) && Enabled(cap, s, l)
    ensures PagesOk(cap, Step(cap, s, l))
  {
    match l
    case AddToFirst(p) =>
      assert ProcessOk(s, p);
      AddKeepsPages(cap, s, s.procs[p].blk, s.procs[p].t);
    case AddToListed(p) => AddKeepsPages(cap, s, s.notFull[s.procs[p].n], s.procs[p].t);
    case AddToFree(p, recycled) =>
      ExtendKeepsPages(cap, s);
      var s' := if recycled.Some? then s else s.(pages := s.pages + [New]);
      FreeKeepsPages(cap, s', if recycled.Some? then recycled.value else |s.pages|, s.procs[p].t);
    case LeaveNewPage => ExtendKeepsPages(cap, s);
    case VacuumBlock(p) =>
      assert ProcessOk(s, p);
      var Vacuuming(dead, _, b, _) := s.procs[p];
      UpdateKeepsPages(cap, s, b, VacuumPage(s.pages[b], dead));
    case _ =>
  }

  lemma MetaStays(s: State, s': State)
    requires MetaOk(s) && s'.notFull == s.notFull && s'.nEnd == s.nEnd && s'.nStart <= s'.nEnd
    requires |s.pages| <= |s'.pages|
    ensures MetaOk(s')
  {
    forall i | 0 <= i < s'.nEnd
      ensures Block(s', s'.notFull[i])
    {
      assert Block(s, s.notFull[i]);
    }
  }

  lemma StepKeepsMeta(cap: nat, s: State, l: Label)
    requires cap >= 1 && Inv(cap, s) && Enabled(cap, s, l)
    ensures MetaOk(Step(cap, s, l))
  {
    if l.EndVacuum? {
      assert ProcessOk(s, l.p);
    } else if !l.AddToFree? {
      MetaStays(s, Step(cap, s, l));
    }
  }

  /** A process that does not take part keeps its bounds: the file never shrinks, and the list changes only while
      no other process holds the metapage. */
  lemma OthersKeepBounds(s: State, s': State, p: nat)
    requires p in s.procs && p in s'.procs && s'.procs[p] == s.procs[p] && ProcessOk(s, p) && |s.pages| <= |s'.pages|
    requires s.procs[p].Holding? ==> s'.holder == s.holder && s'.nEnd == s.nEnd
    ensures ProcessOk(s', p)
  {
  }

  lemma InsertKeepsProcesses(cap: nat, s: State, l: Label)
    requires Inv(cap, s) && Enabled(cap, s, l)
    requires l.BeginInsert? || l.PeekMeta? || l.AddToFirst? || l.LockMeta?
    ensures ProcessesOk(Step(cap, s, l))
  {
    var s' := Step(cap, s, l);
    forall p | p in s'.procs
      ensures ProcessOk(s', p)
    {
      assert ProcessOk(s, p);
      if p != l.p {
        OthersKeepBounds(s, s', p);
      }
    }
  }

  lemma HolderKeepsProcesses(cap: nat, s: State, l: Label)
    requires Inv(cap, s) && Enabled(cap, s, l) && (l.AddToListed? || l.AddToFree?)
    ensures ProcessesOk(Step(cap, s, l))
  {
    var s' := Step(cap, s, l);
    forall p | p in s'.procs
      ensures ProcessOk(s', p)
    {
      assert ProcessOk(s, p) && ProcessOk(s, l.p);
      if p != l.p {
        OthersKeepBounds(s, s', p);
      }
    }
  }

  lemma VacuumKeepsProcesses(cap: nat, s: State, l: Label)
    requires Inv(cap, s) && Enabled(cap, s, l) && (l.BeginVacuum? || l.EndVacuum?)
    ensures ProcessesOk(Step(cap, s, l))
  {
    var s' := Step(cap, s, l);
    forall p | p in s'.procs
      ensures ProcessOk(s', p)
    {
      assert ProcessOk(s, p);
      if p != l.p {
        OthersKeepBounds(s, s', p);
      }
    }
  }

  lemma VacuumBlockKeepsProcesses(cap: nat, s: State, p: nat)
    requires Inv(cap, s) && Enabled(cap, s, VacuumBlock(p))
    ensures ProcessesOk(Step(cap, s, VacuumBlock(p)))
  {
    var s' := Step(cap, s, VacuumBlock(p));
    assert ProcessOk(s, p);
    VacuumListGrows(cap, s, p);
    forall q | q in s'.procs
      ensures ProcessOk(s', q)
    {
      if q != p {
        assert ProcessOk(s, q);
        OthersKeepBounds(s, s', q);
      }
    }
  }

  lemma VacuumListGrows(cap: nat, s: State, p: nat)
    requires Enabled(cap, s, VacuumBlock(p)) && ProcessOk(s, p)
    ensures ProcessOk(Step(cap, s, VacuumBlock(p)), p)
  {
  }

  lemma ScanKeepsProcesses(cap: nat, s: State, l: Label)
    requires Inv(cap, s) && Enabled(cap, s, l)
    requires l.LeaveNewPage? || l.BeginScan? || l.ScanBlock? || l.EndScan?
    ensures ProcessesOk(Step(cap, s, l))
  {
    var s' := Step(cap, s, l);
    forall p | p in s'.procs
      ensures ProcessOk(s', p)
    {
      assert ProcessOk(s, p);
      if l.LeaveNewPage? || p != l.p {
        OthersKeepBounds(s, s', p);
      }
    }
  }

  lemma StepKeepsInv(cap: nat, s: State, l: Label)
    requires cap >= 1 && Inv(cap, s) && Enabled(cap, s, l)
    ensures Inv(cap, Step(cap, s, l))
  {
    StepKeepsPages(cap, s, l);
    StepKeepsMeta(cap, s, l);
    match l
    case BeginInsert(_, _) | PeekMeta(_) | AddToFirst(_) | LockMeta(_) => InsertKeepsProcesses(cap, s, l);
    case AddToListed(_) | AddToFree(_, _) => HolderKeepsProcesses(cap, s, l);
    case BeginVacuum(_, _) | EndVacuum(_) => VacuumKeepsProcesses(cap, s, l);
    case VacuumBlock(p) => VacuumBlockKeepsProcesses(cap, s, p);
    case LeaveNewPage | BeginScan(_, _) | ScanBlock(_) | EndScan(_) => ScanKeepsProcesses(cap, s, l);
  }

  lemma {:induction false} RunKeepsInv(cap: nat, s: State, ls: seq<Label>)
    requires cap >= 1 && Inv(cap, s) && IsRun(cap, s, ls)
    ensures Inv(cap, After(cap, s, ls))
    decreases |ls|
  {
    if ls != [] {
      StepKeepsInv(cap, s, ls[0]);
      RunKeepsInv(cap, Step(cap, s, ls[0]), ls[1..]);
    }
  }

  // ---------------------------------------------------------------- progress

  /** The process that takes the step. */
  function Actor(l: Label): Option<nat> {
    if l.LeaveNewPage? then None else Some(l.p)
  }

  lemma HolderCanStep(cap: nat, s: State, p: nat) returns (l: Label)
    requires cap >= 1 && Inv(cap, s) && p in s.procs && s.procs[p].Holding?
    ensures Enabled(cap, s, l) && Actor(l) == Some(p)
    ensures if s.procs[p].n < s.nEnd then l == AddToListed(p) else l == AddToFree(p, None)
  {
    assert ProcessOk(s, p);
    var n := s.procs[p].n;
    if n < s.nEnd {
      assert Block(s, s.notFull[n]);
      l := AddToListed(p);
    } else {
      l := AddToFree(p, None);
    }
  }

  /** Whatever has happened, some process with work to do can take a step: there is no deadlock. */
  lemma NoDeadlock(cap: nat, s: State, p: nat) returns (l: Label)
    requires cap >= 1 && Inv(cap, s) && p in s.procs && !s.procs[p].Idle?
    ensures Enabled(cap, s, l) && Actor(l).Some?
    ensures Actor(l).value in s.procs && !s.procs[Actor(l).value].Idle?
  {
    assert ProcessOk(s, p);
    if s.holder.Some? {
      l := HolderCanStep(cap, s, s.holder.value);
    } else {
      match s.procs[p]
      case Inserting(_) => l := PeekMeta(p);
      case TryingFirst(_, _) => l := AddToFirst(p);
      case Waiting(_, _) => l := LockMeta(p);
      case Vacuuming(_, npages, b, _) => l := if b < npages then VacuumBlock(p) else EndVacuum(p);
      case Scanning(_, npages, b, _) => l := if b < npages then ScanBlock(p) else EndScan(p);
    }
  }

  /** An inserter that holds the metapage places its tuple, once, and lets go, after trying each page still listed
      at most once and then a fresh one. */
  lemma {:induction false} HolderFinishes(cap: nat, s: State, p: nat) returns (ls: seq<Label>)
    requires cap >= 1 && Inv(cap, s) && p in s.procs && s.procs[p].Holding?
    ensures |ls| <= s.nEnd - s.procs[p].n + 1 && IsRun(cap, s, ls)
    ensures var s' := After(cap, s, ls);
            && p in s'.procs && s'.procs[p].Idle? && s'.holder.None?
            && s'.inserted == s.inserted + multiset{s.procs[p].t} && s'.removed == s.removed
    decreases s.nEnd - s.procs[p].n
  {
    assert ProcessOk(s, p);
    var l := HolderCanStep(cap, s, p);
    var s1 := Step(cap, s, l);
    StepKeepsInv(cap, s, l);
    if s1.procs[p].Idle? {
      ls := [l];
      assert ls[1..] == [];
      assert IsRun(cap, s1, []) && After(cap, s1, []) == s1;
    } else {
      var rest := HolderFinishes(cap, s1, p);
      ls := [l] + rest;
      assert ls[1..] == rest;
    }
  }

  function OwnSteps(ls: seq<Label>, p: nat): nat {
    if ls == [] then 0 else (if Actor(ls[0]) == Some(p) then 1 else 0) + OwnSteps(ls[1..], p)
  }

  lemma OthersLeaveHolder(cap: nat, s: State, p: nat, l: Label)
    requires cap >= 1 && Inv(cap, s) && p in s.procs && s.procs[p].Holding? && Enabled(cap, s, l) && Actor(l) != Some(p)
    ensures var s' := Step(cap, s, l); p in s'.procs && s'.procs[p] == s.procs[p] && s'.nEnd == s.nEnd
  {
    assert ProcessOk(s, p);
  }

  /** The k-th step of a run is p's own and the one that places its tuple and lets the metapage go. */
  predicate PlacesAt(cap: nat, s: State, p: nat, t: BloomTuple, ls: seq<Label>, k: nat)
    requires k < |ls|
  {
    && Actor(ls[k]) == Some(p) && IsRun(cap, s, ls[..k]) && IsRun(cap, s, ls[..k + 1])
    && var b, a := After(cap, s, ls[..k]), After(cap, s, ls[..k + 1]);
    && p in b.procs && b.procs[p].Holding? && b.procs[p].t == t
    && p in a.procs && a.procs[p].Idle? && a.holder.None?
    && a.inserted == b.inserted + multiset{t} && a.removed == b.removed
  }

  lemma {:induction false} PlacesNow(cap: nat, s: State, p: nat, ls: seq<Label>)
    requires ls != [] && Enabled(cap, s, ls[0]) && Actor(ls[0]) == Some(p) && p in s.procs && s.procs[p].Holding?
    requires Inv(cap, s) && Step(cap, s, ls[0]).procs[p].Idle?
    ensures PlacesAt(cap, s, p, s.procs[p].t, ls, 0) && OwnSteps(ls[..0], p) == 0
  {
    assert ls[..0] == [] && ls[..1] == [ls[0]] && ls[..1][1..] == [];
    assert IsRun(cap, Step(cap, s, ls[0]), []);
  }

  lemma {:induction false} PlacesLater(cap: nat, s: State, p: nat, t: BloomTuple, ls: seq<Label>, k: nat)
    requires k + 1 < |ls| && Enabled(cap, s, ls[0]) && PlacesAt(cap, Step(cap, s, ls[0]), p, t, ls[1..], k)
    ensures PlacesAt(cap, s, p, t, ls, k + 1)
    ensures OwnSteps(ls[..k + 1], p) == OwnSteps(ls[..1], p) + OwnSteps(ls[1..][..k], p)
  {
    assert ls[..k + 1][1..] == ls[1..][..k] && ls[..k + 2][1..] == ls[1..][..k + 1];
    assert ls[..1][1..] == [];
  }

  /** Whatever the others do in between: by the time a holder has had one step more than there are pages still listed,
      one of its steps has placed its tuple, once, and let the metapage go. */
  lemma {:induction false} HolderAlwaysFinishes(cap: nat, s: State, p: nat, ls: seq<Label>) returns (k: nat)
    requires cap >= 1 && Inv(cap, s) && p in s.procs && s.procs[p].Holding? && IsRun(cap, s, ls)
    requires OwnSteps(ls, p) > s.nEnd - s.procs[p].n
    ensures k < |ls| && PlacesAt(cap, s, p, s.procs[p].t, ls, k) && OwnSteps(ls[..k], p) <= s.nEnd - s.procs[p].n
    decreases |ls|
  {
    assert ProcessOk(s, p);
    var s1 := Step(cap, s, ls[0]);
    StepKeepsInv(cap, s, ls[0]);
    if Actor(ls[0]) != Some(p) {
      OthersLeaveHolder(cap, s, p, ls[0]);
    } else if s1.procs[p].Idle? {
      PlacesNow(cap, s, p, ls);
      return 0;
    }
    k := HolderAlwaysFinishes(cap, s1, p, ls[1..]);
    PlacesLater(cap, s, p, s.procs[p].t, ls, k);
    assert ls[..1][1..] == [];
    k := k + 1;
  }

  // ---------------------------------------------------------------- no tuple is lost or doubled

  /** How often x is on the first n pages. */
  function Copies(pages: seq<Page>, n: nat, x: BloomTuple): nat
    requires n <= |pages|
  {
    if n == 0 then 0 else Copies(pages, n - 1, x) + multiset(Items(pages[n - 1]))[x]
  }

  predicate Balanced(pages: seq<Page>, removed: multiset<BloomTuple>, inserted: multiset<BloomTuple>, x: BloomTuple) {
    Copies(pages, |pages|, x) + removed[x] == inserted[x]
  }

  /** Everything ever inserted is on a page or was vacuumed, counted exactly. */
  ghost predicate Conserved(s: State) {
    forall x :: Balanced(s.pages, s.removed, s.inserted, x)
  }

  lemma {:induction false} CopiesSame(pages: seq<Page>, pages': seq<Page>, n: nat, x: BloomTuple)
    requires n <= |pages| && n <= |pages'| && forall i :: 0 <= i < n ==> pages[i] == pages'[i]
    ensures Copies(pages, n, x) == Copies(pages', n, x)
  {
    if n > 0 {
      CopiesSame(pages, pages', n - 1, x);
    }
  }

  lemma {:induction false} CopiesUpdate(pages: seq<Page>, n: nat, b: nat, page: Page, x: BloomTuple)
    requires b < n <= |pages|
    ensures Copies(pages[b := page], n, x) + multiset(Items(pages[b]))[x]
            == Copies(pages, n, x) + multiset(Items(page))[x]
  {
    if b < n - 1 {
      CopiesUpdate(pages, n - 1, b, page, x);
    } else {
      CopiesSame(pages, pages[b := page], b, x);
    }
  }

  lemma PutConserves(cap: nat, s: State, b: nat, t: BloomTuple)
    requires Conserved(s) && b < |s.pages|
    ensures TryAdd(cap, s.pages[b], t).Some? ==> Conserved(Put(s, b, TryAdd(cap, s.pages[b], t).value, t))
  {
    if TryAdd(cap, s.pages[b], t).Some? {
      var page := TryAdd(cap, s.pages[b], t).value;
      var pages, inserted := s.pages[b := page], s.inserted + multiset{t};
      forall x ensures Balanced(pages, s.removed, inserted, x) {
        assert Balanced(s.pages, s.removed, s.inserted, x);
        CopiesUpdate(s.pages, |s.pages|, b, page, x);
      }
    }
  }

  lemma ExtendConserves(s: State)
    requires Conserved(s)
    ensures Conserved(s.(pages := s.pages + [New]))
  {
    forall x ensures Balanced(s.pages + [New], s.removed, s.inserted, x) {
      assert Balanced(s.pages, s.removed, s.inserted, x);
      CopiesSame(s.pages, s.pages + [New], |s.pages|, x);
    }
  }

  lemma FreeConserves(s: State, b: nat, t: BloomTuple)
    requires Conserved(s) && b < |s.pages| && Free(s.pages[b])
    ensures Conserved(Put(s, b, Live([t]), t))
  {
    var pages, inserted := s.pages[b := Live([t])], s.inserted + multiset{t};
    forall x ensures Balanced(pages, s.removed, inserted, x) {
      assert Balanced(s.pages, s.removed, s.inserted, x);
      CopiesUpdate(s.pages, |s.pages|, b, Live([t]), x);
    }
  }

  lemma {:induction false} VacuumPageItems(p: Page, dead: set<nat>)
    ensures Items(VacuumPage(p, dead)) == Keep(Items(p), dead)
  {
  }

  lemma VacuumConserves(s: State, b: nat, dead: set<nat>)
    requires Conserved(s) && b < |s.pages|
    ensures var page := VacuumPage(s.pages[b], dead);
            Conserved(s.(pages := s.pages[b := page],
                         removed := s.removed + (multiset(Items(s.pages[b])) - multiset(Items(page)))))
  {
    var page := VacuumPage(s.pages[b], dead);
    var gone := multiset(Items(s.pages[b])) - multiset(Items(page));
    var pages, removed := s.pages[b := page], s.removed + gone;
    VacuumPageItems(s.pages[b], dead);
    forall x ensures Balanced(pages, removed, s.inserted, x) {
      assert Balanced(s.pages, s.removed, s.inserted, x);
      KeepIs(Items(s.pages[b]), dead, x);
      CopiesUpdate(s.pages, |s.pages|, b, page, x);
    }
  }

  lemma StepConserves(cap: nat, s: State, l: Label)
    requires Conserved(s) && Enabled(cap, s, l)
    ensures Conserved(Step(cap, s, l))
  {
    match l
    case AddToFirst(p) => PutConserves(cap, s, s.procs[p].blk, s.procs[p].t);
    case AddToListed(p) => PutConserves(cap, s, s.notFull[s.procs[p].n], s.procs[p].t);
    case AddToFree(p, recycled) =>
      if recycled.Some? {
        FreeConserves(s, recycled.value, s.procs[p].t);
      } else {
        ExtendConserves(s);
        FreeConserves(s.(pages := s.pages + [New]), |s.pages|, s.procs[p].t);
      }
    case LeaveNewPage => ExtendConserves(s);
    case VacuumBlock(p) => VacuumConserves(s, s.procs[p].blk, s.procs[p].dead);
    case _ =>
  }

  /** In every interleaving the tuples on the pages are exactly those inserted and not vacuumed. */
  lemma {:induction false} RunConserves(cap: nat, s: State, ls: seq<Label>)
    requires Conserved(s) && IsRun(cap, s, ls)
    ensures Conserved(After(cap, s, ls))
    decreases |ls|
  {
    if ls != [] {
      StepConserves(cap, s, ls[0]);
      RunConserves(cap, Step(cap, s, ls[0]), ls[1..]);
    }
  }

  // ---------------------------------------------------------------- tuples do not move

  /** The step is a vacuum of block b that removes x. */
  predicate Condemns(s: State, l: Label, b: nat, x: BloomTuple) {
    l.VacuumBlock? && l.p in s.procs && s.procs[l.p].Vacuuming? && s.procs[l.p].blk == b && x.tid in s.procs[l.p].dead
  }

  predicate NeverCondemned(cap: nat, s: State, ls: seq<Label>, b: nat, x: BloomTuple)
    requires IsRun(cap, s, ls)
    decreases |ls|
  {
    ls == [] || (!Condemns(s, ls[0], b, x) && NeverCondemned(cap, Step(cap, s, ls[0]), ls[1..], b, x))
  }

  predicate On(s: State, b: nat, x: BloomTuple) {
    b < |s.pages| && x in Items(s.pages[b])
  }

  /** A tuple stays in its block until a vacuum of that block removes it; no reinitialisation, recycling or
      compaction loses it. */
  lemma StaysInBlock(cap: nat, s: State, l: Label, b: nat, x: BloomTuple)
    requires Enabled(cap, s, l) && On(s, b, x) && !Condemns(s, l, b, x)
    ensures On(Step(cap, s, l), b, x)
  {
    if l.VacuumBlock? && s.procs[l.p].blk == b {
      var dead := s.procs[l.p].dead;
      VacuumPageItems(s.pages[b], dead);
      KeepIs(s.pages[b].items, dead, x);
      assert x in multiset(s.pages[b].items);
      assert x in multiset(Keep(s.pages[b].items, dead));
    }
  }

  // ---------------------------------------------------------------- scans

  predicate ScanGoesOn(p: nat, ls: seq<Label>) {
    forall i :: 0 <= i < |ls| ==> ls[i] != EndScan(p)
  }

  lemma OthersUntouched(cap: nat, s: State, l: Label, p: nat)
    requires Enabled(cap, s, l) && p in s.procs && Actor(l) != Some(p)
    ensures p in Step(cap, s, l).procs && Step(cap, s, l).procs[p] == s.procs[p]
  {
  }

  lemma ScanStep(cap: nat, s: State, l: Label, p: nat)
    requires Enabled(cap, s, l) && p in s.procs && s.procs[p].Scanning? && l != EndScan(p)
    ensures var s' := Step(cap, s, l);
            && p in s'.procs && s'.procs[p].Scanning?
            && s'.procs[p].q == s.procs[p].q && s'.procs[p].npages == s.procs[p].npages
            && s.procs[p].found <= s'.procs[p].found
            && s'.procs[p].blk == (if l == ScanBlock(p) then s.procs[p].blk + 1 else s.procs[p].blk)
  {
    if Actor(l) != Some(p) {
      OthersUntouched(cap, s, l, p);
    } else {
      assert l == ScanBlock(p);
    }
  }

  lemma FoundWhenScanned(cap: nat, s: State, p: nat, x: BloomTuple)
    requires Enabled(cap, s, ScanBlock(p)) && On(s, s.procs[p].blk, x) && Superset(x.sign, s.procs[p].q)
    ensures x.tid in Step(cap, s, ScanBlock(p)).procs[p].found
  {
    var items := Items(s.pages[s.procs[p].blk]);
    var i :| 0 <= i < |items| && items[i] == x;
    assert x.tid in Matching(items, s.procs[p].q);
  }

  /** A scan under way, in any interleaving: a matching tuple in a block it has still to read, and not vacuumed
      meanwhile, is among its results once it has read that block. */
  lemma {:induction false} ScanFinds(cap: nat, s: State, ls: seq<Label>, p: nat, b: nat, x: BloomTuple)
    requires IsRun(cap, s, ls) && ScanGoesOn(p, ls)
    requires p in s.procs && s.procs[p].Scanning? && Superset(x.sign, s.procs[p].q)
    requires s.procs[p].blk <= b && On(s, b, x) && NeverCondemned(cap, s, ls, b, x)
    ensures var s' := After(cap, s, ls);
            p in s'.procs && s'.procs[p].Scanning? && (b < s'.procs[p].blk ==> x.tid in s'.procs[p].found)
    decreases |ls|
  {
    if ls != [] {
      var l := ls[0];
      var s1 := Step(cap, s, l);
      ScanStep(cap, s, l, p);
      StaysInBlock(cap, s, l, b, x);
      if l == ScanBlock(p) && s.procs[p].blk == b {
        FoundWhenScanned(cap, s, p, x);
        FoundIsKept(cap, s1, ls[1..], p, x.tid);
      } else {
        ScanFinds(cap, s1, ls[1..], p, b, x);
      }
    }
  }

  lemma {:induction false} FoundIsKept(cap: nat, s: State, ls: seq<Label>, p: nat, tid: nat)
    requires IsRun(cap, s, ls) && ScanGoesOn(p, ls)
    requires p in s.procs && s.procs[p].Scanning? && tid in s.procs[p].found
    ensures var s' := After(cap, s, ls); p in s'.procs && s'.procs[p].Scanning? && tid in s'.procs[p].found
    decreases |ls|
  {
    if ls != [] {
      ScanStep(cap, s, ls[0], p);
      FoundIsKept(cap, Step(cap, s, ls[0]), ls[1..], p, tid);
    }
  }

  /** A scan's results are tuples that were inserted and pass its signature test. */
  ghost predicate FoundSound(s: State, p: nat)
    requires p in s.procs
  {
    s.procs[p].Scanning? ==>
      forall tid :: tid in s.procs[p].found ==> exists x :: Explains(x, s.inserted, s.procs[p].q, tid)
  }

  lemma {:induction false} CopiesItem(pages: seq<Page>, n: nat, x: BloomTuple)
    requires n <= |pages|
    ensures Copies(pages, n, x) > 0 <==> exists b :: 0 <= b < n && x in Items(pages[b])
  {
    if n > 0 {
      CopiesItem(pages, n - 1, x);
      assert x in Items(pages[n - 1]) <==> x in multiset(Items(pages[n - 1]));
    }
  }

  predicate Explains(x: BloomTuple, inserted: multiset<BloomTuple>, q: Signature, tid: nat) {
    x in inserted && x.tid == tid && Superset(x.sign, q)
  }

  lemma StepKeepsFoundSound(cap: nat, s: State, l: Label, p: nat)
    requires Enabled(cap, s, l) && Conserved(s) && p in s.procs && FoundSound(s, p)
    ensures p in Step(cap, s, l).procs && FoundSound(Step(cap, s, l), p)
  {
    if l == ScanBlock(p) {
      var Scanning(q, _, b, _) := s.procs[p];
      var items := Items(s.pages[b]);
      forall tid | tid in Matching(items, q)
        ensures exists x :: Explains(x, s.inserted, q, tid)
      {
        var i :| 0 <= i < |items| && Superset(items[i].sign, q) && items[i].tid == tid;
        CopiesItem(s.pages, |s.pages|, items[i]);
        assert Balanced(s.pages, s.removed, s.inserted, items[i]);
        assert Explains(items[i], s.inserted, q, tid);
      }
    } else {
      InsertedGrows(cap, s, l);
      ScanUntouched(cap, s, l, p);
      var s' := Step(cap, s, l);
      if s'.procs[p].Scanning? && s.procs[p].Scanning? {
        forall tid | tid in s'.procs[p].found
          ensures exists x :: Explains(x, s'.inserted, s'.procs[p].q, tid)
        {
          var x :| Explains(x, s.inserted, s.procs[p].q, tid);
          assert Explains(x, s'.inserted, s'.procs[p].q, tid);
        }
      }
    }
  }

  lemma InsertedGrows(cap: nat, s: State, l: Label)
    requires Enabled(cap, s, l)
    ensures s.inserted <= Step(cap, s, l).inserted
  {
  }

  lemma ScanUntouched(cap: nat, s: State, l: Label, p: nat)
    requires Enabled(cap, s, l) && p in s.procs && l != ScanBlock(p)
    ensures var s' := Step(cap, s, l);
            p in s'.procs && (s'.procs[p].Scanning? ==> s'.procs[p] == s.procs[p] || s'.procs[p].found == {})
  {
    if Actor(l) != Some(p) {
      OthersUntouched(cap, s, l, p);
    } else if l.BeginScan? {
      assert Step(cap, s, l).procs[p].found == {};
    }
  }

  /** In every interleaving, whatever a scan has found was inserted and passes the scan's signature test. */
  lemma {:induction false} RunKeepsFoundSound(cap: nat, s: State, ls: seq<Label>, p: nat)
    requires IsRun(cap, s, ls) && Conserved(s) && p in s.procs && FoundSound(s, p)
    ensures p in After(cap, s, ls).procs && FoundSound(After(cap, s, ls), p)
    decreases |ls|
  {
    if ls != [] {
      StepConserves(cap, s, ls[0]);
      StepKeepsFoundSound(cap, s, ls[0], p);
      RunKeepsFoundSound(cap, Step(cap, s, ls[0]), ls[1..], p);
    }
  }

  // ---------------------------------------------------------------- whole runs

  lemma {:induction false} ScanKeepsRange(cap: nat, s: State, ls: seq<Label>, p: nat)
    requires IsRun(cap, s, ls) && ScanGoesOn(p, ls) && p in s.procs && s.procs[p].Scanning?
    ensures var s' := After(cap, s, ls);
            p in s'.procs && s'.procs[p].Scanning? && s'.procs[p].npages == s.procs[p].npages
    decreases |ls|
  {
    if ls != [] {
      ScanStep(cap, s, ls[0], p);
      ScanKeepsRange(cap, Step(cap, s, ls[0]), ls[1..], p);
    }
  }

  predicate ScanDone(s: State, p: nat) {
    p in s.procs && s.procs[p].Scanning? && s.procs[p].blk == s.procs[p].npages
  }

  /** A scan that runs to its last block in any interleaving returns the row of every tuple on the index when it
      began whose columns equal its keys, unless a vacuum removed it before the scan read its block. */
  lemma {:induction false} NoRowMissed(c: Config, s: State, ls: seq<Label>, p: nat, keys: seq<ScanKey>, row: Row,
                                       tid: nat, b: nat)
    requires RowOk(c, row) && KeysOk(c, keys) && RowEquals(row, keys)
    requires Inv(Capacity(c), s) && On(s, b, BloomTuple(tid, TupleSign(c, row)))
    requires Enabled(Capacity(c), s, BeginScan(p, ScanSign(c, keys)))
    requires var s1 := Step(Capacity(c), s, BeginScan(p, ScanSign(c, keys)));
             && IsRun(Capacity(c), s1, ls) && ScanGoesOn(p, ls) && ScanDone(After(Capacity(c), s1, ls), p)
             && NeverCondemned(Capacity(c), s1, ls, b, BloomTuple(tid, TupleSign(c, row)))
    ensures tid in After(Capacity(c), Step(Capacity(c), s, BeginScan(p, ScanSign(c, keys))), ls).procs[p].found
  {
    var s1 := Step(Capacity(c), s, BeginScan(p, ScanSign(c, keys)));
    MatchingRowPasses(c, row, keys);
    assert b != 0;
    ScanFinds(Capacity(c), s1, ls, p, b, BloomTuple(tid, TupleSign(c, row)));
    ScanKeepsRange(Capacity(c), s1, ls, p);
  }

  /** Over whole runs: a row inserted more often than it was vacuumed is on some page at any later time, and
      nothing is on a page otherwise. */
  lemma {:induction false} LiveOnSomePage(cap: nat, s: State, ls: seq<Label>, x: BloomTuple)
    requires Conserved(s) && IsRun(cap, s, ls)
    ensures var s' := After(cap, s, ls);
            s'.inserted[x] > s'.removed[x] <==> exists b :: On(s', b, x)
  {
    RunConserves(cap, s, ls);
    var s' := After(cap, s, ls);
    assert Balanced(s'.pages, s'.removed, s'.inserted, x);
    CopiesItem(s'.pages, |s'.pages|, x);
    forall b | 0 <= b < |s'.pages| && x in Items(s'.pages[b])
      ensures On(s', b, x)
    {
    }
  }

  /** No false negatives over whole runs: after any interleaving, a row inserted more often than it was vacuumed is
      returned by every completed scan whose keys it equals, if no vacuum removes it while the scan runs. */
  lemma {:induction false} LiveRowFound(c: Config, s0: State, before: seq<Label>, ls: seq<Label>, p: nat,
                                        keys: seq<ScanKey>, row: Row, tid: nat)
    requires RowOk(c, row) && KeysOk(c, keys) && RowEquals(row, keys) && Capacity(c) >= 1
    requires Inv(Capacity(c), s0) && Conserved(s0) && IsRun(Capacity(c), s0, before)
    requires var s, x := After(Capacity(c), s0, before), BloomTuple(tid, TupleSign(c, row));
             && s.inserted[x] > s.removed[x] && Enabled(Capacity(c), s, BeginScan(p, ScanSign(c, keys)))
             && var s1 := Step(Capacity(c), s, BeginScan(p, ScanSign(c, keys)));
                && IsRun(Capacity(c), s1, ls) && ScanGoesOn(p, ls) && ScanDone(After(Capacity(c), s1, ls), p)
                && forall b :: On(s, b, x) ==> NeverCondemned(Capacity(c), s1, ls, b, x)
    ensures var s := After(Capacity(c), s0, before);
            tid in After(Capacity(c), Step(Capacity(c), s, BeginScan(p, ScanSign(c, keys))), ls).procs[p].found
  {
    var x := BloomTuple(tid, TupleSign(c, row));
    var s := After(Capacity(c), s0, before);
    RunKeepsInv(Capacity(c), s0, before);
    LiveOnSomePage(Capacity(c), s0, before, x);
    var b :| On(s, b, x);
    NoRowMissed(c, s, ls, p, keys, row, tid, b);
  }

  // ---------------------------------------------------------------- page code against the machine

  ghost function View(buf: PageBuffer): Page
    requires buf.Valid()
    reads buf, buf.slots
  {
    if buf.zeroed then New else if buf.deleted then Deleted else Live(buf.Contents())
  }

  /** What blinsert does with a page it has locked. */
  method AddToPage(buf: PageBuffer, t: BloomTuple) returns (ok: bool)
    requires ValidConfig(buf.c) && buf.Valid()
    modifies buf, buf.slots
    ensures buf.Valid()
    ensures ok == TryAdd(Capacity(buf.c), old(View(buf)), t).Some?
    ensures View(buf) == if ok then TryAdd(Capacity(buf.c), old(View(buf)), t).value else old(View(buf))
  {
    EmptyPageFits(buf.c);
    if buf.zeroed || buf.deleted {
      buf.Init();
    }
    ok := buf.AddItem(t);
  }

  /** What blbulkdelete does with a page it has locked. */
  method VacuumBuffer(buf: PageBuffer, dead: set<nat>) returns (removed: nat)
    requires buf.Valid()
    modifies buf, buf.slots
    ensures buf.Valid() && View(buf) == VacuumPage(old(View(buf)), dead)
    ensures removed + |Items(View(buf))| == |Items(old(View(buf)))|
  {
    removed := 0;
    if !buf.zeroed && !buf.deleted {
      removed := buf.Compact(dead);
    }
  }

  // ---------------------------------------------------------------- building

  function Flat(pages: seq<Page>): seq<BloomTuple> {
    if pages == [] then [] else Flat(pages[..|pages| - 1]) + Items(pages[|pages| - 1])
  }

  predicate AllFull(cap: nat, pages: seq<Page>) {
    && |pages| >= 1 && pages[0].Meta?
    && forall b :: 1 <= b < |pages| ==> pages[b].Live? && |pages[b].items| == cap
  }

  /** The build state: the file so far and the cached page. */
  class Builder {
    const cache: PageBuffer
    var pages: seq<Page>
    var count: nat
    var indtuples: nat

    ghost predicate Valid()
      reads this, cache, cache.slots
    {
      && ValidConfig(cache.c) && cache.Valid() && !cache.deleted && !cache.zeroed && count == cache.maxoff
      && AllFull(Capacity(cache.c), pages)
      && indtuples == |Flat(pages)| + count
    }

    /** The tuples given so far, in order. */
    ghost function Given(): seq<BloomTuple>
      requires Valid()
      reads this, cache, cache.slots
    {
      Flat(pages) + cache.Contents()
    }

    constructor (c: Config, blank: BloomTuple)
      requires ValidConfig(c)
      ensures Valid() && fresh(cache) && fresh(cache.slots) && cache.c == c && Given() == []
    {
      cache := new PageBuffer(c, blank);
      pages, count, indtuples := [Meta], 0, 0;
      new;
      assert pages[..0] == [];
    }

    /** flushCachedPage. */
    method Flush()
      requires Valid()
      modifies this`pages
      ensures pages == old(pages) + [Live(cache.Contents())]
      ensures Flat(pages) == old(Given())
    {
      ghost var was := pages;
      pages := pages + [Live(cache.slots[..cache.maxoff])];
      assert pages[..|was|] == was;
    }

    method NextPage()
      requires Valid() && count == Capacity(cache.c)
      modifies this`pages, this`count, cache
      ensures Valid() && Given() == old(Given()) && count == 0 && indtuples == old(indtuples)
    {
      Flush();
      cache.Init();
      count := 0;
    }

    /** bloomBuildCallback: one of the two page additions always succeeds. */
    method AddTuple(t: BloomTuple)
      requires Valid()
      modifies this`pages, this`count, this`indtuples, cache, cache.slots
      ensures Valid() && Given() == old(Given()) + [t] && count > 0
    {
      EmptyPageFits(cache.c);
      var ok := cache.AddItem(t);
      if !ok {
        NextPage();
        ok := cache.AddItem(t);
        assert ok;
      }
      count := count + 1;
      indtuples := indtuples + 1;
    }

    method AddRow(gen: Generator, tid: nat, row: Row)
      requires Valid() && RowOk(cache.c, row)
      modifies gen, this`pages, this`count, this`indtuples, cache, cache.slots
      ensures Valid() && Given() == old(Given()) + [BloomTuple(tid, TupleSign(cache.c, row))]
    {
      var sign := FormTuple(cache.c, gen, row);
      AddTuple(BloomTuple(tid, sign[..]));
    }

    /** blbuild's last flush: the file holds the tuples given, in order, on full pages but the last. */
    method Finish()
      requires Valid()
      modifies this`pages
      ensures Flat(pages) == old(Given()) && indtuples == |Flat(pages)|
      ensures |pages| >= 1 && pages[0].Meta?
      ensures forall b :: 1 <= b < |pages| ==> PageOk(Capacity(cache.c), pages[b])
    {
      EmptyPageFits(cache.c);
      if count > 0 {
        Flush();
      }
    }
  }

  predicate RowsOk(c: Config, rows: seq<(nat, Row)>) {
    ValidConfig(c) && forall i :: 0 <= i < |rows| ==> RowOk(c, rows[i].1)
  }

  function Formed(c: Config, rows: seq<(nat, Row)>): seq<BloomTuple>
    requires RowsOk(c, rows)
  {
    seq(|rows|, i requires 0 <= i < |rows| => BloomTuple(rows[i].0, TupleSign(c, rows[i].1)))
  }

  lemma FormedIs(c: Config, rows: seq<(nat, Row)>) returns (want: seq<BloomTuple>)
    requires RowsOk(c, rows)
    ensures want == Formed(c, rows) && |want| == |rows|
    ensures forall i :: 0 <= i < |rows| ==> want[i] == BloomTuple(rows[i].0, TupleSign(c, rows[i].1))
  {
    want := Formed(c, rows);
  }

  /** blbuild over the rows of the heap scan. */
  method Build(c: Config, gen: Generator, rows: seq<(nat, Row)>) returns (pages: seq<Page>)
    requires RowsOk(c, rows)
    modifies gen
    ensures Flat(pages) == Formed(c, rows)
    ensures |pages| >= 1 && pages[0].Meta? && forall b :: 1 <= b < |pages| ==> PageOk(Capacity(c), pages[b])
  {
    var builder := new Builder(c, BloomTuple(0, []));
    AddRows(builder, gen, rows);
    builder.Finish();
    pages := builder.pages;
  }

  method AddNext(builder: Builder, gen: Generator, row: (nat, Row), ghost want: seq<BloomTuple>, ghost i: nat)
    requires builder.Valid() && RowOk(builder.cache.c, row.1) && i < |want| && builder.Given() == want[..i]
    requires want[i] == BloomTuple(row.0, TupleSign(builder.cache.c, row.1))
    modifies gen, builder, builder.cache, builder.cache.slots
    ensures builder.Valid() && builder.Given() == want[..i + 1]
  {
    builder.AddRow(gen, row.0, row.1);
    assert want[..i + 1] == want[..i] + [want[i]];
  }

  method AddRows(builder: Builder, gen: Generator, rows: seq<(nat, Row)>)
    requires builder.Valid() && RowsOk(builder.cache.c, rows) && builder.Given() == []
    modifies gen, builder, builder.cache, builder.cache.slots
    ensures builder.Valid() && builder.Given() == Formed(builder.cache.c, rows)
  {
    ghost var want := FormedIs(builder.cache.c, rows);
    for i := 0 to |rows|
      invariant builder.Valid() && builder.Given() == want[..i]
    {
      AddNext(builder, gen, rows[i], want, i);
    }
    assert want[..|rows|] == want;
  }

  /** The tuple loop of blgetbitmap on one page. */
  method ScanPage(items: seq<BloomTuple>, q: Signature, length: nat) returns (found: set<nat>)
    requires |q| == WORD_BITS * length && forall i :: 0 <= i < |items| ==> |items[i].sign| == |q|
    ensures found == Matching(items, q)
  {
    found := {};
    for i := 0 to |items|
      invariant found == Matching(items[..i], q)
    {
      var ok := SignatureMatches(items[i].sign, q, length);
      if ok {
        found := found + {items[i].tid};
      }
      MatchingNext(items, q, i);
    }
    assert items[..|items|] == items;
  }

  lemma MatchingNext(items: seq<BloomTuple>, q: Signature, i: nat)
    requires i < |items|
    ensures Matching(items[..i + 1], q)
            == Matching(items[..i], q) + if Superset(items[i].sign, q) then {items[i].tid} else {}
  {
    forall tid
      ensures tid in Matching(items[..i + 1], q)
              <==> tid in Matching(items[..i], q) || (Superset(items[i].sign, q) && items[i].tid == tid)
    {
      if tid in Matching(items[..i], q) {
        var j :| 0 <= j < i && Superset(items[..i][j].sign, q) && items[..i][j].tid == tid;
        assert items[..i + 1][j] == items[..i][j];
      }
      if Superset(items[i].sign, q) && items[i].tid == tid {
        assert items[..i + 1][i] == items[i];
      }
    }
  }

  /** The machine's state after a build. */
  ghost function Built(pages: seq<Page>, notFull: seq<nat>, procs: set<nat>): State {
    State(pages, 0, 0, notFull, None, map p | p in procs :: Idle, multiset(Flat(pages)), multiset{})
  }

  lemma {:induction false} FlatCopies(pages: seq<Page>, x: BloomTuple)
    ensures Copies(pages, |pages|, x) == multiset(Flat(pages))[x]
  {
    if pages != [] {
      var n := |pages| - 1;
      FlatCopies(pages[..n], x);
      CopiesSame(pages, pages[..n], n, x);
    }
  }

  /** A build starts every run in the invariant, with its tuples accounted for. */
  lemma BuiltIsInitial(cap: nat, pages: seq<Page>, notFull: seq<nat>, procs: set<nat>)
    requires |pages| >= 1 && pages[0].Meta? && (forall b :: 1 <= b < |pages| ==> PageOk(cap, pages[b]))
    requires |notFull| == META_BLOCKS
    ensures Inv(cap, Built(pages, notFull, procs)) && Conserved(Built(pages, notFull, procs))
  {
    var s := Built(pages, notFull, procs);
    forall x ensures Balanced(s.pages, s.removed, s.inserted, x) {
      FlatCopies(pages, x);
    }
  }
}
