/** A finished vacuum of the bloom index is complete (contrib/bloom/blvacuum.c): whatever else goes on meanwhile, none
    of the rows it was to remove is left on any page. */
module BloomVacuum {
  import opened BloomIndex
  import opened BloomPage
  import opened Options

  /** No tuple on the page belongs to a dead row. */
  predicate Clean(page: Page, dead: set<nat>) {
    forall x :: x in Items(page) ==> x.tid !in dead
  }

  /** A vacuum has cleaned the blocks before b, and those added since it began never held anything to clean. */
  predicate Swept(pages: seq<Page>, dead: set<nat>, npages: nat, b: nat) {
    forall i :: 0 <= i < |pages| && (i < b || npages <= i) ==> Clean(pages[i], dead)
  }

  /** No tuple of a dead row is inserted from s to s'. */
  ghost predicate NoneAdded(s: State, s': State, dead: set<nat>) {
    forall x: BloomTuple :: x.tid in dead ==> s'.inserted[x] == s.inserted[x]
  }

  lemma VacuumCleans(page: Page, dead: set<nat>)
    ensures Clean(VacuumPage(page, dead), dead)
  {
    var page' := VacuumPage(page, dead);
    forall x | x in Items(page')
      ensures x.tid !in dead
    {
      KeepIs(page.items, dead, x);
      assert multiset(page'.items)[x] > 0;
    }
  }

  lemma VacuumKeepsClean(page: Page, dead: set<nat>, others: set<nat>)
    requires Clean(page, dead)
    ensures Clean(VacuumPage(page, others), dead)
  {
    var page' := VacuumPage(page, others);
    forall x | x in Items(page')
      ensures x in Items(page)
    {
      KeepIs(page.items, others, x);
      assert multiset(page'.items)[x] > 0;
      assert x in multiset(page.items);
    }
  }

  lemma AddKeepsClean(cap: nat, page: Page, t: BloomTuple, dead: set<nat>)
    requires Clean(page, dead) && t.tid !in dead && TryAdd(cap, page, t).Some?
    ensures Clean(TryAdd(cap, page, t).value, dead)
  {
  }

  /** The tuple a step adds, if it does, is not of a dead row. */
  lemma AddedIsLive(s: State, s': State, t: BloomTuple, dead: set<nat>)
    requires NoneAdded(s, s', dead) && s'.inserted == s.inserted + multiset{t}
    ensures t.tid !in dead
  {
    assert s'.inserted[t] == s.inserted[t] + 1;
  }

  /** Changing one block keeps the others swept. */
  lemma SweptUpdate(pages: seq<Page>, dead: set<nat>, npages: nat, b: nat, i: nat, page: Page)
    requires Swept(pages, dead, npages, b) && i < |pages|
    requires Clean(pages[i], dead) && (i < b || npages <= i) ==> Clean(page, dead)
    ensures Swept(pages[i := page], dead, npages, b)
  {
  }

  lemma SweptExtend(pages: seq<Page>, dead: set<nat>, npages: nat, b: nat)
    requires Swept(pages, dead, npages, b)
    ensures Swept(pages + [New], dead, npages, b)
  {
  }

  lemma InsertKeepsSwept(cap: nat, s: State, l: Label, dead: set<nat>, npages: nat, b: nat)
    requires cap >= 1 && Inv(cap, s) && Enabled(cap, s, l) && Swept(s.pages, dead, npages, b)
    requires NoneAdded(s, Step(cap, s, l), dead) && (l.AddToFirst? || l.AddToListed? || l.AddToFree?)
    ensures Swept(Step(cap, s, l).pages, dead, npages, b)
  {
    var s', t := Step(cap, s, l), s.procs[l.p].t;
    if l.AddToFree? {
      AddedIsLive(s, s', t, dead);
      SweptExtend(s.pages, dead, npages, b);
      var pages := if l.recycled.Some? then s.pages else s.pages + [New];
      SweptUpdate(pages, dead, npages, b, if l.recycled.Some? then l.recycled.value else |s.pages|, Live([t]));
    } else {
      var i := if l.AddToFirst? then s.procs[l.p].blk else s.notFull[s.procs[l.p].n];
      var added := TryAdd(cap, s.pages[i], t);
      if added.Some? {
        AddedIsLive(s, s', t, dead);
        if Clean(s.pages[i], dead) {
          AddKeepsClean(cap, s.pages[i], t, dead);
        }
        SweptUpdate(s.pages, dead, npages, b, i, added.value);
      }
    }
  }

  lemma VacuumKeepsSwept(cap: nat, s: State, q: nat, dead: set<nat>, npages: nat, b: nat)
    requires Enabled(cap, s, VacuumBlock(q)) && Swept(s.pages, dead, npages, b)
    ensures Swept(Step(cap, s, VacuumBlock(q)).pages, dead, npages, b)
  {
    var i, others := s.procs[q].blk, s.procs[q].dead;
    if Clean(s.pages[i], dead) {
      VacuumKeepsClean(s.pages[i], dead, others);
    }
    SweptUpdate(s.pages, dead, npages, b, i, VacuumPage(s.pages[i], others));
  }

  /** The vacuum's own step on block b. */
  lemma VacuumSweepsBlock(cap: nat, s: State, p: nat)
    requires Enabled(cap, s, VacuumBlock(p)) && var v := s.procs[p]; Swept(s.pages, v.dead, v.npages, v.blk)
    ensures var v := s.procs[p]; Swept(Step(cap, s, VacuumBlock(p)).pages, v.dead, v.npages, v.blk + 1)
  {
    var v := s.procs[p];
    VacuumKeepsSwept(cap, s, p, v.dead, v.npages, v.blk);
    VacuumCleans(s.pages[v.blk], v.dead);
  }

  /** p is still at the vacuum of these rows and has swept as far as it has come. */
  predicate Sweeping(s: State, p: nat, dead: set<nat>) {
    && p in s.procs && s.procs[p].Vacuuming? && s.procs[p].dead == dead
    && Swept(s.pages, dead, s.procs[p].npages, s.procs[p].blk)
  }

  lemma StepKeepsSweeping(cap: nat, s: State, l: Label, p: nat, dead: set<nat>)
    requires cap >= 1 && Inv(cap, s) && Enabled(cap, s, l) && l != EndVacuum(p) && Sweeping(s, p, dead)
    requires NoneAdded(s, Step(cap, s, l), dead)
    ensures Sweeping(Step(cap, s, l), p, dead)
  {
    var npages, b := s.procs[p].npages, s.procs[p].blk;
    match l
    case VacuumBlock(q) =>
      if q == p {
        VacuumSweepsBlock(cap, s, p);
      } else {
        VacuumKeepsSwept(cap, s, q, dead, npages, b);
      }
    case AddToFirst(_) => InsertKeepsSwept(cap, s, l, dead, npages, b);
    case AddToListed(_) => InsertKeepsSwept(cap, s, l, dead, npages, b);
    case AddToFree(_, _) => InsertKeepsSwept(cap, s, l, dead, npages, b);
    case LeaveNewPage => SweptExtend(s.pages, dead, npages, b);
    case _ =>
  }

  lemma StepInserts(cap: nat, s: State, l: Label, x: BloomTuple)
    requires Enabled(cap, s, l)
    ensures s.inserted[x] <= Step(cap, s, l).inserted[x]
  {
  }

  lemma {:induction false} RunInserts(cap: nat, s: State, ls: seq<Label>, x: BloomTuple)
    requires IsRun(cap, s, ls)
    ensures s.inserted[x] <= After(cap, s, ls).inserted[x]
    decreases |ls|
  {
    if ls != [] {
      StepInserts(cap, s, ls[0], x);
      RunInserts(cap, Step(cap, s, ls[0]), ls[1..], x);
    }
  }

  lemma {:induction false} RunKeepsSweeping(cap: nat, s: State, ls: seq<Label>, p: nat, dead: set<nat>)
    requires cap >= 1 && Inv(cap, s) && IsRun(cap, s, ls) && EndVacuum(p) !in ls && Sweeping(s, p, dead)
    requires NoneAdded(s, After(cap, s, ls), dead)
    ensures Sweeping(After(cap, s, ls), p, dead)
    decreases |ls|
  {
    if ls != [] {
      var s1, s2 := Step(cap, s, ls[0]), After(cap, s, ls);
      forall x: BloomTuple | x.tid in dead
        ensures s1.inserted[x] == s.inserted[x] == s2.inserted[x]
      {
        StepInserts(cap, s, ls[0], x);
        RunInserts(cap, s1, ls[1..], x);
      }
      assert ls[0] in ls;
      StepKeepsSweeping(cap, s, ls[0], p, dead);
      StepKeepsInv(cap, s, ls[0]);
      RunKeepsSweeping(cap, s1, ls[1..], p, dead);
    }
  }

  /** In every interleaving: when a vacuum is about to end, no page holds a tuple of a row it was to remove, provided
      none was inserted since it began. */
  lemma {:induction false} VacuumIsComplete(cap: nat, s: State, p: nat, dead: set<nat>, ls: seq<Label>)
    requires cap >= 1 && Inv(cap, s) && Enabled(cap, s, BeginVacuum(p, dead))
    requires IsRun(cap, Step(cap, s, BeginVacuum(p, dead)), ls) && EndVacuum(p) !in ls
    requires var s' := After(cap, Step(cap, s, BeginVacuum(p, dead)), ls);
             Enabled(cap, s', EndVacuum(p)) && NoneAdded(s, s', dead)
    ensures var s' := After(cap, Step(cap, s, BeginVacuum(p, dead)), ls);
            forall b :: 0 <= b < |s'.pages| ==> Clean(s'.pages[b], dead)
  {
    var s1 := Step(cap, s, BeginVacuum(p, dead));
    StepKeepsInv(cap, s, BeginVacuum(p, dead));
    assert s.pages[0].Meta?;
    RunKeepsSweeping(cap, s1, ls, p, dead);
  }
}
