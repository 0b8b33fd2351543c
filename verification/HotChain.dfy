/** Update chains on a heap page (the three passes of verify_heapam in contrib/amcheck/verify_heapam.c). */
module HotChain {
  const BLCKSZ: nat := 8192
  const MIN_TUPLE: nat := 24

  datatype Status = Committed | IsCurrent | InProgress | Aborted

  /** A tuple header, with what the checker learns about it elsewhere: whether the status of its xmin is known
      (`known`), that status, whether xmin still runs when asked again, and whether check_tuple was silent. */
  datatype Header = Header(ctidBlock: nat, ctidOffset: nat, xmin: nat, updateXid: nat, hotUpdated: bool,
                           heapOnly: bool, known: bool, status: Status, runsStill: bool, clean: bool)

  datatype Item = Unused | Dead | Redirect(to: nat) | Normal(offset: nat, length: nat, header: Header)

  /** A page: its block number and line pointers, numbered from one; position zero is unused. */
  datatype Page = Page(block: nat, items: seq<Item>) {
    predicate Valid() {
      items != []
    }

    predicate Has(i: nat) {
      1 <= i < |items|
    }
  }

  datatype Report = BadItem(at: nat) | BadLink(at: nat, to: nat) | HeapOnlyRoot(at: nat)

  // ---------------------------------------------------------------- what the page says

  predicate Aligned(item: Item)
    requires item.Normal?
  {
    item.offset % 8 == 0 && item.length >= MIN_TUPLE && item.offset + item.length <= BLCKSZ
  }

  predicate GoodRedirect(p: Page, i: nat)
    requires p.Has(i) && p.items[i].Redirect?
  {
    p.Has(p.items[i].to) && p.items[p.items[i].to].Normal?
  }

  /** The line pointer passed the checks that make it safe to look at. */
  predicate Usable(p: Page, i: nat) {
    && p.Has(i)
    && match p.items[i]
       case Redirect(_) => GoodRedirect(p, i)
       case Normal(_, _, _) => Aligned(p.items[i])
       case _ => false
  }

  predicate ItemOk(p: Page, i: nat)
    requires p.Has(i)
  {
    match p.items[i]
    case Redirect(_) => GoodRedirect(p, i)
    case Normal(_, _, h) => Aligned(p.items[i]) && h.clean
    case _ => true
  }

  predicate IsTuple(p: Page, i: nat) {
    Usable(p, i) && p.items[i].Normal?
  }

  predicate Known(p: Page, i: nat) {
    IsTuple(p, i) && p.items[i].header.known
  }

  function StatusOf(p: Page, i: nat): Status
    requires IsTuple(p, i)
  {
    p.items[i].header.status
  }

  /** The line pointer a usable one points to on its own page; zero for none. */
  function Successor(p: Page, i: nat): nat
    requires p.Has(i)
  {
    if !Usable(p, i) then 0
    else
      match p.items[i]
      case Redirect(to) => to
      case Normal(_, _, h) =>
        if h.ctidBlock == p.block && h.ctidOffset != i && p.Has(h.ctidOffset) then h.ctidOffset else 0
      case _ => 0
  }

  /** The next member of the update chain of i; zero for none. */
  function Next(p: Page, i: nat): (j: nat)
    requires p.Has(i)
    ensures j != 0 ==> IsTuple(p, j)
  {
    var j := Successor(p, i);
    if j == 0 || !Usable(p, j) then 0
    else if p.items[i].Redirect? then j
    else if p.items[j].Redirect? then 0
    else
      var h := p.items[i].header;
      if h.updateXid == 0 || h.updateXid != p.items[j].header.xmin then 0 else j
  }

  predicate Linked(p: Page, i: nat, j: nat) {
    p.Has(i) && j != 0 && Next(p, i) == j
  }

  /** What a link must satisfy. */
  predicate LinkOk(p: Page, i: nat, j: nat)
    requires Linked(p, i, j)
  {
    var t := p.items[j].header;
    if p.items[i].Redirect? then t.heapOnly
    else
      var h := p.items[i].header;
      && (h.hotUpdated <==> t.heapOnly)
      && !(h.known && h.status.InProgress? && t.known && t.status.Committed? && h.runsStill)
      && !(h.known && h.status.Aborted? && t.known && (t.status.InProgress? || t.status.Committed?))
  }

  ghost predicate HasPredecessor(p: Page, j: nat) {
    exists i :: Linked(p, i, j)
  }

  predicate MayBeRoot(p: Page, j: nat) {
    Known(p, j) && (StatusOf(p, j).Committed? || StatusOf(p, j).InProgress?) ==> !p.items[j].header.heapOnly
  }

  /** Chains do not intersect. */
  ghost predicate Disjoint(p: Page) {
    forall i, k, j :: Linked(p, i, j) && Linked(p, k, j) ==> i == k
  }

  ghost predicate Sound(p: Page) {
    && (forall i :: p.Has(i) ==> ItemOk(p, i))
    && Disjoint(p)
    && (forall i, j :: Linked(p, i, j) ==> LinkOk(p, i, j))
    && (forall j :: p.Has(j) && !HasPredecessor(p, j) ==> MayBeRoot(p, j))
  }

  // ---------------------------------------------------------------- the checker

  /** The working arrays of one page, all indexed by line pointer. */
  class Chains {
    const p: Page
    const usable: array<bool>
    const known: array<bool>
    const status: array<Status>
    const successor: array<nat>
    const predecessor: array<nat>
    var reports: seq<Report>

    ghost predicate Shape() {
      && p.Valid()
      && usable.Length == known.Length == status.Length == successor.Length == predecessor.Length == |p.items|
      && usable != known && successor != predecessor
    }

    /** The arrays filled by the first pass say what the page says, below n. */
    ghost predicate Filled(n: nat)
      requires Shape()
      reads usable, known, status, successor
    {
      forall i: nat :: 1 <= i < n && i < |p.items| ==>
        && usable[i] == Usable(p, i) && known[i] == Known(p, i) && successor[i] == Successor(p, i)
        && (known[i] ==> status[i] == StatusOf(p, i))
    }

    /** The predecessors recorded are those of the links out of items below n. */
    ghost predicate Recorded(n: nat)
      requires Shape()
      reads predecessor
    {
      forall j: nat :: 1 <= j < |p.items| ==>
        && (predecessor[j] != 0 ==> predecessor[j] < n && Linked(p, predecessor[j], j))
        && (predecessor[j] == 0 ==> forall i: nat :: i < n ==> !Linked(p, i, j))
    }

    constructor (p: Page)
      requires p.Valid()
      ensures Shape() && this.p == p && reports == [] && Filled(1) && Recorded(1)
      ensures fresh(usable) && fresh(known) && fresh(status) && fresh(successor) && fresh(predecessor)
    {
      this.p := p;
      usable := new bool[|p.items|];
      known := new bool[|p.items|];
      status := new Status[|p.items|](_ => Committed);
      successor := new nat[|p.items|];
      predecessor := new nat[|p.items|](_ => 0);
      reports := [];
    }

    /** One turn of the first loop. */
    method CheckItem(i: nat) returns (ok: bool)
      requires Shape() && p.Has(i) && Filled(i)
      modifies usable, known, status, successor
      ensures Filled(i + 1) && ok == ItemOk(p, i)
    {
      successor[i], usable[i], known[i] := 0, false, false;
      match p.items[i]
      case Unused => return true;
      case Dead => return true;
      case Redirect(to) =>
        if to < 1 || to >= |p.items| || !p.items[to].Normal? {
          return false;
        }
        usable[i], successor[i] := true, to;
        return true;
      case Normal(offset, length, h) =>
        if offset % 8 != 0 || length < MIN_TUPLE || offset + length > BLCKSZ {
          return false;
        }
        usable[i], known[i], status[i] := true, h.known, h.status;
        if h.ctidBlock == p.block && h.ctidOffset != i && h.ctidOffset >= 1 && h.ctidOffset < |p.items| {
          successor[i] := h.ctidOffset;
        }
        return h.clean;
    }

    method FirstPass()
      requires Shape() && reports == []
      modifies this`reports, usable, known, status, successor
      ensures Filled(|p.items|)
      ensures reports == [] <==> forall i :: p.Has(i) ==> ItemOk(p, i)
    {
      for i := 1 to |p.items|
        invariant Filled(i)
        invariant reports == [] <==> forall k :: 1 <= k < i ==> ItemOk(p, k)
      {
        var ok := CheckItem(i);
        if !ok {
          reports := reports + [BadItem(i)];
        }
      }
    }

    /** The flag and status tests on a link between two tuples. */
    method CheckTupleLink(i: nat, j: nat) returns (rs: seq<Report>)
      requires Shape() && Filled(|p.items|) && Linked(p, i, j) && !p.items[i].Redirect?
      ensures rs == [] <==> LinkOk(p, i, j)
    {
      rs := [];
      var h, t := p.items[i].header, p.items[j].header;
      if !h.hotUpdated && t.heapOnly {
        rs := rs + [BadLink(i, j)];
      }
      if h.hotUpdated && !t.heapOnly {
        rs := rs + [BadLink(i, j)];
      }
      if known[i] && status[i] == InProgress && known[j] && status[j] == Committed && h.runsStill {
        rs := rs + [BadLink(i, j)];
      }
      if known[i] && status[i] == Aborted && known[j] {
        if status[j] == InProgress {
          rs := rs + [BadLink(i, j)];
        } else if status[j] == Committed {
          rs := rs + [BadLink(i, j)];
        }
      }
    }

    /** One turn of the second loop. */
    method CheckLink(i: nat) returns (rs: seq<Report>)
      requires Shape() && p.Has(i) && Filled(|p.items|) && Recorded(i)
      modifies predecessor
      ensures Recorded(i + 1)
      ensures rs == [] <==> (Next(p, i) != 0 ==> old(predecessor[Next(p, i)]) == 0 && LinkOk(p, i, Next(p, i)))
    {
      rs := [];
      var j := successor[i];
      if j == 0 || !usable[j] {
        return;
      }
      if p.items[i].Redirect? {
        if !p.items[j].header.heapOnly {
          rs := rs + [BadLink(i, j)];
        }
        if predecessor[j] != 0 {
          rs := rs + [BadLink(i, j)];
          return;
        }
        predecessor[j] := i;
        return;
      }
      if p.items[j].Redirect? {
        return;
      }
      var xmax := p.items[i].header.updateXid;
      if xmax == 0 || xmax != p.items[j].header.xmin {
        return;
      }
      if predecessor[j] != 0 {
        rs := [BadLink(i, j)];
        return;
      }
      rs := CheckTupleLink(i, j);
      predecessor[j] := i;
    }

    method SecondPass()
      requires Shape() && Filled(|p.items|) && Recorded(1)
      modifies this`reports, predecessor
      ensures Recorded(|p.items|)
      ensures reports == [] <==> old(reports) == [] && Disjoint(p) && forall i, j :: Linked(p, i, j) ==> LinkOk(p, i, j)
    {
      for i := 1 to |p.items|
        invariant Recorded(i)
        invariant reports == [] <==> old(reports) == [] && LinksOk(p, i)
      {
        ghost var taken := predecessor[..];
        var rs := CheckLink(i);
        reports := reports + rs;
        LinksStep(p, i, taken);
      }
      LinksDone(p);
    }

    method ThirdPass()
      requires Shape() && Filled(|p.items|) && Recorded(|p.items|)
      modifies this`reports
      ensures reports == [] <==> old(reports) == [] && forall j :: p.Has(j) && !HasPredecessor(p, j) ==> MayBeRoot(p, j)
    {
      for j := 1 to |p.items|
        invariant reports == [] <==>
                    old(reports) == [] && forall k :: 1 <= k < j && !HasPredecessor(p, k) ==> MayBeRoot(p, k)
      {
        assert HasPredecessor(p, j) <==> predecessor[j] != 0;
        if known[j] && (status[j] == Committed || status[j] == InProgress) && predecessor[j] == 0 {
          if !p.items[j].Redirect? && p.items[j].header.heapOnly {
            reports := reports + [HeapOnlyRoot(j)];
          }
        }
      }
    }
  }

  /** Links out of items below n are in order and no two of them meet. */
  ghost predicate LinksOk(p: Page, n: nat) {
    && (forall i: nat, j: nat :: i < n && Linked(p, i, j) ==> LinkOk(p, i, j))
    && (forall i: nat, k: nat, j: nat :: i < n && k < n && Linked(p, i, j) && Linked(p, k, j) ==> i == k)
  }

  lemma LinksStep(p: Page, i: nat, taken: seq<nat>)
    requires p.Has(i) && |taken| == |p.items|
    requires forall j: nat :: 1 <= j < |p.items| ==>
               && (taken[j] != 0 ==> taken[j] < i && Linked(p, taken[j], j))
               && (taken[j] == 0 ==> forall k: nat :: k < i ==> !Linked(p, k, j))
    ensures var j := Next(p, i);
            LinksOk(p, i + 1) <==> LinksOk(p, i) && (j != 0 ==> taken[j] == 0 && LinkOk(p, i, j))
  {
    var j := Next(p, i);
    if j != 0 {
      assert Linked(p, i, j) && (taken[j] != 0 ==> Linked(p, taken[j], j));
    }
  }

  lemma LinksDone(p: Page)
    requires p.Valid()
    ensures LinksOk(p, |p.items|) <==> Disjoint(p) && forall i, j :: Linked(p, i, j) ==> LinkOk(p, i, j)
  {
    assert forall i: nat, j: nat :: Linked(p, i, j) ==> i < |p.items|;
  }

  /** The three passes report nothing exactly when the page is sound. */
  method CheckPage(p: Page) returns (reports: seq<Report>)
    requires p.Valid()
    ensures reports == [] <==> Sound(p)
  {
    var c := new Chains(p);
    c.FirstPass();
    c.SecondPass();
    c.ThirdPass();
    reports := c.reports;
  }
}
