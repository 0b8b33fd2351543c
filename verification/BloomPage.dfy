/** Data pages of the bloom index (contrib/bloom/bloom.h, blutils.c, blvacuum.c). */
module BloomPage {
  import opened BloomSignature

  const BLCKSZ: nat := 8192
  const PAGE_HEADER: nat := 24
  const PAGE_OPAQUE: nat := 8
  const TUPLE_HEADER: nat := 6

  datatype BloomTuple = BloomTuple(tid: nat, sign: Signature)

  function TupleSize(c: Config): nat {
    TUPLE_HEADER + 2 * c.length
  }

  /** BloomPageGetFreeSpace for a page with n tuples. */
  function FreeSpace(c: Config, n: nat): int {
    BLCKSZ - PAGE_HEADER - n * TupleSize(c) - PAGE_OPAQUE
  }

  function Quotient(a: nat, s: nat): nat
    requires s > 0
  {
    a / s
  }

  lemma TimesGrows(x: nat, y: nat, s: nat)
    requires x <= y
    ensures x * s <= y * s
  {
    assert y * s == x * s + (y - x) * s;
  }

  lemma QuotientIs(a: nat, s: nat, n: nat)
    requires s > 0
    ensures n < Quotient(a, s) <==> (n + 1) * s <= a
  {
    var q := a / s;
    assert q * s <= a < (q + 1) * s by {
      assert a == q * s + a % s;
    }
    if n < q {
      TimesGrows(n + 1, q, s);
    } else {
      TimesGrows(q + 1, n + 1, s);
    }
  }

  /** The number of tuples that fit on a page. */
  function Capacity(c: Config): nat {
    Quotient(BLCKSZ - PAGE_HEADER - PAGE_OPAQUE, TupleSize(c))
  }

  /** The space test of BloomPageAddItem is a test against the capacity. */
  lemma SpaceIsCapacity(c: Config, n: nat)
    ensures FreeSpace(c, n) >= TupleSize(c) <==> n < Capacity(c)
  {
    QuotientIs(BLCKSZ - PAGE_HEADER - PAGE_OPAQUE, TupleSize(c), n);
  }

  /** Any allowed signature length leaves room for a tuple on an empty page, so adding to one cannot fail. */
  lemma EmptyPageFits(c: Config)
    requires ValidConfig(c)
    ensures Capacity(c) >= 1
  {
    SpaceIsCapacity(c, 0);
  }

  /** What a vacuum leaves of a page: the tuples whose heap row it does not remove, in order. */
  function Keep(items: seq<BloomTuple>, dead: set<nat>): (r: seq<BloomTuple>)
    ensures |r| <= |items|
  {
    if items == [] then []
    else
      var n := |items| - 1;
      Keep(items[..n], dead) + if items[n].tid in dead then [] else [items[n]]
  }

  lemma {:induction false} KeepIs(items: seq<BloomTuple>, dead: set<nat>, x: BloomTuple)
    ensures multiset(Keep(items, dead))[x] == if x.tid in dead then 0 else multiset(items)[x]
  {
    if items != [] {
      var n := |items| - 1;
      KeepIs(items[..n], dead, x);
      assert items == items[..n] + [items[n]];
    }
  }

  /** A page image: the tuples are the first maxoff slots. */
  class PageBuffer {
    const c: Config
    const slots: array<BloomTuple>
    var zeroed: bool     // PageIsNew: extended but never initialised
    var maxoff: nat
    var deleted: bool
    var lower: nat

    ghost predicate Valid()
      reads this
    {
      && slots.Length == Capacity(c)
      && maxoff <= slots.Length
      && lower == PAGE_HEADER + maxoff * TupleSize(c)
      && lower + PAGE_OPAQUE <= BLCKSZ
    }

    ghost function Contents(): seq<BloomTuple>
      requires Valid()
      reads this, slots
    {
      slots[..maxoff]
    }

    constructor (c: Config, blank: BloomTuple)
      ensures Valid() && this.c == c && fresh(slots) && !deleted && !zeroed && Contents() == []
    {
      this.c := c;
      slots := new BloomTuple[Capacity(c)](_ => blank);
      zeroed, maxoff, deleted, lower := false, 0, false, PAGE_HEADER;
    }

    /** BloomInitPage. */
    method Init()
      requires slots.Length == Capacity(c)
      modifies this
      ensures Valid() && !deleted && !zeroed && Contents() == []
    {
      zeroed, maxoff, deleted, lower := false, 0, false, PAGE_HEADER;
    }

    /** BloomPageAddItem: appends exactly when the tuple fits, and never past the page's space. */
    method AddItem(t: BloomTuple) returns (ok: bool)
      requires Valid() && !deleted
      modifies this, slots
      ensures Valid() && !deleted && zeroed == old(zeroed)
      ensures ok <==> old(maxoff) < Capacity(c)
      ensures Contents() == if ok then old(Contents()) + [t] else old(Contents())
    {
      SpaceIsCapacity(c, maxoff);
      if FreeSpace(c, maxoff) < TupleSize(c) {
        return false;
      }
      slots[maxoff] := t;
      maxoff := maxoff + 1;
      lower := PAGE_HEADER + maxoff * TupleSize(c);
      return true;
    }

    /** The tuple loop of blbulkdelete: two pointers over one page, in place. The page keeps exactly the
        ordered filter of its tuples and is marked deleted when that empties it. */
    method Compact(dead: set<nat>) returns (removed: nat)
      requires Valid() && !deleted
      modifies this, slots
      ensures Valid()
      ensures Contents() == Keep(old(Contents()), dead)
      ensures removed + |Contents()| == |old(Contents())|
      ensures zeroed == old(zeroed)
      ensures deleted <==> removed > 0 && Contents() == []
    {
      var end := maxoff;
      var w := Squeeze(end, dead);
      removed := end - w;
      maxoff := w;
      SpaceShrinks(c, w, end);
      if w != end {
        if maxoff == 0 {
          deleted := true;
        }
        lower := PAGE_HEADER + w * TupleSize(c);
      }
    }

    method Squeeze(end: nat, dead: set<nat>) returns (w: nat)
      requires end <= slots.Length
      modifies slots
      ensures w <= end && slots[..w] == Keep(old(slots[..end]), dead)
    {
      ghost var was := slots[..end];
      w := 0;
      for i := 0 to end
        invariant w <= i
        invariant slots[..w] == Keep(was[..i], dead)
        invariant forall k :: i <= k < end ==> slots[k] == was[k]
      {
        KeepNext(was, dead, i);
        if slots[i].tid !in dead {
          if w != i {
            slots[w] := slots[i];
          }
          w := w + 1;
        }
      }
      assert was[..end] == was;
    }
  }

  lemma {:induction false} KeepNext(items: seq<BloomTuple>, dead: set<nat>, i: nat)
    requires i < |items|
    ensures Keep(items[..i + 1], dead) == Keep(items[..i], dead) + if items[i].tid in dead then [] else [items[i]]
  {
    assert items[..i + 1][..i] == items[..i];
  }

  lemma SpaceShrinks(c: Config, n: nat, m: nat)
    requires n <= m
    ensures n * TupleSize(c) <= m * TupleSize(c)
  {
  }
}
