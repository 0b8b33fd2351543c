/** The uniqueness check on a B-tree leaf page (contrib/amcheck/verify_nbtree.c), which looks tuples up in the heap
    as late and as seldom as it can. */
module UniqueCheck {
  import opened Options

  /** An index tuple: its key, None when some column is null, and its heap tids. Without a posting list there is
      just one. */
  datatype Entry = Entry(key: Option<int>, posting: bool, tids: seq<nat>)

  predicate Proper(e: Entry) {
    !e.posting ==> |e.tids| == 1
  }

  predicate AllProper(es: seq<Entry>) {
    forall i :: 0 <= i < |es| ==> Proper(es[i])
  }

  /** Equal keys stand together, as they do on a sorted page. */
  predicate Grouped(es: seq<Entry>) {
    forall i, j, k :: 0 <= i < j < k < |es| && es[i].key == es[k].key && es[i].key.Some? ==> es[j].key == es[i].key
  }

  /** How many of the first n tids are visible. */
  function Visible(tids: seq<nat>, n: nat, seen: set<nat>): nat
    requires n <= |tids|
  {
    if n == 0 then 0 else Visible(tids, n - 1, seen) + if tids[n - 1] in seen then 1 else 0
  }

  /** How many visible tids the first n entries have under key k. */
  function Total(es: seq<Entry>, n: nat, k: int, seen: set<nat>): nat
    requires n <= |es|
  {
    if n == 0 then 0
    else
      var e := es[n - 1];
      Total(es, n - 1, k, seen) + if e.key == Some(k) then Visible(e.tids, |e.tids|, seen) else 0
  }

  /** Some key has two visible tids among the first n entries. */
  ghost predicate Duplicate(es: seq<Entry>, n: nat, seen: set<nat>)
    requires n <= |es|
  {
    exists k :: Total(es, n, k, seen) >= 2
  }

  /** What the page is checked with: the first entry of the right sibling counts when it goes on with the last key. */
  function WithRight(es: seq<Entry>, right: Option<Entry>): seq<Entry> {
    if es != [] && right.Some? && right.value.key.Some? && right.value.key == es[|es| - 1].key then es + [right.value]
    else es
  }

  lemma {:induction false} VisibleGrows(tids: seq<nat>, m: nat, n: nat, seen: set<nat>)
    requires m <= n <= |tids|
    ensures Visible(tids, m, seen) <= Visible(tids, n, seen)
  {
    if m < n {
      VisibleGrows(tids, m, n - 1, seen);
    }
  }

  lemma {:induction false} TotalGrows(es: seq<Entry>, m: nat, n: nat, k: int, seen: set<nat>)
    requires m <= n <= |es|
    ensures Total(es, m, k, seen) <= Total(es, n, k, seen)
  {
    if m < n {
      TotalGrows(es, m, n - 1, k, seen);
    }
  }

  lemma {:induction false} TotalSame(es: seq<Entry>, fs: seq<Entry>, n: nat, k: int, seen: set<nat>)
    requires n <= |es| && n <= |fs| && forall i :: 0 <= i < n ==> es[i] == fs[i]
    ensures Total(es, n, k, seen) == Total(fs, n, k, seen)
  {
    if n > 0 {
      TotalSame(es, fs, n - 1, k, seen);
    }
  }

  /** A key that does not occur among the first n entries has no visible tid there. */
  lemma {:induction false} TotalNone(es: seq<Entry>, n: nat, k: int, seen: set<nat>)
    requires n <= |es| && forall i :: 0 <= i < n ==> es[i].key != Some(k)
    ensures Total(es, n, k, seen) == 0
  {
    if n > 0 {
      TotalNone(es, n - 1, k, seen);
    }
  }

  /** When the key changes, the new key is new. */
  lemma {:induction false} NewKey(es: seq<Entry>, i: nat, seen: set<nat>)
    requires Grouped(es) && 1 <= i < |es| && es[i].key.Some? && es[i].key != es[i - 1].key
    ensures Total(es, i, es[i].key.value, seen) == 0
  {
    forall j | 0 <= j < i
      ensures es[j].key != es[i].key
    {
    }
    TotalNone(es, i, es[i].key.value, seen);
  }

  /** bt_entry_unique_check: reports when an entry adds a second visible tid. `last` is the visible one so far. */
  method CheckEntry(e: Entry, seen: set<nat>, last: Option<nat>) returns (raised: bool, last': Option<nat>)
    requires Proper(e)
    ensures var n := Visible(e.tids, |e.tids|, seen) + (if last.Some? then 1 else 0);
            (raised <==> n >= 2) && (!raised ==> (last'.Some? <==> n == 1))
  {
    last' := last;
    if e.posting {
      for i := 0 to |e.tids|
        invariant var n := Visible(e.tids, i, seen) + (if last.Some? then 1 else 0);
                  n < 2 && (last'.Some? <==> n == 1)
      {
        if e.tids[i] in seen {
          if last'.Some? {
            VisibleGrows(e.tids, i + 1, |e.tids|, seen);
            return true, last';
          }
          last' := Some(e.tids[i]);
        }
      }
    } else if e.tids[0] in seen {
      if last.Some? {
        return true, last';
      }
      last' := Some(e.tids[0]);
    }
    return false, last';
  }

  /** `last` says whether the key that entry i goes on with has been seen visible. */
  predicate Carried(es: seq<Entry>, i: nat, seen: set<nat>, last: Option<nat>)
    requires i < |es|
  {
    last.Some? <==> es[i].key.Some? && Total(es, i, es[i].key.value, seen) >= 1
  }

  /** No key has two visible tids so far. */
  ghost predicate Unique(es: seq<Entry>, n: nat, seen: set<nat>)
    requires n <= |es|
  {
    forall k :: Total(es, n, k, seen) <= 1
  }

  /** `last` says whether the key of entry i has been seen visible, entry i included. */
  predicate Settled(es: seq<Entry>, i: nat, seen: set<nat>, last: Option<nat>)
    requires i < |es|
  {
    es[i].key.Some? ==> (last.Some? <==> Total(es, i + 1, es[i].key.value, seen) >= 1)
  }

  lemma UniqueStep(es: seq<Entry>, i: nat, seen: set<nat>)
    requires i < |es| && Unique(es, i, seen)
    requires es[i].key.Some? ==> Total(es, i + 1, es[i].key.value, seen) <= 1
    ensures Unique(es, i + 1, seen)
  {
    var n := i + 1;
    forall k
      ensures Total(es, n, k, seen) <= 1
    {
      assert Total(es, i, k, seen) <= 1;
    }
  }

  /** The steps taken at entry i for its own sake, and for the key it shares with the entry after it. */
  method VisitEntry(es: seq<Entry>, i: nat, seen: set<nat>, last: Option<nat>, goesOn: bool)
    returns (raised: bool, last': Option<nat>)
    requires i < |es| && AllProper(es) && Unique(es, i, seen) && Carried(es, i, seen, last)
    requires goesOn ==> es[i].key.Some?
    ensures raised <==> es[i].key.Some? && Total(es, i + 1, es[i].key.value, seen) >= 2
    ensures !raised && goesOn ==> Settled(es, i, seen, last')
    ensures es[i].key.None? ==> last' == last
  {
    var e := es[i];
    raised, last' := false, last;
    var checked := false;
    if e.key.Some? && (e.posting || last.Some?) {
      raised, last' := CheckEntry(e, seen, last);
      if raised {
        return;
      }
      checked := true;
    }
    if goesOn && !checked {
      raised, last' := CheckEntry(e, seen, last);
    }
    if !checked && e.key.Some? {
      SingleVisible(e.tids, seen);
    }
  }

  lemma {:induction false} SingleVisible(tids: seq<nat>, seen: set<nat>)
    requires |tids| == 1
    ensures Visible(tids, 1, seen) <= 1
  {
    assert Visible(tids, 0, seen) == 0;
  }

  lemma {:induction false} CarriesOver(es: seq<Entry>, i: nat, seen: set<nat>, last: Option<nat>)
    requires Grouped(es) && i + 1 < |es|
    requires if es[i].key.Some? && es[i].key == es[i + 1].key then Settled(es, i, seen, last) else last.None?
    ensures Carried(es, i + 1, seen, last)
  {
    if es[i + 1].key.Some? && es[i].key != es[i + 1].key {
      NewKey(es, i + 1, seen);
    }
  }

  lemma {:induction false} RightCounts(es: seq<Entry>, right: Entry, seen: set<nat>)
    requires es != [] && right.key.Some? && right.key == es[|es| - 1].key && Unique(es, |es|, seen)
    ensures var n := Total(es, |es|, right.key.value, seen) + Visible(right.tids, |right.tids|, seen);
            Duplicate(es + [right], |es| + 1, seen) <==> n >= 2
  {
    var fs, n := es + [right], |es| + 1;
    forall k
      ensures Total(fs, n, k, seen) == Total(es, |es|, k, seen)
                                       + if right.key == Some(k) then Visible(right.tids, |right.tids|, seen) else 0
    {
      TotalSame(es, fs, |es|, k, seen);
    }
    assert Total(fs, n, right.key.value, seen)
           == Total(es, |es|, right.key.value, seen) + Visible(right.tids, |right.tids|, seen);
  }

  lemma {:induction false} DuplicateStays(es: seq<Entry>, right: Option<Entry>, k: int, seen: set<nat>)
    requires Total(es, |es|, k, seen) >= 2
    ensures Duplicate(WithRight(es, right), |WithRight(es, right)|, seen)
  {
    var fs := WithRight(es, right);
    TotalSame(es, fs, |es|, k, seen);
    TotalGrows(fs, |es|, |fs|, k, seen);
  }

  /** The uniqueness part of bt_target_page_check: it raises exactly when some non-null key of the page, together
      with the right sibling's first entry where that goes on with it, has two visible tids. */
  method CheckPage(es: seq<Entry>, right: Option<Entry>, seen: set<nat>) returns (raised: bool)
    requires AllProper(es) && Grouped(es) && (right.Some? ==> Proper(right.value))
    ensures raised <==> Duplicate(WithRight(es, right), |WithRight(es, right)|, seen)
  {
    var last: Option<nat> := None;
    for i := 0 to |es|
      invariant Unique(es, i, seen)
      invariant i < |es| ==> Carried(es, i, seen, last)
      invariant i == |es| && es != [] && WithRight(es, right) != es ==> Settled(es, i - 1, seen, last)
    {
      var goesOn :=
        if i + 1 < |es| then es[i].key.Some? && es[i].key == es[i + 1].key
        else right.Some? && right.value.key.Some? && right.value.key == es[i].key;
      raised, last := VisitEntry(es, i, seen, last, goesOn);
      if raised {
        TotalGrows(es, i + 1, |es|, es[i].key.value, seen);
        DuplicateStays(es, right, es[i].key.value, seen);
        return;
      }
      UniqueStep(es, i, seen);
      if i + 1 < |es| {
        if !goesOn {
          last := None;
        }
        CarriesOver(es, i, seen, last);
      }
    }
    raised := false;
    if es != [] && right.Some? && right.value.key.Some? && right.value.key == es[|es| - 1].key {
      RightCounts(es, right.value, seen);
      raised, last := CheckEntry(right.value, seen, last);
    }
  }
}
