/** The uniqueness check over all leaf pages of a B-tree (contrib/amcheck/verify_nbtree.c): which duplicates it can
    miss because a page only looks at the first entry of its right sibling. */
module UniqueLevel {
  import opened Options
  import opened UniqueCheck

  type Level = seq<seq<Entry>>

  /** The first entry of the page to the right. */
  function RightOf(pages: Level, i: nat): Option<Entry> {
    if i + 1 < |pages| && pages[i + 1] != [] then Some(pages[i + 1][0]) else None
  }

  ghost predicate RaisedAt(pages: Level, i: nat, seen: set<nat>)
    requires i < |pages|
  {
    var es := WithRight(pages[i], RightOf(pages, i));
    Duplicate(es, |es|, seen)
  }

  /** The check of some page raises. */
  ghost predicate Raised(pages: Level, seen: set<nat>) {
    exists i :: 0 <= i < |pages| && RaisedAt(pages, i, seen)
  }

  function OnPage(pages: Level, i: nat, k: int, seen: set<nat>): nat
    requires i < |pages|
  {
    Total(pages[i], |pages[i]|, k, seen)
  }

  /** How many visible tids the first n pages have under key k. */
  function LevelTotal(pages: Level, n: nat, k: int, seen: set<nat>): nat
    requires n <= |pages|
  {
    if n == 0 then 0 else LevelTotal(pages, n - 1, k, seen) + OnPage(pages, n - 1, k, seen)
  }

  /** Some key has two visible tids on the level. */
  ghost predicate LevelDuplicate(pages: Level, seen: set<nat>) {
    exists k :: LevelTotal(pages, |pages|, k, seen) >= 2
  }

  predicate PageOk(es: seq<Entry>) {
    AllProper(es) && Grouped(es)
  }

  /** bt_target_page_check on every page of the level. */
  method CheckLevel(pages: Level, seen: set<nat>) returns (raised: bool)
    requires forall i :: 0 <= i < |pages| ==> PageOk(pages[i])
    ensures raised <==> Raised(pages, seen)
  {
    for i := 0 to |pages|
      invariant forall j :: 0 <= j < i ==> !RaisedAt(pages, j, seen)
    {
      assert RightOf(pages, i).Some? ==> PageOk(pages[i + 1]);
      raised := CheckPage(pages[i], RightOf(pages, i), seen);
      if raised {
        assert RaisedAt(pages, i, seen);
        return;
      }
    }
    raised := false;
  }

  // ---------------------------------------------------------------- what a page sees

  predicate HasAt(pages: Level, i: nat, a: nat, k: int) {
    i < |pages| && a < |pages[i]| && pages[i][a].key == Some(k)
  }

  ghost predicate Has(pages: Level, i: nat, k: int) {
    exists a: nat :: HasAt(pages, i, a, k)
  }

  /** Equal keys stand together across pages too: a key that goes on to a later page ends its own and begins that. */
  ghost predicate Joined(pages: Level) {
    forall i: nat, j: nat, k :: i < j && Has(pages, i, k) && Has(pages, j, k) ==>
      HasAt(pages, i, |pages[i]| - 1, k) && HasAt(pages, j, 0, k)
  }

  /** No run of equal keys goes beyond the first entry of the right sibling. */
  ghost predicate NoLongRun(pages: Level) {
    forall i: nat, j: nat, a: nat, b: nat, k ::
      i < j && HasAt(pages, i, a, k) && HasAt(pages, j, b, k) ==> j == i + 1 && b == 0
  }

  function First(pages: Level, i: nat, k: int, seen: set<nat>): nat {
    var r := RightOf(pages, i);
    if r.Some? && r.value.key == Some(k) then Visible(r.value.tids, |r.value.tids|, seen) else 0
  }

  /** A page counts its own tids, and the first entry to the right where its last key goes on. */
  lemma {:induction false} PageSees(pages: Level, i: nat, k: int, seen: set<nat>)
    requires i < |pages|
    ensures var es := WithRight(pages[i], RightOf(pages, i));
            Total(es, |es|, k, seen) == OnPage(pages, i, k, seen)
              + if pages[i] != [] && pages[i][|pages[i]| - 1].key == Some(k) then First(pages, i, k, seen) else 0
  {
    var es, n := WithRight(pages[i], RightOf(pages, i)), |pages[i]|;
    TotalSame(pages[i], es, n, k, seen);
    if |es| > n {
      assert Total(es, n + 1, k, seen) == Total(es, n, k, seen)
        + if es[n].key == Some(k) then Visible(es[n].tids, |es[n].tids|, seen) else 0;
    }
  }

  lemma {:induction false} FirstIsOnPage(pages: Level, i: nat, k: int, seen: set<nat>)
    requires i + 1 < |pages|
    ensures First(pages, i, k, seen) <= OnPage(pages, i + 1, k, seen)
  {
    var es := pages[i + 1];
    if es != [] {
      TotalGrows(es, 1, |es|, k, seen);
      assert Total(es, 1, k, seen) == Total(es, 0, k, seen) + First(pages, i, k, seen);
    }
  }

  lemma {:induction false} LevelCounts(pages: Level, n: nat, i: nat, k: int, seen: set<nat>)
    requires i < n <= |pages|
    ensures OnPage(pages, i, k, seen) + (if i + 1 < n then OnPage(pages, i + 1, k, seen) else 0)
            <= LevelTotal(pages, n, k, seen)
    decreases n
  {
    if i + 1 < n {
      LevelCounts(pages, n - 1, i, k, seen);
      if i + 2 == n {
        assert LevelTotal(pages, n, k, seen) == LevelTotal(pages, n - 1, k, seen) + OnPage(pages, i + 1, k, seen);
      }
    }
  }

  /** What is raised is a duplicate of the level. */
  lemma RaisedIsDuplicate(pages: Level, seen: set<nat>)
    requires Raised(pages, seen)
    ensures LevelDuplicate(pages, seen)
  {
    var i :| 0 <= i < |pages| && RaisedAt(pages, i, seen);
    var es := WithRight(pages[i], RightOf(pages, i));
    var k :| Total(es, |es|, k, seen) >= 2;
    PageSees(pages, i, k, seen);
    LevelCounts(pages, |pages|, i, k, seen);
    if i + 1 < |pages| {
      FirstIsOnPage(pages, i, k, seen);
    }
  }

  // ---------------------------------------------------------------- short runs are seen

  lemma NotOnPage(pages: Level, i: nat, k: int, seen: set<nat>)
    requires i < |pages| && !Has(pages, i, k)
    ensures OnPage(pages, i, k, seen) == 0
  {
    forall a | 0 <= a < |pages[i]|
      ensures pages[i][a].key != Some(k)
    {
      assert !HasAt(pages, i, a, k);
    }
    TotalNone(pages[i], |pages[i]|, k, seen);
  }

  lemma {:induction false} LevelCountsOnly(pages: Level, n: nat, i: nat, k: int, seen: set<nat>)
    requires i < |pages| && n <= |pages|
    requires forall j: nat :: j < n && j != i && j != i + 1 ==> !Has(pages, j, k)
    ensures LevelTotal(pages, n, k, seen) == (if i < n then OnPage(pages, i, k, seen) else 0)
              + (if i + 1 < n then OnPage(pages, i + 1, k, seen) else 0)
    decreases n
  {
    if n > 0 {
      LevelCountsOnly(pages, n - 1, i, k, seen);
      if n - 1 != i && n - 1 != i + 1 {
        NotOnPage(pages, n - 1, k, seen);
      }
    }
  }

  /** Where only the first entry of a page has the key, that is all it counts. */
  lemma OnlyFirst(pages: Level, i: nat, right: nat, k: int, seen: set<nat>)
    requires right == i + 1 < |pages| && forall b: nat :: HasAt(pages, right, b, k) ==> b == 0
    ensures OnPage(pages, right, k, seen) == First(pages, i, k, seen)
  {
    var es := pages[right];
    if es != [] {
      forall b | 1 <= b < |es|
        ensures es[b].key != Some(k)
      {
        assert !HasAt(pages, right, b, k);
      }
      TotalRest(es, |es|, k, seen);
      assert Total(es, 1, k, seen) == Total(es, 0, k, seen) + First(pages, i, k, seen);
    }
  }

  lemma {:induction false} TotalRest(es: seq<Entry>, n: nat, k: int, seen: set<nat>)
    requires 1 <= n <= |es| && forall b :: 1 <= b < n ==> es[b].key != Some(k)
    ensures Total(es, n, k, seen) == Total(es, 1, k, seen)
    decreases n
  {
    if n > 1 {
      TotalRest(es, n - 1, k, seen);
    }
  }

  /** The first page that has the key. */
  lemma {:induction false} FirstPage(pages: Level, n: nat, k: int, seen: set<nat>) returns (i: nat)
    requires n <= |pages| && LevelTotal(pages, n, k, seen) > 0
    ensures i < n && Has(pages, i, k) && forall j: nat :: j < i ==> !Has(pages, j, k)
    decreases n
  {
    if LevelTotal(pages, n - 1, k, seen) > 0 {
      i := FirstPage(pages, n - 1, k, seen);
    } else if j: nat :| j < n - 1 && Has(pages, j, k) {
      i := LeastPage(pages, j, k);
    } else {
      i := n - 1;
      if !Has(pages, i, k) {
        NotOnPage(pages, i, k, seen);
      }
    }
  }

  lemma {:induction false} LeastPage(pages: Level, j: nat, k: int) returns (i: nat)
    requires Has(pages, j, k)
    ensures i <= j && Has(pages, i, k) && forall l: nat :: l < i ==> !Has(pages, l, k)
    decreases j
  {
    if l: nat :| l < j && Has(pages, l, k) {
      i := LeastPage(pages, l, k);
    } else {
      i := j;
    }
  }

  /** Where no run is long, every duplicate is raised. */
  lemma ShortRunsAreSeen(pages: Level, seen: set<nat>)
    requires Joined(pages) && NoLongRun(pages) && LevelDuplicate(pages, seen)
    ensures Raised(pages, seen)
  {
    var k :| LevelTotal(pages, |pages|, k, seen) >= 2;
    var i := FirstPage(pages, |pages|, k, seen);
    var a: nat :| HasAt(pages, i, a, k);
    forall j: nat | j < |pages| && j != i && j != i + 1
      ensures !Has(pages, j, k)
    {
    }
    LevelCountsOnly(pages, |pages|, i, k, seen);
    PageSees(pages, i, k, seen);
    if i + 1 < |pages| {
      if Has(pages, i + 1, k) {
        assert HasAt(pages, i, |pages[i]| - 1, k);
        OnlyFirst(pages, i, i + 1, k, seen);
      } else {
        NotOnPage(pages, i + 1, k, seen);
      }
    }
    assert RaisedAt(pages, i, seen);
  }

  // ---------------------------------------------------------------- long runs can be missed

  predicate TidAt(pages: Level, i: nat, a: nat, u: nat, x: nat) {
    i < |pages| && a < |pages[i]| && u < |pages[i][a].tids| && pages[i][a].tids[u] == x
  }

  /** No heap row is listed twice, and every entry lists one. */
  ghost predicate TidsApart(pages: Level) {
    && (forall i, a :: 0 <= i < |pages| && 0 <= a < |pages[i]| ==> pages[i][a].tids != [])
    && forall i: nat, a: nat, u: nat, j: nat, b: nat, v: nat, x: nat ::
         TidAt(pages, i, a, u, x) && TidAt(pages, j, b, v, x) ==> i == j && a == b && u == v
  }

  function One(b: bool): nat {
    if b then 1 else 0
  }

  /** With the first tids of two entries visible, an entry counts one if it is one of the two. */
  lemma {:induction false} VisiblePicked(pages: Level, i: nat, a: nat, j: nat, b: nat, p: nat, e: nat, n: nat)
    requires TidsApart(pages) && (i, a) != (j, b) && i < |pages| && a < |pages[i]| && j < |pages| && b < |pages[j]|
    requires p < |pages| && e < |pages[p]| && n <= |pages[p][e].tids|
    ensures var seen := {pages[i][a].tids[0], pages[j][b].tids[0]};
            Visible(pages[p][e].tids, n, seen) == if n == 0 then 0 else One((p, e) == (i, a)) + One((p, e) == (j, b))
    decreases n
  {
    var x, y := pages[i][a].tids[0], pages[j][b].tids[0];
    if n > 0 {
      VisiblePicked(pages, i, a, j, b, p, e, n - 1);
      var z := pages[p][e].tids[n - 1];
      assert TidAt(pages, i, a, 0, x) && TidAt(pages, j, b, 0, y) && TidAt(pages, p, e, n - 1, z);
      assert TidAt(pages, p, e, n - 1, x) ==> (p, e) == (i, a) && n == 1;
      assert TidAt(pages, p, e, n - 1, y) ==> (p, e) == (j, b) && n == 1;
    }
  }

  lemma {:induction false} TotalPicked(pages: Level, i: nat, a: nat, j: nat, b: nat, p: nat, n: nat, k: int)
    requires TidsApart(pages) && (i, a) != (j, b) && i < |pages| && a < |pages[i]| && j < |pages| && b < |pages[j]|
    requires p < |pages| && n <= |pages[p]|
    ensures var seen := {pages[i][a].tids[0], pages[j][b].tids[0]};
            Total(pages[p], n, k, seen) == One(p == i && a < n && HasAt(pages, i, a, k))
                                           + One(p == j && b < n && HasAt(pages, j, b, k))
    decreases n
  {
    if n > 0 {
      TotalPicked(pages, i, a, j, b, p, n - 1, k);
      VisiblePicked(pages, i, a, j, b, p, n - 1, |pages[p][n - 1].tids|);
    }
  }

  /** Two entries of one key that no page sees together. */
  lemma LongRunIsMissed(pages: Level, i: nat, a: nat, j: nat, b: nat, k: int) returns (seen: set<nat>)
    requires TidsApart(pages) && i < j && HasAt(pages, i, a, k) && HasAt(pages, j, b, k) && !(j == i + 1 && b == 0)
    ensures seen == {pages[i][a].tids[0], pages[j][b].tids[0]}
    ensures LevelDuplicate(pages, seen) && !Raised(pages, seen)
  {
    seen := {pages[i][a].tids[0], pages[j][b].tids[0]};
    BothCount(pages, i, a, j, b, k);
    forall p | 0 <= p < |pages|
      ensures !RaisedAt(pages, p, seen)
    {
      forall k'
        ensures var es := WithRight(pages[p], RightOf(pages, p)); Total(es, |es|, k', seen) <= 1
      {
        SeesOne(pages, i, a, j, b, p, k');
      }
    }
  }

  lemma {:induction false} SeesOne(pages: Level, i: nat, a: nat, j: nat, b: nat, p: nat, k: int)
    requires TidsApart(pages) && i < j < |pages| && a < |pages[i]| && b < |pages[j]| && !(j == i + 1 && b == 0)
    requires p < |pages|
    ensures var seen := {pages[i][a].tids[0], pages[j][b].tids[0]};
            var es := WithRight(pages[p], RightOf(pages, p));
            Total(es, |es|, k, seen) <= 1
  {
    var seen := {pages[i][a].tids[0], pages[j][b].tids[0]};
    PageSees(pages, p, k, seen);
    TotalPicked(pages, i, a, j, b, p, |pages[p]|, k);
    if p + 1 < |pages| && pages[p + 1] != [] {
      VisiblePicked(pages, i, a, j, b, p + 1, 0, |pages[p + 1][0].tids|);
    }
  }

  lemma {:induction false} LevelAdds(pages: Level, n: nat, i: nat, j: nat, k: int, seen: set<nat>)
    requires i < j < n <= |pages|
    ensures OnPage(pages, i, k, seen) + OnPage(pages, j, k, seen) <= LevelTotal(pages, n, k, seen)
    decreases n
  {
    if j + 1 < n {
      LevelAdds(pages, n - 1, i, j, k, seen);
    } else {
      LevelCounts(pages, n - 1, i, k, seen);
    }
  }

  lemma {:induction false} BothCount(pages: Level, i: nat, a: nat, j: nat, b: nat, k: int)
    requires TidsApart(pages) && i < j && HasAt(pages, i, a, k) && HasAt(pages, j, b, k)
    ensures LevelTotal(pages, |pages|, k, {pages[i][a].tids[0], pages[j][b].tids[0]}) >= 2
  {
    var seen := {pages[i][a].tids[0], pages[j][b].tids[0]};
    TotalPicked(pages, i, a, j, b, i, |pages[i]|, k);
    TotalPicked(pages, i, a, j, b, j, |pages[j]|, k);
    LevelAdds(pages, |pages|, i, j, k, seen);
  }

  /** The check of a level is exact, whichever rows are visible, if and only if no run of equal keys goes beyond the
      first entry of the right sibling. */
  lemma LevelExact(pages: Level)
    requires TidsApart(pages) && Joined(pages)
    ensures (forall seen :: Raised(pages, seen) <==> LevelDuplicate(pages, seen)) <==> NoLongRun(pages)
  {
    forall seen
      ensures Raised(pages, seen) ==> LevelDuplicate(pages, seen)
      ensures NoLongRun(pages) && LevelDuplicate(pages, seen) ==> Raised(pages, seen)
    {
      if Raised(pages, seen) {
        RaisedIsDuplicate(pages, seen);
      }
      if NoLongRun(pages) && LevelDuplicate(pages, seen) {
        ShortRunsAreSeen(pages, seen);
      }
    }
    if !NoLongRun(pages) {
      var i: nat, j: nat, a: nat, b: nat, k :|
        i < j && HasAt(pages, i, a, k) && HasAt(pages, j, b, k) && !(j == i + 1 && b == 0);
      var seen := LongRunIsMissed(pages, i, a, j, b, k);
    }
  }

  /** One key on three entries over two pages, the middle one not visible. */
  lemma DuplicateMissed() returns (pages: Level, seen: set<nat>)
    ensures |pages| == 2 && pages[0] == [Entry(Some(7), false, [1])]
    ensures pages[1] == [Entry(Some(7), false, [2]), Entry(Some(7), false, [3])] && seen == {1, 3}
    ensures LevelDuplicate(pages, seen) && !Raised(pages, seen)
  {
    pages := [[Entry(Some(7), false, [1])], [Entry(Some(7), false, [2]), Entry(Some(7), false, [3])]];
    seen := LongRunIsMissed(pages, 0, 0, 1, 1, 7);
  }
}
