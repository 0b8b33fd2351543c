/** Byte strings under the order of byteacmp: memcmp on the common length, then the shorter string first. */
module ByteOrder {

  newtype byte = b: int | 0 <= b < 256

  type Bytes = seq<byte>

  /** Length of the longest common prefix. */
  function CommonPrefix(a: Bytes, b: Bytes): (n: nat)
    ensures n <= |a| && n <= |b|
    ensures forall k :: 0 <= k < n ==> a[k] == b[k]
    ensures n < |a| && n < |b| ==> a[n] != b[n]
  {
    CommonPrefixFrom(a, b, 0)
  }

  function CommonPrefixFrom(a: Bytes, b: Bytes, i: nat): (n: nat)
    requires i <= |a| && i <= |b|
    requires forall k :: 0 <= k < i ==> a[k] == b[k]
    ensures i <= n <= |a| && n <= |b|
    ensures forall k :: 0 <= k < n ==> a[k] == b[k]
    ensures n < |a| && n < |b| ==> a[n] != b[n]
    decreases |a| - i
  {
    if i < |a| && i < |b| && a[i] == b[i] then CommonPrefixFrom(a, b, i + 1) else i
  }

  /** Sign of byteacmp(a, b). */
  function Compare(a: Bytes, b: Bytes): int {
    var n := CommonPrefix(a, b);
    if n < |a| && n < |b| then a[n] as int - b[n] as int else |a| - |b|
  }

  predicate Leq(a: Bytes, b: Bytes) {
    Compare(a, b) <= 0
  }

  predicate Less(a: Bytes, b: Bytes) {
    Compare(a, b) < 0
  }

  function Take(s: Bytes, m: nat): (t: Bytes)
    ensures |t| == if |s| <= m then |s| else m
    ensures t <= s
  {
    if |s| <= m then s else s[..m]
  }

  /** A length with the defining properties of the common prefix is the common prefix. */
  lemma CommonPrefixIs(a: Bytes, b: Bytes, n: nat)
    requires n <= |a| && n <= |b|
    requires forall k :: 0 <= k < n ==> a[k] == b[k]
    requires n == |a| || n == |b| || a[n] != b[n]
    ensures CommonPrefix(a, b) == n && CommonPrefix(b, a) == n
  {
    var m := CommonPrefix(a, b);
    var w := CommonPrefix(b, a);
  }

  lemma CompareFlip(a: Bytes, b: Bytes)
    ensures Compare(a, b) == -Compare(b, a)
    ensures Compare(a, b) == 0 <==> a == b
  {
    CommonPrefixIs(b, a, CommonPrefix(a, b));
    var n := CommonPrefix(a, b);
    if Compare(a, b) == 0 {
      assert a == b;
    }
  }

  lemma LeqTransitive(a: Bytes, b: Bytes, c: Bytes)
    requires Leq(a, b) && Leq(b, c)
    ensures Leq(a, c)
    ensures Less(a, b) || Less(b, c) ==> Less(a, c)
  {
    var n, m := CommonPrefix(a, b), CommonPrefix(b, c);
    CommonPrefixIs(a, c, if n < m then n else if m < n then m else CommonPrefix(a, c));
  }

  /** A prefix of s is at most s. */
  lemma PrefixLeq(p: Bytes, s: Bytes)
    requires p <= s
    ensures Leq(p, s)
  {
    CommonPrefixIs(p, s, |p|);
  }

  /** Everything between two strings with the prefix p has the prefix p. */
  lemma PrefixBetween(p: Bytes, lo: Bytes, x: Bytes, hi: Bytes)
    requires p <= lo && p <= hi
    requires Leq(lo, x) && Leq(x, hi)
    ensures p <= x
  {
    var n := CommonPrefix(p, x);
    if n < |p| {
      assert p[n] == lo[n] && p[n] == hi[n];
      CommonPrefixIs(lo, x, n);
      CommonPrefixIs(x, hi, n);
    }
    assert p == x[..|p|];
  }

  /** Widening a range can only shorten its common prefix. */
  lemma CommonPrefixShrinks(lo: Bytes, a: Bytes, b: Bytes, hi: Bytes)
    requires Leq(lo, a) && Leq(a, b) && Leq(b, hi)
    ensures CommonPrefix(lo, hi) <= CommonPrefix(a, b)
  {
    var p := lo[..CommonPrefix(lo, hi)];
    assert p == hi[..|p|];
    LeqTransitive(lo, a, b);
    LeqTransitive(a, b, hi);
    PrefixBetween(p, lo, a, hi);
    PrefixBetween(p, lo, b, hi);
    assert forall k :: 0 <= k < |p| ==> a[k] == p[k] == b[k];
  }

  /** Cutting an upper bound to m bytes: what it bounded is still bounded, or extends the cut. */
  lemma CutUpper(v: Bytes, u: Bytes, m: nat)
    requires Leq(v, u)
    ensures Leq(v, Take(u, m)) || Take(u, m) <= v
  {
    var t := Take(u, m);
    var n := CommonPrefix(v, t);
    if n < |v| && n < |t| {
      CommonPrefixIs(v, u, n);
    } else if n == |t| {
      assert t == v[..|t|];
    } else {
      CommonPrefixIs(v, t, n);
    }
  }

  /** Cutting below the first difference, and no closer, keeps the common prefix. */
  lemma CutKeepsCommonPrefix(lo: Bytes, hi: Bytes, m: nat)
    requires CommonPrefix(lo, hi) < m
    ensures CommonPrefix(Take(lo, m), Take(hi, m)) == CommonPrefix(lo, hi)
  {
    CommonPrefixIs(Take(lo, m), Take(hi, m), CommonPrefix(lo, hi));
  }

  /** Cutting two strings to one length keeps their order. */
  lemma CutKeepsOrder(a: Bytes, b: Bytes, m: nat)
    requires Leq(a, b)
    ensures Leq(Take(a, m), Take(b, m))
  {
    var n := CommonPrefix(a, b);
    if n < m {
      CutKeepsCommonPrefix(a, b, m);
    } else {
      assert Take(a, m) == Take(b, m);
      PrefixLeq(Take(a, m), Take(b, m));
    }
  }
}
