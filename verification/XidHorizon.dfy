/** Transaction ids in the heap checker (contrib/amcheck/verify_heapam.c): 32-bit ids are widened against a cached
    horizon that other sessions move while the check runs. */
module XidHorizon {
  const FIRST_NORMAL: nat := 3
  const TWO31: int := 0x8000_0000
  const TWO32: int := 0x1_0000_0000

  predicate Normal32(xid: nat) {
    FIRST_NORMAL <= xid < TWO32
  }

  /** A full id that can be handed out: 64 bits, here unbounded, with normal low bits. */
  predicate NormalFull(f: nat) {
    f % TWO32 >= FIRST_NORMAL
  }

  /** The C conversion of a 32-bit difference to int32. */
  function Int32(x: int): (r: int)
    ensures -TWO31 <= r < TWO31
  {
    (x + TWO31) % TWO32 - TWO31
  }

  /** FullTransactionIdFromXidAndCtx. */
  function Widen(xid: nat, next: nat): nat
    requires xid < TWO32 && NormalFull(next)
  {
    if xid < FIRST_NORMAL then xid
    else
      var diff := Int32(next % TWO32 - xid);
      if diff > 0 && next - FIRST_NORMAL < diff then FIRST_NORMAL else next - diff
  }

  /** The id with the given low bits nearest to next, before any clamping. */
  function Nearest(xid: nat, next: nat): int
    requires xid < TWO32
  {
    next - Int32(next % TWO32 - xid)
  }

  predicate InWindow(f: int, next: nat) {
    next - TWO31 < f <= next + TWO31
  }

  lemma NearestIs(xid: nat, next: nat)
    requires xid < TWO32
    ensures InWindow(Nearest(xid, next), next) && Nearest(xid, next) % TWO32 == xid
  {
    var d := next % TWO32 - xid;
    var k := (d + TWO31) / TWO32;
    assert Int32(d) == d - k * TWO32;
    assert Nearest(xid, next) == xid + (next / TWO32 + k) * TWO32;
  }

  /** Only one id in the window has given low bits. */
  lemma WindowUnique(f: int, g: int, next: nat)
    requires InWindow(f, next) && InWindow(g, next) && f % TWO32 == g % TWO32
    ensures f == g
  {
    assert f - g == (f / TWO32 - g / TWO32) * TWO32;
  }

  /** For a normal xid the result is the one id in (next - 2^31, next + 2^31] with those low bits, replaced by the
      first normal id exactly when that one would be negative. */
  lemma WidenIs(xid: nat, next: nat, f: int)
    requires Normal32(xid) && NormalFull(next)
    requires InWindow(f, next) && f % TWO32 == xid
    ensures Widen(xid, next) == if f < 0 then FIRST_NORMAL else f
  {
    NearestIs(xid, next);
    WindowUnique(f, Nearest(xid, next), next);
  }

  /** A full id within the window of `next` is recovered from its low bits. */
  lemma WidenRecovers(f: nat, next: nat)
    requires NormalFull(f) && NormalFull(next) && InWindow(f, next)
    ensures Widen(f % TWO32, next) == f
  {
    WidenIs(f % TWO32, next, f);
  }

  // ---------------------------------------------------------------- bounds checks

  /** The oldest id that may be looked up, and the next to be handed out. */
  datatype Horizon = Horizon(oldest: nat, next: nat)

  predicate Proper(h: Horizon) {
    NormalFull(h.oldest) && NormalFull(h.next) && h.oldest <= h.next < h.oldest + TWO31
  }

  predicate Advanced(from: Horizon, to: Horizon) {
    Proper(from) && Proper(to) && from.oldest <= to.oldest && from.next <= to.next
  }

  datatype Bounds = Invalid | InFuture | PrecedesClusterMin | PrecedesRelMin | BoundsOk

  predicate InRange(f: nat, h: Horizon) {
    h.oldest <= f < h.next
  }

  function Judge(f: nat, h: Horizon, relfrozen: nat): Bounds {
    if h.next <= f then InFuture
    else if f < h.oldest then PrecedesClusterMin
    else if f < relfrozen then PrecedesRelMin
    else BoundsOk
  }

  /** The cached range a check of xid ends with, when the horizon has moved to `now`. */
  function CacheAfter(xid: nat, cache: Horizon, now: Horizon): Horizon
    requires xid < TWO32 && NormalFull(cache.next)
  {
    if xid < FIRST_NORMAL || InRange(Widen(xid, cache.next), cache) then cache else now
  }

  function CheckXid(xid: nat, cache: Horizon, relfrozen: nat, now: Horizon): Bounds
    requires xid < TWO32 && NormalFull(cache.next) && NormalFull(now.next)
  {
    if xid == 0 then Invalid
    else if xid < FIRST_NORMAL then BoundsOk
    else
      var h := CacheAfter(xid, cache, now);
      Judge(Widen(xid, h.next), h, relfrozen)
  }

  /** The part of the check context that get_xid_status uses for bounds. The cached oldest id is kept in both
      widths. */
  class HeapCheck {
    var nextFull: nat
    var nextXid: nat
    var oldestXid: nat
    var oldestFull: nat
    const relfrozen: nat

    ghost predicate Valid()
      reads this
    {
      Proper(Cache()) && nextXid == nextFull % TWO32
    }

    ghost function Cache(): Horizon
      reads this
    {
      Horizon(oldestFull, nextFull)
    }

    /** update_cached_xid_range followed by the conversion of the relation's own horizon. */
    constructor (now: Horizon, relfrozenXid: nat)
      requires Proper(now) && relfrozenXid < TWO32
      ensures Valid() && Cache() == now && relfrozen == Widen(relfrozenXid, now.next)
    {
      nextFull, nextXid := now.next, now.next % TWO32;
      oldestXid := now.oldest % TWO32;
      WidenRecovers(now.oldest, now.next);
      oldestFull := Widen(now.oldest % TWO32, now.next);
      relfrozen := Widen(relfrozenXid, now.next);
    }

    /** update_cached_xid_range: both ends of the new range are recovered exactly. */
    method Refresh(now: Horizon)
      requires Proper(now)
      modifies this
      ensures Valid() && Cache() == now
    {
      nextFull := now.next;
      oldestXid := now.oldest % TWO32;
      nextXid := nextFull % TWO32;
      WidenRecovers(now.oldest, now.next);
      oldestFull := Widen(oldestXid, nextFull);
    }

    /** get_xid_status without its commit status. */
    method GetXidBounds(xid: nat, now: Horizon) returns (v: Bounds)
      requires Valid() && xid < TWO32 && Advanced(Cache(), now)
      modifies this
      ensures Valid() && Cache() == CacheAfter(xid, old(Cache()), now)
      ensures v == CheckXid(xid, old(Cache()), relfrozen, now)
    {
      if xid == 0 {
        return Invalid;
      } else if xid < FIRST_NORMAL {
        return BoundsOk;
      }
      var f := Widen(xid, nextFull);
      if !(oldestFull <= f < nextFull) {
        Refresh(now);
        f := Widen(xid, nextFull);
      }
      if nextFull <= f {
        return InFuture;
      }
      if f < oldestFull {
        return PrecedesClusterMin;
      }
      if f < relfrozen {
        return PrecedesRelMin;
      }
      return BoundsOk;
    }
  }

  /** An id that really is in range is reported exactly when the stale horizon takes its low bits for another id,
      one in the stale range and before the relation's horizon. */
  lemma FalseAlarmExact(f: nat, cache: Horizon, relfrozen: nat, now: Horizon)
    requires Advanced(cache, now) && NormalFull(f) && InRange(f, now) && relfrozen <= f
    ensures var g := Widen(f % TWO32, cache.next);
            CheckXid(f % TWO32, cache, relfrozen, now) != BoundsOk <==> InRange(g, cache) && g < relfrozen
  {
    WidenRecovers(f, now.next);
  }

  /** With a horizon that moved by no more than 2^31 since it was cached there is no false alarm. */
  lemma NoFalseAlarm(f: nat, cache: Horizon, relfrozen: nat, now: Horizon)
    requires Advanced(cache, now) && NormalFull(f) && InRange(f, now) && relfrozen <= f
    requires now.next <= cache.next + TWO31
    ensures CheckXid(f % TWO32, cache, relfrozen, now) == BoundsOk
  {
    FalseAlarmExact(f, cache, relfrozen, now);
    WidenRecovers(f, cache.next);
  }

  /** While the oldest id is not past the next id of the cached horizon, as when the check's own snapshot holds it back,
      there is no false alarm either. */
  lemma NoFalseAlarmHeld(f: nat, cache: Horizon, relfrozen: nat, now: Horizon)
    requires Advanced(cache, now) && NormalFull(f) && InRange(f, now) && relfrozen <= f
    requires now.oldest <= cache.next
    ensures CheckXid(f % TWO32, cache, relfrozen, now) == BoundsOk
  {
    NoFalseAlarm(f, cache, relfrozen, now);
  }

  // ---------------------------------------------------------------- whole checks

  /** One id looked at, and the horizon of that moment. */
  datatype Look = Look(xid: nat, now: Horizon)

  function Latest(start: Horizon, ls: seq<Look>): Horizon {
    if ls == [] then start else ls[|ls| - 1].now
  }

  /** A check that starts from a cached range: horizons only advance. */
  predicate Looks(start: Horizon, ls: seq<Look>) {
    && Proper(start)
    && forall i :: 0 <= i < |ls| ==> ls[i].xid < TWO32 && Advanced(Latest(start, ls[..i]), ls[i].now)
  }

  /** The cached range after some looks. */
  ghost function CacheThen(start: Horizon, ls: seq<Look>): (h: Horizon)
    requires Looks(start, ls)
    ensures Advanced(start, h) && Advanced(h, Latest(start, ls))
  {
    if ls == [] then start
    else
      var n := |ls| - 1;
      LooksBefore(start, ls, n);
      assert Advanced(Latest(start, ls[..n]), ls[n].now);
      CacheAfter(ls[n].xid, CacheThen(start, ls[..n]), ls[n].now)
  }

  lemma LooksBefore(start: Horizon, ls: seq<Look>, n: nat)
    requires Looks(start, ls) && n <= |ls|
    ensures Looks(start, ls[..n])
  {
    forall i | 0 <= i < n
      ensures Advanced(Latest(start, ls[..n][..i]), ls[..n][i].now)
    {
      assert ls[..n][..i] == ls[..i];
    }
  }

  /** Throughout a check whose own snapshot holds the oldest id at or before the next id it started with, no valid id is
      reported, whatever else the check looked at before. */
  lemma {:induction false} CheckHasNoFalseAlarm(start: Horizon, ls: seq<Look>, i: nat, f: nat, relfrozen: nat)
    requires Looks(start, ls) && i < |ls| && ls[i].now.oldest <= start.next
    requires NormalFull(f) && InRange(f, ls[i].now) && relfrozen <= f && ls[i].xid == f % TWO32
    ensures Looks(start, ls[..i]) && CheckXid(ls[i].xid, CacheThen(start, ls[..i]), relfrozen, ls[i].now) == BoundsOk
  {
    LooksBefore(start, ls, i);
    assert Advanced(Latest(start, ls[..i]), ls[i].now);
    NoFalseAlarmHeld(f, CacheThen(start, ls[..i]), relfrozen, ls[i].now);
  }

  /** A horizon that moved further can make the check report a valid id. */
  lemma FalseAlarm()
    ensures var f, cache := 8_294_967_296, Horizon(4_000_000_000, 4_294_967_310);
            var relfrozen, now := 4_000_000_001, Horizon(8_294_967_000, 8_294_967_297);
            && Advanced(cache, now) && NormalFull(f) && InRange(f, now) && relfrozen <= f
            && CheckXid(f % TWO32, cache, relfrozen, now) == PrecedesRelMin
  {
    WidenIs(4_000_000_000, 4_294_967_310, 4_000_000_000);
  }

  /** An id that passes stands for a full id with its low bits within both horizons the check ends with, except
      for one from before the first epoch, which passes only while the oldest id is still the very first. */
  lemma PassIsInRange(xid: nat, cache: Horizon, relfrozen: nat, now: Horizon)
    requires Normal32(xid) && Advanced(cache, now) && CheckXid(xid, cache, relfrozen, now) == BoundsOk
    ensures var h := CacheAfter(xid, cache, now);
            && ((exists f: nat :: f % TWO32 == xid && InRange(f, h) && relfrozen <= f) <==> Nearest(xid, h.next) >= 0)
            && (Nearest(xid, h.next) < 0 ==> h.oldest == FIRST_NORMAL)
  {
    var h := CacheAfter(xid, cache, now);
    var g := Nearest(xid, h.next);
    NearestIs(xid, h.next);
    WidenIs(xid, h.next, g);
    forall f: nat | f % TWO32 == xid && InRange(f, h)
      ensures f == g
    {
      WindowUnique(f, g, h.next);
    }
    assert g >= 0 ==> InRange(g, h) && relfrozen <= g;
  }
}
