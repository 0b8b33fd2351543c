/** Building hstore values pair by pair (the HS_ADDITEM, HS_COPYITEM and HS_FINALIZE macros of
    contrib/hstore/hstore.h). */
module HstoreBuild {
  import opened ByteOrder
  import opened HstoreFormat
  import opened Options

  // ---------------------------------------------------------------- bytes

  /** The bytes of the first n pairs, end to end. */
  function Flat(ps: seq<Pair>, n: nat): (s: Bytes)
    requires n <= |ps|
    ensures |s| == Start(ps, n)
  {
    if n == 0 then [] else Flat(ps, n - 1) + ps[n - 1].key + ValueBytes(ps[n - 1])
  }

  lemma {:induction false} PrefixSame(ps: seq<Pair>, qs: seq<Pair>, n: nat)
    requires n <= |ps| && n <= |qs| && forall k :: 0 <= k < n ==> ps[k] == qs[k]
    ensures Start(ps, n) == Start(qs, n) && Flat(ps, n) == Flat(qs, n)
  {
    if n > 0 {
      PrefixSame(ps, qs, n - 1);
    }
  }

  lemma {:induction false} GivenGrows(ps: seq<Pair>, p: Pair)
    ensures var qs, n := ps + [p], |ps| + 1;
            && Start(qs, n) == Start(ps, |ps|) + |p.key| + |ValueBytes(p)|
            && Flat(qs, n) == Flat(ps, |ps|) + p.key + ValueBytes(p)
  {
    PrefixSame(ps, ps + [p], |ps|);
  }

  lemma HoldsLast(str: Bytes, p: Pair, t: Bytes)
    requires t == str + p.key + ValueBytes(p)
    ensures Holds(t, |str|, p)
  {
    assert t[|str|..|str| + |p.key|] == p.key;
    assert t[|str| + |p.key|..|str| + |p.key| + |ValueBytes(p)|] == ValueBytes(p);
  }

  lemma PrefixSlice(t: Bytes, n: nat, s: nat, e: nat)
    requires s <= e <= n <= |t|
    ensures t[..n][s..e] == t[s..e]
  {
  }

  lemma HoldsLonger(str: Bytes, t: Bytes, s: nat, p: Pair)
    requires Holds(str, s, p) && |str| <= |t| && t[..|str|] == str
    ensures Holds(t, s, p)
  {
    var (e, f) := (s + |p.key|, s + |p.key| + |ValueBytes(p)|);
    PrefixSlice(t, |str|, s, e);
    PrefixSlice(t, |str|, e, f);
  }

  lemma FlatStep(ps: seq<Pair>, n: nat)
    requires 0 < n <= |ps|
    ensures Start(ps, n - 1) <= |Flat(ps, n)| && Flat(ps, n)[..Start(ps, n - 1)] == Flat(ps, n - 1)
  {
  }

  lemma {:induction false} FlatHolds(ps: seq<Pair>, i: nat, n: nat)
    requires i < n <= |ps|
    ensures Holds(Flat(ps, n), Start(ps, i), ps[i])
    decreases n
  {
    if i == n - 1 {
      HoldsLast(Flat(ps, i), ps[i], Flat(ps, n));
    } else {
      FlatHolds(ps, i, n - 1);
      FlatStep(ps, n);
      HoldsLonger(Flat(ps, n - 1), Flat(ps, n), Start(ps, i), ps[i]);
    }
  }

  // ---------------------------------------------------------------- words

  /** The words of a pair whose bytes start at s. */
  function SlotFor(s: nat, p: Pair, isFirst: bool): Slot {
    Slot(s + |p.key| + (if isFirst then ISFIRST else 0),
         s + |p.key| + |ValueBytes(p)| + (if p.val.None? then ISNULL else 0))
  }

  lemma SlotMarks(s: nat, p: Pair, isFirst: bool)
    requires s + |p.key| + |ValueBytes(p)| < ISNULL
    ensures Marks(SlotFor(s, p, isFirst), s, p, isFirst)
  {
    assert SlotFor(s, p, isFirst).k == Word(s + |p.key|, false, isFirst);
    assert SlotFor(s, p, isFirst).v == Word(s + |p.key| + |ValueBytes(p)|, p.val.None?, false);
  }

  /** Positions below 2^30 survive the position mask. */
  function Masked(x: nat): (r: nat)
    ensures x < ISNULL ==> r == x
  {
    x % ISNULL
  }

  /** The words of the pairs; the first is flagged once the value is complete. */
  predicate Written(es: seq<Slot>, ps: seq<Pair>, complete: bool) {
    |es| == |ps| && forall i {:trigger es[i]} :: 0 <= i < |ps| ==>
      es[i] == SlotFor(Start(ps, i), ps[i], complete && i == 0)
  }

  lemma {:induction false} StartSame(ps: seq<Pair>, p: Pair, n: nat)
    requires n <= |ps|
    ensures Start(ps + [p], n) == Start(ps, n)
  {
    if n > 0 {
      StartSame(ps, p, n - 1);
      assert (ps + [p])[n - 1] == ps[n - 1];
    }
  }

  lemma {:induction false} SlotStays(es: seq<Slot>, ps: seq<Pair>, p: Pair, i: nat)
    requires Written(es, ps, false) && i < |ps|
    ensures es[i] == SlotFor(Start(ps + [p], i), ps[i], false)
  {
    StartSame(ps, p, i);
    assert es[i] == SlotFor(Start(ps, i), ps[i], false && i == 0);
  }

  lemma {:induction false} WrittenExtends(es: seq<Slot>, ps: seq<Pair>, p: Pair, e: Slot)
    requires Written(es, ps, false) && e == SlotFor(Start(ps, |ps|), p, false)
    ensures Written(es + [e], ps + [p], false)
  {
    var fs, qs := es + [e], ps + [p];
    StartSame(ps, p, |ps|);
    forall i | 0 <= i < |fs|
      ensures fs[i] == SlotFor(Start(qs, i), qs[i], false && i == 0)
    {
      if i < |ps| {
        SlotStays(es, ps, p, i);
        assert fs[i] == es[i] && qs[i] == ps[i];
      }
    }
  }

  lemma {:induction false} StartGrows(ps: seq<Pair>, m: nat, n: nat)
    requires m <= n <= |ps|
    ensures Start(ps, m) <= Start(ps, n)
  {
    if m < n {
      StartGrows(ps, m, n - 1);
    }
  }

  /** All positions fit in thirty bits. */
  predicate Fits(ps: seq<Pair>) {
    Start(ps, |ps|) < ISNULL
  }

  /** The words and bytes written for a list of pairs stand for it, and read back as it. */
  lemma {:induction false} WrittenDecodes(es: seq<Slot>, ps: seq<Pair>)
    requires Written(es, ps, true) && Fits(ps)
    ensures Encodes(es, Flat(ps, |ps|), ps) && Readable(es, Flat(ps, |ps|)) && Decode(es, Flat(ps, |ps|)) == ps
  {
    forall i | 0 <= i < |ps|
      ensures Marks(es[i], Start(ps, i), ps[i], i == 0) && Holds(Flat(ps, |ps|), Start(ps, i), ps[i])
    {
      FlatHolds(ps, i, |ps|);
      StartGrows(ps, i + 1, |ps|);
      SlotMarks(Start(ps, i), ps[i], i == 0);
    }
    EncodedDecodes(es, Flat(ps, |ps|), ps);
  }

  // ---------------------------------------------------------------- the code

  /** A value under construction in memory for `room` pairs: the string area starts behind room for that many. */
  class Builder {
    const room: nat
    const slots: array<Slot>
    const area: array<byte>    // everything behind the header; entries first
    var size: nat
    var vsize: nat
    var dent: nat
    var dptr: nat
    ghost var given: seq<Pair>

    ghost predicate Valid()
      reads this, slots, area
    {
      && slots.Length == room && size == room + NEWVERSION
      && dent == |given| <= room && Fits(given)
      && dptr == 8 * room + Start(given, |given|) <= area.Length
      && Written(slots[..dent], given, false)
      && area[8 * room..dptr] == Flat(given, |given|)
    }

    constructor (room: nat, strlen: nat)
      ensures Valid() && given == [] && fresh(slots) && fresh(area)
      ensures this.room == room && area.Length == 8 * room + strlen
    {
      this.room := room;
      slots := new Slot[room](_ => Slot(0, 0));
      area := new byte[8 * room + strlen](_ => 0);
      size, vsize, dent, dptr, given := room + NEWVERSION, 0, 0, 8 * room, [];
    }

    method CopyIn(s: Bytes, ghost from: nat)
      requires from <= dptr && dptr + |s| <= area.Length
      modifies this`dptr, area
      ensures dptr == old(dptr) + |s|
      ensures area[from..dptr] == old(area[from..dptr]) + s && area[..from] == old(area[..from])
    {
      forall i | 0 <= i < |s| {
        area[dptr + i] := s[i];
      }
      dptr := dptr + |s|;
    }

    /** The next pair would stay within the memory and the position limit. */
    ghost predicate RoomFor(p: Pair)
      reads this
    {
      && dent < room && dptr + |p.key| + |ValueBytes(p)| <= area.Length
      && Start(given, |given|) + |p.key| + |ValueBytes(p)| < ISNULL
    }

    /** HS_ADDITEM. */
    method AddItem(p: Pair)
      requires Valid() && RoomFor(p)
      modifies this`dptr, this`dent, this`given, slots, area
      ensures Valid() && given == old(given) + [p] && area[..8 * room] == old(area[..8 * room])
    {
      CopyIn(p.key, 8 * room);
      var k := Masked(dptr - 8 * room);
      var v;
      if p.val.None? {
        v := Masked(dptr - 8 * room) + ISNULL;
      } else {
        CopyIn(p.val.value, 8 * room);
        v := Masked(dptr - 8 * room);
      }
      Put(Slot(k, v), p);
    }

    /** HS_COPYITEM: key and value lie together in the source. A null has no bytes. */
    method CopyItem(src: Bytes, klen: nat, vlen: nat, vnull: bool)
      requires Valid() && |src| == klen + vlen && (vnull ==> vlen == 0)
      requires RoomFor(Pair(src[..klen], if vnull then None else Some(src[klen..])))
      modifies this`dptr, this`dent, this`given, slots, area
      ensures Valid()
      ensures given == old(given) + [Pair(src[..klen], if vnull then None else Some(src[klen..]))]
      ensures area[..8 * room] == old(area[..8 * room])
    {
      ghost var p := Pair(src[..klen], if vnull then None else Some(src[klen..]));
      assert src == p.key + ValueBytes(p);
      CopyIn(src, 8 * room);
      var k := Masked(dptr - 8 * room - vlen);
      var v := Masked(dptr - 8 * room) + if vnull then ISNULL else 0;
      Put(Slot(k, v), p);
    }

    method Put(e: Slot, ghost p: Pair)
      requires slots.Length == room && size == room + NEWVERSION && dent == |given| < room
      requires Written(slots[..dent], given, false) && e == SlotFor(Start(given, |given|), p, false)
      requires dptr == 8 * room + Start(given, |given|) + |p.key| + |ValueBytes(p)| <= area.Length
      requires dptr < 8 * room + ISNULL
      requires area[8 * room..dptr] == Flat(given, |given|) + p.key + ValueBytes(p)
      modifies this`dent, this`given, slots
      ensures Valid() && given == old(given) + [p]
    {
      slots[dent] := e;
      WrittenExtends(slots[..dent], given, p, e);
      GivenGrows(given, p);
      assert slots[..dent + 1] == slots[..dent] + [e];
      dent := dent + 1;
      given := given + [p];
    }

    /** memmove towards the start, byte by byte in rising order. */
    method MoveDown(dst: nat, src: nat, len: nat)
      requires dst <= src && src + len <= area.Length
      modifies area
      ensures area[dst..dst + len] == old(area[src..src + len]) && area[..dst] == old(area[..dst])
    {
      ghost var was := area[..];
      for i := 0 to len
        invariant area[..dst] == was[..dst] && area[dst..dst + i] == was[src..src + i]
        invariant area[src + i..] == was[src + i..]
      {
        var b := area[src + i];
        assert b == area[src + i..][0] == was[src + i];
        ghost var moved, rest := area[dst..dst + i], area[src + i + 1..];
        assert rest == was[src + i + 1..] by {
          assert rest == area[src + i..][1..] && was[src + i + 1..] == was[src + i..][1..];
        }
        area[dst + i] := b;
        assert area[dst..dst + (i + 1)] == moved + [b];
        assert area[src + (i + 1)..] == rest;
      }
    }

    method FlagFirst()
      requires dent == |given| <= slots.Length && Written(slots[..dent], given, false) && Fits(given)
      modifies slots
      ensures Written(slots[..dent], given, true)
    {
      ghost var es := slots[..dent];
      if dent > 0 {
        StartGrows(given, 1, |given|);
        assert es[0] == SlotFor(Start(given, 0), given[0], false);
        slots[0] := Slot(if IsFirst(slots[0].k) then slots[0].k else slots[0].k + ISFIRST, slots[0].v);
      }
    }

    /** The words and the bytes of the value, whose string area starts behind n entries. */
    ghost function Image(n: nat, len: nat): (seq<Slot>, Bytes)
      requires n <= slots.Length && 8 * n + len <= area.Length
      reads this, slots, area
    {
      (slots[..n], area[8 * n..8 * n + len])
    }

    /** The part of HS_FINALIZE that closes the gap and sets the sizes. */
    method Close(ghost bytes: Bytes)
      requires dent <= room && dptr == 8 * room + |bytes| <= area.Length && size == room + NEWVERSION
      requires area[8 * room..dptr] == bytes
      modifies this`size, this`vsize, area
      ensures size == dent + NEWVERSION && vsize == DataSize(dent, |bytes|)
      ensures area[8 * dent..8 * dent + |bytes|] == bytes && area[..8 * dent] == old(area[..8 * dent])
    {
      var buflen := dptr - 8 * room;
      if dent != room {
        size := dent + NEWVERSION;
        MoveDown(8 * dent, 8 * room, buflen);
      }
      vsize := DataSize(dent, buflen);
    }

    /** HS_FINALIZE with the number of pairs added, which may be less than there was room for. Moving the bytes down
        leaves the memory of the entries that stay alone. */
    method Finalize()
      requires Valid()
      modifies this`size, this`vsize, slots, area
      ensures size == |given| + NEWVERSION && vsize == DataSize(|given|, Start(given, |given|))
      ensures dent <= slots.Length && 8 * dent + Start(given, |given|) <= area.Length
      ensures Written(Image(dent, Start(given, |given|)).0, given, true)
      ensures Image(dent, Start(given, |given|)).1 == Flat(given, |given|)
      ensures area[..8 * dent] == old(area[..8 * dent])
    {
      FlagFirst();
      Close(Flat(given, |given|));
    }
  }

  /** A whole build: whatever room was set aside, and whichever pairs are copied from existing values (`copied`) rather
      than added, reading the result gives back the pairs. */
  method Build(ps: seq<Pair>, copied: set<nat>, spare: nat) returns (b: Builder, ghost es: seq<Slot>, ghost str: Bytes)
    requires Fits(ps)
    ensures |ps| <= b.slots.Length && 8 * |ps| + Start(ps, |ps|) <= b.area.Length
    ensures b.size == |ps| + NEWVERSION && b.vsize == DataSize(|ps|, Start(ps, |ps|))
    ensures (es, str) == b.Image(|ps|, Start(ps, |ps|))
    ensures Readable(es, str) && Decode(es, str) == ps
  {
    b := AddAll(ps, copied, spare);
    b.Finalize();
    es, str := b.Image(|ps|, Start(ps, |ps|)).0, b.Image(|ps|, Start(ps, |ps|)).1;
    WrittenDecodes(es, ps);
  }

  method AddAll(ps: seq<Pair>, copied: set<nat>, spare: nat) returns (b: Builder)
    requires Fits(ps)
    ensures b.Valid() && b.given == ps && fresh(b) && fresh(b.slots) && fresh(b.area)
  {
    b := new Builder(|ps| + spare, Start(ps, |ps|));
    AddItems(b, ps, copied);
  }

  /** Copies a pair whose bytes lie together in another value. */
  method Copy(b: Builder, p: Pair)
    requires b.Valid() && b.RoomFor(p)
    modifies b`dptr, b`dent, b`given, b.slots, b.area
    ensures b.Valid() && b.given == old(b.given) + [p]
  {
    var src, klen := p.key + ValueBytes(p), |p.key|;
    assert src[..klen] == p.key && src[klen..] == ValueBytes(p);
    b.CopyItem(src, klen, |src| - klen, p.val.None?);
  }

  method AddItems(b: Builder, ps: seq<Pair>, copied: set<nat>)
    requires Fits(ps) && b.Valid() && b.given == []
    requires b.room >= |ps| && b.area.Length == 8 * b.room + Start(ps, |ps|)
    modifies b, b.slots, b.area
    ensures b.Valid() && b.given == ps
  {
    for i := 0 to |ps|
      invariant b.Valid() && b.given == ps[..i]
    {
      NextFits(ps, i);
      if i in copied {
        Copy(b, ps[i]);
      } else {
        b.AddItem(ps[i]);
      }
      assert ps[..i + 1] == ps[..i] + [ps[i]];
    }
    assert ps[..|ps|] == ps;
  }

  lemma {:induction false} NextFits(ps: seq<Pair>, i: nat)
    requires i < |ps|
    ensures Start(ps[..i], i) + |ps[i].key| + |ValueBytes(ps[i])| <= Start(ps, |ps|)
  {
    PrefixSame(ps, ps[..i], i);
    StartGrows(ps, i + 1, |ps|);
  }
}
