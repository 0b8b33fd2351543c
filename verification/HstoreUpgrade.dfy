/** Upgrading old hstore values in place (contrib/hstore/hstore_compat.c), with the bit-field layout of a
    little-endian machine. */
module HstoreUpgrade {
  import opened ByteOrder
  import opened HstoreFormat
  import opened Options

  const MAX_COUNT: nat := 0xFFF_FFFF
  const MAX_SIZE: nat := 0x4000_0000

  // ---------------------------------------------------------------- the old reading of the two words

  function KeyLen(e: Slot): nat {
    e.k % 65536
  }

  function ValLen(e: Slot): nat {
    e.k / 65536
  }

  predicate ValNull(e: Slot) {
    e.v % 2 == 1
  }

  function Pos(e: Slot): nat {
    e.v / 2
  }

  function Length(e: Slot): nat {
    KeyLen(e) + if ValNull(e) then 0 else ValLen(e)
  }

  /** Where the i-th pair must start. */
  function OldStart(es: seq<Slot>, i: nat): nat
    requires i <= |es|
  {
    if i == 0 then 0 else OldStart(es, i - 1) + Length(es[i - 1])
  }

  predicate InPlace(es: seq<Slot>, i: nat)
    requires i < |es|
  {
    Pos(es[i]) == OldStart(es, i)
  }

  /** An old value: pairs contiguous from the start, keys by length, all within the value. */
  predicate OldOk(es: seq<Slot>, vsize: nat) {
    && (forall i :: 0 <= i < |es| ==> InPlace(es, i))
    && (forall i :: 1 <= i < |es| ==> KeyLen(es[i - 1]) <= KeyLen(es[i]))
    && DataSize(|es|, OldStart(es, |es|)) <= vsize
  }

  predicate OldReadable(es: seq<Slot>, str: Bytes) {
    forall i :: 0 <= i < |es| ==> Pos(es[i]) + Length(es[i]) <= |str|
  }

  function OldPairAt(es: seq<Slot>, str: Bytes, i: nat): Pair
    requires OldReadable(es, str) && i < |es|
  {
    var (s, k) := (Pos(es[i]), KeyLen(es[i]));
    Pair(str[s..s + k], if ValNull(es[i]) then None else Some(str[s + k..s + k + ValLen(es[i])]))
  }

  /** What the old accessors read out of a value. */
  function OldDecode(es: seq<Slot>, str: Bytes): (ps: seq<Pair>)
    requires OldReadable(es, str)
    ensures |ps| == |es|
  {
    seq(|es|, i requires 0 <= i < |es| => OldPairAt(es, str, i))
  }

  lemma {:induction false} OldStartGrows(es: seq<Slot>, m: nat, n: nat)
    requires m <= n <= |es|
    ensures OldStart(es, m) <= OldStart(es, n)
  {
    if m < n {
      OldStartGrows(es, m, n - 1);
    }
  }

  lemma OldBound(es: seq<Slot>, vsize: nat, i: nat)
    requires OldOk(es, vsize) && i < |es|
    ensures DataSize(|es|, Pos(es[i]) + Length(es[i])) <= vsize
  {
    assert InPlace(es, i);
    OldStartGrows(es, i + 1, |es|);
  }

  lemma OldSizes(es: seq<Slot>, str: Bytes, i: nat)
    requires OldReadable(es, str) && i < |es|
    ensures var p := OldPairAt(es, str, i);
            && |p.key| == KeyLen(es[i]) && |ValueBytes(p)| == Length(es[i]) - KeyLen(es[i])
            && (p.val.None? <==> ValNull(es[i]))
  {
  }

  lemma OldOkReadable(es: seq<Slot>, vsize: nat, str: Bytes)
    requires OldOk(es, vsize) && vsize <= DataSize(|es|, |str|)
    ensures OldReadable(es, str)
  {
    forall i | 0 <= i < |es|
      ensures Pos(es[i]) + Length(es[i]) <= |str|
    {
      OldBound(es, vsize, i);
    }
  }

  // ---------------------------------------------------------------- the new reading

  predicate RisesAt(es: seq<Slot>, i: nat)
    requires i < |es|
  {
    && EndPos(es[i].k) <= EndPos(es[i].v) && !IsFirst(es[i].v)
    && (i > 0 ==> EndPos(es[i - 1].v) <= EndPos(es[i].k) && !IsFirst(es[i].k))
  }

  function NewKeyLen(es: seq<Slot>, i: nat): int
    requires i < |es|
  {
    EndPos(es[i].k) - KeyOff(es, i)
  }

  function BufLen(es: seq<Slot>): nat {
    if es == [] then 0 else EndPos(es[|es| - 1].v)
  }

  /** A new-format value without its flag. */
  predicate NewOk(es: seq<Slot>, vsize: nat) {
    es != [] ==>
      && IsFirst(es[0].k) && DataSize(|es|, BufLen(es)) <= vsize
      && (forall i :: 0 <= i < |es| ==> RisesAt(es, i))
      && (forall i :: 1 <= i < |es| ==> NewKeyLen(es, i - 1) <= NewKeyLen(es, i) && !IsNull(es[i].k))
  }

  lemma {:induction false} EndsGrow(es: seq<Slot>, i: nat)
    requires i < |es| && forall k :: 0 <= k < |es| ==> RisesAt(es, k)
    ensures EndPos(es[i].v) <= BufLen(es)
    decreases |es| - i
  {
    if i < |es| - 1 {
      EndsGrow(es, i + 1);
      assert RisesAt(es, i + 1);
    }
  }

  /** A value that passes the new-format test can be read without leaving it. */
  lemma NewOkReadable(es: seq<Slot>, vsize: nat, str: Bytes)
    requires NewOk(es, vsize) && vsize <= DataSize(|es|, |str|)
    ensures Readable(es, str)
  {
    forall i | 0 <= i < |es|
      ensures KeyOff(es, i) <= EndPos(es[i].k) <= |str| && ValueOff(es, i) <= EndPos(es[i].v) <= |str|
    {
      EndsGrow(es, i);
      assert RisesAt(es, i);
    }
  }

  // ---------------------------------------------------------------- conversion

  /** The words written for one old entry, before the first is flagged. */
  function Converted(e: Slot): Slot {
    var vallen := if ValNull(e) then 0 else ValLen(e);
    Slot((Pos(e) + KeyLen(e)) % ISNULL,
         (Pos(e) + KeyLen(e) + vallen) % ISNULL + if ValNull(e) then ISNULL else 0)
  }

  function SetFirst(w: nat): nat {
    if IsFirst(w) then w else w + ISFIRST
  }

  function Flagged(es: seq<Slot>): seq<Slot> {
    if es == [] then [] else es[0 := Slot(SetFirst(es[0].k), es[0].v)]
  }

  function ConvertAll(es: seq<Slot>): seq<Slot> {
    seq(|es|, i requires 0 <= i < |es| => Converted(es[i]))
  }

  predicate SameLengths(ps: seq<Pair>, es: seq<Slot>) {
    |ps| == |es| && forall i {:trigger ps[i]} :: 0 <= i < |ps| ==> |ps[i].key| + |ValueBytes(ps[i])| == Length(es[i])
  }

  lemma {:induction false} StartsAgree(ps: seq<Pair>, es: seq<Slot>, i: nat)
    requires SameLengths(ps, es) && i <= |es|
    ensures Start(ps, i) == OldStart(es, i)
  {
    if i > 0 {
      StartsAgree(ps, es, i - 1);
    }
  }

  lemma DecodedLengths(es: seq<Slot>, str: Bytes)
    requires OldReadable(es, str)
    ensures SameLengths(OldDecode(es, str), es)
  {
    var ps := OldDecode(es, str);
    forall i | 0 <= i < |ps|
      ensures |ps[i].key| + |ValueBytes(ps[i])| == Length(es[i])
    {
      OldSizes(es, str, i);
    }
  }

  lemma ConvertedMarks(e: Slot, p: Pair, first: bool)
    requires Pos(e) + Length(e) < ISNULL && |p.key| == KeyLen(e) && |ValueBytes(p)| == Length(e) - KeyLen(e)
    requires p.val.None? <==> ValNull(e)
    ensures var c := Converted(e);
            Marks(if first then Slot(SetFirst(c.k), c.v) else c, Pos(e), p, first)
  {
    var c := Converted(e);
    assert c.k == Word(Pos(e) + KeyLen(e), false, false);
    assert c.v == Word(Pos(e) + Length(e), ValNull(e), false);
    assert SetFirst(c.k) == Word(Pos(e) + KeyLen(e), false, true);
  }

  lemma ConvertedHolds(es: seq<Slot>, str: Bytes, i: nat)
    requires OldReadable(es, str) && i < |es|
    ensures Holds(str, Pos(es[i]), OldPairAt(es, str, i))
  {
  }

  /** The conversion preserves meaning: the rewritten words, read as a new value, stand for the pairs the old
      accessors read. */
  lemma ConversionEncodes(es: seq<Slot>, vsize: nat, str: Bytes)
    requires OldOk(es, vsize) && vsize <= DataSize(|es|, |str|) && vsize < MAX_SIZE
    ensures OldReadable(es, str) && Encodes(Flagged(ConvertAll(es)), str, OldDecode(es, str))
  {
    OldOkReadable(es, vsize, str);
    var ps, fs := OldDecode(es, str), Flagged(ConvertAll(es));
    DecodedLengths(es, str);
    forall i | 0 <= i < |ps|
      ensures Marks(fs[i], Start(ps, i), ps[i], i == 0) && Holds(str, Start(ps, i), ps[i])
    {
      StartsAgree(ps, es, i);
      assert InPlace(es, i);
      OldBound(es, vsize, i);
      OldSizes(es, str, i);
      ConvertedMarks(es[i], OldPairAt(es, str, i), i == 0);
      ConvertedHolds(es, str, i);
    }
  }

  // ---------------------------------------------------------------- where the two readings meet

  lemma {:induction false} FirstStart(es: seq<Slot>)
    requires es != []
    ensures OldStart(es, 1) == Length(es[0])
  {
    assert OldStart(es, 0) == 0;
  }

  /** The first entry of a value that is valid either way: its value word is zero or one, its key no longer than that,
      and its stored value length one of two. */
  predicate Doubtful(e: Slot) {
    e.v <= 1 && KeyLen(e) <= e.v && (ValLen(e) == 32768 || ValLen(e) == 49152)
  }

  lemma DoubtfulIs(e: Slot)
    requires e.k < TWO32 && e.v < TWO32
    ensures Doubtful(e) <==> Pos(e) == 0 && IsFirst(e.k) && EndPos(e.k) <= EndPos(e.v)
  {
    var hi, lo := e.k / 65536, e.k % 65536;
    assert e.k == 65536 * hi + lo && hi < 65536;
    if Pos(e) == 0 {
      assert EndPos(e.v) == e.v <= 1;
      assert EndPos(e.k) == 65536 * (hi % 16384) + lo;
    }
  }

  /** A value that passes both tests starts with such an entry; unless its first value is null it is 32768 bytes longer
      than its entries. */
  lemma AmbiguousFirst(es: seq<Slot>, vsize: nat)
    requires es != [] && AllWords(es) && OldOk(es, vsize) && NewOk(es, vsize)
    ensures Doubtful(es[0]) && (!ValNull(es[0]) ==> DataSize(|es|, 32768) <= vsize)
  {
    assert InPlace(es, 0) && RisesAt(es, 0);
    DoubtfulIs(es[0]);
    FirstStart(es);
    OldStartGrows(es, 1, |es|);
  }

  /** With one entry that is exact: room for either reading is all that has to be added. */
  lemma AmbiguousExact(e: Slot, vsize: nat)
    requires e.k < TWO32 && e.v < TWO32
    ensures OldOk([e], vsize) && NewOk([e], vsize) <==>
              Doubtful(e) && DataSize(1, Length(e)) <= vsize && DataSize(1, e.v) <= vsize
  {
    var es := [e];
    DoubtfulIs(e);
    FirstStart(es);
    assert InPlace(es, 0) <==> Pos(e) == 0;
    assert RisesAt(es, 0) <==> EndPos(e.k) <= EndPos(e.v) && !IsFirst(e.v);
    assert Pos(e) == 0 ==> BufLen(es) == e.v;
  }

  /** Below 32 kB the shortcut for new values takes an old one exactly when its first value is null and a length of
      32768 or more was stored with it all the same; that null is then read as a string. */
  lemma ShortcutExact(es: seq<Slot>, vsize: nat)
    requires es != [] && es[0].k < TWO32 && OldOk(es, vsize) && vsize < 32768
    ensures IsFirst(es[0].k) <==> ValNull(es[0]) && ValLen(es[0]) >= 32768
    ensures IsFirst(es[0].k) ==> !IsNull(es[0].v)
  {
    assert InPlace(es, 0);
    FirstStart(es);
    OldStartGrows(es, 1, |es|);
  }

  /** What hstoreUpgrade makes of an old value. */
  function Upgraded(es: seq<Slot>, vsize: nat): seq<Slot> {
    if es != [] && vsize < 32768 && IsFirst(es[0].k) then es else Flagged(ConvertAll(es))
  }

  /** An old value keeps its meaning in the upgrade exactly when it has 32 kB, or its first value is not a null stored
      with a length of 32768 or more. */
  lemma MeaningKeptExact(es: seq<Slot>, vsize: nat, str: Bytes)
    requires AllWords(es) && OldOk(es, vsize) && vsize <= DataSize(|es|, |str|) && vsize < MAX_SIZE
    ensures OldReadable(es, str)
    ensures var now := Upgraded(es, vsize);
            Readable(now, str) && Decode(now, str) == OldDecode(es, str)
            <==> !(es != [] && vsize < 32768 && ValNull(es[0]) && ValLen(es[0]) >= 32768)
  {
    ConversionEncodes(es, vsize, str);
    EncodedDecodes(Flagged(ConvertAll(es)), str, OldDecode(es, str));
    if es != [] && vsize < 32768 {
      ShortcutExact(es, vsize);
      if IsFirst(es[0].k) && Readable(es, str) {
        assert Decode(es, str)[0].val.Some? && OldDecode(es, str)[0].val.None?;
      }
    }
  }

  /** Such a value, with a null read as an empty string; no byte of it is padding in either reading. */
  lemma NullBecomesEmpty()
    ensures var es, str: Bytes := [Slot(0x8000_0001, 1)], [97];
            && OldOk(es, 17) && OldReadable(es, str) && OldDecode(es, str) == [Pair([97], None)]
            && NewOk(es, 17) && Readable(es, str) && Decode(es, str) == [Pair([97], Some([]))]
            && DataSize(1, OldStart(es, 1)) == DataSize(1, BufLen(es)) == 17
  {
    var es, str: Bytes := [Slot(0x8000_0001, 1)], [97];
    assert OldStart(es, 1) == OldStart(es, 0) + Length(es[0]) == 1;
    assert InPlace(es, 0);
    assert OldPairAt(es, str, 0) == Pair([97], None);
    assert EndPos(0x8000_0001) == 1 && EndPos(1) == 1 && !IsNull(1) && KeyOff(es, 0) == 0;
    assert str[0..1] == [97] && str[1..1] == [];
    assert PairAt(es, str, 0) == Pair([97], Some([]));
    assert RisesAt(es, 0);
  }

  lemma ConvertedEndPos(e: Slot)
    requires Pos(e) + Length(e) < ISNULL
    ensures EndPos(Converted(e).v) == Pos(e) + Length(e)
  {
    assert Converted(e).v == Word(Pos(e) + Length(e), ValNull(e), false);
  }

  lemma ConvertedEnd(es: seq<Slot>, vsize: nat)
    requires OldOk(es, vsize) && vsize < MAX_SIZE
    ensures DataSize(|es|, BufLen(Flagged(ConvertAll(es)))) <= vsize
  {
    if es != [] {
      var n := |es| - 1;
      OldBound(es, vsize, n);
      var fs := Flagged(ConvertAll(es));
      assert |fs| == |es| && fs[n].v == Converted(es[n]).v;
      ConvertedEndPos(es[n]);
    }
  }

  // ---------------------------------------------------------------- the code

  method ConvertEntry(e: Slot) returns (c: Slot)
    ensures c == Converted(e)
  {
    var pos, keylen, vallen, isnull := Pos(e), KeyLen(e), ValLen(e), ValNull(e);
    if isnull {
      vallen := 0;
    }
    c := Slot((pos + keylen) % ISNULL, (pos + keylen + vallen) % ISNULL + if isnull then ISNULL else 0);
  }

  datatype Validity = NotValid | WithSlop | Exact

  /** HS_COUNT: the bits above are the version flag and three reserved ones. */
  function CountOf(size: nat): nat {
    size % (MAX_COUNT + 1)
  }

  /** A detoasted, writable value: varlena size, count and flags, as many entries as it counts, and all bytes after
      them. A value may count more entries than it has room for; those beyond it are then whatever memory holds. */
  class Value {
    var vsize: nat
    var size: nat
    const slots: array<Slot>
    const str: Bytes

    ghost predicate Valid()
      reads this, slots
    {
      && size < TWO32 && slots.Length == CountOf(size)
      && DataSize(0, 0) <= vsize <= DataSize(slots.Length, |str|) && vsize < MAX_SIZE
      && AllWords(slots[..])
    }

    /** hstoreValidNewFormat. */
    method ValidNew() returns (r: Validity)
      requires Valid()
      ensures r.NotValid? <==> size < NEWVERSION && !NewOk(slots[..], vsize)
      ensures r.Exact? && size < NEWVERSION && slots.Length > 0 ==> vsize == DataSize(slots.Length, BufLen(slots[..]))
    {
      var n := slots.Length;
      var buflen := if n > 0 then EndPos(slots[n - 1].v) else 0;
      if size >= NEWVERSION || n == 0 {
        return Exact;
      }
      if !IsFirst(slots[0].k) || DataSize(n, buflen) > vsize {
        return NotValid;
      }
      var rises := CheckRises();
      if !rises {
        return NotValid;
      }
      for i := 1 to n
        invariant forall k :: 1 <= k < i ==>
                    NewKeyLen(slots[..], k - 1) <= NewKeyLen(slots[..], k) && !IsNull(slots[k].k)
      {
        if NewKeyLen(slots[..], i) < NewKeyLen(slots[..], i - 1) {
          return NotValid;
        }
        if IsNull(slots[i].k) {
          return NotValid;
        }
      }
      return if DataSize(n, buflen) != vsize then WithSlop else Exact;
    }

    method CheckRises() returns (ok: bool)
      ensures ok <==> forall i :: 0 <= i < slots.Length ==> RisesAt(slots[..], i)
    {
      for i := 0 to slots.Length
        invariant forall k :: 0 <= k < i ==> RisesAt(slots[..], k)
      {
        if i > 0 && (IsFirst(slots[i].k) || EndPos(slots[i].k) < EndPos(slots[i - 1].v)) {
          assert !RisesAt(slots[..], i);
          return false;
        }
        if IsFirst(slots[i].v) || EndPos(slots[i].v) < EndPos(slots[i].k) {
          assert !RisesAt(slots[..], i);
          return false;
        }
      }
      return true;
    }

    /** hstoreValidOldFormat. */
    method ValidOld() returns (r: Validity)
      requires Valid()
      ensures r.NotValid? <==> size > MAX_COUNT || !OldOk(slots[..], vsize)
      ensures r.Exact? && slots.Length > 0 ==> vsize == DataSize(slots.Length, OldStart(slots[..], slots.Length))
    {
      var n := size;
      if size >= NEWVERSION {
        return NotValid;
      }
      if n == 0 {
        return Exact;
      }
      if n > MAX_COUNT || DataSize(n, 0) > vsize {
        return NotValid;
      }
      if Pos(slots[0]) != 0 {
        assert !InPlace(slots[..], 0);
        return NotValid;
      }
      for i := 1 to n
        invariant forall k :: 1 <= k < i ==> KeyLen(slots[k - 1]) <= KeyLen(slots[k])
      {
        if KeyLen(slots[i]) < KeyLen(slots[i - 1]) {
          assert !(KeyLen(slots[..][i - 1]) <= KeyLen(slots[..][i]));
          return NotValid;
        }
      }
      var lastpos := 0;
      for i := 0 to n
        invariant lastpos == OldStart(slots[..], i)
        invariant forall k :: 0 <= k < i ==> InPlace(slots[..], k)
      {
        if Pos(slots[i]) != lastpos {
          assert !InPlace(slots[..], i);
          return NotValid;
        }
        lastpos := lastpos + Length(slots[i]);
      }
      if DataSize(n, lastpos) > vsize {
        return NotValid;
      }
      return if DataSize(n, lastpos) != vsize then WithSlop else Exact;
    }

    /** The size of a value with these entries. */
    ghost function Needed(): nat
      reads slots
    {
      DataSize(slots.Length, BufLen(slots[..]))
    }

    /** Sets the version flag and the exact varlena size, which has 30 bits. */
    method Stamp()
      modifies this
      ensures size == slots.Length + NEWVERSION && vsize == Needed() % MAX_SIZE
      ensures Needed() < MAX_SIZE ==> vsize == Needed()
    {
      size := slots.Length + NEWVERSION;
      var n := slots.Length;
      vsize := DataSize(n, if n > 0 then EndPos(slots[n - 1].v) else 0) % MAX_SIZE;
    }

    /** The rewriting loop: each old entry is read before its two words are overwritten. */
    method Convert()
      modifies slots
      ensures slots[..] == Flagged(ConvertAll(old(slots[..])))
    {
      ghost var was := slots[..];
      for i := 0 to slots.Length
        invariant forall k :: 0 <= k < i ==> slots[k] == Converted(was[k])
        invariant forall k :: i <= k < slots.Length ==> slots[k] == was[k]
      {
        var e := ConvertEntry(slots[i]);
        slots[i] := e;
      }
      assert slots[..] == ConvertAll(was);
      if slots.Length > 0 {
        slots[0] := Slot(SetFirst(slots[0].k), slots[0].v);
      }
    }

    /** hstoreUpgrade takes the value for a new one whatever else it holds. */
    ghost predicate Shortcut()
      reads this, slots
    {
      slots.Length == 0 || (vsize < 32768 && IsFirst(slots[0].k))
    }

    ghost predicate Old()
      reads this, slots
    {
      size <= MAX_COUNT && OldOk(slots[..], vsize)
    }

    /** The part of hstoreUpgrade that tests both formats. */
    method UpgradeTested() returns (ok: bool)
      requires Valid() && 0 < size < NEWVERSION
      modifies this, slots
      ensures ok <==> old(Old()) || NewOk(old(slots[..]), old(vsize))
      ensures !ok ==> slots[..] == old(slots[..]) && size == old(size) && vsize == old(vsize)
      ensures ok ==> size == slots.Length + NEWVERSION && vsize == Needed() <= old(vsize)
      ensures !old(Old()) ==> slots[..] == old(slots[..])
      ensures old(Old()) ==>
                && OldReadable(old(slots[..]), str)
                && Encodes(slots[..], str, OldDecode(old(slots[..]), str))
    {
      var validNew := ValidNew();
      var validOld := ValidOld();
      if validOld.NotValid? {
        if validNew.NotValid? {
          return false;
        }
        assert Needed() <= vsize;
        Stamp();
        return true;
      }
      ConversionEncodes(slots[..], vsize, str);
      ConvertedEnd(slots[..], vsize);
      Convert();
      assert Needed() <= vsize;
      Stamp();
      return true;
    }

    /** hstoreUpgrade; false is the error for a value that is neither. */
    method Upgrade() returns (ok: bool)
      requires Valid()
      modifies this, slots
      ensures old(size) >= NEWVERSION ==> ok && slots[..] == old(slots[..]) && size == old(size) && vsize == old(vsize)
      ensures old(size) < NEWVERSION ==> (ok <==> old(Shortcut()) || old(Old()) || NewOk(old(slots[..]), old(vsize)))
      ensures !ok ==> slots[..] == old(slots[..]) && size == old(size) && vsize == old(vsize)
      ensures ok && old(size) < NEWVERSION ==>
                && size == slots.Length + NEWVERSION
                && if old(Shortcut()) then vsize == Needed() % MAX_SIZE else vsize == Needed() <= old(vsize)
      ensures ok && old(size) < NEWVERSION && (old(Shortcut()) || !old(Old())) ==> slots[..] == old(slots[..])
      ensures old(size) < NEWVERSION && !old(Shortcut()) && old(Old()) ==>
                && OldReadable(old(slots[..]), str)
                && Encodes(slots[..], str, OldDecode(old(slots[..]), str))
    {
      if size >= NEWVERSION {
        return true;
      }
      // where there is no entry, the word read in its place makes no difference
      var first: nat := *;
      if slots.Length > 0 {
        first := slots[0].k;
      }
      if size == 0 || (vsize < 32768 && IsFirst(first)) {
        assert Shortcut();
        Stamp();
        return true;
      }
      ok := UpgradeTested();
    }
  }
}
