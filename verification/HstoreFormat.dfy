/** The layout of hstore values (contrib/hstore/hstore.h): two 32-bit words a pair, then the bytes of all keys and
    values end to end. */
module HstoreFormat {
  import opened ByteOrder
  import opened Options

  const ISFIRST: nat := 0x8000_0000
  const ISNULL: nat := 0x4000_0000
  const NEWVERSION: nat := 0x8000_0000
  const TWO32: nat := 0x1_0000_0000

  datatype Pair = Pair(key: Bytes, val: Option<Bytes>)

  function ValueBytes(p: Pair): Bytes {
    if p.val.Some? then p.val.value else []
  }

  // ---------------------------------------------------------------- words, below 2^32

  predicate IsFirst(w: nat) {
    w >= ISFIRST
  }

  predicate IsNull(w: nat) {
    w % ISFIRST >= ISNULL
  }

  function EndPos(w: nat): nat {
    w % ISNULL
  }

  /** A word from its position and flags. */
  function Word(pos: nat, isNull: bool, isFirst: bool): (w: nat)
    requires pos < ISNULL
    ensures w < TWO32 && EndPos(w) == pos && (IsNull(w) <==> isNull) && (IsFirst(w) <==> isFirst)
  {
    pos + (if isNull then ISNULL else 0) + (if isFirst then ISFIRST else 0)
  }

  /** The two words of a pair: HEntry 2i for its key and 2i + 1 for its value. */
  datatype Slot = Slot(k: nat, v: nat)

  predicate AllWords(es: seq<Slot>) {
    forall i :: 0 <= i < |es| ==> es[i].k < TWO32 && es[i].v < TWO32
  }

  // ---------------------------------------------------------------- reading

  /** HSE_OFF of the i-th key: the end of the word before it, unless it is flagged first. */
  function KeyOff(es: seq<Slot>, i: nat): nat
    requires i < |es|
  {
    if IsFirst(es[i].k) || i == 0 then 0 else EndPos(es[i - 1].v)
  }

  /** HSE_OFF of the i-th value. */
  function ValueOff(es: seq<Slot>, i: nat): nat
    requires i < |es|
  {
    if IsFirst(es[i].v) then 0 else EndPos(es[i].k)
  }

  /** The accessors stay within the string area. */
  predicate Readable(es: seq<Slot>, str: Bytes) {
    && (es != [] ==> IsFirst(es[0].k))
    && forall i :: 0 <= i < |es| ==>
         KeyOff(es, i) <= EndPos(es[i].k) <= |str| && ValueOff(es, i) <= EndPos(es[i].v) <= |str|
  }

  function PairAt(es: seq<Slot>, str: Bytes, i: nat): Pair
    requires Readable(es, str) && i < |es|
  {
    Pair(str[KeyOff(es, i)..EndPos(es[i].k)],
         if IsNull(es[i].v) then None else Some(str[ValueOff(es, i)..EndPos(es[i].v)]))
  }

  /** What the accessors read out of a value. */
  function Decode(es: seq<Slot>, str: Bytes): (ps: seq<Pair>)
    requires Readable(es, str)
    ensures |ps| == |es|
  {
    seq(|es|, i requires 0 <= i < |es| => PairAt(es, str, i))
  }

  // ---------------------------------------------------------------- what a value stands for

  /** Where the i-th pair starts in the string area. */
  function Start(ps: seq<Pair>, i: nat): nat
    requires i <= |ps|
  {
    if i == 0 then 0 else Start(ps, i - 1) + |ps[i - 1].key| + |ValueBytes(ps[i - 1])|
  }

  /** The bytes at s are the pair's. */
  predicate Holds(str: Bytes, s: nat, p: Pair) {
    && s + |p.key| + |ValueBytes(p)| <= |str|
    && str[s..s + |p.key|] == p.key
    && str[s + |p.key|..s + |p.key| + |ValueBytes(p)|] == ValueBytes(p)
  }

  /** The words of a pair whose bytes start at s. */
  predicate Marks(e: Slot, s: nat, p: Pair, isFirst: bool) {
    && e.k < TWO32 && e.v < TWO32
    && EndPos(e.k) == s + |p.key| && EndPos(e.v) == s + |p.key| + |ValueBytes(p)|
    && (IsFirst(e.k) <==> isFirst) && !IsFirst(e.v)
    && (IsNull(e.v) <==> p.val.None?)
  }

  /** The value stands for the pairs. */
  predicate Encodes(es: seq<Slot>, str: Bytes, ps: seq<Pair>) {
    && |es| == |ps|
    && forall i {:trigger es[i]} :: 0 <= i < |ps| ==>
         Marks(es[i], Start(ps, i), ps[i], i == 0) && Holds(str, Start(ps, i), ps[i])
  }

  lemma {:induction false} EncodedOffsets(es: seq<Slot>, str: Bytes, ps: seq<Pair>, i: nat)
    requires Encodes(es, str, ps) && i < |ps|
    ensures KeyOff(es, i) == Start(ps, i) && EndPos(es[i].k) == Start(ps, i) + |ps[i].key|
    ensures ValueOff(es, i) == EndPos(es[i].k) && EndPos(es[i].v) == Start(ps, i + 1) <= |str|
  {
    assert Marks(es[i], Start(ps, i), ps[i], i == 0) && Holds(str, Start(ps, i), ps[i]);
    if i > 0 {
      assert Marks(es[i - 1], Start(ps, i - 1), ps[i - 1], i - 1 == 0);
    }
  }

  lemma EncodedReadable(es: seq<Slot>, str: Bytes, ps: seq<Pair>)
    requires Encodes(es, str, ps)
    ensures Readable(es, str)
  {
    forall i | 0 <= i < |es|
      ensures KeyOff(es, i) <= EndPos(es[i].k) <= |str| && ValueOff(es, i) <= EndPos(es[i].v) <= |str|
    {
      EncodedOffsets(es, str, ps, i);
    }
    if es != [] {
      assert Marks(es[0], Start(ps, 0), ps[0], 0 == 0);
    }
  }

  lemma CutOut(str: Bytes, s: nat, p: Pair, k0: nat, k1: nat, v0: nat, v1: nat, isNull: bool)
    requires Holds(str, s, p) && k0 == s && k1 == v0 == s + |p.key| && v1 == v0 + |ValueBytes(p)|
    requires isNull <==> p.val.None?
    ensures Pair(str[k0..k1], if isNull then None else Some(str[v0..v1])) == p
  {
  }

  lemma EncodedPair(es: seq<Slot>, str: Bytes, ps: seq<Pair>, i: nat)
    requires Encodes(es, str, ps) && Readable(es, str) && i < |ps|
    ensures PairAt(es, str, i) == ps[i]
  {
    EncodedOffsets(es, str, ps, i);
    var s := Start(ps, i);
    CutOut(str, s, ps[i], KeyOff(es, i), EndPos(es[i].k), ValueOff(es, i), EndPos(es[i].v), IsNull(es[i].v));
  }

  /** Reading a value gives back the pairs it stands for: keys, values and nulls, in order. */
  lemma EncodedDecodes(es: seq<Slot>, str: Bytes, ps: seq<Pair>)
    requires Encodes(es, str, ps)
    ensures Readable(es, str) && Decode(es, str) == ps
  {
    EncodedReadable(es, str, ps);
    forall i | 0 <= i < |ps|
      ensures PairAt(es, str, i) == ps[i]
    {
      EncodedPair(es, str, ps, i);
    }
  }

  /** A value stands for at most one list of pairs. */
  lemma EncodingInjective(es: seq<Slot>, str: Bytes, ps: seq<Pair>, qs: seq<Pair>)
    requires Encodes(es, str, ps) && Encodes(es, str, qs)
    ensures ps == qs
  {
    EncodedDecodes(es, str, ps);
    EncodedDecodes(es, str, qs);
  }

  /** End positions never decrease from one word to the next. */
  lemma EncodedRises(es: seq<Slot>, str: Bytes, ps: seq<Pair>, i: nat)
    requires Encodes(es, str, ps) && i < |es|
    ensures EndPos(es[i].k) <= EndPos(es[i].v) && (i > 0 ==> EndPos(es[i - 1].v) <= EndPos(es[i].k))
  {
    EncodedOffsets(es, str, ps, i);
    if i > 0 {
      EncodedOffsets(es, str, ps, i - 1);
    }
  }

  /** CALCDATASIZE. */
  function DataSize(count: nat, strlen: nat): nat {
    8 * count + 8 + strlen
  }
}
