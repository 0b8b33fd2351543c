/** Bloom signatures (contrib/bloom/blutils.c, blscan.c): each value sets a few pseudo-random bits, and a scan
    keeps the tuples whose bits include those of its keys. */
module BloomSignature {
  import opened BloomRandom
  import opened Options

  const WORD_BITS: nat := 16
  const MAX_LENGTH: nat := 256

  /** The words of a signature, written out as their bits; bit b is bit b % 16 of word b / 16. */
  type Signature = seq<bool>

  /** Options and hash functions of one index: signature length in words, bits per column. */
  datatype Config = Config(length: nat, bitSize: seq<nat>, hash: (nat, int) -> nat)

  predicate ValidConfig(c: Config) {
    1 <= c.length <= MAX_LENGTH && |c.bitSize| <= 32
  }

  function Zeros(length: nat): (s: Signature)
    ensures |s| == WORD_BITS * length
  {
    seq(WORD_BITS * length, _ => false)
  }

  /** SETBIT. For a bit outside the signature the C expression is undefined; the model leaves the words alone. */
  function SetBit(s: Signature, n: int): (r: Signature)
    ensures |r| == |s|
    ensures forall b :: 0 <= b < |s| ==> (r[b] <==> s[b] || b == n)
  {
    if 0 <= n < |s| then s[n := true] else s
  }

  function SetBits(s: Signature, bits: seq<int>): (r: Signature)
    ensures |r| == |s|
  {
    if bits == [] then s else SetBit(SetBits(s, bits[..|bits| - 1]), bits[|bits| - 1])
  }

  lemma {:induction false} SetBitsIs(s: Signature, bits: seq<int>, b: nat)
    requires b < |s|
    ensures SetBits(s, bits)[b] <==> s[b] || b in bits
  {
    if bits != [] {
      var n := |bits| - 1;
      SetBitsIs(s, bits[..n], b);
      assert bits == bits[..n] + [bits[n]];
    }
  }

  /** The test of one word: the tuple's word and the scan's word is the scan's word. */
  predicate WordKept(t: Signature, q: Signature, i: nat)
    requires |t| == |q| && WORD_BITS * i + WORD_BITS <= |q|
  {
    forall b :: WORD_BITS * i <= b < WORD_BITS * i + WORD_BITS && q[b] ==> t[b]
  }

  /** Inclusion of bit sets. */
  predicate Superset(t: Signature, q: Signature) {
    |t| == |q| && forall b :: 0 <= b < |q| && q[b] ==> t[b]
  }

  /** The word loop of blgetbitmap, which stops at the first word that fails, decides inclusion. */
  method SignatureMatches(t: Signature, q: Signature, length: nat) returns (res: bool)
    requires |t| == |q| == WORD_BITS * length
    ensures res <==> Superset(t, q)
  {
    res := true;
    for i := 0 to length
      invariant res
      invariant forall b :: 0 <= b < WORD_BITS * i && q[b] ==> t[b]
    {
      if !WordKept(t, q, i) {
        res := false;
        break;
      }
    }
  }

  // ---------------------------------------------------------------- signing a value

  /** Bitwise exclusive or of the low w bits. */
  function Xor(a: nat, b: nat, w: nat): nat {
    if w == 0 then 0 else BitXor(a % 2, b % 2) + 2 * Xor(a / 2, b / 2, w - 1)
  }

  function BitXor(x: nat, y: nat): nat {
    if x == y then 0 else 1
  }

  function Pow2(w: nat): nat {
    if w == 0 then 1 else 2 * Pow2(w - 1)
  }

  lemma {:induction false} XorBound(a: nat, b: nat, w: nat)
    ensures Xor(a, b, w) < Pow2(w)
  {
    if w > 0 {
      XorBound(a / 2, b / 2, w - 1);
    }
  }

  /** The lowest bit and the rest are combined separately. */
  lemma XorStep(d: nat, h: nat, b: nat, w: nat)
    requires d < 2 && w > 0
    ensures Xor(d + 2 * h, b, w) == BitXor(d, b % 2) + 2 * Xor(h, b / 2, w - 1)
  {
    var x := d + 2 * h;
    assert x / 2 == h && x % 2 == d;
  }

  lemma {:induction false} XorUndo(a: nat, b: nat, w: nat)
    requires a < Pow2(w)
    ensures Xor(Xor(a, b, w), b, w) == a
  {
    if w > 0 {
      var d, h := a % 2, a / 2;
      XorUndo(h, b / 2, w - 1);
      XorStep(d, h, b, w);
      XorStep(BitXor(d, b % 2), Xor(h, b / 2, w - 1), b, w);
    }
  }

  lemma Pow2of32()
    ensures Pow2(32) == 0x1_0000_0000
  {
    assert Pow2(8) == 256;
    Pow2Add(8, 8);
    Pow2Add(16, 16);
  }

  lemma {:induction false} Pow2Add(a: nat, b: nat)
    ensures Pow2(a + b) == Pow2(a) * Pow2(b)
  {
    if a > 0 {
      Pow2Add(a - 1, b);
    }
  }

  /** The number the column alone contributes. */
  function ColumnSalt(attno: nat): nat
    requires attno < 32
  {
    SaltInRange(attno);
    Advance(Seeded(attno)) - 1
  }

  lemma SaltInRange(attno: nat)
    requires attno < 32
    ensures 1 <= Advance(Seeded(attno)) < MODULUS
  {
    SeededIs(attno);
    AdvanceIs(Seeded(attno));
  }

  /** The seed of the bit sequence of a hashed value in a column. */
  function ValueSeed(hash: nat, attno: nat): (seed: nat)
    requires attno < 32
    ensures seed < 0x1_0000_0000
  {
    XorBound(hash, ColumnSalt(attno), 32);
    Pow2of32();
    Xor(hash, ColumnSalt(attno), 32)
  }

  /** The j-th bit number a generator started at n0 gives for a signature of `width` bits. */
  function NthBit(n0: int, j: nat, width: nat): int
    requires width > 0
  {
    TruncMod(Iterate(n0, j + 1) - 1, width)
  }

  /** The bit numbers signValue sets, in order. They depend on the value and the column and nothing else. */
  function SignBits(width: nat, n: nat, hash: nat, attno: nat): (bits: seq<int>)
    requires width > 0 && attno < 32
    ensures |bits| == n
  {
    var n0 := Seeded(ValueSeed(hash, attno));
    seq(n, j requires 0 <= j < n => NthBit(n0, j, width))
  }

  lemma TruncModIs(a: int, b: int)
    requires b > 1 && a >= -1
    ensures a == -1 ==> TruncMod(a, b) == -1
    ensures a >= 0 ==> 0 <= TruncMod(a, b) < b
  {
    if a == -1 {
      assert 1 % b == 1;
    }
  }

  lemma NthBitIs(n0: int, j: nat, width: nat)
    requires InRange(n0) && width > 1
    ensures n0 == 0 ==> NthBit(n0, j, width) == -1
    ensures n0 != 0 ==> 0 <= NthBit(n0, j, width) < width
  {
    IterateIs(n0, j + 1);
    TruncModIs(Iterate(n0, j + 1) - 1, width);
  }

  /** The chosen bits lie within the signature exactly when the seed is not one of the two bad ones. */
  lemma SignBitsInRange(width: nat, n: nat, hash: nat, attno: nat)
    requires width > 1 && n > 0 && attno < 32
    ensures (forall j :: 0 <= j < n ==> 0 <= SignBits(width, n, hash, attno)[j] < width)
            <==> !BadSeed(ValueSeed(hash, attno))
  {
    var n0 := Seeded(ValueSeed(hash, attno));
    SeededIs(ValueSeed(hash, attno));
    var bits := SignBits(width, n, hash, attno);
    forall j | 0 <= j < n
      ensures if n0 == 0 then bits[j] == -1 else 0 <= bits[j] < width
    {
      NthBitIs(n0, j, width);
    }
    assert n0 == 0 ==> bits[0] == -1;
  }

  /** Every column has exactly two hash values with a bad seed. */
  lemma TwoBadHashes(attno: nat) returns (x: nat, y: nat)
    requires attno < 32
    ensures x != y && x < 0x1_0000_0000 && y < 0x1_0000_0000
    ensures forall hash: nat :: hash < 0x1_0000_0000 ==> (BadSeed(ValueSeed(hash, attno)) <==> hash == x || hash == y)
  {
    var salt := ColumnSalt(attno);
    x, y := Xor(0xFFFF_FFFF, salt, 32), Xor(0x8000_0001, salt, 32);
    Pow2of32();
    XorBound(0xFFFF_FFFF, salt, 32);
    XorBound(0x8000_0001, salt, 32);
    XorUndo(0xFFFF_FFFF, salt, 32);
    XorUndo(0x8000_0001, salt, 32);
    forall hash: nat | hash < 0x1_0000_0000
      ensures BadSeed(ValueSeed(hash, attno)) <==> hash == x || hash == y
    {
      XorUndo(hash, salt, 32);
    }
  }

  method StartSequence(gen: Generator, hash: nat, attno: nat)
    requires attno < 32
    modifies gen
    ensures gen.Valid() && gen.next as int == Seeded(ValueSeed(hash, attno))
  {
    gen.Srand(attno);
    var salt := gen.Rand();
    assert salt as int == ColumnSalt(attno);
    ghost var seed := ValueSeed(hash, attno);
    gen.Srand(Xor(hash, salt as int, 32));
  }

  /** signValue on the signature array; whatever the generator held before is forgotten. */
  method SignValue(gen: Generator, sign: array<bool>, hash: nat, attno: nat, n: nat)
    requires attno < 32 && sign.Length > 0
    modifies gen, sign
    ensures sign[..] == SetBits(old(sign[..]), SignBits(sign.Length, n, hash, attno))
  {
    StartSequence(gen, hash, attno);
    ghost var n0 := gen.next as int;
    ghost var bits := SignBits(sign.Length, n, hash, attno);
    for j := 0 to n
      invariant gen.Valid() && gen.next as int == Iterate(n0, j)
      invariant sign[..] == SetBits(old(sign[..]), bits[..j])
    {
      var x := gen.Rand();
      var nBit := TruncMod(x as int, sign.Length);
      assert bits[j] == NthBit(n0, j, sign.Length) == nBit;
      SetBitsNext(old(sign[..]), bits, j);
      if 0 <= nBit < sign.Length {
        sign[nBit] := true;
      }
    }
    assert bits[..n] == bits;
  }

  lemma {:induction false} SetBitsNext(s: Signature, bits: seq<int>, j: nat)
    requires j < |bits|
    ensures SetBits(s, bits[..j + 1]) == SetBit(SetBits(s, bits[..j]), bits[j])
  {
    assert bits[..j + 1][..j] == bits[..j];
  }

  // ---------------------------------------------------------------- tuples and scans

  type Row = seq<Option<int>>

  predicate RowOk(c: Config, row: Row) {
    ValidConfig(c) && |row| == |c.bitSize|
  }

  function ValueBits(c: Config, attno: nat, value: int): seq<int>
    requires ValidConfig(c) && attno < |c.bitSize|
  {
    SignBits(WORD_BITS * c.length, c.bitSize[attno], c.hash(attno, value), attno)
  }

  /** The bits each column asks for; none for a null. */
  function RowBits(c: Config, row: Row): (bs: seq<Option<seq<int>>>)
    requires RowOk(c, row)
    ensures |bs| == |row|
  {
    seq(|row|, i requires 0 <= i < |row| => if row[i].None? then None else Some(ValueBits(c, i, row[i].value)))
  }

  /** The signature of the first n of a list of bit choices. */
  function Blend(length: nat, bs: seq<Option<seq<int>>>, n: nat): (s: Signature)
    requires n <= |bs|
    ensures |s| == WORD_BITS * length
  {
    if n == 0 then Zeros(length)
    else if bs[n - 1].None? then Blend(length, bs, n - 1)
    else SetBits(Blend(length, bs, n - 1), bs[n - 1].value)
  }

  function TupleSign(c: Config, row: Row): Signature
    requires RowOk(c, row)
  {
    Blend(c.length, RowBits(c, row), |row|)
  }

  datatype ScanKey = ScanKey(attno: nat, value: int)

  predicate KeysOk(c: Config, keys: seq<ScanKey>) {
    ValidConfig(c) && forall i :: 0 <= i < |keys| ==> keys[i].attno < |c.bitSize|
  }

  function KeyBits(c: Config, keys: seq<ScanKey>): (bs: seq<Option<seq<int>>>)
    requires KeysOk(c, keys)
    ensures |bs| == |keys|
  {
    seq(|keys|, i requires 0 <= i < |keys| => Some(ValueBits(c, keys[i].attno, keys[i].value)))
  }

  /** The signature of a scan with no null key. */
  function ScanSign(c: Config, keys: seq<ScanKey>): Signature
    requires KeysOk(c, keys)
  {
    Blend(c.length, KeyBits(c, keys), |keys|)
  }

  predicate Asks(bs: seq<Option<seq<int>>>, i: nat, b: int)
    requires i < |bs|
  {
    bs[i].Some? && b in bs[i].value
  }

  /** A bit of a signature is set exactly when some non-null column asks for it. */
  lemma {:induction false} BlendIs(length: nat, bs: seq<Option<seq<int>>>, n: nat, b: nat)
    requires n <= |bs| && b < WORD_BITS * length
    ensures Blend(length, bs, n)[b] <==> exists i :: 0 <= i < n && Asks(bs, i, b)
  {
    if n > 0 {
      BlendIs(length, bs, n - 1, b);
      if bs[n - 1].Some? {
        SetBitsIs(Blend(length, bs, n - 1), bs[n - 1].value, b);
      }
      assert Asks(bs, n - 1, b) ==> exists i :: 0 <= i < n && Asks(bs, i, b);
    }
  }

  predicate RowEquals(row: Row, keys: seq<ScanKey>) {
    forall i :: 0 <= i < |keys| ==> keys[i].attno < |row| && row[keys[i].attno] == Some(keys[i].value)
  }

  lemma {:induction false} FewerChoices(length: nat, ts: seq<Option<seq<int>>>, qs: seq<Option<seq<int>>>)
    requires forall i :: 0 <= i < |qs| ==> qs[i] in ts
    ensures Superset(Blend(length, ts, |ts|), Blend(length, qs, |qs|))
  {
    var t, q := Blend(length, ts, |ts|), Blend(length, qs, |qs|);
    forall b | 0 <= b < |q| && q[b]
      ensures t[b]
    {
      BlendIs(length, qs, |qs|, b);
      BlendIs(length, ts, |ts|, b);
      var i :| 0 <= i < |qs| && Asks(qs, i, b);
      var j :| 0 <= j < |ts| && ts[j] == qs[i];
      assert Asks(ts, j, b);
    }
  }

  /** No false negatives: a row whose columns equal the scan keys passes the signature test. */
  lemma MatchingRowPasses(c: Config, row: Row, keys: seq<ScanKey>)
    requires RowOk(c, row) && KeysOk(c, keys) && RowEquals(row, keys)
    ensures Superset(TupleSign(c, row), ScanSign(c, keys))
  {
    var ts, qs := RowBits(c, row), KeyBits(c, keys);
    forall i | 0 <= i < |qs|
      ensures qs[i] in ts
    {
      assert ts[keys[i].attno] == qs[i];
    }
    FewerChoices(c.length, ts, qs);
  }

  method SignColumn(c: Config, gen: Generator, sign: array<bool>, attno: nat, value: int)
    requires ValidConfig(c) && attno < |c.bitSize| && sign.Length == WORD_BITS * c.length
    modifies gen, sign
    ensures sign[..] == SetBits(old(sign[..]), ValueBits(c, attno, value))
  {
    SignValue(gen, sign, c.hash(attno, value), attno, c.bitSize[attno]);
  }

  method NewSign(length: nat) returns (sign: array<bool>)
    ensures fresh(sign) && sign[..] == Zeros(length)
  {
    sign := new bool[WORD_BITS * length](_ => false);
  }

  /** BloomFormTuple. */
  method FormTuple(c: Config, gen: Generator, row: Row) returns (sign: array<bool>)
    requires RowOk(c, row)
    modifies gen
    ensures fresh(sign) && sign[..] == TupleSign(c, row)
  {
    sign := NewSign(c.length);
    ghost var bs := RowBits(c, row);
    for i := 0 to |row|
      invariant sign[..] == Blend(c.length, bs, i)
    {
      if row[i].None? {
        continue;
      }
      SignColumn(c, gen, sign, i, row[i].value);
    }
  }

  predicate Extends(c: Config, k: ScanKey, before: Signature, after: Signature)
    requires ValidConfig(c) && k.attno < |c.bitSize|
  {
    after == SetBits(before, ValueBits(c, k.attno, k.value))
  }

  lemma ScanStages(c: Config, keys: seq<ScanKey>) returns (stages: seq<Signature>)
    requires KeysOk(c, keys)
    ensures |stages| == |keys| + 1 && stages[0] == Zeros(c.length) && stages[|keys|] == ScanSign(c, keys)
    ensures forall i :: 0 <= i < |stages| ==> |stages[i]| == WORD_BITS * c.length
    ensures forall i :: 0 <= i < |keys| ==> Extends(c, keys[i], stages[i], stages[i + 1])
  {
    stages := seq(|keys| + 1, i requires 0 <= i <= |keys| => Blend(c.length, KeyBits(c, keys), i));
  }

  method SignKey(c: Config, gen: Generator, sign: array<bool>, k: ScanKey, ghost after: Signature)
    requires ValidConfig(c) && k.attno < |c.bitSize|
    requires sign.Length == WORD_BITS * c.length && Extends(c, k, sign[..], after)
    modifies gen, sign
    ensures sign[..] == after
  {
    SignColumn(c, gen, sign, k.attno, k.value);
  }

  /** The first half of blgetbitmap. */
  method FormScan(c: Config, gen: Generator, keys: seq<ScanKey>) returns (sign: array<bool>)
    requires KeysOk(c, keys)
    modifies gen
    ensures fresh(sign) && sign[..] == ScanSign(c, keys)
  {
    sign := NewSign(c.length);
    ghost var stages := ScanStages(c, keys);
    for i := 0 to |keys|
      invariant sign[..] == stages[i]
    {
      SignKey(c, gen, sign, keys[i], stages[i + 1]);
    }
  }
}
