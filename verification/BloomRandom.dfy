/** The bloom index's own random generator (contrib/bloom/blutils.c), in 32-bit signed arithmetic with C's
    truncating division. */
module BloomRandom {

  newtype int32 = x: int | -0x8000_0000 <= x < 0x8000_0000

  const MODULUS: int := 0x7fff_ffff

  function TruncDiv(a: int, b: int): int
    requires b > 0
  {
    if a >= 0 then a / b else -((-a) / b)
  }

  function TruncMod(a: int, b: int): int
    requires b > 0
  {
    if a >= 0 then a % b else -((-a) % b)
  }

  /** The value `next` takes in myRand. */
  function Advance(n: int): int {
    var x := 16807 * TruncMod(n, 127773) - 2836 * TruncDiv(n, 127773);
    if x < 0 then x + MODULUS else x
  }

  /** The value `next` takes in mySrand: the unsigned seed is first stored in a signed 32-bit variable. */
  function Seeded(seed: nat): int
    requires seed < 0x1_0000_0000
  {
    var s := if seed < 0x8000_0000 then seed as int else seed - 0x1_0000_0000;
    TruncMod(s, 0x7fff_fffe) + 1
  }

  /** The two seeds that leave the generator at zero. */
  predicate BadSeed(seed: nat) {
    seed == 0xFFFF_FFFF || seed == 0x8000_0001
  }

  predicate InRange(n: int) {
    -MODULUS < n < MODULUS
  }

  /** `next` after k calls. */
  function Iterate(n: int, k: nat): int {
    if k == 0 then n else Advance(Iterate(n, k - 1))
  }

  lemma TruncParts(n: int, b: int)
    requires b > 0
    ensures n == b * TruncDiv(n, b) + TruncMod(n, b)
    ensures n >= 0 ==> 0 <= TruncMod(n, b) < b && TruncDiv(n, b) >= 0
    ensures n <= 0 ==> -b < TruncMod(n, b) <= 0 && TruncDiv(n, b) <= 0
  {
  }

  /** 16807 and 2836 are coprime, with 5790 * 2836 - 977 * 16807 == 1. */
  lemma SharedFactor(hi: int, lo: int) returns (k: int)
    requires 16807 * lo == 2836 * hi
    ensures hi == 16807 * k && lo == 2836 * k
  {
    k := 5790 * lo - 977 * hi;
  }

  lemma NoZero(hi: int, lo: int)
    requires 16807 * lo == 2836 * hi
    requires InRange(127773 * hi + lo)
    ensures hi == 0 && lo == 0
  {
    var k := SharedFactor(hi, lo);
    assert 127773 * hi + lo == MODULUS * k;
  }

  /** One step of the generator: no intermediate leaves 32 bits, the new state is 16807 times the old one modulo
      2^31 - 1, and only zero leads to zero. */
  lemma AdvanceIs(n: int)
    requires InRange(n)
    ensures var hi, lo := TruncDiv(n, 127773), TruncMod(n, 127773);
            && -0x8000_0000 <= 16807 * lo < 0x8000_0000
            && -0x8000_0000 <= 2836 * hi < 0x8000_0000
            && -MODULUS < 16807 * lo - 2836 * hi < MODULUS
    ensures (16807 * n - Advance(n)) % MODULUS == 0
    ensures if n == 0 then Advance(n) == 0 else 1 <= Advance(n) < MODULUS
  {
    var hi, lo := TruncDiv(n, 127773), TruncMod(n, 127773);
    TruncParts(n, 127773);
    assert -16807 <= hi <= 16807;
    var x := 16807 * lo - 2836 * hi;
    assert 16807 * n == MODULUS * hi + x;
    if x == 0 {
      NoZero(hi, lo);
    }
    Congruent(16807 * n, Advance(n), if x < 0 then hi - 1 else hi);
  }

  lemma Congruent(a: int, b: int, k: int)
    requires a == MODULUS * k + b
    ensures (a - b) % MODULUS == 0
  {
    assert a - b == MODULUS * k;
  }

  /** Every seed lands in range, and exactly two of them on zero. */
  lemma SeededIs(seed: nat)
    requires seed < 0x1_0000_0000
    ensures InRange(Seeded(seed))
    ensures Seeded(seed) == 0 <==> BadSeed(seed)
  {
    var s := if seed < 0x8000_0000 then seed as int else seed - 0x1_0000_0000;
    TruncParts(s, 0x7fff_fffe);
    var d := TruncDiv(s, 0x7fff_fffe);
    assert -1 <= d <= 1;
  }

  /** From a good seed the state stays in [1, 2^31 - 2] for ever after the first call; from a bad one at zero. */
  lemma {:induction false} IterateIs(n: int, k: nat)
    requires InRange(n)
    ensures InRange(Iterate(n, k))
    ensures n == 0 ==> Iterate(n, k) == 0
    ensures n != 0 ==> Iterate(n, k) != 0 && (k > 0 ==> 1 <= Iterate(n, k) < MODULUS)
  {
    if k > 0 {
      IterateIs(n, k - 1);
      AdvanceIs(Iterate(n, k - 1));
    }
  }

  /** The static variable `next` and the two functions that use it. */
  class Generator {
    var next: int32

    ghost predicate Valid()
      reads this
    {
      InRange(next as int)
    }

    method Srand(seed: nat)
      requires seed < 0x1_0000_0000
      modifies this
      ensures Valid() && next as int == Seeded(seed)
    {
      SeededIs(seed);
      next := Seeded(seed) as int32;
    }

    /** Computed in int32 throughout. */
    method Rand() returns (r: int32)
      requires Valid()
      modifies this
      ensures Valid() && next as int == Advance(old(next) as int) && r == next - 1
    {
      AdvanceIs(next as int);
      var hi := TruncDiv(next as int, 127773) as int32;
      var lo := TruncMod(next as int, 127773) as int32;
      var x: int32 := 16807 * lo - 2836 * hi;
      if x < 0 {
        x := x + 0x7fff_ffff;
      }
      next := x;
      r := x - 1;
    }
  }
}
