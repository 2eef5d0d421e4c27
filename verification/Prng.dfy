/**
 * The multiply-with-carry generator: two 32-bit seeds, each a 16-bit number and its carry.
 */
module Prng {

  const RANDOM_CONST_A: nat := 18030
  const RANDOM_CONST_B: nat := 29013
  const U16: nat := 65536
  const U32: nat := 0x1_0000_0000

  /** One step of a seed, as 32-bit arithmetic computes it. */
  function Next(a: nat, x: nat): nat { (a * (x % U16) + x / U16) % U32 }

  function Iterate(a: nat, x: nat, n: nat): nat { if n == 0 then x else Next(a, Iterate(a, x, n - 1)) }

  predicate IsMultiplier(a: nat) { a == RANDOM_CONST_A || a == RANDOM_CONST_B }

  /** A step never overflows, and undoes a multiplication by 65536 modulo 65536 * a - 1. */
  lemma NextExact(a: nat, x: nat)
    requires IsMultiplier(a) && x < U32
    ensures Next(a, x) == a * (x % U16) + x / U16 < U32
    ensures U16 * Next(a, x) == x + (x % U16) * (U16 * a - 1)
    ensures x > 0 ==> Next(a, x) > 0
  {
    var lo, hi := x % U16, x / U16;
    assert x == U16 * hi + lo;
    assert a * lo <= a * 65535;
  }

  /** Two numbers that differ by a multiple of `m`. */
  ghost predicate Congruent(x: int, y: int, m: int) { exists k: int :: Differs(x, y, m, k) }

  predicate Differs(x: int, y: int, m: int, k: int) { x == y + k * m }

  function Pow16(n: nat): nat { if n == 0 then 1 else U16 * Pow16(n - 1) }

  /** For every n: 2^(16 n) times the n-th seed is the first seed, modulo a * 2^16 - 1. */
  lemma {:induction false} Invariant(a: nat, x: nat, n: nat)
    requires IsMultiplier(a) && x < U32
    ensures Iterate(a, x, n) < U32 && Congruent(Pow16(n) * Iterate(a, x, n), x, a * U16 - 1)
    ensures x > 0 ==> Iterate(a, x, n) > 0
  {
    var m := a * U16 - 1;
    if n == 0 {
      assert Differs(Pow16(0) * x, x, m, 0);
    } else {
      Invariant(a, x, n - 1);
      var y := Iterate(a, x, n - 1);
      NextExact(a, y);
      var k :| Differs(Pow16(n - 1) * y, x, m, k);
      StepCongruent(Pow16(n - 1), y, Next(a, y), y % U16, m, x, k);
      hide Next, Iterate, Pow16;
      assert Pow16(n) == U16 * Pow16(n - 1) && Iterate(a, x, n) == Next(a, y) by { Unfold(a, x, n); }
    }
  }

  lemma Unfold(a: nat, x: nat, n: nat)
    requires n > 0
    ensures Pow16(n) == U16 * Pow16(n - 1) && Iterate(a, x, n) == Next(a, Iterate(a, x, n - 1))
  {
  }

  lemma StepCongruent(p: nat, y: nat, z: nat, lo: nat, m: int, x: int, k: int)
    requires U16 * z == y + lo * m && p * y == x + k * m
    ensures Congruent((U16 * p) * z, x, m)
  {
    calc {
      (U16 * p) * z;
    ==
      p * (U16 * z);
    ==
      p * (y + lo * m);
    ==
      p * y + (p * lo) * m;
    ==
      x + (k + p * lo) * m;
    }
    assert Differs((U16 * p) * z, x, m, k + p * lo);
  }

  /** After one step the carry is below the multiplier or just at it; after two the seed is below a * 2^16. */
  lemma Settles(a: nat, x: nat, n: nat)
    requires IsMultiplier(a) && x < U32 && n >= 2
    ensures Iterate(a, x, n) < a * U16
  {
    Invariant(a, x, n - 2);
    Invariant(a, x, n - 1);
    var y := Iterate(a, x, n - 2);
    var z := Iterate(a, x, n - 1);
    Unfold(a, x, n - 1);
    Unfold(a, x, n);
    NextExact(a, y);
    NextExact(a, z);
    assert z <= a * 65535 + 65535;
    assert z / U16 <= a by { CarryBound(a, z); }
    if z / U16 == a {
      assert z % U16 <= 65535 - a;
    }
  }

  lemma CarryBound(a: nat, z: nat)
    requires z <= a * 65535 + 65535
    ensures z / 65536 <= a
  {
    assert z < (a + 1) * 65536;
  }

  /** The seeds of the generator. */
  class Generator {
    var seedX: nat
    var seedY: nat

    predicate Valid() reads this { 0 < seedX < U32 && 0 < seedY < U32 }

    constructor ()
      ensures Valid() && seedX == 521288629 && seedY == 362436069
    {
      seedX, seedY := 521288629, 362436069;
    }

    /** cfs_rand. */
    method Rand() returns (r: nat)
      requires Valid()
      modifies this
      ensures Valid() && seedX == Iterate(RANDOM_CONST_A, old(seedX), 1) &&
        seedY == Iterate(RANDOM_CONST_B, old(seedY), 1)
      ensures r < U32 && r / U16 == seedX % U16 && r % U16 == seedY % U16
    {
      NextExact(RANDOM_CONST_A, seedX);
      NextExact(RANDOM_CONST_B, seedY);
      assert Iterate(RANDOM_CONST_A, seedX, 0) == seedX && Iterate(RANDOM_CONST_B, seedY, 0) == seedY;
      seedX := RANDOM_CONST_A * (seedX % U16) + seedX / U16;
      seedY := RANDOM_CONST_B * (seedY % U16) + seedY / U16;
      r := (seedX * U16 % U32 + seedY % U16) % U32;
      ShiftLeft(seedX, seedY % U16);
    }

    /** cfs_srand: a zero keeps the seed it would replace. */
    method Seed(seed1: nat, seed2: nat)
      requires Valid() && seed1 < U32 && seed2 < U32
      modifies this
      ensures Valid()
      ensures seedX == (if seed1 == 0 then old(seedX) else seed1) && seedY == (if seed2 == 0 then old(seedY) else seed2)
    {
      if seed1 != 0 { seedX := seed1; }
      if seed2 != 0 { seedY := seed2; }
    }
  }

  lemma ShiftLeft(x: nat, lo: nat)
    requires lo < U16
    ensures var r := (x * U16 % U32 + lo) % U32; r / U16 == x % U16 && r % U16 == lo
  {
    var q, m := x / U16, x % U16;
    Shifted(q, m, lo);
    assert x == q * U16 + m;
  }

  lemma Shifted(q: nat, m: nat, lo: nat)
    requires m < U16 && lo < U16
    ensures (q * U16 + m) * U16 % U32 == m * U16
    ensures (m * U16 + lo) % U32 == m * U16 + lo && (m * U16 + lo) / U16 == m && (m * U16 + lo) % U16 == lo
  {
    assert (q * U16 + m) * U16 == q * U32 + m * U16;
  }
}
