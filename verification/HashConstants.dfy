/** Where the constants of FIPS 180-4 come from: they are the first 32 bits of the fractional parts of
    the cube roots of 64 primes, in order from 2 to 311 (section 4.2.2), and of the square roots of the
    first 8 of them (section 5.3.3). */
module HashConstants {
  import opened Words
  import opened SecureHash

  ghost predicate IsPrime(p: nat) { p >= 2 && forall d :: 2 <= d < p ==> p % d != 0 }

  const PRIMES_A: seq<nat> := [2, 3, 5, 7, 11, 13, 17, 19, 23, 29, 31, 37, 41, 43, 47, 53]
  const PRIMES_B: seq<nat> := [59, 61, 67, 71, 73, 79, 83, 89, 97, 101, 103, 107, 109, 113, 127, 131]
  const PRIMES_C: seq<nat> := [137, 139, 149, 151, 157, 163, 167, 173, 179, 181, 191, 193, 197, 199, 211, 223]
  const PRIMES_D: seq<nat> := [227, 229, 233, 239, 241, 251, 257, 263, 269, 271, 277, 281, 283, 293, 307, 311]

  const PRIMES := PRIMES_A + PRIMES_B + PRIMES_C + PRIMES_D

  // ----- the first primes

  lemma DividesThrough(p: nat, d: nat, q: nat)
    requires q > 0 && d > 0 && p % d == 0 && d % q == 0
    ensures p % q == 0
  {
    var m, n := p / d, d / q;
    Regroup(q, n, m);
    RemainderOf(p, q, n * m, 0);
  }

  lemma Regroup(q: nat, n: nat, m: nat)
    ensures (q * n) * m == q * (n * m)
  {}

  /** No smaller one of the first seven primes divides it. */
  predicate Sieved(p: nat) {
    p >= 2 && (p == 2 || p % 2 != 0) && (p == 3 || p % 3 != 0) && (p == 5 || p % 5 != 0) && (p == 7 || p % 7 != 0) &&
    (p == 11 || p % 11 != 0) && (p == 13 || p % 13 != 0) && (p == 17 || p % 17 != 0)
  }

  /** A number below 19 has one of them as a divisor. */
  lemma SmallDivisor(d: nat) returns (q: nat)
    requires 2 <= d < 19
    ensures q in {2, 3, 5, 7, 11, 13, 17} && d % q == 0 && q <= d
  {
    q := if d % 2 == 0 then 2 else if d % 3 == 0 then 3 else if d % 5 == 0 then 5 else if d % 7 == 0 then 7 else d;
  }

  lemma SmallerFactor(p: nat, d: nat) returns (f: nat)
    requires 2 <= d < p < 361 && p % d == 0
    ensures 2 <= f < 19 && f < p && p % f == 0
  {
    var e := p / d;
    assert p == d * e;
    if d < 19 {
      f := d;
    } else {
      if e >= 19 { TooLarge(d, e); }
      f := e;
      RemainderOf(p, e, d, 0);
    }
  }

  lemma TooLarge(d: nat, e: nat)
    requires d >= 19 && e >= 19
    ensures d * e >= 361
  {
    ProductAtLeast(d, e, 19);
    ProductAtLeast(19, d, 19);
  }

  lemma ProductAtLeast(d: nat, e: nat, k: nat)
    requires e >= k
    ensures d * e >= d * k
  {}

  /** Below 19 squared the sieve leaves just the primes. */
  lemma SievedIsPrime(p: nat)
    requires p < 361
    ensures Sieved(p) <==> IsPrime(p)
  {
    if Sieved(p) && exists d :: 2 <= d < p && p % d == 0 {
      var d :| 2 <= d < p && p % d == 0;
      var f := SmallerFactor(p, d);
      var q := SmallDivisor(f);
      DividesThrough(p, f, q);
    }
    if p >= 2 && !Sieved(p) {
      var q :| q in {2, 3, 5, 7, 11, 13, 17} && p != q && p % q == 0;
      assert q < p;
    }
  }

  ghost predicate AllPrime(ps: seq<nat>) { forall t :: 0 <= t < |ps| ==> IsPrime(ps[t]) }

  lemma PrimesA()
    ensures AllPrime(PRIMES_A)
  {
    SievedIsPrime(2); SievedIsPrime(3); SievedIsPrime(5); SievedIsPrime(7);
    SievedIsPrime(11); SievedIsPrime(13); SievedIsPrime(17); SievedIsPrime(19);
    SievedIsPrime(23); SievedIsPrime(29); SievedIsPrime(31); SievedIsPrime(37);
    SievedIsPrime(41); SievedIsPrime(43); SievedIsPrime(47); SievedIsPrime(53);
  }

  lemma PrimesB()
    ensures AllPrime(PRIMES_B)
  {
    SievedIsPrime(59); SievedIsPrime(61); SievedIsPrime(67); SievedIsPrime(71);
    SievedIsPrime(73); SievedIsPrime(79); SievedIsPrime(83); SievedIsPrime(89);
    SievedIsPrime(97); SievedIsPrime(101); SievedIsPrime(103); SievedIsPrime(107);
    SievedIsPrime(109); SievedIsPrime(113); SievedIsPrime(127); SievedIsPrime(131);
  }

  lemma PrimesC()
    ensures AllPrime(PRIMES_C)
  {
    SievedIsPrime(137); SievedIsPrime(139); SievedIsPrime(149); SievedIsPrime(151);
    SievedIsPrime(157); SievedIsPrime(163); SievedIsPrime(167); SievedIsPrime(173);
    SievedIsPrime(179); SievedIsPrime(181); SievedIsPrime(191); SievedIsPrime(193);
    SievedIsPrime(197); SievedIsPrime(199); SievedIsPrime(211); SievedIsPrime(223);
  }

  lemma PrimesD()
    ensures AllPrime(PRIMES_D)
  {
    SievedIsPrime(227); SievedIsPrime(229); SievedIsPrime(233); SievedIsPrime(239);
    SievedIsPrime(241); SievedIsPrime(251); SievedIsPrime(257); SievedIsPrime(263);
    SievedIsPrime(269); SievedIsPrime(271); SievedIsPrime(277); SievedIsPrime(281);
    SievedIsPrime(283); SievedIsPrime(293); SievedIsPrime(307); SievedIsPrime(311);
  }

  /** The list is one of 64 primes, in increasing order. */
  lemma PrimesArePrime()
    ensures |PRIMES| == 64 && AllPrime(PRIMES) && forall t :: 0 <= t < 63 ==> PRIMES[t] < PRIMES[t + 1]
  {
    PrimesA();
    PrimesB();
    PrimesC();
    PrimesD();
  }

  // ----- the roots

  function Square(x: nat): nat { x * x }

  function Cube(x: nat): nat { x * x * x }

  /** `n` and the 32-bit fraction `f` are the cube root of `p`, cut off. */
  predicate IsCubeRoot(n: nat, f: Word, p: nat) {
    Cube(n * MODULUS + f) <= p * Cube(MODULUS) < Cube(n * MODULUS + f + 1)
  }

  predicate IsSquareRoot(n: nat, f: Word, p: nat) {
    Square(n * MODULUS + f) <= p * Square(MODULUS) < Square(n * MODULUS + f + 1)
  }

  ghost predicate CubeRootFraction(f: Word, p: nat) { exists n: nat :: IsCubeRoot(n, f, p) }

  ghost predicate SquareRootFraction(f: Word, p: nat) { exists n: nat :: IsSquareRoot(n, f, p) }

  /** The list of words is that of the fractions of the cube roots of the list of numbers. */
  ghost predicate CubeRootFractions(fs: seq<Word>, ps: seq<nat>) {
    |fs| == |ps| && forall t :: 0 <= t < |fs| ==> CubeRootFraction(fs[t], ps[t])
  }

  lemma FractionsJoin(fs: seq<Word>, ps: seq<nat>, gs: seq<Word>, qs: seq<nat>)
    requires CubeRootFractions(fs, ps) && CubeRootFractions(gs, qs)
    ensures CubeRootFractions(fs + gs, ps + qs)
  {
    forall t | 0 <= t < |fs + gs| ensures CubeRootFraction((fs + gs)[t], (ps + qs)[t]) {
      if t >= |fs| { assert CubeRootFraction(gs[t - |fs|], qs[t - |fs|]); }
    }
  }

  lemma TurnsA0()
    ensures forall t :: 0 <= t < 8 ==> CubeRootFraction(K_A[t], PRIMES_A[t])
  {
    assert IsCubeRoot(1, 0x428a2f98, 2) && IsCubeRoot(1, 0x71374491, 3);
    assert IsCubeRoot(1, 0xb5c0fbcf, 5) && IsCubeRoot(1, 0xe9b5dba5, 7);
    assert IsCubeRoot(2, 0x3956c25b, 11) && IsCubeRoot(2, 0x59f111f1, 13);
    assert IsCubeRoot(2, 0x923f82a4, 17) && IsCubeRoot(2, 0xab1c5ed5, 19);
  }

  lemma TurnsA1()
    ensures forall t :: 8 <= t < 16 ==> CubeRootFraction(K_A[t], PRIMES_A[t])
  {
    assert IsCubeRoot(2, 0xd807aa98, 23) && IsCubeRoot(3, 0x12835b01, 29);
    assert IsCubeRoot(3, 0x243185be, 31) && IsCubeRoot(3, 0x550c7dc3, 37);
    assert IsCubeRoot(3, 0x72be5d74, 41) && IsCubeRoot(3, 0x80deb1fe, 43);
    assert IsCubeRoot(3, 0x9bdc06a7, 47) && IsCubeRoot(3, 0xc19bf174, 53);
  }

  lemma TurnsA()
    ensures CubeRootFractions(K_A, PRIMES_A)
  {
    TurnsA0();
    TurnsA1();
  }

  lemma TurnsB0()
    ensures forall t :: 0 <= t < 8 ==> CubeRootFraction(K_B[t], PRIMES_B[t])
  {
    assert IsCubeRoot(3, 0xe49b69c1, 59) && IsCubeRoot(3, 0xefbe4786, 61);
    assert IsCubeRoot(4, 0x0fc19dc6, 67) && IsCubeRoot(4, 0x240ca1cc, 71);
    assert IsCubeRoot(4, 0x2de92c6f, 73) && IsCubeRoot(4, 0x4a7484aa, 79);
    assert IsCubeRoot(4, 0x5cb0a9dc, 83) && IsCubeRoot(4, 0x76f988da, 89);
  }

  lemma TurnsB1()
    ensures forall t :: 8 <= t < 16 ==> CubeRootFraction(K_B[t], PRIMES_B[t])
  {
    assert IsCubeRoot(4, 0x983e5152, 97) && IsCubeRoot(4, 0xa831c66d, 101);
    assert IsCubeRoot(4, 0xb00327c8, 103) && IsCubeRoot(4, 0xbf597fc7, 107);
    assert IsCubeRoot(4, 0xc6e00bf3, 109) && IsCubeRoot(4, 0xd5a79147, 113);
    assert IsCubeRoot(5, 0x06ca6351, 127) && IsCubeRoot(5, 0x14292967, 131);
  }

  lemma TurnsB()
    ensures CubeRootFractions(K_B, PRIMES_B)
  {
    TurnsB0();
    TurnsB1();
  }

  lemma TurnsC0()
    ensures forall t :: 0 <= t < 8 ==> CubeRootFraction(K_C[t], PRIMES_C[t])
  {
    assert IsCubeRoot(5, 0x27b70a85, 137) && IsCubeRoot(5, 0x2e1b2138, 139);
    assert IsCubeRoot(5, 0x4d2c6dfc, 149) && IsCubeRoot(5, 0x53380d13, 151);
    assert IsCubeRoot(5, 0x650a7354, 157) && IsCubeRoot(5, 0x766a0abb, 163);
    assert IsCubeRoot(5, 0x81c2c92e, 167) && IsCubeRoot(5, 0x92722c85, 173);
  }

  lemma TurnsC1()
    ensures forall t :: 8 <= t < 16 ==> CubeRootFraction(K_C[t], PRIMES_C[t])
  {
    assert IsCubeRoot(5, 0xa2bfe8a1, 179) && IsCubeRoot(5, 0xa81a664b, 181);
    assert IsCubeRoot(5, 0xc24b8b70, 191) && IsCubeRoot(5, 0xc76c51a3, 193);
    assert IsCubeRoot(5, 0xd192e819, 197) && IsCubeRoot(5, 0xd6990624, 199);
    assert IsCubeRoot(5, 0xf40e3585, 211) && IsCubeRoot(6, 0x106aa070, 223);
  }

  lemma TurnsC()
    ensures CubeRootFractions(K_C, PRIMES_C)
  {
    TurnsC0();
    TurnsC1();
  }

  lemma TurnsD0()
    ensures forall t :: 0 <= t < 8 ==> CubeRootFraction(K_D[t], PRIMES_D[t])
  {
    assert IsCubeRoot(6, 0x19a4c116, 227) && IsCubeRoot(6, 0x1e376c08, 229);
    assert IsCubeRoot(6, 0x2748774c, 233) && IsCubeRoot(6, 0x34b0bcb5, 239);
    assert IsCubeRoot(6, 0x391c0cb3, 241) && IsCubeRoot(6, 0x4ed8aa4a, 251);
    assert IsCubeRoot(6, 0x5b9cca4f, 257) && IsCubeRoot(6, 0x682e6ff3, 263);
  }

  lemma TurnsD1()
    ensures forall t :: 8 <= t < 16 ==> CubeRootFraction(K_D[t], PRIMES_D[t])
  {
    assert IsCubeRoot(6, 0x748f82ee, 269) && IsCubeRoot(6, 0x78a5636f, 271);
    assert IsCubeRoot(6, 0x84c87814, 277) && IsCubeRoot(6, 0x8cc70208, 281);
    assert IsCubeRoot(6, 0x90befffa, 283) && IsCubeRoot(6, 0xa4506ceb, 293);
    assert IsCubeRoot(6, 0xbef9a3f7, 307) && IsCubeRoot(6, 0xc67178f2, 311);
  }

  lemma TurnsD()
    ensures CubeRootFractions(K_D, PRIMES_D)
  {
    TurnsD0();
    TurnsD1();
  }

  /** The constants of the 64 turns. */
  lemma TurnConstants()
    ensures CubeRootFractions(K, PRIMES)
  {
    TurnsA();
    TurnsB();
    TurnsC();
    TurnsD();
    FractionsJoin(K_A, PRIMES_A, K_B, PRIMES_B);
    FractionsJoin(K_A + K_B, PRIMES_A + PRIMES_B, K_C, PRIMES_C);
    FractionsJoin(K_A + K_B + K_C, PRIMES_A + PRIMES_B + PRIMES_C, K_D, PRIMES_D);
  }

  /** The initial hash values. */
  lemma InitialConstants(t: nat)
    requires t < 8
    ensures SquareRootFraction(INITIAL[t], PRIMES[t])
  {
    assert IsSquareRoot(1, 0x6a09e667, 2) && IsSquareRoot(1, 0xbb67ae85, 3);
    assert IsSquareRoot(2, 0x3c6ef372, 5) && IsSquareRoot(2, 0xa54ff53a, 7);
    assert IsSquareRoot(3, 0x510e527f, 11) && IsSquareRoot(3, 0x9b05688c, 13);
    assert IsSquareRoot(4, 0x1f83d9ab, 17) && IsSquareRoot(4, 0x5be0cd19, 19);
    assert PRIMES_A <= PRIMES && PRIMES[t] == PRIMES_A[t];
  }
}
