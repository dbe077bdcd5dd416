/** 32-bit words as numbers below 2^32, so that every wrap-around is written out. */
module Words {
  import opened BigEndian

  const MODULUS: nat := 0x1_0000_0000

  type Word = x: int | 0 <= x < MODULUS

  function Pow2(k: nat): (p: nat)
    ensures p > 0
  {
    if k == 0 then 1 else 2 * Pow2(k - 1)
  }

  lemma Pow2Of32()
    ensures Pow2(8) == 256 && Pow2(16) == 0x1_0000 && Pow2(24) == 0x100_0000 && Pow2(32) == MODULUS
  {
    assert Pow2(8) == 256;
    assert Pow2(12) == 16 * Pow2(8);
    assert Pow2(16) == 16 * Pow2(12);
    assert Pow2(20) == 16 * Pow2(16);
    assert Pow2(24) == 16 * Pow2(20);
    assert Pow2(28) == 16 * Pow2(24);
  }

  // ----- bit by bit

  function And(x: nat, y: nat): nat
    decreases x, 1
  {
    if x == 0 || y == 0 then 0 else AndOfBits(x, y)
  }

  function AndOfBits(x: nat, y: nat): nat
    requires x > 0
    decreases x, 0
  {
    2 * And(x / 2, y / 2) + if x % 2 == 1 && y % 2 == 1 then 1 else 0
  }

  function Or(x: nat, y: nat): nat
    decreases x, 1
  {
    if x == 0 then y else if y == 0 then x else OrOfBits(x, y)
  }

  function OrOfBits(x: nat, y: nat): nat
    requires x > 0
    decreases x, 0
  {
    2 * Or(x / 2, y / 2) + if x % 2 == 1 || y % 2 == 1 then 1 else 0
  }

  function Xor(x: nat, y: nat): nat
    decreases x, 1
  {
    if x == 0 then y else if y == 0 then x else XorOfBits(x, y)
  }

  function XorOfBits(x: nat, y: nat): nat
    requires x > 0
    decreases x, 0
  {
    2 * Xor(x / 2, y / 2) + if x % 2 != y % 2 then 1 else 0
  }

  lemma {:induction false} BitwiseBounds(x: nat, y: nat, k: nat)
    requires x < Pow2(k) && y < Pow2(k)
    ensures And(x, y) < Pow2(k) && Or(x, y) < Pow2(k) && Xor(x, y) < Pow2(k)
  {
    if x > 0 && y > 0 { BitwiseBounds(x / 2, y / 2, k - 1); }
  }

  function Bit(x: nat, i: nat): bool {
    if i == 0 then x % 2 == 1 else Bit(x / 2, i - 1)
  }

  lemma {:induction false} ZeroHasNoBit(i: nat)
    ensures !Bit(0, i)
  {
    if i > 0 { ZeroHasNoBit(i - 1); }
  }

  // Each operation acts on every bit by itself.

  lemma {:induction false} BitOfAnd(x: nat, y: nat, i: nat)
    ensures Bit(And(x, y), i) <==> Bit(x, i) && Bit(y, i)
  {
    ZeroHasNoBit(i);
    if x > 0 && y > 0 && i > 0 {
      BitOfAnd(x / 2, y / 2, i - 1);
      assert And(x, y) / 2 == And(x / 2, y / 2);
    }
  }

  lemma {:induction false} BitOfOr(x: nat, y: nat, i: nat)
    ensures Bit(Or(x, y), i) <==> Bit(x, i) || Bit(y, i)
  {
    ZeroHasNoBit(i);
    if x > 0 && y > 0 && i > 0 {
      BitOfOr(x / 2, y / 2, i - 1);
      assert Or(x, y) / 2 == Or(x / 2, y / 2);
    }
  }

  lemma {:induction false} BitOfXor(x: nat, y: nat, i: nat)
    ensures Bit(Xor(x, y), i) <==> (Bit(x, i) != Bit(y, i))
  {
    ZeroHasNoBit(i);
    if x > 0 && y > 0 && i > 0 {
      BitOfXor(x / 2, y / 2, i - 1);
      assert Xor(x, y) / 2 == Xor(x / 2, y / 2);
    }
  }

  /** Numbers without a bit in common are put together by adding them. */
  lemma {:induction false} OrIsPlus(x: nat, y: nat, k: nat)
    requires y < Pow2(k)
    ensures Or(x * Pow2(k), y) == x * Pow2(k) + y
  {
    if x > 0 && y > 0 {
      assert k > 0;
      var p := Pow2(k - 1);
      assert x * Pow2(k) == 2 * (x * p);
      OrIsPlus(x, y / 2, k - 1);
    }
  }

  /** A byte goes in below the ones before it. */
  lemma ByteGoesIn(x: nat, b: nat, n: nat)
    requires b < 256
    ensures Or(x * Pow2(n + 8), b * Pow2(n)) == (x * 256 + b) * Pow2(n)
  {
    EightMore(n);
    var p := Pow2(n);
    assert b * p < 256 * p;
    OrIsPlus(x, b * p, n + 8);
    assert x * (256 * p) + b * p == (x * 256 + b) * p;
  }

  lemma EightMore(n: nat)
    ensures Pow2(n + 8) == 256 * Pow2(n)
  {
    assert Pow2(n + 2) == 4 * Pow2(n);
    assert Pow2(n + 4) == 4 * Pow2(n + 2);
    assert Pow2(n + 6) == 4 * Pow2(n + 4);
  }

  /** The lowest `k` bits. */
  function Low(x: nat, k: nat): nat {
    if k == 0 then 0 else 2 * Low(x / 2, k - 1) + x % 2
  }

  /** Masking with 2^k - 1 leaves the lowest `k` bits. */
  lemma {:induction false} MaskKeepsLow(x: nat, k: nat)
    ensures And(x, Pow2(k) - 1) == Low(x, k)
  {
    if x == 0 {
      ZeroIsLow(k);
    } else if k > 0 {
      var p := Pow2(k - 1);
      MaskKeepsLow(x / 2, k - 1);
      assert (2 * p - 1) / 2 == p - 1 && (2 * p - 1) % 2 == 1;
    }
  }

  lemma {:induction false} ZeroIsLow(k: nat)
    ensures Low(0, k) == 0
  {
    if k > 0 { ZeroIsLow(k - 1); }
  }

  lemma LowTwoMore(x: nat, k: nat)
    ensures Low(x, k + 2) == 4 * Low(x / 4, k) + x % 4
  {
    assert x / 2 / 2 == x / 4;
  }

  lemma LowNibble(x: nat)
    ensures Low(x, 4) == x % 16
  {
    LowTwoMore(x, 2);
    LowTwoMore(x / 4, 0);
    NibbleDigits(x);
  }

  lemma NibbleDigits(x: nat)
    ensures 4 * (x / 4 % 4) + x % 4 == x % 16
  {}

  lemma LowByte(x: nat)
    ensures And(x, 0xFF) == x % 256
  {
    assert Pow2(8) == 256 by { Pow2Of32(); }
    MaskKeepsLow(x, 8);
    LowTwoMore(x, 6);
    LowTwoMore(x / 4, 4);
    LowNibble(x / 4 / 4);
    ByteDigits(x);
  }

  lemma RemainderIs(x: nat, k: nat, r: nat)
    requires x == 256 * k + r && r < 256
    ensures x % 256 == r
  {}

  lemma ByteDigits(x: nat)
    ensures 4 * (4 * (x / 4 / 4 % 16) + x / 4 % 4) + x % 4 == x % 256
  {
    var y := x / 4;
    var z := y / 4;
    RemainderIs(x, z / 16, 16 * (z % 16) + 4 * (y % 4) + x % 4);
  }

  // ----- operations on words

  function Add(x: Word, y: Word): Word { (x + y) % MODULUS }

  function Not(x: Word): Word { MODULUS - 1 - x }

  function AndW(x: Word, y: Word): Word {
    Pow2Of32();
    BitwiseBounds(x, y, 32);
    And(x, y)
  }

  function OrW(x: Word, y: Word): Word {
    Pow2Of32();
    BitwiseBounds(x, y, 32);
    Or(x, y)
  }

  function XorW(x: Word, y: Word): Word {
    Pow2Of32();
    BitwiseBounds(x, y, 32);
    Xor(x, y)
  }

  function Shr(x: Word, n: nat): Word
    decreases x, n
  {
    if n == 0 then x else Shr(x / 2, n - 1)
  }

  function Shl(x: Word, n: nat): Word
    decreases n, x
  {
    if n == 0 then x else Shl(2 * x % MODULUS, n - 1)
  }

  function Doubled(x: nat, n: nat): (r: nat)
    ensures x <= r
    decreases n
  {
    if n == 0 then x else Doubled(2 * x, n - 1)
  }

  lemma DoubleFirst(x: nat, p: nat)
    ensures (2 * x) * p == x * (2 * p)
  {}

  lemma {:induction false} DoubledMultiplies(x: nat, n: nat)
    ensures Doubled(x, n) == x * Pow2(n)
    decreases n
  {
    if n > 0 {
      DoubledMultiplies(2 * x, n - 1);
      DoubleFirst(x, Pow2(n - 1));
    }
  }

  lemma {:induction false} ShlDoubles(x: Word, n: nat)
    requires Doubled(x, n) < MODULUS
    ensures Shl(x, n) == Doubled(x, n)
    decreases n
  {
    if n > 0 { ShlDoubles(2 * x, n - 1); }
  }

  /** As long as nothing is shifted out. */
  lemma ShlMultiplies(x: Word, n: nat)
    requires x * Pow2(n) < MODULUS
    ensures Shl(x, n) == x * Pow2(n)
  {
    DoubledMultiplies(x, n);
    ShlDoubles(x, n);
  }

  lemma {:induction false} ShrDivides(x: Word, n: nat)
    ensures Shr(x, n) == x / Pow2(n)
    decreases n
  {
    if n > 0 {
      ShrDivides(x / 2, n - 1);
      HalveFirst(x, Pow2(n - 1));
    }
  }

  lemma HalveFirst(x: nat, p: nat)
    requires p > 0
    ensures x / 2 / p == x / (2 * p)
  {
    var q, r := x / 2 / p, x / 2 % p;
    assert x == (2 * p) * q + (2 * r + x % 2);
    QuotientIs(x, 2 * p, q, 2 * r + x % 2);
  }

  lemma AddWraps(x: nat, y: nat)
    ensures (x % MODULUS + y) % MODULUS == (x + y) % MODULUS
  {}

  lemma AddsWrapOnce(a: Word, b: Word, c: Word, d: Word)
    ensures Add(Add(Add(a, b), c), d) == (a + b + c + d) % MODULUS
  {
    AddWraps(a + b, c);
    AddWraps(a + b + c, d);
  }

  lemma AddsCommute(a: Word, b: Word, c: Word, d: Word)
    ensures Add(Add(Add(a, b), c), d) == Add(Add(Add(d, c), b), a)
  {
    AddsWrapOnce(a, b, c, d);
    AddsWrapOnce(d, c, b, a);
  }

  // ----- bits of shifted and complemented words

  lemma {:induction false} NoHighBit(x: nat, k: nat, i: nat)
    requires x < Pow2(k) && i >= k
    ensures !Bit(x, i)
  {
    if k == 0 { ZeroHasNoBit(i); } else { NoHighBit(x / 2, k - 1, i - 1); }
  }

  /** Numbers with the same bits are the same. */
  lemma {:induction false} BitsDecide(x: nat, y: nat, k: nat)
    requires x < Pow2(k) && y < Pow2(k) && forall i :: 0 <= i < k ==> (Bit(x, i) <==> Bit(y, i))
    ensures x == y
  {
    if k > 0 {
      assert Bit(x, 0) <==> Bit(y, 0);
      forall i | 0 <= i < k - 1 ensures Bit(x / 2, i) <==> Bit(y / 2, i) {
        assert Bit(x, i + 1) <==> Bit(y, i + 1);
      }
      BitsDecide(x / 2, y / 2, k - 1);
    }
  }

  lemma {:induction false} BitOfShr(x: Word, n: nat, i: nat)
    ensures Bit(Shr(x, n), i) <==> Bit(x, i + n)
    decreases n
  {
    if n > 0 { BitOfShr(x / 2, n - 1, i); }
  }

  lemma RemainderOf(x: nat, m: nat, q: nat, r: nat)
    requires x == m * q + r && r < m
    ensures x % m == r
  {
    QuotientIs(x, m, q, r);
  }

  lemma TwiceAndBit(r: nat, b: nat)
    requires b < 2
    ensures (2 * r + b) / 2 == r && (2 * r + b) % 2 == b
  {}

  lemma HalfOfRemainder(x: nat, p: nat)
    requires p > 0
    ensures x % (2 * p) % 2 == x % 2 && x % (2 * p) / 2 == x / 2 % p
  {
    var q, r := x / 2 / p, x / 2 % p;
    HalvesSplit(x, p, q, r);
    RemainderOf(x, 2 * p, q, 2 * r + x % 2);
    TwiceAndBit(r, x % 2);
  }

  lemma HalvesSplit(x: nat, p: nat, q: nat, r: nat)
    requires x / 2 == p * q + r
    ensures x == (2 * p) * q + (2 * r + x % 2)
  {}

  /** A remainder by a power of two has the lower bits. */
  lemma {:induction false} BitOfRemainder(x: nat, k: nat, i: nat)
    requires i < k
    ensures Bit(x % Pow2(k), i) <==> Bit(x, i)
  {
    HalfOfRemainder(x, Pow2(k - 1));
    if i > 0 { BitOfRemainder(x / 2, k - 1, i - 1); }
  }

  lemma BitOfDouble(x: Word, i: nat)
    requires i < 32
    ensures Bit(2 * x % MODULUS, i) <==> i > 0 && Bit(x, i - 1)
  {
    Pow2Of32();
    BitOfRemainder(2 * x, 32, i);
    assert 2 * x / 2 == x;
  }

  lemma {:induction false} BitOfShl(x: Word, n: nat, i: nat)
    requires i < 32
    ensures Bit(Shl(x, n), i) <==> i >= n && Bit(x, i - n)
    decreases n
  {
    if n > 0 {
      BitOfShl(2 * x % MODULUS, n - 1, i);
      if i >= n - 1 { BitOfDouble(x, i - (n - 1)); }
    }
  }

  lemma {:induction false} BitOfComplement(x: nat, k: nat, i: nat)
    requires x < Pow2(k) && i < k
    ensures Bit(Pow2(k) - 1 - x, i) <==> !Bit(x, i)
  {
    if i > 0 {
      var p := Pow2(k - 1);
      assert (2 * p - 1 - x) / 2 == p - 1 - x / 2;
      BitOfComplement(x / 2, k - 1, i - 1);
    }
  }

  lemma BitOfNot(x: Word, i: nat)
    requires i < 32
    ensures Bit(Not(x), i) <==> !Bit(x, i)
  {
    Pow2Of32();
    BitOfComplement(x, 32, i);
  }
}
