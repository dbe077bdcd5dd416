/** What the hash of FIPS 180-4 is made of, written out: the functions of sections 3.2 and 4.1.2 bit by
    bit, padding byte by byte, and schedule, turns and digest as numbers. */
module HashBits {
  import opened BigEndian
  import opened Words
  import opened SecureHash

  lemma RoundTheEnd(i: nat, n: nat)
    requires n <= 32 && i < 32
    ensures (i + n) % 32 == if i + n < 32 then i + n else i + n - 32
  {}

  lemma BitOfEitherShift(x: Word, n: nat, i: nat)
    requires n <= 32 && i < 32
    ensures Bit(Rotr(x, n), i) <==> Bit(x, i + n) || (i + n >= 32 && Bit(x, i + n - 32))
  {
    BitOfOr(Shr(x, n), Shl(x, 32 - n), i);
    BitOfShr(x, n, i);
    BitOfShl(x, 32 - n, i);
  }

  /** A rotation to the right: bit `i` comes from `n` places higher, round the end of the word. */
  lemma BitOfRotr(x: Word, n: nat, i: nat)
    requires n <= 32 && i < 32
    ensures Bit(Rotr(x, n), i) <==> Bit(x, (i + n) % 32)
  {
    BitOfEitherShift(x, n, i);
    RoundTheEnd(i, n);
    if i + n >= 32 { NothingAbove(x, i + n); }
  }

  lemma NothingAbove(x: Word, i: nat)
    requires i >= 32
    ensures !Bit(x, i)
  {
    Pow2Of32();
    NoHighBit(x, 32, i);
  }

  /** `x` chooses between `y` and `z`. */
  lemma BitOfCh(x: Word, y: Word, z: Word, i: nat)
    requires i < 32
    ensures Bit(Ch(x, y, z), i) <==> if Bit(x, i) then Bit(y, i) else Bit(z, i)
  {
    BitOfXor(AndW(x, y), AndW(Not(x), z), i);
    BitOfAnd(x, y, i);
    BitOfAnd(Not(x), z, i);
    BitOfNot(x, i);
  }

  function One(b: bool): nat { if b then 1 else 0 }

  /** The majority decides. */
  lemma BitOfMaj(x: Word, y: Word, z: Word, i: nat)
    requires i < 32
    ensures Bit(Maj(x, y, z), i) <==> One(Bit(x, i)) + One(Bit(y, i)) + One(Bit(z, i)) >= 2
  {
    BitOfXor(XorW(AndW(x, y), AndW(x, z)), AndW(y, z), i);
    BitOfXor(AndW(x, y), AndW(x, z), i);
    BitOfAnd(x, y, i);
    BitOfAnd(x, z, i);
    BitOfAnd(y, z, i);
  }

  /** An odd number of the three. */
  predicate Odd(a: bool, b: bool, c: bool) { (One(a) + One(b) + One(c)) % 2 == 1 }

  lemma BitOfThree(x: Word, y: Word, z: Word, i: nat)
    ensures Bit(XorW(XorW(x, y), z), i) <==> Odd(Bit(x, i), Bit(y, i), Bit(z, i))
  {
    BitOfXor(XorW(x, y), z, i);
    BitOfXor(x, y, i);
  }

  lemma BitOfBigSigmas(x: Word, i: nat)
    requires i < 32
    ensures Bit(BigSigma0(x), i) <==> Odd(Bit(x, (i + 2) % 32), Bit(x, (i + 13) % 32), Bit(x, (i + 22) % 32))
    ensures Bit(BigSigma1(x), i) <==> Odd(Bit(x, (i + 6) % 32), Bit(x, (i + 11) % 32), Bit(x, (i + 25) % 32))
  {
    BitOfThree(Rotr(x, 2), Rotr(x, 13), Rotr(x, 22), i);
    BitOfThree(Rotr(x, 6), Rotr(x, 11), Rotr(x, 25), i);
    BitOfRotr(x, 2, i);
    BitOfRotr(x, 13, i);
    BitOfRotr(x, 22, i);
    BitOfRotr(x, 6, i);
    BitOfRotr(x, 11, i);
    BitOfRotr(x, 25, i);
  }

  /** The last of the three is shifted, so nothing comes round from the other end. */
  lemma BitOfSmallSigmas(x: Word, i: nat)
    requires i < 32
    ensures Bit(SmallSigma0(x), i) <==> Odd(Bit(x, (i + 7) % 32), Bit(x, (i + 18) % 32), i < 29 && Bit(x, i + 3))
    ensures Bit(SmallSigma1(x), i) <==> Odd(Bit(x, (i + 17) % 32), Bit(x, (i + 19) % 32), i < 22 && Bit(x, i + 10))
  {
    BitOfThree(Rotr(x, 7), Rotr(x, 18), Shr(x, 3), i);
    BitOfThree(Rotr(x, 17), Rotr(x, 19), Shr(x, 10), i);
    BitOfRotr(x, 7, i);
    BitOfRotr(x, 18, i);
    BitOfRotr(x, 17, i);
    BitOfRotr(x, 19, i);
    BitOfShr(x, 3, i);
    BitOfShr(x, 10, i);
    if i >= 29 { NothingAbove(x, i + 3); }
    if i >= 22 { NothingAbove(x, i + 10); }
  }

  // ----- padding, section 5.1.1

  /** After the message come a byte for the one bit, then zeros up to the last eight bytes, which are the
      bit count; the whole is as short as whole blocks allow. */
  lemma PadMeans(message: seq<byte>, bits: nat)
    requires bits < MAX_BITS
    ensures
      var p, n := Pad(message, bits), |message|;
      |p| % BLOCK == 0 && n + 9 <= |p| < n + 9 + BLOCK &&
      p[..n] == message && p[n] == 0x80 && (forall i :: n < i < |p| - 8 ==> p[i] == 0) &&
      FromBytes(p[|p| - 8..]) == bits
  {
    var p, n, k := Pad(message, bits), |message|, ZeroBytes(|message|);
    assert p[|p| - 8..] == ToBytes(bits, 8);
    assert Pow256(8) == MAX_BITS by {
      assert Pow256(2) == 0x1_0000;
      assert Pow256(4) == 0x1_0000 * Pow256(2);
      assert Pow256(6) == 0x1_0000 * Pow256(4);
    }
    FromToBytes(bits, 8);
  }

  // ----- one block, section 6.2.2

  /** The schedule is the 16 words of the block and then sums of earlier words. */
  lemma ScheduleMeans(block: seq<byte>, t: nat)
    requires |block| == BLOCK && t < 64
    ensures
      var w := Schedule(block, 64);
      w[t] ==
        if t < 16 then
          block[4 * t] as int * 0x100_0000 + block[4 * t + 1] as int * 0x1_0000 +
          block[4 * t + 2] as int * 0x100 + block[4 * t + 3] as int
        else (SmallSigma1(w[t - 2]) + w[t - 7] + SmallSigma0(w[t - 15]) + w[t - 16]) % MODULUS
  {
    ScheduledWord(block, t);
    if t < 16 {
      FourBytesMean(block, t);
    } else {
      var w := Schedule(block, 64);
      NextWordMeans(w[t - 16], w[t - 15], w[t - 7], w[t - 2]);
    }
  }

  lemma NextWordMeans(w16: Word, w15: Word, w7: Word, w2: Word)
    ensures NextWord(w16, w15, w7, w2) == (SmallSigma1(w2) + w7 + SmallSigma0(w15) + w16) % MODULUS
  {
    AddsWrapOnce(SmallSigma1(w2), w7, SmallSigma0(w15), w16);
  }

  lemma ScheduledWord(block: seq<byte>, t: nat)
    requires |block| == BLOCK && t < 64
    ensures
      var w := Schedule(block, 64);
      w[t] == if t < 16 then WordAt(block, t) else NextWord(w[t - 16], w[t - 15], w[t - 7], w[t - 2])
  {
    SchedulePrefix(block, t + 1, 64);
    SchedulePrefix(block, t, t + 1);
    var w := Schedule(block, t);
    assert Schedule(block, t + 1) == OneMoreWord(block, t + 1);
  }

  lemma {:induction false} SchedulePrefix(block: seq<byte>, s: nat, t: nat)
    requires |block| == BLOCK && s <= t <= 64
    ensures Schedule(block, s) == Schedule(block, t)[..s]
    decreases t
  {
    if s < t {
      SchedulePrefix(block, s, t - 1);
      assert Schedule(block, t) == OneMoreWord(block, t);
    }
  }

  lemma FourBytesMean(block: seq<byte>, t: nat)
    requires |block| == BLOCK && t < 16
    ensures WordAt(block, t) ==
      block[4 * t] as int * 0x100_0000 + block[4 * t + 1] as int * 0x1_0000 +
      block[4 * t + 2] as int * 0x100 + block[4 * t + 3] as int
  {
    var s := block[4 * t..4 * t + 4];
    assert s[..3][..2] == s[..2] && s[..2][..1] == s[..1] && s[..1][..0] == [];
    assert FromBytes(s[..1]) == s[0] as int;
    assert FromBytes(s[..2]) == FromBytes(s[..1]) * 256 + s[1] as int;
    assert FromBytes(s[..3]) == FromBytes(s[..2]) * 256 + s[2] as int;
  }

  /** One turn, its sums taken as numbers: two of the eight variables are new, and the others move on. */
  lemma TurnMeans(v: Vars, k: Word, w: Word)
    ensures
      var v', t1 := Turn(v, k, w), v.h + BigSigma1(v.e) + Ch(v.e, v.f, v.g) + k + w;
      v'.a == (t1 + BigSigma0(v.a) + Maj(v.a, v.b, v.c)) % MODULUS && v'.e == (v.d + t1) % MODULUS &&
      v'.b == v.a && v'.c == v.b && v'.d == v.c && v'.f == v.e && v'.g == v.f && v'.h == v.g
  {
    FirstSum(v.h, BigSigma1(v.e), Ch(v.e, v.f, v.g), k, w);
    var t1 := v.h + BigSigma1(v.e) + Ch(v.e, v.f, v.g) + k + w;
    SumOnto(t1, v.d);
    SumAndTwo(t1, BigSigma0(v.a), Maj(v.a, v.b, v.c));
  }

  lemma FirstSum(h: Word, s: Word, ch: Word, k: Word, w: Word)
    ensures Add(Add(Add(Add(h, s), ch), k), w) == (h + s + ch + k + w) % MODULUS
  {
    AddsWrapOnce(h, s, ch, k);
    AddWraps(h + s + ch + k, w);
  }

  lemma SumOnto(x: nat, d: Word)
    ensures Add(d, x % MODULUS) == (d + x) % MODULUS
  {
    AddWraps(x, d);
  }

  lemma SumAndTwo(x: nat, y: Word, z: Word)
    ensures Add(x % MODULUS, Add(y, z)) == (x + y + z) % MODULUS
  {
    SumOnto(y + z, x % MODULUS);
    AddWraps(x, y + z);
  }

  ghost predicate TurnsOn(turns: seq<Vars>, w: seq<Word>, t: nat)
    requires t + 1 < |turns| <= 65 && |w| == 64
  {
    turns[t + 1] == Turn(turns[t], K[t], w[t])
  }

  /** The turns of a block: from the hash values it finds, with the constants and the schedule in order. */
  ghost predicate TurnsOfBlock(turns: seq<Vars>, hash: seq<Word>, w: seq<Word>)
    requires |turns| == 65 && |hash| == 8 && |w| == 64
  {
    turns[0] == Vars(hash[0], hash[1], hash[2], hash[3], hash[4], hash[5], hash[6], hash[7]) &&
    forall t {:trigger TurnsOn(turns, w, t)} :: 0 <= t < 64 ==> TurnsOn(turns, w, t)
  }

  lemma {:induction false} TurnsFollow(turns: seq<Vars>, hash: seq<Word>, w: seq<Word>, t: nat)
    requires |turns| == 65 && |hash| == 8 && |w| == 64 && t <= 64 && TurnsOfBlock(turns, hash, w)
    ensures turns[t] == Turns(hash, w, t)
  {
    if t > 0 {
      TurnsFollow(turns, hash, w, t - 1);
      assert TurnsOn(turns, w, t - 1);
    }
  }

  function Values(v: Vars): seq<Word> { [v.a, v.b, v.c, v.d, v.e, v.f, v.g, v.h] }

  lemma AddedValues(hash: seq<Word>, v: Vars, i: nat)
    requires |hash| == 8 && i < 8
    ensures
      [Add(hash[0], v.a), Add(hash[1], v.b), Add(hash[2], v.c), Add(hash[3], v.d),
       Add(hash[4], v.e), Add(hash[5], v.f), Add(hash[6], v.g), Add(hash[7], v.h)][i] ==
      (hash[i] + Values(v)[i]) % MODULUS
  {}

  /** What comes out of the last of the 64 turns is added to the hash values. */
  lemma CompressMeans(hash: seq<Word>, block: seq<byte>, turns: seq<Vars>, i: nat)
    requires |hash| == 8 && |block| == BLOCK && |turns| == 65 && i < 8
    requires TurnsOfBlock(turns, hash, Schedule(block, 64))
    ensures Compress(hash, block)[i] == (hash[i] + Values(turns[64])[i]) % MODULUS
  {
    TurnsFollow(turns, hash, Schedule(block, 64), 64);
    AddedValues(hash, turns[64], i);
  }

  // ----- the digest

  /** The digest is the hash values one after the other, each with its most significant byte first. */
  lemma {:induction false} DigestMeans(words: seq<Word>, i: nat, j: nat)
    requires i < |words| && j < 4
    ensures Concatenated(words)[4 * i + j] as nat == words[i] / Pow256(3 - j) % 256
  {
    var n := |words| - 1;
    if i < n {
      DigestMeans(words[..n], i, j);
      assert Concatenated(words)[4 * i + j] == Concatenated(words[..n])[4 * i + j];
    } else {
      ByteAt(words[n], 4, j);
    }
  }
}
