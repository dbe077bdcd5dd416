/** The streaming implementation: a buffer of one block, filled by any number of updates. */
module Sha256Stream {
  import opened BigEndian
  import opened SecureHash
  import opened Words

  lemma FirstTwoBytes(x0: nat, x1: nat)
    requires x0 < 256 && x1 < 256
    ensures OrW(Shl(x0, 24), Shl(x1, 16)) == (x0 * 256 + x1) * 0x1_0000
  {
    Pow2Of32();
    ShlMultiplies(x0, 24);
    ShlMultiplies(x1, 16);
    ByteGoesIn(x0, x1, 16);
  }

  lemma ThirdByte(y: nat, x2: nat)
    requires y < 0x1_0000 && x2 < 256
    ensures OrW(y * 0x1_0000, Shl(x2, 8)) == (y * 256 + x2) * 0x100
  {
    Pow2Of32();
    ShlMultiplies(x2, 8);
    ByteGoesIn(y, x2, 8);
  }

  lemma FourthByte(z: nat, x3: nat)
    requires z < 0x100_0000 && x3 < 256
    ensures OrW(z * 0x100, x3) == z * 256 + x3
  {
    Pow2Of32();
    ByteGoesIn(z, x3, 0);
  }

  lemma FourBytes(b0: byte, b1: byte, b2: byte, b3: byte)
    ensures
      OrW(OrW(OrW(Shl(b0 as Word, 24), Shl(b1 as Word, 16)), Shl(b2 as Word, 8)), b3 as Word) ==
      FromBytes([b0, b1, b2, b3])
  {
    var x0: nat, x1: nat, x2: nat, x3: nat := b0 as nat, b1 as nat, b2 as nat, b3 as nat;
    var y, z := x0 * 256 + x1, (x0 * 256 + x1) * 256 + x2;
    FirstTwoBytes(x0, x1);
    ThirdByte(y, x2);
    FourthByte(z, x3);
    FourDigits(b0, b1, b2, b3);
  }

  lemma FourDigits(b0: byte, b1: byte, b2: byte, b3: byte)
    ensures FromBytes([b0, b1, b2, b3]) == ((b0 as nat * 256 + b1 as nat) * 256 + b2 as nat) * 256 + b3 as nat
  {
    assert [b0, b1, b2, b3][..3] == [b0, b1, b2] && [b0, b1, b2][..2] == [b0, b1] && [b0, b1][..1] == [b0];
    assert FromBytes([b0]) == b0 as nat;
    assert FromBytes([b0, b1]) == FromBytes([b0]) * 256 + b1 as nat;
    assert FromBytes([b0, b1, b2]) == FromBytes([b0, b1]) * 256 + b2 as nat;
  }

  class Sha256 {
    const h: array<Word>
    const buffer: array<byte>
    var bufferLen: nat
    /** A 64-bit count of the bytes fed in; it wraps. */
    var totalLen: nat
    /** Every byte fed in so far; those already hashed; and the hash values on the way. */
    ghost var fed: seq<byte>
    ghost var hashed: seq<byte>
    ghost var hashes: seq<seq<Word>>

    /** The hash values cover the whole blocks fed in, and the buffer holds the rest. */
    ghost predicate Buffered()
      reads this, h, buffer
    {
      h.Length == 8 && buffer.Length == BLOCK && (h as object) != buffer && bufferLen <= BLOCK &&
      fed == hashed + buffer[..bufferLen] && Chain(hashes, hashed) && h[..] == hashes[|hashes| - 1]
    }

    ghost predicate Valid()
      reads this, h, buffer
    {
      Buffered() && bufferLen < BLOCK && totalLen == |fed| % MAX_BITS
    }

    constructor ()
      ensures Valid() && fed == [] && fresh(h) && fresh(buffer)
    {
      h := new Word[8](i requires 0 <= i < 8 => INITIAL[i]);
      buffer := new byte[BLOCK];
      bufferLen, totalLen, fed, hashed, hashes := 0, 0, [], [], [INITIAL];
      new;
      assert h[..] == INITIAL;
    }

    /** The schedule of section 6.2.2, step 1. */
    method MessageSchedule(block: seq<byte>) returns (w: array<Word>)
      requires |block| == BLOCK
      ensures fresh(w) && w[..] == Schedule(block, 64)
    {
      w := new Word[64];
      ReadWords(block, w);
      for i := 16 to 64
        invariant w[..i] == Schedule(block, i)
      {
        w[i] := ScheduleWord(w[i - 16], w[i - 15], w[i - 7], w[i - 2]);
        assert w[..i + 1] == w[..i] + [NextWord(w[..i][i - 16], w[..i][i - 15], w[..i][i - 7], w[..i][i - 2])];
      }
      assert w[..64] == w[..];
    }

    method ReadWords(block: seq<byte>, w: array<Word>)
      requires |block| == BLOCK && w.Length == 64
      modifies w
      ensures w[..16] == Schedule(block, 16)
    {
      for i := 0 to 16
        invariant w[..i] == Schedule(block, i)
      {
        w[i] := ReadWord(block[i * 4], block[i * 4 + 1], block[i * 4 + 2], block[i * 4 + 3]);
        assert block[4 * i..4 * i + 4] == [block[i * 4], block[i * 4 + 1], block[i * 4 + 2], block[i * 4 + 3]];
        assert w[..i + 1] == w[..i] + [WordAt(block, i)];
      }
    }

    /** Four bytes shifted into place. */
    method ReadWord(b0: byte, b1: byte, b2: byte, b3: byte) returns (w: Word)
      ensures w == FromBytes([b0, b1, b2, b3])
    {
      w := OrW(OrW(OrW(Shl(b0 as Word, 24), Shl(b1 as Word, 16)), Shl(b2 as Word, 8)), b3 as Word);
      FourBytes(b0, b1, b2, b3);
    }

    /** The sum is taken in another order. */
    method ScheduleWord(w16: Word, w15: Word, w7: Word, w2: Word) returns (w: Word)
      ensures w == NextWord(w16, w15, w7, w2)
    {
      var s0 := XorW(XorW(Rotr(w15, 7), Rotr(w15, 18)), Shr(w15, 3));
      var s1 := XorW(XorW(Rotr(w2, 17), Rotr(w2, 19)), Shr(w2, 10));
      w := Add(Add(Add(w16, s0), w7), s1);
      AddsCommute(w16, s0, w7, s1);
    }

    /** The body of the main loop, on its eight variables. */
    method Mix(v: Vars, k: Word, w: Word) returns (v': Vars)
      ensures v' == Turn(v, k, w)
    {
      var Vars(a, b, c, d, e, f, g, hh) := v;
      var s1 := XorW(XorW(Rotr(e, 6), Rotr(e, 11)), Rotr(e, 25));
      var ch := XorW(AndW(e, f), AndW(Not(e), g));
      var temp1 := Add(Add(Add(Add(hh, s1), ch), k), w);
      var s0 := XorW(XorW(Rotr(a, 2), Rotr(a, 13)), Rotr(a, 22));
      var maj := XorW(XorW(AndW(a, b), AndW(a, c)), AndW(b, c));
      var temp2 := Add(s0, maj);
      hh := g;
      g := f;
      f := e;
      e := Add(d, temp1);
      d := c;
      c := b;
      b := a;
      a := Add(temp1, temp2);
      v' := Vars(a, b, c, d, e, f, g, hh);
    }

    method ProcessBlock(block: seq<byte>)
      requires h.Length == 8 && |block| == BLOCK
      modifies h
      ensures h[..] == Compress(old(h[..]), block)
    {
      var w := MessageSchedule(block);
      var v := MixAll(w[..]);
      AddTo(v);
    }

    method MixAll(w: seq<Word>) returns (v: Vars)
      requires h.Length == 8 && |w| == 64
      ensures v == Turns(h[..], w, 64)
    {
      v := Vars(h[0], h[1], h[2], h[3], h[4], h[5], h[6], h[7]);
      for i := 0 to 64
        invariant v == Turns(h[..], w, i)
      {
        v := Mix(v, K[i], w[i]);
      }
    }

    method AddTo(v: Vars)
      requires h.Length == 8
      modifies h
      ensures h[..] == [
        Add(old(h[0]), v.a), Add(old(h[1]), v.b), Add(old(h[2]), v.c), Add(old(h[3]), v.d),
        Add(old(h[4]), v.e), Add(old(h[5]), v.f), Add(old(h[6]), v.g), Add(old(h[7]), v.h)]
    {
      h[0], h[1], h[2], h[3] := Add(h[0], v.a), Add(h[1], v.b), Add(h[2], v.c), Add(h[3], v.d);
      h[4], h[5], h[6], h[7] := Add(h[4], v.e), Add(h[5], v.f), Add(h[6], v.g), Add(h[7], v.h);
    }

    /** Feeds any number of bytes, a buffer at a time. */
    method Update(data: seq<byte>)
      requires Valid()
      modifies this, h, buffer
      ensures Valid() && fed == old(fed) + data
    {
      totalLen := (totalLen + |data|) % MAX_BITS;
      ghost var all := fed + data;
      var rest := data;
      while rest != []
        invariant Buffered() && bufferLen < BLOCK && fed + rest == all && totalLen == |all| % MAX_BITS
        decreases |rest|
      {
        var take := if |rest| < BLOCK - bufferLen then |rest| else BLOCK - bufferLen;
        assert fed + rest == (fed + rest[..take]) + rest[take..];
        Fill(rest[..take]);
        rest := rest[take..];
        if bufferLen == BLOCK { Drain(); }
      }
    }

    /** Copies bytes to the end of the buffer. */
    method Fill(bytes: seq<byte>)
      requires Buffered() && bufferLen + |bytes| <= BLOCK
      modifies this`bufferLen, this`fed, buffer
      ensures Buffered() && fed == old(fed) + bytes && bufferLen == old(bufferLen) + |bytes|
    {
      for i := 0 to |bytes|
        invariant bufferLen == old(bufferLen) && fed == old(fed) && h[..] == old(h[..])
        invariant buffer[..bufferLen + i] == old(buffer[..bufferLen]) + bytes[..i]
      {
        buffer[bufferLen + i] := bytes[i];
      }
      bufferLen := bufferLen + |bytes|;
      fed := fed + bytes;
    }

    /** Hashes a full buffer and empties it. */
    method Drain()
      requires Buffered() && bufferLen == BLOCK
      modifies this`bufferLen, this`hashed, this`hashes, h
      ensures Buffered() && bufferLen == 0
    {
      ghost var block := buffer[..];
      ProcessBlock(buffer[..]);
      ChainGrows(hashes, hashed, block, h[..]);
      hashes := hashes + [h[..]];
      hashed := hashed + block;
      bufferLen := 0;
    }

    /** Pads, hashes what is left and gives the hash values out as bytes. The length counts bits in a
        64-bit word: from 2^61 bytes on, where the standard defines no hash, the count padded with wraps. */
    method Finalize() returns (digest: seq<byte>)
      requires Valid()
      modifies this, h, buffer
      ensures digest == HashPadded(old(fed), 8 * |old(fed)| % MAX_BITS)
    {
      ghost var message := fed;
      var bits := totalLen * 8 % MAX_BITS;
      WrapOnce(|message|);
      FillUp();
      var length := LengthBytes(bits);
      Fill(length);
      Drain();
      assert hashed == Pad(message, bits);
      ChainEndsInHash(hashes, hashed);
      digest := GiveOut();
    }

    /** The one bit and the zero bits, a byte at a time: the loop ends, and as soon as it may. */
    method FillUp()
      requires Valid()
      modifies this, h, buffer
      ensures Valid() && bufferLen == 56 && fed == old(fed) + [0x80] + Zeros(ZeroBytes(|old(fed)|))
    {
      ghost var message := fed;
      Update([0x80]);
      ghost var k: nat := 0;
      while bufferLen != 56
        invariant Valid() && fed == message + [0x80] + Zeros(k) && k <= ZeroBytes(|message|)
        decreases ZeroBytes(|message|) - k
      {
        LengthModBlock();
        Update([0]);
        k := k + 1;
      }
      LengthModBlock();
      ZeroBytesAreFewest(|message|, k);
    }

    lemma LengthModBlock()
      requires Buffered() && bufferLen < BLOCK
      ensures bufferLen == |fed| % BLOCK
    {}

    method GiveOut() returns (digest: seq<byte>)
      requires h.Length == 8
      ensures digest == Concatenated(h[..])
    {
      digest := [];
      for i := 0 to 8
        invariant digest == Concatenated(h[..i])
      {
        assert h[..i + 1][..i] == h[..i];
        var bytes := WordBytes(h[i]);
        digest := digest + bytes;
      }
      assert h[..8] == h[..];
    }

    static method Hash(input: seq<byte>) returns (digest: seq<byte>)
      ensures digest == HashPadded(input, 8 * |input| % MAX_BITS)
      ensures 8 * |input| < MAX_BITS ==> digest == Digest(input)
    {
      var hasher := new Sha256();
      hasher.Update(input);
      assert hasher.fed == input;
      digest := hasher.Finalize();
      if 8 * |input| < MAX_BITS { WrapsNot(8 * |input|); }
    }
  }

  lemma WrapsNot(n: nat)
    requires n < MAX_BITS
    ensures n % MAX_BITS == n
  {}

  lemma WrapOnce(n: nat)
    ensures n % MAX_BITS * 8 % MAX_BITS == 8 * n % MAX_BITS
  {
    var q, r := n / MAX_BITS, n % MAX_BITS;
    assert 8 * n == MAX_BITS * (8 * q) + 8 * r;
  }

  lemma Pow2OfBytes(n: nat)
    ensures Pow2(8 * n) == Pow256(n)
  {
    if n > 0 {
      Pow2OfBytes(n - 1);
      EightMore(8 * (n - 1));
    }
  }

  method LengthBytes(bits: nat) returns (bytes: seq<byte>)
    ensures bytes == ToBytes(bits, 8)
  {
    bytes := [];
    for i := 0 to 8
      invariant bytes == ToBytes(bits, 8)[..i]
    {
      LowByte(bits / Pow256(7 - i));
      ByteAt(bits, 8, i);
      bytes := bytes + [And(bits / Pow256(7 - i), 0xFF) as byte];
    }
  }

  /** Byte `j` of a word: shifted down and masked. */
  lemma OctetIs(w: Word, j: nat)
    requires j < 4
    ensures And(Shr(w, 24 - 8 * j), 0xFF) == ToBytes(w, 4)[j] as nat
  {
    ShrDivides(w, 8 * (3 - j));
    Pow2OfBytes(3 - j);
    ByteAt(w, 4, j);
    LowByte(w / Pow256(3 - j));
  }

  method WordBytes(w: Word) returns (bytes: seq<byte>)
    ensures bytes == ToBytes(w, 4)
  {
    OctetIs(w, 0);
    OctetIs(w, 1);
    OctetIs(w, 2);
    OctetIs(w, 3);
    bytes := [
      And(Shr(w, 24), 0xFF) as byte, And(Shr(w, 16), 0xFF) as byte, And(Shr(w, 8), 0xFF) as byte,
      And(Shr(w, 0), 0xFF) as byte];
  }
}
