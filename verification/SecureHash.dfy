/** The secure hash of FIPS 180-4, sections 3 to 6, for messages of whole bytes. */
module SecureHash {
  import opened BigEndian
  import opened Words

  const BLOCK := 64

  /** Section 5.3.3. */
  const INITIAL: seq<Word> := [
    0x6a09e667, 0xbb67ae85, 0x3c6ef372, 0xa54ff53a, 0x510e527f, 0x9b05688c, 0x1f83d9ab, 0x5be0cd19]

  /** Section 4.2.2, sixteen constants at a time. */
  const K_A: seq<Word> := [
    0x428a2f98, 0x71374491, 0xb5c0fbcf, 0xe9b5dba5, 0x3956c25b, 0x59f111f1, 0x923f82a4, 0xab1c5ed5,
    0xd807aa98, 0x12835b01, 0x243185be, 0x550c7dc3, 0x72be5d74, 0x80deb1fe, 0x9bdc06a7, 0xc19bf174]

  const K_B: seq<Word> := [
    0xe49b69c1, 0xefbe4786, 0x0fc19dc6, 0x240ca1cc, 0x2de92c6f, 0x4a7484aa, 0x5cb0a9dc, 0x76f988da,
    0x983e5152, 0xa831c66d, 0xb00327c8, 0xbf597fc7, 0xc6e00bf3, 0xd5a79147, 0x06ca6351, 0x14292967]

  const K_C: seq<Word> := [
    0x27b70a85, 0x2e1b2138, 0x4d2c6dfc, 0x53380d13, 0x650a7354, 0x766a0abb, 0x81c2c92e, 0x92722c85,
    0xa2bfe8a1, 0xa81a664b, 0xc24b8b70, 0xc76c51a3, 0xd192e819, 0xd6990624, 0xf40e3585, 0x106aa070]

  const K_D: seq<Word> := [
    0x19a4c116, 0x1e376c08, 0x2748774c, 0x34b0bcb5, 0x391c0cb3, 0x4ed8aa4a, 0x5b9cca4f, 0x682e6ff3,
    0x748f82ee, 0x78a5636f, 0x84c87814, 0x8cc70208, 0x90befffa, 0xa4506ceb, 0xbef9a3f7, 0xc67178f2]

  const K := K_A + K_B + K_C + K_D

  // ----- functions on words, sections 3.2 and 4.1.2

  function Rotr(x: Word, n: nat): Word
    requires n <= 32
  {
    OrW(Shr(x, n), Shl(x, 32 - n))
  }

  function Ch(x: Word, y: Word, z: Word): Word { XorW(AndW(x, y), AndW(Not(x), z)) }

  function Maj(x: Word, y: Word, z: Word): Word { XorW(XorW(AndW(x, y), AndW(x, z)), AndW(y, z)) }

  function BigSigma0(x: Word): Word { XorW(XorW(Rotr(x, 2), Rotr(x, 13)), Rotr(x, 22)) }

  function BigSigma1(x: Word): Word { XorW(XorW(Rotr(x, 6), Rotr(x, 11)), Rotr(x, 25)) }

  function SmallSigma0(x: Word): Word { XorW(XorW(Rotr(x, 7), Rotr(x, 18)), Shr(x, 3)) }

  function SmallSigma1(x: Word): Word { XorW(XorW(Rotr(x, 17), Rotr(x, 19)), Shr(x, 10)) }

  // ----- one block, section 6.2.2

  /** Four bytes make a word, section 3.1. */
  function WordAt(block: seq<byte>, t: nat): Word
    requires |block| == BLOCK && t < 16
  {
    FromBytesBound(block[4 * t..4 * t + 4]);
    assert Pow256(4) == MODULUS;
    FromBytes(block[4 * t..4 * t + 4])
  }

  function NextWord(w16: Word, w15: Word, w7: Word, w2: Word): Word {
    Add(Add(Add(SmallSigma1(w2), w7), SmallSigma0(w15)), w16)
  }

  /** The first `t` words of the message schedule. */
  function Schedule(block: seq<byte>, t: nat): (w: seq<Word>)
    requires |block| == BLOCK && t <= 64
    ensures |w| == t
    decreases t, 1, block
  {
    if t == 0 then [] else OneMoreWord(block, t)
  }

  function OneMoreWord(block: seq<byte>, t: nat): (w: seq<Word>)
    requires |block| == BLOCK && 0 < t <= 64
    ensures |w| == t
    decreases t, 0, block
  {
    var w := Schedule(block, t - 1);
    w + [if t <= 16 then WordAt(block, t - 1) else NextWord(w[t - 17], w[t - 16], w[t - 8], w[t - 3])]
  }

  datatype Vars = Vars(a: Word, b: Word, c: Word, d: Word, e: Word, f: Word, g: Word, h: Word)

  function Turn(v: Vars, k: Word, w: Word): Vars {
    var t1 := Add(Add(Add(Add(v.h, BigSigma1(v.e)), Ch(v.e, v.f, v.g)), k), w);
    var t2 := Add(BigSigma0(v.a), Maj(v.a, v.b, v.c));
    Vars(Add(t1, t2), v.a, v.b, v.c, Add(v.d, t1), v.e, v.f, v.g)
  }

  /** The working variables after `t` turns. */
  function Turns(hash: seq<Word>, w: seq<Word>, t: nat): Vars
    requires |hash| == 8 && |w| == 64 && t <= 64
    decreases t, 1, w
  {
    if t == 0 then Vars(hash[0], hash[1], hash[2], hash[3], hash[4], hash[5], hash[6], hash[7])
    else OneMoreTurn(hash, w, t)
  }

  function OneMoreTurn(hash: seq<Word>, w: seq<Word>, t: nat): Vars
    requires |hash| == 8 && |w| == 64 && 0 < t <= 64
    decreases t, 0, w
  {
    Turn(Turns(hash, w, t - 1), K[t - 1], w[t - 1])
  }

  function Compress(hash: seq<Word>, block: seq<byte>): (next: seq<Word>)
    requires |hash| == 8 && |block| == BLOCK
    ensures |next| == 8
  {
    var v := Turns(hash, Schedule(block, 64), 64);
    [Add(hash[0], v.a), Add(hash[1], v.b), Add(hash[2], v.c), Add(hash[3], v.d),
     Add(hash[4], v.e), Add(hash[5], v.f), Add(hash[6], v.g), Add(hash[7], v.h)]
  }

  /** The hash values after all the blocks of `bytes`, sections 5.2.1 and 6.2. */
  function HashBlocks(bytes: seq<byte>): (hash: seq<Word>)
    requires |bytes| % BLOCK == 0
    ensures |hash| == 8
    decreases bytes, 1
  {
    if bytes == [] then INITIAL else AfterLastBlock(bytes)
  }

  function AfterLastBlock(bytes: seq<byte>): (hash: seq<Word>)
    requires |bytes| % BLOCK == 0 && bytes != []
    ensures |hash| == 8
    decreases bytes, 0
  {
    Compress(HashBlocks(bytes[..|bytes| - BLOCK]), bytes[|bytes| - BLOCK..])
  }

  /** `hashes[k]` becomes `hashes[k + 1]` by block `k` of `bytes`. */
  ghost predicate Linked(hashes: seq<seq<Word>>, bytes: seq<byte>, k: nat)
    requires k + 1 < |hashes| && BLOCK * (k + 1) <= |bytes|
  {
    |hashes[k]| == 8 && hashes[k + 1] == Compress(hashes[k], bytes[BLOCK * k..BLOCK * (k + 1)])
  }

  /** The hash values before the first block, after it, and so on through the last. */
  ghost predicate Chain(hashes: seq<seq<Word>>, bytes: seq<byte>) {
    |hashes| > 0 && |bytes| == BLOCK * (|hashes| - 1) && hashes[0] == INITIAL &&
    forall k {:trigger Linked(hashes, bytes, k)} :: 0 <= k < |hashes| - 1 ==> Linked(hashes, bytes, k)
  }

  lemma ChainGrows(hashes: seq<seq<Word>>, bytes: seq<byte>, block: seq<byte>, next: seq<Word>)
    requires Chain(hashes, bytes) && |block| == BLOCK && |hashes[|hashes| - 1]| == 8
    requires next == Compress(hashes[|hashes| - 1], block)
    ensures Chain(hashes + [next], bytes + block)
  {
    var longer, more := hashes + [next], bytes + block;
    forall k | 0 <= k < |longer| - 1 ensures Linked(longer, more, k) {
      if k < |hashes| - 1 {
        assert Linked(hashes, bytes, k);
        assert more[BLOCK * k..BLOCK * (k + 1)] == bytes[BLOCK * k..BLOCK * (k + 1)];
      } else {
        assert more[BLOCK * k..BLOCK * (k + 1)] == block;
      }
    }
  }

  lemma {:induction false} ChainEndsInHash(hashes: seq<seq<Word>>, bytes: seq<byte>)
    requires Chain(hashes, bytes)
    ensures hashes[|hashes| - 1] == HashBlocks(bytes)
    decreases |hashes|
  {
    var last := |hashes| - 1;
    if last > 0 {
      var shorter, fewer := hashes[..last], bytes[..|bytes| - BLOCK];
      forall k | 0 <= k < last - 1 ensures Linked(shorter, fewer, k) {
        assert Linked(hashes, bytes, k);
        assert fewer[BLOCK * k..BLOCK * (k + 1)] == bytes[BLOCK * k..BLOCK * (k + 1)];
      }
      ChainEndsInHash(shorter, fewer);
      assert Linked(hashes, bytes, last - 1);
      assert bytes[BLOCK * (last - 1)..BLOCK * last] == bytes[|bytes| - BLOCK..];
    }
  }

  // ----- padding, section 5.1.1

  /** As few zero bytes as make the length come out eight short of a block. */
  function ZeroBytes(length: nat): (k: nat)
    ensures (length + 1 + k) % BLOCK == 56
  {
    (55 - length) % BLOCK
  }

  lemma ZeroBytesAreFewest(length: nat, j: nat)
    ensures (length + 1 + j) % BLOCK == 56 ==> j >= ZeroBytes(length)
  {}

  function Zeros(k: nat): seq<byte> { seq(k, i => 0) }

  /** The message, a one bit, zero bits, and the number of bits in 64 of them. */
  function Pad(message: seq<byte>, bits: nat): (padded: seq<byte>)
    ensures |padded| % BLOCK == 0
  {
    message + [0x80] + Zeros(ZeroBytes(|message|)) + ToBytes(bits, 8)
  }

  // ----- the digest, section 6.2.2

  function Concatenated(words: seq<Word>): (bytes: seq<byte>)
    ensures |bytes| == 4 * |words|
  {
    if words == [] then [] else Concatenated(words[..|words| - 1]) + ToBytes(words[|words| - 1], 4)
  }

  const MAX_BITS: nat := 0x1_0000_0000_0000_0000

  function HashPadded(message: seq<byte>, bits: nat): seq<byte> {
    Concatenated(HashBlocks(Pad(message, bits)))
  }

  /** The hash the standard defines, which it does for messages of fewer than 2^64 bits. */
  function Digest(message: seq<byte>): seq<byte>
    requires 8 * |message| < MAX_BITS
  {
    HashPadded(message, 8 * |message|)
  }
}
