/** Bytes, and numbers as bytes with the most significant first. */
module BigEndian {
  import opened Types

  newtype byte = x: int | 0 <= x < 256

  function Pow256(k: nat): (p: nat)
    ensures p > 0
  {
    if k == 0 then 1 else 256 * Pow256(k - 1)
  }

  /** The low `k` bytes of `n`. */
  function ToBytes(n: nat, k: nat): (s: seq<byte>)
    ensures |s| == k
  {
    if k == 0 then [] else ToBytes(n / 256, k - 1) + [(n % 256) as byte]
  }

  function FromBytes(s: seq<byte>): nat {
    if s == [] then 0 else FromBytes(s[..|s| - 1]) * 256 + s[|s| - 1] as nat
  }

  lemma {:induction false} FromBytesBound(s: seq<byte>)
    ensures FromBytes(s) < Pow256(|s|)
  {
    if s != [] { FromBytesBound(s[..|s| - 1]); }
  }

  /** A number that fits survives the trip. */
  lemma {:induction false} FromToBytes(n: nat, k: nat)
    ensures n < Pow256(k) ==> FromBytes(ToBytes(n, k)) == n
  {
    if k > 0 {
      FromToBytes(n / 256, k - 1);
      assert ToBytes(n, k)[..k - 1] == ToBytes(n / 256, k - 1);
    }
  }

  /** And bytes always do. */
  lemma {:induction false} ToFromBytes(s: seq<byte>)
    ensures ToBytes(FromBytes(s), |s|) == s
  {
    if s != [] { ToFromBytes(s[..|s| - 1]); }
  }

  lemma DivideTwice(n: nat, p: nat)
    requires p > 0
    ensures n / 256 / p == n / (256 * p)
  {
    var q, r := n / 256, n % 256;
    var a, b := q / p, q % p;
    assert n == 256 * (a * p + b) + r;
    assert n == (256 * p) * a + (256 * b + r);
    assert 0 <= 256 * b + r < 256 * p;
    QuotientIs(n, 256 * p, a, 256 * b + r);
  }

  lemma QuotientIs(n: nat, d: nat, q: nat, r: nat)
    requires d > 0 && n == d * q + r && r < d
    ensures n / d == q
  {
    var q' := n / d;
    if q' < q { ProductGrows(q' + 1, q, d); }
    if q' > q { ProductGrows(q + 1, q', d); }
  }

  /** Byte `i` is the number shifted down past the bytes after it. */
  lemma {:induction false} ByteAt(n: nat, k: nat, i: nat)
    requires i < k
    ensures ToBytes(n, k)[i] as nat == n / Pow256(k - 1 - i) % 256
  {
    if i < k - 1 {
      ByteAt(n / 256, k - 1, i);
      DivideTwice(n, Pow256(k - 2 - i));
    }
  }
}
