/** What the two hash functions share: 64-byte blocks, and the padding of section 3.1 of RFC 1321
    and section 5.1.1 of FIPS 180-3. */
module Blocks {
  import opened BitIdentities
  import opened Sequences

  type Block = b: seq<Byte> | |b| == 64 witness seq(64, _ => 0)

  const TWO_TO_THE_32: nat := 0x1_0000_0000
  const TWO_TO_THE_64: nat := 0x1_0000_0000_0000_0000

  /** The chaining value after every full block of m; a shorter rest is not looked at. */
  function Fold<S>(compress: (S, Block) -> S, s: S, m: seq<Byte>): (r: S)
    decreases |m|
  {
    if |m| < 64 then s else Fold(compress, compress(s, m[..64]), m[64..])
  }

  lemma {:induction false} FoldAppend<S>(compress: (S, Block) -> S, s: S, a: seq<Byte>, b: seq<Byte>)
    requires |a| % 64 == 0
    ensures Fold(compress, s, a + b) == Fold(compress, Fold(compress, s, a), b)
    decreases |a|
  {
    if a == [] {
      assert a + b == b;
    } else {
      FoldAppend(compress, compress(s, a[..64]), a[64..], b);
      assert (a + b)[..64] == a[..64];
      assert (a + b)[64..] == a[64..] + b;
    }
  }

  lemma FoldBlock<S>(compress: (S, Block) -> S, s: S, a: seq<Byte>, b: Block)
    requires |a| % 64 == 0
    ensures Fold(compress, s, a + b) == compress(Fold(compress, s, a), b)
  {
    FoldAppend(compress, s, a, b);
    assert b[..64] == b;
  }

  /** The bytes of m after its last full block. */
  function Tail(m: seq<Byte>): (r: seq<Byte>)
    ensures |r| == |m| % 64
  {
    m[|m| - |m| % 64..]
  }

  lemma {:induction false} FoldWithoutTail<S>(compress: (S, Block) -> S, s: S, m: seq<Byte>)
    ensures Fold(compress, s, m) == Fold(compress, s, m[..|m| - |m| % 64])
  {
    FoldAppend(compress, s, m[..|m| - |m| % 64], Tail(m));
    assert m == m[..|m| - |m| % 64] + Tail(m);
  }

  function Zeros(n: nat): (r: seq<Byte>)
    ensures |r| == n
  {
    Repeated<Byte>(0, n)
  }

  lemma ZerosJoin(a: nat, b: nat)
    ensures Zeros(a) + Zeros(b) == Zeros(a + b)
  {
  }

  /** How many zero bytes follow the byte 0x80 in the padding of n bytes. */
  function PadZeros(n: nat): (k: nat)
    ensures (n + 1 + k) % 64 == 56 && k < 64
  {
    (119 - n % 64) % 64
  }

  function Padded(m: seq<Byte>, length: seq<Byte>): (r: seq<Byte>)
    requires |length| == 8
    ensures |r| % 64 == 0
  {
    m + [0x80] + Zeros(PadZeros(|m|)) + length
  }

  /** Too little to fill the block: no new full block, and it joins the tail. */
  lemma {:induction false} FoldShort<S>(compress: (S, Block) -> S, s: S, m: seq<Byte>, more: seq<Byte>)
    requires |m| % 64 + |more| < 64
    ensures Fold(compress, s, m + more) == Fold(compress, s, m)
    ensures Tail(m + more) == Tail(m) + more
  {
    assert (m + more)[..|m + more| - |m + more| % 64] == m[..|m| - |m| % 64];
    FoldWithoutTail(compress, s, m);
    FoldWithoutTail(compress, s, m + more);
  }

  /** The tail, filled up with the first bytes of more, is the next block. */
  lemma {:induction false} FoldFilled<S>(compress: (S, Block) -> S, s: S, m: seq<Byte>, more: seq<Byte>)
    requires |Tail(m) + more| == 64
    ensures Fold(compress, s, m) == Fold(compress, s, m[..|m| - |m| % 64])
    ensures m[..|m| - |m| % 64] + (Tail(m) + more) == m + more
    ensures Fold(compress, s, m + more) == compress(Fold(compress, s, m), Tail(m) + more)
    ensures |m + more| % 64 == 0
  {
    var full := m[..|m| - |m| % 64];
    FoldWithoutTail(compress, s, m);
    FoldBlock(compress, s, full, Tail(m) + more);
    ConcatAssoc(full, Tail(m), more);
    assert m == full + Tail(m);
  }

  /** memcpy to an offset of an array. */
  method CopyInto(dst: array<Byte>, at: nat, src: seq<Byte>)
    requires at + |src| <= dst.Length
    modifies dst
    ensures dst[..] == old(dst[..at]) + src + old(dst[at + |src|..])
  {
    forall i | 0 <= i < |src| {
      dst[at + i] := src[i];
    }
  }
}
