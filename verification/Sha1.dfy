/** The SHA-1 of sha1_portable.cc, proved against FIPS 180-3. */
module Sha1 {
  import opened Arithmetic
  import opened BitIdentities
  import opened Blocks
  import opened Sequences

  // ---------------------------------------------------------------- FIPS 180-3

  datatype Regs = Regs(a: Word, b: Word, c: Word, d: Word, e: Word)

  const INIT := Regs(0x67452301, 0xefcdab89, 0x98badcfe, 0x10325476, 0xc3d2e1f0)

  function Ch(x: Word, y: Word, z: Word): Word { (x & y) ^ (!x & z) }
  function Parity(x: Word, y: Word, z: Word): Word { x ^ y ^ z }
  function Maj(x: Word, y: Word, z: Word): Word { (x & y) ^ (x & z) ^ (y & z) }

  /** The functions f_t of section 4.1.1. */
  function Ft(t: nat, x: Word, y: Word, z: Word): Word
  {
    if t < 20 then Ch(x, y, z)
    else if t < 40 then Parity(x, y, z)
    else if t < 60 then Maj(x, y, z)
    else Parity(x, y, z)
  }

  /** The constants of section 4.2.1. */
  function Kt(t: nat): Word
  {
    if t < 20 then 0x5a827999 else if t < 40 then 0x6ed9eba1 else if t < 60 then 0x8f1bbcdc else 0xca62c1d6
  }

  function Rotl(n: nat, x: Word): Word
    requires n <= 32
  {
    (x << n) | (x >> (32 - n))
  }

  function Xor4(a: Word, b: Word, c: Word, d: Word): Word { a ^ b ^ c ^ d }

  function Add(x: Word, y: Word): Word { x + y }

  function Sum(r: Word, f: Word, e: Word, k: Word, w: Word): Word { r + f + e + k + w }

  function Be32(b: seq<Byte>): Word
    requires |b| == 4
  {
    ((b[0] as Word) << 24) | ((b[1] as Word) << 16) | ((b[2] as Word) << 8) | (b[3] as Word)
  }

  function BeBytes(w: Word): (b: seq<Byte>)
    ensures |b| == 4
  {
    [((w >> 24) & 0xff) as Byte, ((w >> 16) & 0xff) as Byte, ((w >> 8) & 0xff) as Byte, (w & 0xff) as Byte]
  }

  /** Step 1 of section 6.1.2: the message schedule. */
  function Schedule(b: Block, t: nat): Word
  {
    if t < 16 then Be32(b[4 * t..4 * t + 4])
    else Rotl(1, Xor4(Schedule(b, t - 3), Schedule(b, t - 8), Schedule(b, t - 14), Schedule(b, t - 16)))
  }

  /** Step 3 for one t. */
  function Round(t: nat, r: Regs, w: Word): (r': Regs)
  {
    Regs(Sum(Rotl(5, r.a), Ft(t, r.b, r.c, r.d), r.e, Kt(t), w), r.a, Rotl(30, r.b), r.c, r.d)
  }

  function Rounds(n: nat, r: Regs, b: Block): (r': Regs)
  {
    if n == 0 then r else Round(n - 1, Rounds(n - 1, r, b), Schedule(b, n - 1))
  }

  function Plus(r: Regs, s: Regs): Regs
  {
    Regs(Add(r.a, s.a), Add(r.b, s.b), Add(r.c, s.c), Add(r.d, s.d), Add(r.e, s.e))
  }

  function Compress(r: Regs, b: Block): (r': Regs)
  {
    Plus(r, Rounds(80, r, b))
  }

  /** The bytes of a number, highest first. */
  function BigEndian(n: nat, count: nat): (b: seq<Byte>)
    ensures |b| == count
  {
    if count == 0 then [] else BigEndian(n / 256, count - 1) + [(n % 256) as Byte]
  }

  function Encode(r: Regs): (b: seq<Byte>)
  {
    BeBytes(r.a) + BeBytes(r.b) + BeBytes(r.c) + BeBytes(r.d) + BeBytes(r.e)
  }

  function Chained(m: seq<Byte>): (r: Regs)
  {
    Fold(Compress, INIT, m)
  }

  /** The message digest: sections 5.1.1 and 6.1.2. */
  function Digest(m: seq<Byte>): (d: seq<Byte>)
  {
    Encode(Chained(Padded(m, BigEndian(8 * |m| % TWO_TO_THE_64, 8))))
  }

  // ---------------------------------------------------------------- the pure functions of the source

  function F(t: nat, b: Word, c: Word, d: Word): Word
  {
    if t < 20 then (b & c) | (!b & d)
    else if t < 40 then b ^ c ^ d
    else if t < 60 then (b & c) | (b & d) | (c & d)
    else b ^ c ^ d
  }

  function SumInOrder(r: Word, f: Word, e: Word, w: Word, k: Word): Word { r + f + e + w + k }

  /** The OR forms of the source are the XOR forms of section 4.1.1. */
  lemma FIsFt(t: nat, b: Word, c: Word, d: Word)
    ensures F(t, b, c, d) == Ft(t, b, c, d)
  {
    if t < 20 {
      SelectOrIsXor(b, c, d);
    } else if 40 <= t < 60 {
      MajorityOrIsXor(b, c, d);
    }
  }

  lemma SumsAgree(r: Word, f: Word, e: Word, k: Word, w: Word)
    ensures SumInOrder(r, f, e, w, k) == Sum(r, f, e, k, w)
  {
  }

  function Swap(t: Word): Word
  {
    (t >> 24) | ((t >> 8) & 0xff00) | ((t & 0xff00) << 8) | (t << 24)
  }

  // ---------------------------------------------------------------- the union of W and M

  /** Byte k of a word in memory, on a little-endian machine. */
  function GetByte(w: Word, k: nat): Byte
  {
    if k == 0 then Byte0(w) else if k == 1 then Byte1(w) else if k == 2 then Byte2(w) else Byte3(w)
  }

  function SetByte(w: Word, k: nat, b: Byte): Word
  {
    if k == 0 then With0(w, b) else if k == 1 then With1(w, b) else if k == 2 then With2(w, b) else With3(w, b)
  }

  lemma GetSetByte(w: Word, k: nat, b: Byte, j: nat)
    requires k < 4 && j < 4
    ensures GetByte(SetByte(w, k, b), j) == if j == k then b else GetByte(w, j)
  {
    hide Byte0, Byte1, Byte2, Byte3, With0, With1, With2, With3;
    if k == 0 {
      BytesWith0(w, b);
    } else if k == 1 {
      BytesWith1(w, b);
    } else if k == 2 {
      BytesWith2(w, b);
    } else {
      BytesWith3(w, b);
    }
  }

  /** M[i], given W. */
  function ByteAt(w: seq<Word>, i: nat): Byte
    requires i / 4 < |w|
  {
    GetByte(w[i / 4], i % 4)
  }

  lemma SwapIsBe32(w: Word)
    ensures Swap(w) == Be32([GetByte(w, 0), GetByte(w, 1), GetByte(w, 2), GetByte(w, 3)])
  {
  }

  lemma SwapReverses(w: Word)
    ensures [GetByte(Swap(w), 0), GetByte(Swap(w), 1), GetByte(Swap(w), 2), GetByte(Swap(w), 3)] == BeBytes(w)
  {
  }

  /** The first n bytes of M. */
  function BytesOf(w: seq<Word>, n: nat): (b: seq<Byte>)
    requires n <= 64 && |w| >= 16
    ensures |b| == n
  {
    seq(n, i requires 0 <= i < n => ByteAt(w, i))
  }

  lemma BytesOfUpdated(w: seq<Word>, i: nat, b: Byte)
    requires i < 64 && |w| >= 16
    ensures BytesOf(w[i / 4 := SetByte(w[i / 4], i % 4, b)], i + 1) == BytesOf(w, i) + [b]
  {
    hide SetByte, GetByte;
    var w' := w[i / 4 := SetByte(w[i / 4], i % 4, b)];
    forall j | 0 <= j <= i
      ensures ByteAt(w', j) == if j == i then b else ByteAt(w, j)
    {
      GetSetByte(w[i / 4], i % 4, b, j % 4);
    }
  }

  /** A swapped word of W is the word of the block that the standard reads. */
  lemma SwappedIsScheduled(w: seq<Word>, t: nat)
    requires |w| >= 16 && t < 16
    ensures Swap(w[t]) == Schedule(BytesOf(w, 64), t)
  {
    hide Swap, Be32, GetByte, BytesOf;
    SwapIsBe32(w[t]);
    ByteInWord(w, t, 0);
    ByteInWord(w, t, 1);
    ByteInWord(w, t, 2);
    ByteInWord(w, t, 3);
    FourBytes(BytesOf(w, 64), 4 * t, GetByte(w[t], 0), GetByte(w[t], 1), GetByte(w[t], 2), GetByte(w[t], 3));
  }

  lemma ByteInWord(w: seq<Word>, t: nat, k: nat)
    requires |w| >= 16 && t < 16 && k < 4
    ensures BytesOf(w, 64)[4 * t + k] == GetByte(w[t], k)
  {
    hide GetByte;
    QuotientUnique(4 * t + k, 4, t, k);
  }

  lemma FourBytes(b: seq<Byte>, i: nat, b0: Byte, b1: Byte, b2: Byte, b3: Byte)
    requires i + 4 <= |b| && b[i] == b0 && b[i + 1] == b1 && b[i + 2] == b2 && b[i + 3] == b3
    ensures b[i..i + 4] == [b0, b1, b2, b3]
  {
  }

  function Registers(h: seq<Word>): Regs
    requires |h| == 5
  {
    Regs(h[0], h[1], h[2], h[3], h[4])
  }

  class SecureHashAlgorithm {
    var A: Word
    var B: Word
    var C: Word
    var D: Word
    var E: Word
    const H: array<Word>
    const W: array<Word>  // its first sixteen words are also the bytes M
    var cursor: nat
    var l: nat
    ghost var consumed: seq<Byte>  // every byte passed to Update since Init

    ghost predicate Shaped()
      reads this
    {
      H.Length == 5 && W.Length == 80 && H != W && cursor <= 64
    }

    /** The bytes of M that mean something. */
    ghost function Filled(): (b: seq<Byte>)
      requires Shaped()
      reads this, W
    {
      BytesOf(W[..], cursor)
    }

    ghost predicate Valid()
      reads this, H, W
    {
      && Shaped()
      && Registers(H[..]) == Chained(consumed)
      && cursor == |consumed| % 64
      && Filled() == Tail(consumed)
      && l == 8 * |consumed| % TWO_TO_THE_64
    }

    constructor ()
      ensures Valid() && consumed == [] && fresh(H) && fresh(W)
    {
      H := new Word[5];
      W := new Word[80];
      new;
      Init();
    }

    method Init()
      requires H.Length == 5 && W.Length == 80 && H != W
      modifies this, H
      ensures Valid() && consumed == []
    {
      ClearRegisters();
      cursor, l := 0, 0;
      InitH();
      consumed := [];
    }

    method ClearRegisters()
      modifies `A, `B, `C, `D, `E
      ensures Regs(A, B, C, D, E) == Regs(0, 0, 0, 0, 0)
    {
      A, B, C, D, E := 0, 0, 0, 0, 0;
    }

    method InitH()
      requires H.Length == 5
      modifies H
      ensures Registers(H[..]) == Chained([])
    {
      SetH(0x67452301, 0xefcdab89, 0x98badcfe, 0x10325476, 0xc3d2e1f0);
    }

    method SetH(h0: Word, h1: Word, h2: Word, h3: Word, h4: Word)
      requires H.Length == 5
      modifies H
      ensures Registers(H[..]) == Regs(h0, h1, h2, h3, h4)
    {
      H[0] := h0;
      H[1] := h1;
      H[2] := h2;
      H[3] := h3;
      H[4] := h4;
    }

    /** M[cursor++] = b. */
    method Put(b: Byte)
      requires Shaped() && cursor < 64
      modifies `cursor, W
      ensures Shaped() && Filled() == old(Filled()) + [b]
    {
      BytesOfUpdated(W[..], cursor, b);
      W[cursor / 4] := SetByte(W[cursor / 4], cursor % 4, b);
      assert W[..] == old(W[..])[cursor / 4 := SetByte(old(W[..])[cursor / 4], cursor % 4, b)];
      cursor := cursor + 1;
    }

    /** Steps a and b: W becomes the message schedule. */
    method Expand(ghost b: Block)
      requires Shaped() && b == BytesOf(W[..], 64)
      modifies W
      ensures forall t :: 0 <= t < 80 ==> W[t] == Schedule(b, t)
    {
      hide Swap, BytesOf, Be32, Rotl, Xor4;
      forall t | 0 <= t < 16
        ensures Swap(W[t]) == Schedule(b, t)
      {
        SwappedIsScheduled(W[..], t);
      }
      for t := 0 to 16
        invariant forall i :: 0 <= i < t ==> W[i] == Schedule(b, i)
        invariant forall i :: t <= i < 16 ==> Swap(W[i]) == Schedule(b, i)
      {
        W[t] := Swap(W[t]);
      }
      for t := 16 to 80
        invariant forall i :: 0 <= i < t ==> W[i] == Schedule(b, i)
      {
        W[t] := Rotl(1, Xor4(W[t - 3], W[t - 8], W[t - 14], W[t - 16]));
      }
    }

    /** Steps c and d: the eighty rounds on A to E. */
    method RunRounds(ghost b: Block)
      requires Shaped() && forall t :: 0 <= t < 80 ==> W[t] == Schedule(b, t)
      modifies `A, `B, `C, `D, `E
      ensures Regs(A, B, C, D, E) == Rounds(80, old(Regs(A, B, C, D, E)), b)
    {
      hide Schedule, Rotl, F, Ft, Kt, Sum, SumInOrder, Add;
      ghost var r := Regs(A, B, C, D, E);
      for t := 0 to 80
        invariant Regs(A, B, C, D, E) == Rounds(t, r, b)
      {
        FIsFt(t, B, C, D);
        SumsAgree(Rotl(5, A), F(t, B, C, D), E, Kt(t), W[t]);
        var temp := SumInOrder(Rotl(5, A), F(t, B, C, D), E, W[t], Kt(t));
        E := D;
        D := C;
        C := Rotl(30, B);
        B := A;
        A := temp;
      }
    }

    method Process()
      requires Shaped() && cursor == 64
      modifies `A, `B, `C, `D, `E, `cursor, H, W
      ensures Shaped() && cursor == 0
      ensures Registers(H[..]) == Compress(old(Registers(H[..])), old(Filled()))
    {
      hide Schedule, Rounds, Add, BytesOf, ByteAt;
      ghost var b: Block := Filled();
      Expand(b);
      A, B, C, D, E := H[0], H[1], H[2], H[3], H[4];
      RunRounds(b);
      H[0] := Add(H[0], A);
      H[1] := Add(H[1], B);
      H[2] := Add(H[2], C);
      H[3] := Add(H[3], D);
      H[4] := Add(H[4], E);
      cursor := 0;
    }

    method Update(data: seq<Byte>)
      requires Valid()
      modifies this, H, W
      ensures Valid() && consumed == old(consumed) + data
    {
      hide Fold, Compress, Chained, BytesOf, Registers;
      for i := 0 to |data|
        invariant Valid() && consumed == old(consumed) + data[..i]
      {
        ghost var m := consumed;
        Put(data[i]);
        if cursor >= 64 {
          Process();
        }
        l := (l + 8) % TWO_TO_THE_64;
        consumed := consumed + [data[i]];
        CountMore(|m|);
        if |m| % 64 < 63 {
          OneMoreInTail(m, data[i]);
        } else {
          OneMoreInBlock(m, data[i], Tail(m) + [data[i]]);
        }
        assert data[..i + 1] == data[..i] + [data[i]];
      }
      assert data[..|data|] == data;
    }

    method PutZeros(limit: nat)
      requires Shaped() && cursor <= limit <= 64
      modifies `cursor, W
      ensures Shaped() && cursor == limit
      ensures Filled() == old(Filled()) + Zeros(limit - old(cursor))
    {
      hide BytesOf;
      assert Filled() == old(Filled()) + Zeros(0);
      while cursor < limit
        invariant Shaped() && old(cursor) <= cursor <= limit
        invariant Filled() == old(Filled()) + Zeros(cursor - old(cursor))
      {
        ConcatAssoc(old(Filled()), Zeros(cursor - old(cursor)), [0]);
        assert Zeros(cursor - old(cursor)) + [0] == Zeros(cursor + 1 - old(cursor));
        Put(0);
      }
    }

    /** Byte k of l, while f and the higher bytes of it are there. */
    method PutByteOf(k: nat, ghost f: seq<Byte>)
      requires Shaped() && cursor + k == 63 && k < 8 && |f| == 56
      requires Filled() == f + BigEndian(l, 8)[..7 - k]
      modifies `cursor, W
      ensures Shaped() && cursor + k == 64
      ensures Filled() == f + BigEndian(l, 8)[..8 - k]
    {
      hide BytesOf, BigEndian;
      BigEndianAt(l, 8, k);
      Put(ByteOf(l, k));
      assert BigEndian(l, 8)[..8 - k] == BigEndian(l, 8)[..7 - k] + [ByteOf(l, k)];
    }

    method PutLength()
      requires Shaped() && cursor == 56
      modifies `cursor, W
      ensures Shaped() && cursor == 64
      ensures Filled() == old(Filled()) + BigEndian(l, 8)
    {
      hide BytesOf, BigEndian;
      ghost var f := Filled();
      assert f + BigEndian(l, 8)[..0] == f;
      PutByteOf(7, f);
      PutByteOf(6, f);
      PutByteOf(5, f);
      PutByteOf(4, f);
      PutByteOf(3, f);
      PutByteOf(2, f);
      PutByteOf(1, f);
      PutByteOf(0, f);
      assert BigEndian(l, 8)[..8] == BigEndian(l, 8);
    }

    method Pad()
      requires Valid()
      modifies this, H, W
      ensures Shaped() && cursor == 64 && consumed == old(consumed)
      ensures Compress(Registers(H[..]), Filled())
           == Chained(Padded(consumed, BigEndian(8 * |consumed| % TWO_TO_THE_64, 8)))
    {
      hide Fold, Compress, Chained, BytesOf, Registers, BigEndian, Padded;
      ghost var m := consumed;
      Put(0x80);
      if cursor > 64 - 8 {
        ghost var zeros := 64 - cursor;
        PutZeros(64);
        Process();
        PaddedTwo(m, zeros);
        assert Filled() == [];
        PutZeros(64 - 8);
        ConcatEmpty(Zeros(56));
      } else {
        PaddedOne(m, 64 - 8 - cursor);
        PutZeros(64 - 8);
      }
      PutLength();
    }

    method Final()
      requires Valid()
      modifies this, H, W
      ensures Memory(H[..]) == Digest(old(consumed))
    {
      hide Fold, Compress, Chained, BytesOf, BigEndian, Padded, Encode, Memory;
      Pad();
      Process();
      SwapAll();
    }

    method SwapAll()
      requires H.Length == 5
      modifies H
      ensures Memory(H[..]) == Encode(old(Registers(H[..])))
    {
      hide Swap, GetByte, BeBytes;
      ghost var h := H[..];
      for t := 0 to 5
        invariant forall i :: 0 <= i < t ==> H[i] == Swap(h[i])
        invariant forall i :: t <= i < 5 ==> H[i] == h[i]
      {
        H[t] := Swap(H[t]);
      }
      assert H[..] == [Swap(h[0]), Swap(h[1]), Swap(h[2]), Swap(h[3]), Swap(h[4])];
      SwappedMemory(h);
    }
  }

  /** What Digest() points to: the bytes of H. */
  function Memory(h: seq<Word>): (b: seq<Byte>)
    requires |h| == 5
  {
    WordBytes(h[0]) + WordBytes(h[1]) + WordBytes(h[2]) + WordBytes(h[3]) + WordBytes(h[4])
  }

  function WordBytes(w: Word): (b: seq<Byte>)
  {
    [GetByte(w, 0), GetByte(w, 1), GetByte(w, 2), GetByte(w, 3)]
  }

  lemma SwappedMemory(h: seq<Word>)
    requires |h| == 5
    ensures Memory([Swap(h[0]), Swap(h[1]), Swap(h[2]), Swap(h[3]), Swap(h[4])]) == Encode(Registers(h))
  {
    hide Swap, GetByte, BeBytes;
    SwapReverses(h[0]);
    SwapReverses(h[1]);
    SwapReverses(h[2]);
    SwapReverses(h[3]);
    SwapReverses(h[4]);
  }

  /** (n >> 8 * k) & 0xff. */
  function ByteOf(n: nat, k: nat): Byte
  {
    (n / Pow256(k) % 256) as Byte
  }

  /** Reading the bytes off with shifts gives the big-endian form. */
  lemma {:induction false} BigEndianAt(n: nat, count: nat, k: nat)
    requires k < count
    ensures BigEndian(n, count)[count - 1 - k] == ByteOf(n, k)
  {
    if k > 0 {
      BigEndianAt(n / 256, count - 1, k - 1);
      DivDiv(n, Pow256(k - 1));
    }
  }

  /** Padding and length fit into the block of the tail. */
  lemma {:induction false} PaddedOne(m: seq<Byte>, zeros: nat)
    requires |m| % 64 + 1 + zeros == 56
    ensures Compress(Chained(m), Tail(m) + [0x80] + Zeros(zeros) + BigEndian(8 * |m| % TWO_TO_THE_64, 8))
         == Chained(Padded(m, BigEndian(8 * |m| % TWO_TO_THE_64, 8)))
  {
    hide Fold, Compress, BigEndian;
    var length := BigEndian(8 * |m| % TWO_TO_THE_64, 8);
    var more := [0x80] + Zeros(zeros) + length;
    FoldFilled(Compress, INIT, m, more);
    assert PadZeros(|m|) == zeros;
    assert Tail(m) + more == Tail(m) + [0x80] + Zeros(zeros) + length;
    assert m + more == Padded(m, length);
  }

  /** The length goes into a block of its own, after 56 more zeros. */
  lemma {:induction false} PaddedTwo(m: seq<Byte>, zeros: nat)
    requires |m| % 64 + 1 + zeros == 64 && zeros < 8
    ensures Compress(Compress(Chained(m), Tail(m) + [0x80] + Zeros(zeros)),
                     Zeros(56) + BigEndian(8 * |m| % TWO_TO_THE_64, 8))
         == Chained(Padded(m, BigEndian(8 * |m| % TWO_TO_THE_64, 8)))
  {
    hide Fold, Compress, BigEndian;
    var length := BigEndian(8 * |m| % TWO_TO_THE_64, 8);
    var more := [0x80] + Zeros(zeros);
    FoldFilled(Compress, INIT, m, more);
    FoldBlock(Compress, INIT, m + more, Zeros(56) + length);
    assert PadZeros(|m|) == zeros + 56;
    assert Tail(m) + more == Tail(m) + [0x80] + Zeros(zeros);
    assert m + more + (Zeros(56) + length) == Padded(m, length);
  }

  /** One more byte of the message, taken into the tail. */
  lemma OneMoreInTail(m: seq<Byte>, b: Byte)
    requires |m| % 64 < 63
    ensures Chained(m + [b]) == Chained(m) && Tail(m + [b]) == Tail(m) + [b]
  {
    hide Fold, Compress;
    FoldShort(Compress, INIT, m, [b]);
  }

  /** One that completes a block. */
  lemma OneMoreInBlock(m: seq<Byte>, b: Byte, block: Block)
    requires |m| % 64 == 63 && block == Tail(m) + [b]
    ensures Chained(m + [b]) == Compress(Chained(m), block) && Tail(m + [b]) == []
  {
    hide Fold, Compress;
    FoldFilled(Compress, INIT, m, [b]);
  }

  lemma CountMore(n: nat)
    ensures (8 * n % TWO_TO_THE_64 + 8) % TWO_TO_THE_64 == 8 * (n + 1) % TWO_TO_THE_64
  {
  }

  /** SHA1HashBytes, and the same for a message that arrives in chunks. */
  method HashChunks(chunks: seq<seq<Byte>>) returns (d: seq<Byte>)
    ensures d == Digest(Joined(chunks))
  {
    hide Digest;
    var sha := new SecureHashAlgorithm();
    for i := 0 to |chunks|
      invariant sha.Valid() && fresh(sha) && fresh(sha.H) && fresh(sha.W)
      invariant sha.consumed == Joined(chunks[..i])
    {
      JoinedLast(chunks[..i], chunks[i]);
      assert chunks[..i + 1] == chunks[..i] + [chunks[i]];
      sha.Update(chunks[i]);
    }
    assert chunks[..|chunks|] == chunks;
    sha.Final();
    d := Memory(sha.H[..]);
  }

  method SHA1HashBytes(data: seq<Byte>) returns (d: seq<Byte>)
    ensures d == Digest(data)
  {
    hide Digest;
    assert [data][1..] == [];
    assert Joined([data]) == data + Joined<Byte>([]);
    ConcatEmpty(data);
    d := HashChunks([data]);
  }
}
