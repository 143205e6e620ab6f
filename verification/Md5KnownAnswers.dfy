/**
 The answers that md5_unittest.cc takes from appendix A.5 of RFC 1321, worked out from the
 definitions: a message of one block, and one of 80 bytes, which takes two.
 */
module Md5KnownAnswers {
  import opened Arithmetic
  import opened BitIdentities
  import opened Blocks
  import opened Md5
  import opened Sequences

  /** The initial registers in memory: the bytes that section 3.3 lists. */
  lemma InitialBytes()
    ensures Encode(Chained([])) == [0x01, 0x23, 0x45, 0x67] + [0x89, 0xab, 0xcd, 0xef]
                                 + [0xfe, 0xdc, 0xba, 0x98] + [0x76, 0x54, 0x32, 0x10]
  {
  }

  // ---------------------------------------------------------------- four steps at a time

  /** The register that step i computes; the others change places. */
  function NextB(i: nat, r: Regs, x: Words): Word
  {
    Add(r.b, Rotl(Sum(r.a, Aux(i, r.b, r.c, r.d), x[WordIndex(i)], Sine(i)), Shift(i)))
  }

  lemma Next(s: Regs, x: Words, i: nat, r: Regs, v: Word)
    requires Steps(i, s, x) == r && NextB(i, r, x) == v
    ensures Steps(i + 1, s, x) == Regs(r.d, v, r.b, r.c)
  {
    hide Rotl, Aux, Sine, Shift, WordIndex, Sum, Add;
  }

  /** Four steps from step i on, from registers r, that compute v0 to v3. */
  lemma Four(s: Regs, x: Words, i: nat, r: Regs, v0: Word, v1: Word, v2: Word, v3: Word) returns (r': Regs)
    requires Steps(i, s, x) == r && NextB(i, r, x) == v0
    requires NextB(i + 1, Regs(r.d, v0, r.b, r.c), x) == v1
    requires NextB(i + 2, Regs(r.c, v1, v0, r.b), x) == v2
    requires NextB(i + 3, Regs(r.b, v2, v1, v0), x) == v3
    ensures r' == Regs(v0, v3, v2, v1) && Steps(i + 4, s, x) == r'
  {
    hide NextB, Steps;
    Next(s, x, i, r, v0);
    Next(s, x, i + 1, Regs(r.d, v0, r.b, r.c), v1);
    Next(s, x, i + 2, Regs(r.c, v1, v0, r.b), v2);
    Next(s, x, i + 3, Regs(r.b, v2, v1, v0), v3);
    r' := Regs(v0, v3, v2, v1);
  }

  lemma StartOf(s: Regs, x: Words)
    ensures Steps(0, s, x) == s
  {
  }

  // ---------------------------------------------------------------- the words of a block

  function Joined4(b0: Byte, b1: Byte, b2: Byte, b3: Byte): Word
  {
    ((b3 as Word) << 24) | ((b2 as Word) << 16) | ((b1 as Word) << 8) | (b0 as Word)
  }

  lemma WordIs(b: Block, k: nat, b0: Byte, b1: Byte, b2: Byte, b3: Byte)
    requires k < 16 && b[4 * k] == b0 && b[4 * k + 1] == b1 && b[4 * k + 2] == b2 && b[4 * k + 3] == b3
    ensures Decode(b)[k] == Joined4(b0, b1, b2, b3)
  {
    assert b[4 * k..4 * k + 4] == [b0, b1, b2, b3];
  }

  lemma ZeroWords(b: Block, start: nat, end: nat)
    requires end <= 16 && forall i :: 4 * start <= i < 4 * end ==> b[i] == 0
    ensures forall k :: start <= k < end ==> Decode(b)[k] == 0
  {
    forall k | start <= k < end
      ensures Decode(b)[k] == 0
    {
      WordIs(b, k, 0, 0, 0, 0);
    }
  }

  // ---------------------------------------------------------------- the length

  lemma {:induction false} LowBytesZero(count: nat)
    ensures LowBytes(0, count) == Zeros(count)
  {
    if count > 0 {
      LowBytesZero(count - 1);
    }
  }

  lemma LowBytesStep(n: nat, q: nat, r: nat, count: nat)
    requires n == 256 * q + r && r < 256
    ensures LowBytes(n, count + 1) == [r as Byte] + LowBytes(q, count)
  {
    QuotientUnique(n, 256, q, r);
  }

  lemma LengthShort(n: nat, high: nat, low: nat)
    requires n == 256 * high + low && high < 256 && low < 256
    ensures LowBytes(n, 8) == [low as Byte] + ([high as Byte] + Zeros(6))
  {
    hide Zeros, LowBytes;
    LowBytesZero(6);
    LowBytesStep(high, 0, high, 6);
    LowBytesStep(n, high, low, 7);
  }

  lemma LengthsAre()
    ensures LowBytes(24, 8) == [0x18] + ([0] + Zeros(6)) && LowBytes(640, 8) == [0x80] + ([0x02] + Zeros(6))
  {
    hide LowBytes, Zeros;
    LengthShort(24, 0, 24);
    LengthShort(640, 2, 128);
  }

  lemma PaddedAs(m: seq<Byte>, zeros: nat, bits: nat)
    requires |m| % 64 + zeros == if |m| % 64 < 56 then 55 else 119
    requires bits == 8 * |m| < 0x1_0000
    ensures Padded(m, LowBytes(8 * |m| % TWO_TO_THE_64, 8)) == m + [0x80] + Zeros(zeros) + LowBytes(bits, 8)
  {
    hide LowBytes, Zeros;
  }

  // ---------------------------------------------------------------- "abc"

  const ABC: seq<Byte> := [0x61, 0x62, 0x63]

  const ABC_BLOCK: Block := ABC + [0x80] + Zeros(52) + ([0x18] + ([0] + Zeros(6)))

  lemma AbcWords()
    ensures Decode(ABC_BLOCK)[0] == 0x80636261 && Decode(ABC_BLOCK)[1] == 0x00000000
    ensures Decode(ABC_BLOCK)[2] == 0x00000000 && Decode(ABC_BLOCK)[3] == 0x00000000
    ensures Decode(ABC_BLOCK)[4] == 0x00000000 && Decode(ABC_BLOCK)[5] == 0x00000000
    ensures Decode(ABC_BLOCK)[6] == 0x00000000 && Decode(ABC_BLOCK)[7] == 0x00000000
    ensures Decode(ABC_BLOCK)[8] == 0x00000000 && Decode(ABC_BLOCK)[9] == 0x00000000
    ensures Decode(ABC_BLOCK)[10] == 0x00000000 && Decode(ABC_BLOCK)[11] == 0x00000000
    ensures Decode(ABC_BLOCK)[12] == 0x00000000 && Decode(ABC_BLOCK)[13] == 0x00000000
    ensures Decode(ABC_BLOCK)[14] == 0x00000018 && Decode(ABC_BLOCK)[15] == 0x00000000
  {
    hide Decode;
    WordIs(ABC_BLOCK, 0, 0x61, 0x62, 0x63, 0x80);
    ZeroWords(ABC_BLOCK, 1, 14);
    WordIs(ABC_BLOCK, 14, 0x18, 0, 0, 0);
    ZeroWords(ABC_BLOCK, 15, 16);
  }

  lemma AbcSteps16()
    ensures Steps(16, INIT, Decode(ABC_BLOCK)) == Regs(0xdda9b9a6, 0x72aff2e0, 0xe396856b, 0xa1051895)
  {
    AbcWords();
    StartOf(INIT, Decode(ABC_BLOCK));
    Rows0();
    Rows8();
    hide Decode, Steps, WordIndex, Sine, Shift;
    var x := Decode(ABC_BLOCK);
    var r := Regs(0x67452301, 0xefcdab89, 0x98badcfe, 0x10325476);
    r := Four(INIT, x, 0, r, 0xd6d117b4, 0x344a8432, 0x2f6fbd72, 0x7ad956f2);
    r := Four(INIT, x, 4, r, 0xc73741ef, 0x8bac3051, 0x207dc67b, 0x928d99f6);
    r := Four(INIT, x, 8, r, 0x854b3712, 0x74e2f284, 0x3020401c, 0x5ed49596);
    r := Four(INIT, x, 12, r, 0xdda9b9a6, 0xa1051895, 0xe396856b, 0x72aff2e0);
  }

  lemma AbcSteps32()
    ensures Steps(32, INIT, Decode(ABC_BLOCK)) == Regs(0x790a77fb, 0x726342d3, 0xa62884aa, 0x9f47e4f8)
  {
    AbcWords();
    AbcSteps16();
    Rows16();
    Rows24();
    hide Decode, Steps, WordIndex, Sine, Shift;
    var x := Decode(ABC_BLOCK);
    var r := Regs(0xdda9b9a6, 0x72aff2e0, 0xe396856b, 0xa1051895);
    r := Four(INIT, x, 16, r, 0x3e9e9126, 0x4a1d804e, 0xe25e1652, 0xb5b204e4);
    r := Four(INIT, x, 20, r, 0x59a8ffda, 0x6d002f1e, 0xabfc7920, 0x47092c07);
    r := Four(INIT, x, 24, r, 0xb7f268cf, 0x09388eff, 0xfe1623b1, 0x786acb8f);
    r := Four(INIT, x, 28, r, 0x790a77fb, 0x9f47e4f8, 0xa62884aa, 0x726342d3);
  }

  lemma AbcSteps48()
    ensures Steps(48, INIT, Decode(ABC_BLOCK)) == Regs(0x7f2e507b, 0x7beb9700, 0x8fae6399, 0x99d9679d)
  {
    AbcWords();
    AbcSteps32();
    Rows32();
    Rows40();
    hide Decode, Steps, WordIndex, Sine, Shift;
    var x := Decode(ABC_BLOCK);
    var r := Regs(0x790a77fb, 0x726342d3, 0xa62884aa, 0x9f47e4f8);
    r := Four(INIT, x, 32, r, 0xb3707ebf, 0x60127b2e, 0x8d212ff5, 0x3b0875c7);
    r := Four(INIT, x, 36, r, 0x21b117b9, 0x6e7429d5, 0x3575227e, 0x5a2f5ea5);
    r := Four(INIT, x, 40, r, 0x11de1779, 0xfadcaa38, 0x31c465ca, 0x4c6124f4);
    r := Four(INIT, x, 44, r, 0x7f2e507b, 0x99d9679d, 0x8fae6399, 0x7beb9700);
  }

  lemma AbcSteps64()
    ensures Steps(64, INIT, Decode(ABC_BLOCK)) == Regs(0x310ade8f, 0xc08226b3, 0xe484b9d8, 0x624d8cb2)
  {
    AbcWords();
    AbcSteps48();
    Rows48();
    Rows56();
    hide Decode, Steps, WordIndex, Sine, Shift;
    var x := Decode(ABC_BLOCK);
    var r := Regs(0x7f2e507b, 0x7beb9700, 0x8fae6399, 0x99d9679d);
    r := Four(INIT, x, 48, r, 0x7b201df8, 0xf4e8e96e, 0xb298cefd, 0x8bf025c4);
    r := Four(INIT, x, 52, r, 0x06cc5e8a, 0x5b0d97aa, 0x7d632dd0, 0x3bfa2c27);
    r := Four(INIT, x, 56, r, 0x7f81cc35, 0x094454ab, 0x4f9dbe3f, 0x7327d604);
    r := Four(INIT, x, 60, r, 0x310ade8f, 0x624d8cb2, 0xe484b9d8, 0xc08226b3);
  }

  lemma AbcChained()
    ensures Chained(ABC_BLOCK) == Regs(0x98500190, 0xb04fd23c, 0x7d3f96d6, 0x727fe128)
  {
    AbcSteps64();
    FoldBlock(Compress, INIT, [], ABC_BLOCK);
    ConcatEmpty<Byte>(ABC_BLOCK);
    hide Steps, Fold, Decode;
  }

  lemma DigestOfAbc()
    ensures Digest(ABC) == [0x90, 0x01, 0x50, 0x98] + [0x3c, 0xd2, 0x4f, 0xb0]
                         + [0xd6, 0x96, 0x3f, 0x7d] + [0x28, 0xe1, 0x7f, 0x72]
  {
    LengthsAre();
    PaddedAs(ABC, 52, 24);
    AbcChained();
    hide Padded, LowBytes, Zeros, Fold;
  }

  // ---------------------------------------------------------------- two blocks

  /** "1234567890" eight times. */
  const LONG: seq<Byte> := seq(80, i requires 0 <= i < 80 => Digit((i + 1) % 10))

  function Digit(n: nat): Byte { if n == 0 then 0x30 else Digit(n - 1) + 1 }

  const LONG_BLOCK: Block := LONG[..64]

  const LAST_BLOCK: Block := LONG[64..] + [0x80] + Zeros(39) + ([0x80] + ([0x02] + Zeros(6)))

  const MIDWAY := Regs(0xc88d8bec, 0xa4a0dc8b, 0xe9edef99, 0xb0d18d1d)

  lemma Digits()
    ensures Digit(0) == 0x30 && Digit(1) == 0x31 && Digit(2) == 0x32 && Digit(3) == 0x33 && Digit(4) == 0x34
    ensures Digit(5) == 0x35 && Digit(6) == 0x36 && Digit(7) == 0x37 && Digit(8) == 0x38 && Digit(9) == 0x39
  {
  }

  lemma LongWord(k: nat, b0: Byte, b1: Byte, b2: Byte, b3: Byte)
    requires k < 16 && b0 == Digit((4 * k + 1) % 10) && b1 == Digit((4 * k + 2) % 10)
    requires b2 == Digit((4 * k + 3) % 10) && b3 == Digit((4 * k + 4) % 10)
    ensures Decode(LONG_BLOCK)[k] == Joined4(b0, b1, b2, b3)
  {
    hide Digit, Joined4;
    WordIs(LONG_BLOCK, k, b0, b1, b2, b3);
  }

  lemma LongWords()
    ensures Decode(LONG_BLOCK)[0] == 0x34333231 && Decode(LONG_BLOCK)[1] == 0x38373635
    ensures Decode(LONG_BLOCK)[2] == 0x32313039 && Decode(LONG_BLOCK)[3] == 0x36353433
    ensures Decode(LONG_BLOCK)[4] == 0x30393837 && Decode(LONG_BLOCK)[5] == 0x34333231
    ensures Decode(LONG_BLOCK)[6] == 0x38373635 && Decode(LONG_BLOCK)[7] == 0x32313039
    ensures Decode(LONG_BLOCK)[8] == 0x36353433 && Decode(LONG_BLOCK)[9] == 0x30393837
    ensures Decode(LONG_BLOCK)[10] == 0x34333231 && Decode(LONG_BLOCK)[11] == 0x38373635
    ensures Decode(LONG_BLOCK)[12] == 0x32313039 && Decode(LONG_BLOCK)[13] == 0x36353433
    ensures Decode(LONG_BLOCK)[14] == 0x30393837 && Decode(LONG_BLOCK)[15] == 0x34333231
  {
    Digits();
    hide Digit, Decode;
    LongWord(0, 0x31, 0x32, 0x33, 0x34);
    LongWord(1, 0x35, 0x36, 0x37, 0x38);
    LongWord(2, 0x39, 0x30, 0x31, 0x32);
    LongWord(3, 0x33, 0x34, 0x35, 0x36);
    LongWord(4, 0x37, 0x38, 0x39, 0x30);
    LongWord(5, 0x31, 0x32, 0x33, 0x34);
    LongWord(6, 0x35, 0x36, 0x37, 0x38);
    LongWord(7, 0x39, 0x30, 0x31, 0x32);
    LongWord(8, 0x33, 0x34, 0x35, 0x36);
    LongWord(9, 0x37, 0x38, 0x39, 0x30);
    LongWord(10, 0x31, 0x32, 0x33, 0x34);
    LongWord(11, 0x35, 0x36, 0x37, 0x38);
    LongWord(12, 0x39, 0x30, 0x31, 0x32);
    LongWord(13, 0x33, 0x34, 0x35, 0x36);
    LongWord(14, 0x37, 0x38, 0x39, 0x30);
    LongWord(15, 0x31, 0x32, 0x33, 0x34);
  }

  lemma LongSteps16()
    ensures Steps(16, INIT, Decode(LONG_BLOCK)) == Regs(0x5157e49e, 0xaf506a03, 0x27e983a0, 0xffac907e)
  {
    LongWords();
    StartOf(INIT, Decode(LONG_BLOCK));
    Rows0();
    Rows8();
    hide Decode, Steps, WordIndex, Sine, Shift;
    var x := Decode(LONG_BLOCK);
    var r := Regs(0x67452301, 0xefcdab89, 0x98badcfe, 0x10325476);
    r := Four(INIT, x, 0, r, 0xbeb8ff8e, 0x7d989d89, 0xf8cdf95d, 0x862797b0);
    r := Four(INIT, x, 4, r, 0x8c17de9f, 0xc0f32d81, 0xe99fec1b, 0xc57e78c1);
    r := Four(INIT, x, 8, r, 0x7c0aceb7, 0x8869d2d8, 0x5186a8ba, 0xa5f36f8d);
    r := Four(INIT, x, 12, r, 0x5157e49e, 0xffac907e, 0x27e983a0, 0xaf506a03);
  }

  lemma LongSteps32()
    ensures Steps(32, INIT, Decode(LONG_BLOCK)) == Regs(0xf8bcfbb0, 0x1bf25662, 0x99a0f1b8, 0xd760ed39)
  {
    LongWords();
    LongSteps16();
    Rows16();
    Rows24();
    hide Decode, Steps, WordIndex, Sine, Shift;
    var x := Decode(LONG_BLOCK);
    var r := Regs(0x5157e49e, 0xaf506a03, 0x27e983a0, 0xffac907e);
    r := Four(INIT, x, 16, r, 0x8d18e0e8, 0x07de0df2, 0xef223167, 0x04280170);
    r := Four(INIT, x, 20, r, 0x78929ee0, 0x375c6c2c, 0xb18aca50, 0xad400a91);
    r := Four(INIT, x, 24, r, 0xbb45f43f, 0xd61f8a0f, 0x98ade6b5, 0xb70e35a9);
    r := Four(INIT, x, 28, r, 0xf8bcfbb0, 0xd760ed39, 0x99a0f1b8, 0x1bf25662);
  }

  lemma LongSteps48()
    ensures Steps(48, INIT, Decode(LONG_BLOCK)) == Regs(0x697032ec, 0xdb4197da, 0xefc2c171, 0xfa597bfc)
  {
    LongWords();
    LongSteps32();
    Rows32();
    Rows40();
    hide Decode, Steps, WordIndex, Sine, Shift;
    var x := Decode(LONG_BLOCK);
    var r := Regs(0xf8bcfbb0, 0x1bf25662, 0x99a0f1b8, 0xd760ed39);
    r := Four(INIT, x, 32, r, 0x3dbd76ca, 0xfd056171, 0xc7ed7c30, 0xe0162f49);
    r := Four(INIT, x, 36, r, 0x3b32c408, 0x7338d8b7, 0x9ef871ad, 0x1d4d6f72);
    r := Four(INIT, x, 40, r, 0xc661460a, 0xd2bf04c9, 0xd6d5b879, 0x89e3c4d7);
    r := Four(INIT, x, 44, r, 0x697032ec, 0xfa597bfc, 0xefc2c171, 0xdb4197da);
  }

  lemma LongSteps64()
    ensures Steps(64, INIT, Decode(LONG_BLOCK)) == Regs(0x614868eb, 0xb4d33102, 0x5133129b, 0xa09f38a7)
  {
    LongWords();
    LongSteps48();
    Rows48();
    Rows56();
    hide Decode, Steps, WordIndex, Sine, Shift;
    var x := Decode(LONG_BLOCK);
    var r := Regs(0x697032ec, 0xdb4197da, 0xefc2c171, 0xfa597bfc);
    r := Four(INIT, x, 48, r, 0x57b91aca, 0x210c9ebc, 0x21efbd88, 0xcaa25b01);
    r := Four(INIT, x, 52, r, 0x633d3f7c, 0x1a4d3beb, 0xccaa1524, 0x7713f5df);
    r := Four(INIT, x, 56, r, 0x8448b430, 0x71c93463, 0x7e294727, 0x660a801d);
    r := Four(INIT, x, 60, r, 0x614868eb, 0xa09f38a7, 0x5133129b, 0xb4d33102);
  }

  lemma LastWord(k: nat, b0: Byte, b1: Byte, b2: Byte, b3: Byte)
    requires k < 4 && b0 == Digit((4 * k + 5) % 10) && b1 == Digit((4 * k + 6) % 10)
    requires b2 == Digit((4 * k + 7) % 10) && b3 == Digit((4 * k + 8) % 10)
    ensures Decode(LAST_BLOCK)[k] == Joined4(b0, b1, b2, b3)
  {
    hide Digit, Joined4;
    WordIs(LAST_BLOCK, k, b0, b1, b2, b3);
  }

  lemma LastWords()
    ensures Decode(LAST_BLOCK)[0] == 0x38373635 && Decode(LAST_BLOCK)[1] == 0x32313039
    ensures Decode(LAST_BLOCK)[2] == 0x36353433 && Decode(LAST_BLOCK)[3] == 0x30393837
    ensures Decode(LAST_BLOCK)[4] == 0x00000080 && Decode(LAST_BLOCK)[5] == 0x00000000
    ensures Decode(LAST_BLOCK)[6] == 0x00000000 && Decode(LAST_BLOCK)[7] == 0x00000000
    ensures Decode(LAST_BLOCK)[8] == 0x00000000 && Decode(LAST_BLOCK)[9] == 0x00000000
    ensures Decode(LAST_BLOCK)[10] == 0x00000000 && Decode(LAST_BLOCK)[11] == 0x00000000
    ensures Decode(LAST_BLOCK)[12] == 0x00000000 && Decode(LAST_BLOCK)[13] == 0x00000000
    ensures Decode(LAST_BLOCK)[14] == 0x00000280 && Decode(LAST_BLOCK)[15] == 0x00000000
  {
    Digits();
    hide Digit, Decode;
    LastWord(0, 0x35, 0x36, 0x37, 0x38);
    LastWord(1, 0x39, 0x30, 0x31, 0x32);
    LastWord(2, 0x33, 0x34, 0x35, 0x36);
    LastWord(3, 0x37, 0x38, 0x39, 0x30);
    WordIs(LAST_BLOCK, 4, 0x80, 0, 0, 0);
    ZeroWords(LAST_BLOCK, 5, 14);
    WordIs(LAST_BLOCK, 14, 0x80, 0x02, 0, 0);
    ZeroWords(LAST_BLOCK, 15, 16);
  }

  lemma LastSteps16()
    ensures Steps(16, MIDWAY, Decode(LAST_BLOCK)) == Regs(0xdb4ff71c, 0x58b12eab, 0x04396a39, 0x9b6b4960)
  {
    LastWords();
    StartOf(MIDWAY, Decode(LAST_BLOCK));
    Rows0();
    Rows8();
    hide Decode, Steps, WordIndex, Sine, Shift;
    var x := Decode(LAST_BLOCK);
    var r := Regs(0xc88d8bec, 0xa4a0dc8b, 0xe9edef99, 0xb0d18d1d);
    r := Four(MIDWAY, x, 0, r, 0x353af7cf, 0x3a4f735a, 0x63356537, 0x45e88f2c);
    r := Four(MIDWAY, x, 4, r, 0x3527497e, 0xab92660e, 0x948347ae, 0x377c7d0a);
    r := Four(MIDWAY, x, 8, r, 0xcc912f27, 0x6945a3d5, 0xae23894d, 0xb9ede40c);
    r := Four(MIDWAY, x, 12, r, 0xdb4ff71c, 0x9b6b4960, 0x04396a39, 0x58b12eab);
  }

  lemma LastSteps32()
    ensures Steps(32, MIDWAY, Decode(LAST_BLOCK)) == Regs(0x8761f38e, 0x67092c33, 0x061bc867, 0x7a516116)
  {
    LastWords();
    LastSteps16();
    Rows16();
    Rows24();
    hide Decode, Steps, WordIndex, Sine, Shift;
    var x := Decode(LAST_BLOCK);
    var r := Regs(0xdb4ff71c, 0x58b12eab, 0x04396a39, 0x9b6b4960);
    r := Four(MIDWAY, x, 16, r, 0x52c00cae, 0xaad2a216, 0xa476af6f, 0x50f8de8c);
    r := Four(MIDWAY, x, 20, r, 0x0d6e6d91, 0x17d64195, 0xd5b7a850, 0x043cb080);
    r := Four(MIDWAY, x, 24, r, 0x74f9377e, 0x01f2addd, 0xe775c8ca, 0xcb00b96e);
    r := Four(MIDWAY, x, 28, r, 0x8761f38e, 0x7a516116, 0x061bc867, 0x67092c33);
  }

  lemma LastSteps48()
    ensures Steps(48, MIDWAY, Decode(LAST_BLOCK)) == Regs(0x71123afa, 0x1df7010a, 0xe6a8a386, 0xdc9c8ddb)
  {
    LastWords();
    LastSteps32();
    Rows32();
    Rows40();
    hide Decode, Steps, WordIndex, Sine, Shift;
    var x := Decode(LAST_BLOCK);
    var r := Regs(0x8761f38e, 0x67092c33, 0x061bc867, 0x7a516116);
    r := Four(MIDWAY, x, 32, r, 0x91044d5d, 0x610954eb, 0xc0175fa8, 0x2ee1e3fe);
    r := Four(MIDWAY, x, 36, r, 0xae26ed7d, 0x71d8ecea, 0xff4a94dc, 0xdbd1bff6);
    r := Four(MIDWAY, x, 40, r, 0x9c350028, 0x97e5da92, 0xfacaaf06, 0x56b3692f);
    r := Four(MIDWAY, x, 44, r, 0x71123afa, 0xdc9c8ddb, 0xe6a8a386, 0x1df7010a);
  }

  lemma LastSteps64()
    ensures Steps(64, MIDWAY, Decode(LAST_BLOCK)) == Regs(0xda67616b, 0xb12906a0, 0x44ec5a13, 0xc9e47a04)
  {
    LastWords();
    LastSteps48();
    Rows48();
    Rows56();
    hide Decode, Steps, WordIndex, Sine, Shift;
    var x := Decode(LAST_BLOCK);
    var r := Regs(0x71123afa, 0x1df7010a, 0xe6a8a386, 0xdc9c8ddb);
    r := Four(MIDWAY, x, 48, r, 0xd29007e7, 0x7241a77e, 0xd3248109, 0xc8797828);
    r := Four(MIDWAY, x, 52, r, 0x7a504abd, 0x211cc65d, 0xa290d6ce, 0x9b31b114);
    r := Four(MIDWAY, x, 56, r, 0x723fd22d, 0xd21d6a3b, 0x3d79cf74, 0x4dc4f33d);
    r := Four(MIDWAY, x, 60, r, 0xda67616b, 0xc9e47a04, 0x44ec5a13, 0xb12906a0);
  }

  lemma LongPadded()
    ensures Padded(LONG, LowBytes(8 * |LONG| % TWO_TO_THE_64, 8)) == LONG_BLOCK + LAST_BLOCK
  {
    LengthsAre();
    PaddedAs(LONG, 39, 640);
    hide LowBytes, Zeros, Padded, Digit;
    assert LONG == LONG[..64] + LONG[64..];
    ConcatFour(LONG[..64], LONG[64..], [0x80], Zeros(39), [0x80] + ([0x02] + Zeros(6)));
  }

  lemma LongChained()
    ensures Chained(LONG_BLOCK + LAST_BLOCK) == Regs(0xa2f4ed57, 0x55c9e32b, 0x2eda49ac, 0x7ab60721)
  {
    LongSteps64();
    LastSteps64();
    FoldBlock(Compress, INIT, [], LONG_BLOCK);
    ConcatEmpty<Byte>(LONG_BLOCK);
    FoldBlock(Compress, INIT, LONG_BLOCK, LAST_BLOCK);
    hide Steps, Fold, Decode;
    assert Chained(LONG_BLOCK) == MIDWAY;
  }

  lemma DigestOfTwoBlocks()
    ensures Digest(LONG) == [0x57, 0xed, 0xf4, 0xa2] + [0x2b, 0xe3, 0xc9, 0x55]
                          + [0xac, 0x49, 0xda, 0x2e] + [0x21, 0x07, 0xb6, 0x7a]
  {
    LongPadded();
    LongChained();
    hide Padded, LowBytes, Fold;
  }
}
