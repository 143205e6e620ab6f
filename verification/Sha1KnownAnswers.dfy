/**
 The answers that sha1_unittest.cc takes from FIPS 180, worked out from the definitions: a message
 of one block, and one whose padding needs a second.
 */
module Sha1KnownAnswers {
  import opened Arithmetic
  import opened BitIdentities
  import opened Blocks
  import opened Sequences
  import opened Sha1

  // ---------------------------------------------------------------- five rounds at a time

  /** The register that round t computes, and the registers after it. */
  function NextA(t: nat, r: Regs, w: Word): Word
  {
    Sum(Rotl(5, r.a), Ft(t, r.b, r.c, r.d), r.e, Kt(t), w)
  }

  function Passed(a: Word, r: Regs): Regs { Regs(a, r.a, Rotl(30, r.b), r.c, r.d) }

  lemma Next(s: Regs, b: Block, t: nat, r: Regs, a: Word)
    requires Rounds(t, s, b) == r && NextA(t, r, Schedule(b, t)) == a
    ensures Rounds(t + 1, s, b) == Passed(a, r)
  {
    hide Schedule, Rotl, Ft, Kt, Sum;
  }

  /** Five rounds from t on, from registers r, that compute a0 to a4. */
  lemma Five(s: Regs, b: Block, t: nat, r: Regs, a0: Word, a1: Word, a2: Word, a3: Word, a4: Word) returns (r': Regs)
    requires Rounds(t, s, b) == r && NextA(t, r, Schedule(b, t)) == a0
    requires NextA(t + 1, Regs(a0, r.a, Rotl(30, r.b), r.c, r.d), Schedule(b, t + 1)) == a1
    requires NextA(t + 2, Regs(a1, a0, Rotl(30, r.a), Rotl(30, r.b), r.c), Schedule(b, t + 2)) == a2
    requires NextA(t + 3, Regs(a2, a1, Rotl(30, a0), Rotl(30, r.a), Rotl(30, r.b)), Schedule(b, t + 3)) == a3
    requires NextA(t + 4, Regs(a3, a2, Rotl(30, a1), Rotl(30, a0), Rotl(30, r.a)), Schedule(b, t + 4)) == a4
    ensures r' == Regs(a4, a3, Rotl(30, a2), Rotl(30, a1), Rotl(30, a0)) && Rounds(t + 5, s, b) == r'
  {
    hide Schedule, Rotl, NextA, Rounds;
    Next(s, b, t, r, a0);
    var r1 := Passed(a0, r);
    Next(s, b, t + 1, r1, a1);
    var r2 := Passed(a1, r1);
    Next(s, b, t + 2, r2, a2);
    var r3 := Passed(a2, r2);
    Next(s, b, t + 3, r3, a3);
    var r4 := Passed(a3, r3);
    Next(s, b, t + 4, r4, a4);
    r' := Passed(a4, r4);
  }

  // ---------------------------------------------------------------- the schedule

  lemma WordIs(b: Block, t: nat, b0: Byte, b1: Byte, b2: Byte, b3: Byte)
    requires t < 16 && b[4 * t] == b0 && b[4 * t + 1] == b1 && b[4 * t + 2] == b2 && b[4 * t + 3] == b3
    ensures Schedule(b, t) == Joined4(b0, b1, b2, b3)
  {
    FourBytes(b, 4 * t, b0, b1, b2, b3);
  }

  function Joined4(b0: Byte, b1: Byte, b2: Byte, b3: Byte): Word
  {
    ((b0 as Word) << 24) | ((b1 as Word) << 16) | ((b2 as Word) << 8) | (b3 as Word)
  }

  lemma ZeroWords(b: Block, start: nat, end: nat)
    requires end <= 16 && forall i :: 4 * start <= i < 4 * end ==> b[i] == 0
    ensures forall t :: start <= t < end ==> Schedule(b, t) == 0
  {
    forall t | start <= t < end
      ensures Schedule(b, t) == 0
    {
      WordIs(b, t, 0, 0, 0, 0);
    }
  }

  lemma StartOf(s: Regs, b: Block)
    ensures Rounds(0, s, b) == s
  {
  }

  // ---------------------------------------------------------------- "abc"

  const ABC: seq<Byte> := [0x61, 0x62, 0x63]

  const ABC_BLOCK: Block := ABC + [0x80] + Zeros(52) + (Zeros(6) + [0] + [0x18])

  lemma AbcWords16()
    ensures Schedule(ABC_BLOCK, 0) == 0x61626380 && Schedule(ABC_BLOCK, 1) == 0x00000000
    ensures Schedule(ABC_BLOCK, 2) == 0x00000000 && Schedule(ABC_BLOCK, 3) == 0x00000000
    ensures Schedule(ABC_BLOCK, 4) == 0x00000000 && Schedule(ABC_BLOCK, 5) == 0x00000000
    ensures Schedule(ABC_BLOCK, 6) == 0x00000000 && Schedule(ABC_BLOCK, 7) == 0x00000000
    ensures Schedule(ABC_BLOCK, 8) == 0x00000000 && Schedule(ABC_BLOCK, 9) == 0x00000000
    ensures Schedule(ABC_BLOCK, 10) == 0x00000000 && Schedule(ABC_BLOCK, 11) == 0x00000000
    ensures Schedule(ABC_BLOCK, 12) == 0x00000000 && Schedule(ABC_BLOCK, 13) == 0x00000000
    ensures Schedule(ABC_BLOCK, 14) == 0x00000000 && Schedule(ABC_BLOCK, 15) == 0x00000018
  {
    WordIs(ABC_BLOCK, 0, 0x61, 0x62, 0x63, 0x80);
    WordIs(ABC_BLOCK, 15, 0, 0, 0, 0x18);
    ZeroWords(ABC_BLOCK, 1, 15);
    hide Schedule;
  }

  lemma AbcWords32()
    ensures Schedule(ABC_BLOCK, 16) == 0xc2c4c700 && Schedule(ABC_BLOCK, 17) == 0x00000000
    ensures Schedule(ABC_BLOCK, 18) == 0x00000030 && Schedule(ABC_BLOCK, 19) == 0x85898e01
    ensures Schedule(ABC_BLOCK, 20) == 0x00000000 && Schedule(ABC_BLOCK, 21) == 0x00000060
    ensures Schedule(ABC_BLOCK, 22) == 0x0b131c03 && Schedule(ABC_BLOCK, 23) == 0x00000030
    ensures Schedule(ABC_BLOCK, 24) == 0x85898ec1 && Schedule(ABC_BLOCK, 25) == 0x16263806
    ensures Schedule(ABC_BLOCK, 26) == 0x00000000 && Schedule(ABC_BLOCK, 27) == 0x00000180
    ensures Schedule(ABC_BLOCK, 28) == 0x2c4c700c && Schedule(ABC_BLOCK, 29) == 0x000000f0
    ensures Schedule(ABC_BLOCK, 30) == 0x93afb507 && Schedule(ABC_BLOCK, 31) == 0x5898e048
  {
    AbcWords16();
  }

  lemma AbcWords48()
    ensures Schedule(ABC_BLOCK, 32) == 0x8e9a9202 && Schedule(ABC_BLOCK, 33) == 0x00000600
    ensures Schedule(ABC_BLOCK, 34) == 0xb131c0f0 && Schedule(ABC_BLOCK, 35) == 0x16263bc6
    ensures Schedule(ABC_BLOCK, 36) == 0x4ebed41e && Schedule(ABC_BLOCK, 37) == 0x626380a1
    ensures Schedule(ABC_BLOCK, 38) == 0x16263806 && Schedule(ABC_BLOCK, 39) == 0x000018c0
    ensures Schedule(ABC_BLOCK, 40) == 0xd2e138c4 && Schedule(ABC_BLOCK, 41) == 0x00000f00
    ensures Schedule(ABC_BLOCK, 42) == 0x3afb5079 && Schedule(ABC_BLOCK, 43) == 0x898e04e5
    ensures Schedule(ABC_BLOCK, 44) == 0xe2ba3c2b && Schedule(ABC_BLOCK, 45) == 0x000060c0
    ensures Schedule(ABC_BLOCK, 46) == 0x053a37cd && Schedule(ABC_BLOCK, 47) == 0x74458547
  {
    AbcWords32();
  }

  lemma AbcWords64()
    ensures Schedule(ABC_BLOCK, 48) == 0xda9415ed && Schedule(ABC_BLOCK, 49) == 0x26380a16
    ensures Schedule(ABC_BLOCK, 50) == 0x626383a1 && Schedule(ABC_BLOCK, 51) == 0x4ebf54de
    ensures Schedule(ABC_BLOCK, 52) == 0x3835b44b && Schedule(ABC_BLOCK, 53) == 0x0000f600
    ensures Schedule(ABC_BLOCK, 54) == 0x1e84c7a3 && Schedule(ABC_BLOCK, 55) == 0x98e04d98
    ensures Schedule(ABC_BLOCK, 56) == 0x651d16a0 && Schedule(ABC_BLOCK, 57) == 0x62658ca1
    ensures Schedule(ABC_BLOCK, 58) == 0x458544d6 && Schedule(ABC_BLOCK, 59) == 0x44584cb7
    ensures Schedule(ABC_BLOCK, 60) == 0x7ba06619 && Schedule(ABC_BLOCK, 61) == 0x6380aea2
    ensures Schedule(ABC_BLOCK, 62) == 0x0ae55269 && Schedule(ABC_BLOCK, 63) == 0x627b49a1
  {
    AbcWords48();
  }

  lemma AbcWords80()
    ensures Schedule(ABC_BLOCK, 64) == 0x7cd45c9d && Schedule(ABC_BLOCK, 65) == 0x000f0000
    ensures Schedule(ABC_BLOCK, 66) == 0xfb50753a && Schedule(ABC_BLOCK, 67) == 0xec6765e8
    ensures Schedule(ABC_BLOCK, 68) == 0xba3c2be2 && Schedule(ABC_BLOCK, 69) == 0x0060c000
    ensures Schedule(ABC_BLOCK, 70) == 0x3a37cd05 && Schedule(ABC_BLOCK, 71) == 0x458546f4
    ensures Schedule(ABC_BLOCK, 72) == 0xb8599dd6 && Schedule(ABC_BLOCK, 73) == 0x380a1a26
    ensures Schedule(ABC_BLOCK, 74) == 0x01e02203 && Schedule(ABC_BLOCK, 75) == 0xe7cc3456
    ensures Schedule(ABC_BLOCK, 76) == 0xe6e60b69 && Schedule(ABC_BLOCK, 77) == 0x00f60a00
    ensures Schedule(ABC_BLOCK, 78) == 0x5795ef4f && Schedule(ABC_BLOCK, 79) == 0x822e0879
  {
    AbcWords64();
  }

  lemma AbcRounds20()
    ensures Rounds(20, INIT, ABC_BLOCK) == Regs(0xfd9e1d7d, 0xdc64901d, 0x20aa99ca, 0xd3a49608, 0xc82f758b)
  {
    AbcWords16();
    AbcWords32();
    StartOf(INIT, ABC_BLOCK);
    hide Schedule, Rounds;
    var r := INIT;
    r := Five(INIT, ABC_BLOCK, 0, r, 0x0116fc33, 0x8990536d, 0xa1390f08, 0xcdd8e11b, 0xcfd499de);
    r := Five(INIT, ABC_BLOCK, 5, r, 0x3fc7ca40, 0x993e30c1, 0x9e8c07d4, 0x4b6ae328, 0x8351f929);
    r := Five(INIT, ABC_BLOCK, 10, r, 0xfbda9e89, 0x63188fe4, 0x4607b664, 0x9128f695, 0x196bee77);
    r := Five(INIT, ABC_BLOCK, 15, r, 0x20bdd62f, 0x4e925823, 0x82aa6728, 0xdc64901d, 0xfd9e1d7d);
  }

  lemma AbcRounds40()
    ensures Rounds(40, INIT, ABC_BLOCK) == Regs(0x32de1cba, 0x4c986405, 0xf718e5cf, 0x03d447f6, 0xf72eec32)
  {
    AbcWords32();
    AbcWords48();
    AbcRounds20();
    hide Schedule, Rounds;
    var r := Regs(0xfd9e1d7d, 0xdc64901d, 0x20aa99ca, 0xd3a49608, 0xc82f758b);
    r := Five(INIT, ABC_BLOCK, 20, r, 0x1a37b0ca, 0x33a23bfc, 0x21283486, 0xd541f12d, 0xc7567dc6);
    r := Five(INIT, ABC_BLOCK, 25, r, 0x48413ba4, 0xbe35fbd5, 0x4aa84d97, 0x8370b52e, 0xc5fbaf5d);
    r := Five(INIT, ABC_BLOCK, 30, r, 0x1267b407, 0x3b845d33, 0x046faa0a, 0x2c0ebc11, 0x21796ad4);
    r := Five(INIT, ABC_BLOCK, 35, r, 0xdcbbb0cb, 0x0f511fd8, 0xdc63973f, 0x4c986405, 0x32de1cba);
  }

  lemma AbcRounds60()
    ensures Rounds(60, INIT, ABC_BLOCK) == Regs(0x3f52de5a, 0x09d785fd, 0x3498bfd4, 0xf211824f, 0xd79915ab)
  {
    AbcWords48();
    AbcWords64();
    AbcRounds40();
    hide Schedule, Rounds;
    var r := Regs(0x32de1cba, 0x4c986405, 0xf718e5cf, 0x03d447f6, 0xf72eec32);
    r := Five(INIT, ABC_BLOCK, 40, r, 0xfc87dedf, 0x970a0d5c, 0x7f193dc5, 0xee1b1aaf, 0x40f28e09);
    r := Five(INIT, ABC_BLOCK, 45, r, 0x1c51e1f2, 0xa01b846c, 0xbead02ca, 0xbaf39337, 0x120731c5);
    r := Five(INIT, ABC_BLOCK, 50, r, 0x641db2ce, 0x3847ad66, 0xe490436d, 0x27e9f1d8, 0x7b71f76d);
    r := Five(INIT, ABC_BLOCK, 55, r, 0x5e6456af, 0xc846093f, 0xd262ff50, 0x09d785fd, 0x3f52de5a);
  }

  lemma AbcRounds80()
    ensures Rounds(80, INIT, ABC_BLOCK) == Regs(0x42541b35, 0x5738d5e1, 0x21834873, 0x681e6df6, 0xd8fdf6ad)
  {
    AbcWords64();
    AbcWords80();
    AbcRounds60();
    hide Schedule, Rounds;
    var r := Regs(0x3f52de5a, 0x09d785fd, 0x3498bfd4, 0xf211824f, 0xd79915ab);
    r := Five(INIT, ABC_BLOCK, 60, r, 0xd756c147, 0x548c9cb2, 0xb66c020b, 0x6b61c9e1, 0x19dfa7ac);
    r := Five(INIT, ABC_BLOCK, 65, r, 0x101655f9, 0x0c3df2b4, 0x78dd4d2b, 0x497093c0, 0x3f2588c2);
    r := Five(INIT, ABC_BLOCK, 70, r, 0xc199f8c7, 0x39859de7, 0xedb42de4, 0x11793f6f, 0x5ee76897);
    r := Five(INIT, ABC_BLOCK, 75, r, 0x63f7dab7, 0xa079b7d9, 0x860d21cc, 0x5738d5e1, 0x42541b35);
  }

  lemma {:induction false} BigEndianZero(count: nat)
    ensures BigEndian(0, count) == Zeros(count)
  {
    if count > 0 {
      BigEndianZero(count - 1);
    }
  }

  lemma BigEndianStep(n: nat, q: nat, r: nat, count: nat)
    requires n == 256 * q + r && r < 256
    ensures BigEndian(n, count + 1) == BigEndian(q, count) + [r as Byte]
  {
    QuotientUnique(n, 256, q, r);
  }

  lemma LengthShort(n: nat, high: nat, low: nat)
    requires n == 256 * high + low && high < 256 && low < 256
    ensures BigEndian(n, 8) == Zeros(6) + [high as Byte] + [low as Byte]
  {
    hide Zeros, BigEndian;
    BigEndianZero(6);
    BigEndianStep(high, 0, high, 6);
    BigEndianStep(n, high, low, 7);
  }

  lemma LengthsAre()
    ensures BigEndian(24, 8) == Zeros(6) + [0] + [0x18] && BigEndian(448, 8) == Zeros(6) + [0x01] + [0xc0]
  {
    hide BigEndian, Zeros;
    LengthShort(24, 0, 24);
    LengthShort(448, 1, 192);
  }

  lemma PaddedAs(m: seq<Byte>, zeros: nat, bits: nat)
    requires |m| % 64 + zeros == if |m| % 64 < 56 then 55 else 119
    requires bits == 8 * |m| < 0x1_0000
    ensures Padded(m, BigEndian(8 * |m| % TWO_TO_THE_64, 8)) == m + [0x80] + Zeros(zeros) + BigEndian(bits, 8)
  {
    hide BigEndian, Zeros;
  }

  /** The first example: the digest of "abc". */
  lemma DigestOfAbc()
    ensures Digest(ABC) == [0xa9, 0x99, 0x3e, 0x36] + [0x47, 0x06, 0x81, 0x6a] + [0xba, 0x3e, 0x25, 0x71]
                       + [0x78, 0x50, 0xc2, 0x6c] + [0x9c, 0xd0, 0xd8, 0x9d]
  {
    LengthsAre();
    PaddedAs(ABC, 52, 24);
    AbcChained();
    hide Padded, BigEndian, Zeros, Chained;
  }

  lemma AbcChained()
    ensures Chained(ABC_BLOCK) == Regs(0xa9993e36, 0x4706816a, 0xba3e2571, 0x7850c26c, 0x9cd0d89d)
  {
    AbcRounds80();
    FoldBlock(Compress, INIT, [], ABC_BLOCK);
    ConcatEmpty<Byte>(ABC_BLOCK);
    hide Padded, BigEndian, Rounds, Fold, Zeros;
  }

  // ---------------------------------------------------------------- two blocks

  /** "abcdbcdecdefdefgefghfghighijhijkijkljklmklmnlmnomnopnopq" */
  const LONG: seq<Byte> := seq(56, i requires 0 <= i < 56 => Letter(i / 4 + i % 4))

  /** The letters from 'a' on. */
  function Letter(n: nat): Byte { if n == 0 then 0x61 else Letter(n - 1) + 1 }

  const LONG_BLOCK: Block := LONG + [0x80] + Zeros(7)

  const LAST_BLOCK: Block := Zeros(56) + (Zeros(6) + [0x01] + [0xc0])

  const MIDWAY := Regs(0xf4286818, 0xc37b27ae, 0x0408f581, 0x84677148, 0x4a566572)

  lemma Letters()
    ensures Letter(0) == 0x61 && Letter(1) == 0x62 && Letter(2) == 0x63 && Letter(3) == 0x64
    ensures Letter(4) == 0x65 && Letter(5) == 0x66 && Letter(6) == 0x67 && Letter(7) == 0x68
    ensures Letter(8) == 0x69 && Letter(9) == 0x6a && Letter(10) == 0x6b && Letter(11) == 0x6c
    ensures Letter(12) == 0x6d && Letter(13) == 0x6e && Letter(14) == 0x6f && Letter(15) == 0x70
    ensures Letter(16) == 0x71
  {
  }

  lemma LongByte(t: nat, k: nat)
    requires t < 14 && k < 4
    ensures LONG_BLOCK[4 * t + k] == Letter(t + k)
  {
    hide Letter;
    QuotientUnique(4 * t + k, 4, t, k);
    assert LONG_BLOCK[4 * t + k] == LONG[4 * t + k];
  }

  /** Word t of the message is four letters from the t-th on. */
  lemma LongWord(t: nat)
    requires t < 14
    ensures Schedule(LONG_BLOCK, t) == Joined4(Letter(t), Letter(t + 1), Letter(t + 2), Letter(t + 3))
  {
    hide Letter, Joined4;
    LongByte(t, 0);
    LongByte(t, 1);
    LongByte(t, 2);
    LongByte(t, 3);
    WordIs(LONG_BLOCK, t, Letter(t), Letter(t + 1), Letter(t + 2), Letter(t + 3));
  }

  lemma LongWords16()
    ensures Schedule(LONG_BLOCK, 0) == 0x61626364 && Schedule(LONG_BLOCK, 1) == 0x62636465
    ensures Schedule(LONG_BLOCK, 2) == 0x63646566 && Schedule(LONG_BLOCK, 3) == 0x64656667
    ensures Schedule(LONG_BLOCK, 4) == 0x65666768 && Schedule(LONG_BLOCK, 5) == 0x66676869
    ensures Schedule(LONG_BLOCK, 6) == 0x6768696a && Schedule(LONG_BLOCK, 7) == 0x68696a6b
    ensures Schedule(LONG_BLOCK, 8) == 0x696a6b6c && Schedule(LONG_BLOCK, 9) == 0x6a6b6c6d
    ensures Schedule(LONG_BLOCK, 10) == 0x6b6c6d6e && Schedule(LONG_BLOCK, 11) == 0x6c6d6e6f
    ensures Schedule(LONG_BLOCK, 12) == 0x6d6e6f70 && Schedule(LONG_BLOCK, 13) == 0x6e6f7071
    ensures Schedule(LONG_BLOCK, 14) == 0x80000000 && Schedule(LONG_BLOCK, 15) == 0x00000000
  {
    Letters();
    hide Letter;
    LongWord(0);
    LongWord(1);
    LongWord(2);
    LongWord(3);
    LongWord(4);
    LongWord(5);
    LongWord(6);
    LongWord(7);
    LongWord(8);
    LongWord(9);
    LongWord(10);
    LongWord(11);
    LongWord(12);
    LongWord(13);
    WordIs(LONG_BLOCK, 14, 0x80, 0, 0, 0);
    ZeroWords(LONG_BLOCK, 15, 16);
    hide Schedule;
  }

  lemma LongWords32()
    ensures Schedule(LONG_BLOCK, 16) == 0x0a063a3e && Schedule(LONG_BLOCK, 17) == 0xd8dadcdf
    ensures Schedule(LONG_BLOCK, 18) == 0xdadcdec0 && Schedule(LONG_BLOCK, 19) == 0xc8d2b4be
    ensures Schedule(LONG_BLOCK, 20) == 0x6f757b5b && Schedule(LONG_BLOCK, 21) == 0x757b5967
    ensures Schedule(LONG_BLOCK, 22) == 0x8da16d70 && Schedule(LONG_BLOCK, 23) == 0xdaeefaba
    ensures Schedule(LONG_BLOCK, 24) == 0xfaf6cab6 && Schedule(LONG_BLOCK, 25) == 0xa6fb675a
    ensures Schedule(LONG_BLOCK, 26) == 0x0c604cc8 && Schedule(LONG_BLOCK, 27) == 0x604cc02c
    ensures Schedule(LONG_BLOCK, 28) == 0x49c0e6e2 && Schedule(LONG_BLOCK, 29) == 0x2ee8cbbc
    ensures Schedule(LONG_BLOCK, 30) == 0xcfd72ec4 && Schedule(LONG_BLOCK, 31) == 0x97e9810e
  {
    LongWords16();
  }

  lemma LongWords48()
    ensures Schedule(LONG_BLOCK, 32) == 0x0989cbe8 && Schedule(LONG_BLOCK, 33) == 0xf24843fe
    ensures Schedule(LONG_BLOCK, 34) == 0x5c40d0ba && Schedule(LONG_BLOCK, 35) == 0xa8d9cc3b
    ensures Schedule(LONG_BLOCK, 36) == 0xb2b9666e && Schedule(LONG_BLOCK, 37) == 0xba7b71b7
    ensures Schedule(LONG_BLOCK, 38) == 0x20b28a72 && Schedule(LONG_BLOCK, 39) == 0xb28af500
    ensures Schedule(LONG_BLOCK, 40) == 0x8ac87842 && Schedule(LONG_BLOCK, 41) == 0x289addf4
    ensures Schedule(LONG_BLOCK, 42) == 0x56d51f21 && Schedule(LONG_BLOCK, 43) == 0xd96b7fd2
    ensures Schedule(LONG_BLOCK, 44) == 0x3868e778 && Schedule(LONG_BLOCK, 45) == 0xab5e4848
    ensures Schedule(LONG_BLOCK, 46) == 0x7f0e2118 && Schedule(LONG_BLOCK, 47) == 0xde87a111
  {
    LongWords32();
  }

  lemma LongWords64()
    ensures Schedule(LONG_BLOCK, 48) == 0xe8be56b0 && Schedule(LONG_BLOCK, 49) == 0x1a0ae652
    ensures Schedule(LONG_BLOCK, 50) == 0xcd5611c8 && Schedule(LONG_BLOCK, 51) == 0x46ef29dc
    ensures Schedule(LONG_BLOCK, 52) == 0x60d3da6d && Schedule(LONG_BLOCK, 53) == 0xddf3ba6e
    ensures Schedule(LONG_BLOCK, 54) == 0x2737f5e9 && Schedule(LONG_BLOCK, 55) == 0x4888a710
    ensures Schedule(LONG_BLOCK, 56) == 0xd2a1177b && Schedule(LONG_BLOCK, 57) == 0x9999633b
    ensures Schedule(LONG_BLOCK, 58) == 0xd6c69d03 && Schedule(LONG_BLOCK, 59) == 0xccf6127b
    ensures Schedule(LONG_BLOCK, 60) == 0x7c58fe6d && Schedule(LONG_BLOCK, 61) == 0xfdd99c68
    ensures Schedule(LONG_BLOCK, 62) == 0xf8e32074 && Schedule(LONG_BLOCK, 63) == 0xe0ba3c7d
  {
    LongWords48();
  }

  lemma LongWords80()
    ensures Schedule(LONG_BLOCK, 64) == 0x152198d6 && Schedule(LONG_BLOCK, 65) == 0x7b3f1982
    ensures Schedule(LONG_BLOCK, 66) == 0x37f2d5b7 && Schedule(LONG_BLOCK, 67) == 0x8596323e
    ensures Schedule(LONG_BLOCK, 68) == 0x810790d6 && Schedule(LONG_BLOCK, 69) == 0xbea0a942
    ensures Schedule(LONG_BLOCK, 70) == 0x11c7e1b1 && Schedule(LONG_BLOCK, 71) == 0x6158d101
    ensures Schedule(LONG_BLOCK, 72) == 0x5fcd77d9 && Schedule(LONG_BLOCK, 73) == 0x7f2f12e6
    ensures Schedule(LONG_BLOCK, 74) == 0xf868cfb1 && Schedule(LONG_BLOCK, 75) == 0xd6e997e9
    ensures Schedule(LONG_BLOCK, 76) == 0xf526b852 && Schedule(LONG_BLOCK, 77) == 0xb7578dcc
    ensures Schedule(LONG_BLOCK, 78) == 0x55d99df4 && Schedule(LONG_BLOCK, 79) == 0x1ff69958
  {
    LongWords64();
  }

  lemma LongRounds20()
    ensures Rounds(20, INIT, LONG_BLOCK) == Regs(0x6c445652, 0x944b1bd1, 0x509ae70d, 0x1ac1a012, 0x5098df8e)
  {
    LongWords16();
    LongWords32();
    StartOf(INIT, LONG_BLOCK);
    hide Schedule, Rounds;
    var r := INIT;
    r := Five(INIT, LONG_BLOCK, 0, r, 0x0116fc17, 0xebf3b452, 0x5109913a, 0x2c4f6eac, 0x33f4ae5b);
    r := Five(INIT, LONG_BLOCK, 5, r, 0x96b85189, 0xdb04cb58, 0x45833f0f, 0xc565c35e, 0x6350afda);
    r := Five(INIT, LONG_BLOCK, 10, r, 0x8993ea77, 0xe19ecaa2, 0x8603481e, 0x32f94a85, 0xb2e7a8be);
    r := Five(INIT, LONG_BLOCK, 15, r, 0x42637e39, 0x6b068048, 0x426b9c35, 0x944b1bd1, 0x6c445652);
  }

  lemma LongRounds40()
    ensures Rounds(40, INIT, LONG_BLOCK) == Regs(0xadeb7478, 0x24957f22, 0x50fe1eba, 0x564cff26, 0xaadf0cbb)
  {
    LongWords32();
    LongWords48();
    LongRounds20();
    hide Schedule, Rounds;
    var r := Regs(0x6c445652, 0x944b1bd1, 0x509ae70d, 0x1ac1a012, 0x5098df8e);
    r := Five(INIT, LONG_BLOCK, 20, r, 0x95836da5, 0x09511177, 0xe2b92dc4, 0xfd224575, 0xeeb82d9a);
    r := Five(INIT, LONG_BLOCK, 25, r, 0x5a142c1a, 0x2972f7c7, 0xd526a644, 0xe1122421, 0x05b457b2);
    r := Five(INIT, LONG_BLOCK, 30, r, 0xa9c84bec, 0x52e31f60, 0x5af3242c, 0x31c756a9, 0xe9ac987c);
    r := Five(INIT, LONG_BLOCK, 35, r, 0xab7c32ee, 0x5933fc99, 0x43f87ae9, 0x24957f22, 0xadeb7478);
  }

  lemma LongRounds60()
    ensures Rounds(60, INIT, LONG_BLOCK) == Regs(0x9ef775c3, 0xf03d3782, 0xeb029e53, 0xe9a06dc8, 0x1ddb0e44)
  {
    LongWords48();
    LongWords64();
    LongRounds40();
    hide Schedule, Rounds;
    var r := Regs(0xadeb7478, 0x24957f22, 0x50fe1eba, 0x564cff26, 0xaadf0cbb);
    r := Five(INIT, LONG_BLOCK, 40, r, 0xd70e5010, 0x79bcfb08, 0xf9bcb8de, 0x633e9561, 0x98c1ea64);
    r := Five(INIT, LONG_BLOCK, 45, r, 0xc6ea241e, 0xa2ad4f02, 0xc8a69090, 0x88341600, 0x7e846f58);
    r := Five(INIT, LONG_BLOCK, 50, r, 0x86e358ba, 0x8d2e76c8, 0xce892e10, 0xedea95b1, 0x36d1230a);
    r := Five(INIT, LONG_BLOCK, 55, r, 0x776c3910, 0xa681b723, 0xac0a794f, 0xf03d3782, 0x9ef775c3);
  }

  lemma LongRounds80()
    ensures Rounds(80, INIT, LONG_BLOCK) == Regs(0x8ce34517, 0xd3ad7c25, 0x6b4e1883, 0x74351cd2, 0x86838382)
  {
    LongWords64();
    LongWords80();
    LongRounds60();
    hide Schedule, Rounds;
    var r := Regs(0x9ef775c3, 0xf03d3782, 0xeb029e53, 0xe9a06dc8, 0x1ddb0e44);
    r := Five(INIT, LONG_BLOCK, 60, r, 0x36254b13, 0x4080d4dc, 0x2bfaf7a8, 0x513f9ca0, 0xe5895c81);
    r := Five(INIT, LONG_BLOCK, 65, r, 0x1037d2d5, 0x14a82da9, 0x6d17c9fd, 0x2c7b07bd, 0xfdf6efff);
    r := Five(INIT, LONG_BLOCK, 70, r, 0x112b96e3, 0x84065712, 0xab89fb71, 0xc5210e35, 0x352d9f4b);
    r := Five(INIT, LONG_BLOCK, 75, r, 0x1a0e0e0a, 0xd0d47349, 0xad38620d, 0xd3ad7c25, 0x8ce34517);
  }

  lemma LastWords16()
    ensures Schedule(LAST_BLOCK, 0) == 0x00000000 && Schedule(LAST_BLOCK, 1) == 0x00000000
    ensures Schedule(LAST_BLOCK, 2) == 0x00000000 && Schedule(LAST_BLOCK, 3) == 0x00000000
    ensures Schedule(LAST_BLOCK, 4) == 0x00000000 && Schedule(LAST_BLOCK, 5) == 0x00000000
    ensures Schedule(LAST_BLOCK, 6) == 0x00000000 && Schedule(LAST_BLOCK, 7) == 0x00000000
    ensures Schedule(LAST_BLOCK, 8) == 0x00000000 && Schedule(LAST_BLOCK, 9) == 0x00000000
    ensures Schedule(LAST_BLOCK, 10) == 0x00000000 && Schedule(LAST_BLOCK, 11) == 0x00000000
    ensures Schedule(LAST_BLOCK, 12) == 0x00000000 && Schedule(LAST_BLOCK, 13) == 0x00000000
    ensures Schedule(LAST_BLOCK, 14) == 0x00000000 && Schedule(LAST_BLOCK, 15) == 0x000001c0
  {
    WordIs(LAST_BLOCK, 15, 0, 0, 0x01, 0xc0);
    ZeroWords(LAST_BLOCK, 0, 15);
    hide Schedule;
  }

  lemma LastWords32()
    ensures Schedule(LAST_BLOCK, 16) == 0x00000000 && Schedule(LAST_BLOCK, 17) == 0x00000000
    ensures Schedule(LAST_BLOCK, 18) == 0x00000380 && Schedule(LAST_BLOCK, 19) == 0x00000000
    ensures Schedule(LAST_BLOCK, 20) == 0x00000000 && Schedule(LAST_BLOCK, 21) == 0x00000700
    ensures Schedule(LAST_BLOCK, 22) == 0x00000000 && Schedule(LAST_BLOCK, 23) == 0x00000380
    ensures Schedule(LAST_BLOCK, 24) == 0x00000e00 && Schedule(LAST_BLOCK, 25) == 0x00000000
    ensures Schedule(LAST_BLOCK, 26) == 0x00000000 && Schedule(LAST_BLOCK, 27) == 0x00001c00
    ensures Schedule(LAST_BLOCK, 28) == 0x00000000 && Schedule(LAST_BLOCK, 29) == 0x00000d80
    ensures Schedule(LAST_BLOCK, 30) == 0x00003800 && Schedule(LAST_BLOCK, 31) == 0x00000480
  {
    LastWords16();
  }

  lemma LastWords48()
    ensures Schedule(LAST_BLOCK, 32) == 0x00000000 && Schedule(LAST_BLOCK, 33) == 0x00007000
    ensures Schedule(LAST_BLOCK, 34) == 0x00000e00 && Schedule(LAST_BLOCK, 35) == 0x00003600
    ensures Schedule(LAST_BLOCK, 36) == 0x0000e000 && Schedule(LAST_BLOCK, 37) == 0x00000e00
    ensures Schedule(LAST_BLOCK, 38) == 0x00000000 && Schedule(LAST_BLOCK, 39) == 0x0001ce00
    ensures Schedule(LAST_BLOCK, 40) == 0x00000000 && Schedule(LAST_BLOCK, 41) == 0x0000d800
    ensures Schedule(LAST_BLOCK, 42) == 0x00038000 && Schedule(LAST_BLOCK, 43) == 0x00004f00
    ensures Schedule(LAST_BLOCK, 44) == 0x00000000 && Schedule(LAST_BLOCK, 45) == 0x00070e00
    ensures Schedule(LAST_BLOCK, 46) == 0x0000ee00 && Schedule(LAST_BLOCK, 47) == 0x00037500
  {
    LastWords32();
  }

  lemma LastWords64()
    ensures Schedule(LAST_BLOCK, 48) == 0x000e0000 && Schedule(LAST_BLOCK, 49) == 0x0000e000
    ensures Schedule(LAST_BLOCK, 50) == 0x00003600 && Schedule(LAST_BLOCK, 51) == 0x001cee00
    ensures Schedule(LAST_BLOCK, 52) == 0x00000000 && Schedule(LAST_BLOCK, 53) == 0x000df000
    ensures Schedule(LAST_BLOCK, 54) == 0x00380000 && Schedule(LAST_BLOCK, 55) == 0x0004c600
    ensures Schedule(LAST_BLOCK, 56) == 0x0000e000 && Schedule(LAST_BLOCK, 57) == 0x0070ee00
    ensures Schedule(LAST_BLOCK, 58) == 0x000ee000 && Schedule(LAST_BLOCK, 59) == 0x00369e00
    ensures Schedule(LAST_BLOCK, 60) == 0x00e00000 && Schedule(LAST_BLOCK, 61) == 0x000ed600
    ensures Schedule(LAST_BLOCK, 62) == 0x0000e000 && Schedule(LAST_BLOCK, 63) == 0x01cea600
  {
    LastWords48();
  }

  lemma LastWords80()
    ensures Schedule(LAST_BLOCK, 64) == 0x00000000 && Schedule(LAST_BLOCK, 65) == 0x00d80000
    ensures Schedule(LAST_BLOCK, 66) == 0x0380e000 && Schedule(LAST_BLOCK, 67) == 0x004f0000
    ensures Schedule(LAST_BLOCK, 68) == 0x00000000 && Schedule(LAST_BLOCK, 69) == 0x070e0000
    ensures Schedule(LAST_BLOCK, 70) == 0x00ee0000 && Schedule(LAST_BLOCK, 71) == 0x03751c00
    ensures Schedule(LAST_BLOCK, 72) == 0x0e000000 && Schedule(LAST_BLOCK, 73) == 0x00e0e000
    ensures Schedule(LAST_BLOCK, 74) == 0x00363800 && Schedule(LAST_BLOCK, 75) == 0x1cee9000
    ensures Schedule(LAST_BLOCK, 76) == 0x00000000 && Schedule(LAST_BLOCK, 77) == 0x0df09000
    ensures Schedule(LAST_BLOCK, 78) == 0x3800e000 && Schedule(LAST_BLOCK, 79) == 0x04c77400
  {
    LastWords64();
  }

  lemma LastRounds20()
    ensures Rounds(20, MIDWAY, LAST_BLOCK) == Regs(0xd8992153, 0xc2eb709f, 0x2946d62f, 0x9541f6db, 0x365dc8d8)
  {
    LastWords16();
    LastWords32();
    StartOf(MIDWAY, LAST_BLOCK);
    hide Schedule, Rounds;
    var r := MIDWAY;
    r := Five(MIDWAY, LAST_BLOCK, 0, r, 0x2df257e9, 0x4d3dc58f, 0xc352bb05, 0xeef743c6, 0x41e34277);
    r := Five(MIDWAY, LAST_BLOCK, 5, r, 0x5443915c, 0xe7fa0377, 0xc6946813, 0xfdde1de1, 0xb8538aca);
    r := Five(MIDWAY, LAST_BLOCK, 10, r, 0x6ba94f63, 0x43a2792f, 0xfecd7bbf, 0xa2604ca8, 0x258b0baa);
    r := Five(MIDWAY, LAST_BLOCK, 15, r, 0xd9772360, 0x5507db6e, 0xa51b58bc, 0xc2eb709f, 0xd8992153);
  }

  lemma LastRounds40()
    ensures Rounds(40, MIDWAY, LAST_BLOCK) == Regs(0x03bb6310, 0x84e2a5f2, 0x21f56e03, 0xb3bd6b84, 0x1a5b6901)
  {
    LastWords32();
    LastWords48();
    LastRounds20();
    hide Schedule, Rounds;
    var r := Regs(0xd8992153, 0xc2eb709f, 0x2946d62f, 0x9541f6db, 0x365dc8d8);
    r := Five(MIDWAY, LAST_BLOCK, 20, r, 0x37482f5f, 0xee8700bd, 0x9ad594b9, 0x8fbaa5b9, 0x88fb5867);
    r := Five(MIDWAY, LAST_BLOCK, 25, r, 0xeec50521, 0x50bce434, 0x5c416daf, 0x2429be5f, 0x0a2fb108);
    r := Five(MIDWAY, LAST_BLOCK, 30, r, 0x17986223, 0x8a4af384, 0x6b629993, 0xf15f04f3, 0x295cc25b);
    r := Five(MIDWAY, LAST_BLOCK, 35, r, 0x696da404, 0xcef5ae12, 0x87d5b80c, 0x84e2a5f2, 0x03bb6310);
  }

  lemma LastRounds60()
    ensures Rounds(60, MIDWAY, LAST_BLOCK) == Regs(0xa65818f7, 0x5b086c42, 0xb9e15956, 0xea1256a6, 0xdb69cb9f)
  {
    LastWords48();
    LastWords64();
    LastRounds40();
    hide Schedule, Rounds;
    var r := Regs(0x03bb6310, 0x84e2a5f2, 0x21f56e03, 0xb3bd6b84, 0x1a5b6901);
    r := Five(MIDWAY, LAST_BLOCK, 40, r, 0xc2d8f75f, 0xbfb25768, 0x28589152, 0xec1d3d61, 0x3caed7af);
    r := Five(MIDWAY, LAST_BLOCK, 45, r, 0xc3d033ea, 0x7316056a, 0x46f93b68, 0xdc8e7f26, 0x850d411c);
    r := Five(MIDWAY, LAST_BLOCK, 50, r, 0x7e4672c0, 0x89fbd41d, 0x1797e228, 0x431d65bc, 0x2bdbb8cb);
    r := Five(MIDWAY, LAST_BLOCK, 55, r, 0x6da72e7f, 0xa8495a9b, 0xe785655a, 0x5b086c42, 0xa65818f7);
  }

  lemma LastRounds80()
    ensures Rounds(80, MIDWAY, LAST_BLOCK) == Regs(0x906fd62c, 0x58c0aac0, 0xb6a55520, 0x74e9b89d, 0x9af00b7f)
  {
    LastWords64();
    LastWords80();
    LastRounds60();
    hide Schedule, Rounds;
    var r := Regs(0xa65818f7, 0x5b086c42, 0xb9e15956, 0xea1256a6, 0xdb69cb9f);
    r := Five(MIDWAY, LAST_BLOCK, 60, r, 0x7aab101b, 0x93614c9c, 0xf66d9bf4, 0xd504902b, 0x60a9da62);
    r := Five(MIDWAY, LAST_BLOCK, 65, r, 0x8b687819, 0x083e90c3, 0xf6226bbf, 0x76c0563b, 0x989dd165);
    r := Five(MIDWAY, LAST_BLOCK, 70, r, 0x8b2c7573, 0xae1b8e7b, 0xca1840de, 0x16f3babb, 0xd28d83ad);
    r := Five(MIDWAY, LAST_BLOCK, 75, r, 0x6bc02dfe, 0xd3a6e275, 0xda955482, 0x58c0aac0, 0x906fd62c);
  }

  lemma LongPadded()
    ensures Padded(LONG, BigEndian(8 * |LONG| % TWO_TO_THE_64, 8)) == LONG_BLOCK + LAST_BLOCK
  {
    LengthsAre();
    PaddedAs(LONG, 63, 448);
    ZerosJoin(7, 56);
    hide BigEndian, Zeros, Padded;
    ConcatAssoc(LONG + [0x80], Zeros(7), Zeros(56));
    ConcatAssoc(LONG_BLOCK, Zeros(56), Zeros(6) + [0x01] + [0xc0]);
  }

  lemma LongChained()
    ensures Chained(LONG_BLOCK + LAST_BLOCK) == Regs(0x84983e44, 0x1c3bd26e, 0xbaae4aa1, 0xf95129e5, 0xe54670f1)
  {
    LongRounds80();
    LastRounds80();
    FoldBlock(Compress, INIT, [], LONG_BLOCK);
    ConcatEmpty<Byte>(LONG_BLOCK);
    FoldBlock(Compress, INIT, LONG_BLOCK, LAST_BLOCK);
    hide Rounds, Fold;
    assert Chained(LONG_BLOCK) == MIDWAY;
  }

  /** The second example, of 56 bytes, so that the padding fills a block of its own. */
  lemma DigestOfTwoBlocks()
    ensures Digest(LONG) == [0x84, 0x98, 0x3e, 0x44] + [0x1c, 0x3b, 0xd2, 0x6e] + [0xba, 0xae, 0x4a, 0xa1]
                       + [0xf9, 0x51, 0x29, 0xe5] + [0xe5, 0x46, 0x70, 0xf1]
  {
    LongPadded();
    LongChained();
    hide Padded, BigEndian, Chained;
  }
}
