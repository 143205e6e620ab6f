/** The MD5 context of md5.cc, proved against RFC 1321. */
module Md5 {
  import opened Arithmetic
  import opened BitIdentities
  import opened Blocks
  import opened Sequences

  type Counter = n: nat | n < TWO_TO_THE_32

  // ---------------------------------------------------------------- RFC 1321

  datatype Regs = Regs(a: Word, b: Word, c: Word, d: Word)

  const INIT := Regs(0x67452301, 0xefcdab89, 0x98badcfe, 0x10325476)

  function F(x: Word, y: Word, z: Word): Word { (x & y) | (!x & z) }
  function G(x: Word, y: Word, z: Word): Word { (x & z) | (y & !z) }
  function H(x: Word, y: Word, z: Word): Word { x ^ y ^ z }
  function I(x: Word, y: Word, z: Word): Word { y ^ (x | !z) }

  /** Addition modulo 2^32. */
  function Add(x: Word, y: Word): Word { x + y }

  function Sum(a: Word, f: Word, x: Word, t: Word): Word { a + f + x + t }

  function Rotl(w: Word, s: nat): Word
    requires s <= 32
  {
    (w << s) | (w >> (32 - s))
  }

  /** The auxiliary function, block word, shift and sine constant of step i (counted from 0). */
  function Aux(i: nat, x: Word, y: Word, z: Word): Word
  {
    if i < 16 then F(x, y, z) else if i < 32 then G(x, y, z) else if i < 48 then H(x, y, z) else I(x, y, z)
  }

  function WordIndex(i: nat): (k: nat)
    ensures k < 16
  {
    if i < 16 then i
    else if i < 32 then (1 + 5 * i) % 16
    else if i < 48 then (5 + 3 * i) % 16
    else 7 * i % 16
  }

  function Shift(i: nat): (s: nat)
    ensures s <= 32
  {
    if i < 16 then (if i % 4 == 0 then 7 else if i % 4 == 1 then 12 else if i % 4 == 2 then 17 else 22)
    else if i < 32 then (if i % 4 == 0 then 5 else if i % 4 == 1 then 9 else if i % 4 == 2 then 14 else 20)
    else if i < 48 then (if i % 4 == 0 then 4 else if i % 4 == 1 then 11 else if i % 4 == 2 then 16 else 23)
    else (if i % 4 == 0 then 6 else if i % 4 == 1 then 10 else if i % 4 == 2 then 15 else 21)
  }

  function Sine(i: nat): Word
  {
    if i < 16 then Sine1(i) else if i < 32 then Sine2(i) else if i < 48 then Sine3(i) else Sine4(i)
  }

  function Sine1(i: nat): Word
  {
    match i
    case 0 => 0xd76aa478 case 1 => 0xe8c7b756 case 2 => 0x242070db case 3 => 0xc1bdceee
    case 4 => 0xf57c0faf case 5 => 0x4787c62a case 6 => 0xa8304613 case 7 => 0xfd469501
    case 8 => 0x698098d8 case 9 => 0x8b44f7af case 10 => 0xffff5bb1 case 11 => 0x895cd7be
    case 12 => 0x6b901122 case 13 => 0xfd987193 case 14 => 0xa679438e case 15 => 0x49b40821
    case _ => 0
  }

  function Sine2(i: nat): Word
  {
    match i
    case 16 => 0xf61e2562 case 17 => 0xc040b340 case 18 => 0x265e5a51 case 19 => 0xe9b6c7aa
    case 20 => 0xd62f105d case 21 => 0x02441453 case 22 => 0xd8a1e681 case 23 => 0xe7d3fbc8
    case 24 => 0x21e1cde6 case 25 => 0xc33707d6 case 26 => 0xf4d50d87 case 27 => 0x455a14ed
    case 28 => 0xa9e3e905 case 29 => 0xfcefa3f8 case 30 => 0x676f02d9 case 31 => 0x8d2a4c8a
    case _ => 0
  }

  function Sine3(i: nat): Word
  {
    match i
    case 32 => 0xfffa3942 case 33 => 0x8771f681 case 34 => 0x6d9d6122 case 35 => 0xfde5380c
    case 36 => 0xa4beea44 case 37 => 0x4bdecfa9 case 38 => 0xf6bb4b60 case 39 => 0xbebfbc70
    case 40 => 0x289b7ec6 case 41 => 0xeaa127fa case 42 => 0xd4ef3085 case 43 => 0x04881d05
    case 44 => 0xd9d4d039 case 45 => 0xe6db99e5 case 46 => 0x1fa27cf8 case 47 => 0xc4ac5665
    case _ => 0
  }

  function Sine4(i: nat): Word
  {
    match i
    case 48 => 0xf4292244 case 49 => 0x432aff97 case 50 => 0xab9423a7 case 51 => 0xfc93a039
    case 52 => 0x655b59c3 case 53 => 0x8f0ccc92 case 54 => 0xffeff47d case 55 => 0x85845dd1
    case 56 => 0x6fa87e4f case 57 => 0xfe2ce6e0 case 58 => 0xa3014314 case 59 => 0x4e0811a1
    case 60 => 0xf7537e82 case 61 => 0xbd3af235 case 62 => 0x2ad7d2bb case 63 => 0xeb86d391
    case _ => 0
  }

  type Words = w: seq<Word> | |w| == 16 witness seq(16, _ => 0)

  /** One step of section 3.4; the registers then change places, so the next works on d. */
  function Step(i: nat, r: Regs, x: Words): (r': Regs)
  {
    var t := Sum(r.a, Aux(i, r.b, r.c, r.d), x[WordIndex(i)], Sine(i));
    Regs(r.d, Add(r.b, Rotl(t, Shift(i))), r.b, r.c)
  }

  function Steps(n: nat, r: Regs, x: Words): (r': Regs)
  {
    if n == 0 then r else Step(n - 1, Steps(n - 1, r, x), x)
  }

  function Le32(b: seq<Byte>): Word
    requires |b| == 4
  {
    ((b[3] as Word) << 24) | ((b[2] as Word) << 16) | ((b[1] as Word) << 8) | (b[0] as Word)
  }

  function LeBytes(w: Word): (b: seq<Byte>)
    ensures |b| == 4
  {
    [(w & 0xff) as Byte, ((w >> 8) & 0xff) as Byte, ((w >> 16) & 0xff) as Byte, ((w >> 24) & 0xff) as Byte]
  }

  /** The block read as sixteen little-endian words. */
  function Decode(b: Block): (x: Words)
  {
    seq(16, i requires 0 <= i < 16 => Le32(b[4 * i..4 * i + 4]))
  }

  function Plus(r: Regs, s: Regs): Regs
  {
    Regs(Add(r.a, s.a), Add(r.b, s.b), Add(r.c, s.c), Add(r.d, s.d))
  }

  function Compress(r: Regs, b: Block): (r': Regs)
  {
    Plus(r, Steps(64, r, Decode(b)))
  }

  function Encode(r: Regs): (b: seq<Byte>)
    ensures |b| == 16
  {
    LeBytes(r.a) + LeBytes(r.b) + LeBytes(r.c) + LeBytes(r.d)
  }

  /** The low bytes of a number, lowest first. */
  function LowBytes(n: nat, count: nat): (b: seq<Byte>)
    ensures |b| == count
  {
    if count == 0 then [] else [(n % 256) as Byte] + LowBytes(n / 256, count - 1)
  }

  /** The digest of m: sections 3.1 to 3.5. */
  function Digest(m: seq<Byte>): (d: seq<Byte>)
    ensures |d| == 16
  {
    Encode(Fold(Compress, INIT, Padded(m, LowBytes(8 * |m| % TWO_TO_THE_64, 8))))
  }

  // ---------------------------------------------------------------- the unrolled transform

  function F1(x: Word, y: Word, z: Word): Word { z ^ (x & (y ^ z)) }
  function F2(x: Word, y: Word, z: Word): Word { F1(z, x, y) }
  function F3(x: Word, y: Word, z: Word): Word { x ^ y ^ z }
  function F4(x: Word, y: Word, z: Word): Word { y ^ (x | !z) }

  function FastSum(w: Word, f: Word, x: Word, t: Word): Word { w + ((f + x) + t) }

  /** MD5STEP with f the value of the auxiliary function and xk + t for data. */
  function Md5Step(f: Word, w: Word, x: Word, xk: Word, t: Word, s: nat): Word
    requires s <= 32
  {
    Add(Rotl(FastSum(w, f, xk, t), s), x)
  }

  lemma F1IsF(x: Word, y: Word, z: Word)
    ensures F1(x, y, z) == F(x, y, z)
  {
    SelectByXor(x, y, z);
  }

  lemma F2IsG(x: Word, y: Word, z: Word)
    ensures F2(x, y, z) == G(x, y, z)
  {
    SelectByXor(z, x, y);
    assert (z & x) | (!z & y) == (x & z) | (y & !z);
  }

  lemma F3IsH(x: Word, y: Word, z: Word)
    ensures F3(x, y, z) == H(x, y, z)
  {
  }

  lemma F4IsI(x: Word, y: Word, z: Word)
    ensures F4(x, y, z) == I(x, y, z)
  {
  }

  lemma FastSumIsSum(a: Word, f: Word, x: Word, t: Word)
    ensures FastSum(a, f, x, t) == Sum(a, f, x, t)
  {
  }

  lemma AddCommutes(x: Word, y: Word)
    ensures Add(x, y) == Add(y, x)
  {
  }

  function FastAux(i: nat, x: Word, y: Word, z: Word): Word
  {
    if i < 16 then F1(x, y, z) else if i < 32 then F2(x, y, z) else if i < 48 then F3(x, y, z) else F4(x, y, z)
  }

  /** A step with the optimised functions, the block word and the constant added first. */
  function FastStep(i: nat, r: Regs, x: Words): (r': Regs)
  {
    Regs(r.d, Md5Step(FastAux(i, r.b, r.c, r.d), r.a, r.b, x[WordIndex(i)], Sine(i), Shift(i)), r.b, r.c)
  }

  function FastSteps(n: nat, r: Regs, x: Words): (r': Regs)
  {
    if n == 0 then r else FastStep(n - 1, FastSteps(n - 1, r, x), x)
  }

  lemma FastStepIsStep(i: nat, r: Regs, x: Words)
    ensures FastStep(i, r, x) == Step(i, r, x)
  {
    hide Add, Sum, FastSum, Rotl, F, G, H, I, F1, F2, F3, F4, Sine, Shift, WordIndex;
    F1IsF(r.b, r.c, r.d);
    F2IsG(r.b, r.c, r.d);
    F3IsH(r.b, r.c, r.d);
    F4IsI(r.b, r.c, r.d);
    FastSumIsSum(r.a, Aux(i, r.b, r.c, r.d), x[WordIndex(i)], Sine(i));
    AddCommutes(r.b, Rotl(Sum(r.a, Aux(i, r.b, r.c, r.d), x[WordIndex(i)], Sine(i)), Shift(i)));
  }

  lemma {:induction false} FastStepsAreSteps(n: nat, r: Regs, x: Words)
    ensures FastSteps(n, r, x) == Steps(n, r, x)
  {
    if n > 0 {
      FastStepsAreSteps(n - 1, r, x);
      FastStepIsStep(n - 1, Steps(n - 1, r, x), x);
    }
  }

  /** Step i on explicit registers, with its auxiliary value. */
  function Turn(i: nat, w: Word, x: Word, y: Word, z: Word, m: Words): Word
  {
    Md5Step(FastAux(i, x, y, z), w, x, m[WordIndex(i)], Sine(i), Shift(i))
  }

  /** After four steps the registers are back in their places. */
  lemma FourSteps(n: nat, r: Regs, m: Words, a: Word, b: Word, c: Word, d: Word)
    requires Regs(a, b, c, d) == FastSteps(n, r, m)
    ensures var a' := Turn(n, a, b, c, d, m);
            var d' := Turn(n + 1, d, a', b, c, m);
            var c' := Turn(n + 2, c, d', a', b, m);
            var b' := Turn(n + 3, b, c', d', a', m);
            FastSteps(n + 4, r, m) == Regs(a', b', c', d')
  {
    hide Md5Step, FastAux, Sine, Shift, WordIndex;
    assert FastSteps(n + 1, r, m) == FastStep(n, FastSteps(n, r, m), m);
    assert FastSteps(n + 2, r, m) == FastStep(n + 1, FastSteps(n + 1, r, m), m);
    assert FastSteps(n + 3, r, m) == FastStep(n + 2, FastSteps(n + 2, r, m), m);
  }

  predicate Row(i: nat, k: nat, t: Word, s: nat)
  {
    WordIndex(i) == k && Sine(i) == t && Shift(i) == s
  }

  lemma Rows0()
    ensures Row(0, 0, 0xd76aa478, 7)
    ensures Row(1, 1, 0xe8c7b756, 12)
    ensures Row(2, 2, 0x242070db, 17)
    ensures Row(3, 3, 0xc1bdceee, 22)
    ensures Row(4, 4, 0xf57c0faf, 7)
    ensures Row(5, 5, 0x4787c62a, 12)
    ensures Row(6, 6, 0xa8304613, 17)
    ensures Row(7, 7, 0xfd469501, 22)
  {
  }

  lemma Rows8()
    ensures Row(8, 8, 0x698098d8, 7)
    ensures Row(9, 9, 0x8b44f7af, 12)
    ensures Row(10, 10, 0xffff5bb1, 17)
    ensures Row(11, 11, 0x895cd7be, 22)
    ensures Row(12, 12, 0x6b901122, 7)
    ensures Row(13, 13, 0xfd987193, 12)
    ensures Row(14, 14, 0xa679438e, 17)
    ensures Row(15, 15, 0x49b40821, 22)
  {
  }

  lemma Rows16()
    ensures Row(16, 1, 0xf61e2562, 5)
    ensures Row(17, 6, 0xc040b340, 9)
    ensures Row(18, 11, 0x265e5a51, 14)
    ensures Row(19, 0, 0xe9b6c7aa, 20)
    ensures Row(20, 5, 0xd62f105d, 5)
    ensures Row(21, 10, 0x02441453, 9)
    ensures Row(22, 15, 0xd8a1e681, 14)
    ensures Row(23, 4, 0xe7d3fbc8, 20)
  {
  }

  lemma Rows24()
    ensures Row(24, 9, 0x21e1cde6, 5)
    ensures Row(25, 14, 0xc33707d6, 9)
    ensures Row(26, 3, 0xf4d50d87, 14)
    ensures Row(27, 8, 0x455a14ed, 20)
    ensures Row(28, 13, 0xa9e3e905, 5)
    ensures Row(29, 2, 0xfcefa3f8, 9)
    ensures Row(30, 7, 0x676f02d9, 14)
    ensures Row(31, 12, 0x8d2a4c8a, 20)
  {
  }

  lemma Rows32()
    ensures Row(32, 5, 0xfffa3942, 4)
    ensures Row(33, 8, 0x8771f681, 11)
    ensures Row(34, 11, 0x6d9d6122, 16)
    ensures Row(35, 14, 0xfde5380c, 23)
    ensures Row(36, 1, 0xa4beea44, 4)
    ensures Row(37, 4, 0x4bdecfa9, 11)
    ensures Row(38, 7, 0xf6bb4b60, 16)
    ensures Row(39, 10, 0xbebfbc70, 23)
  {
  }

  lemma Rows40()
    ensures Row(40, 13, 0x289b7ec6, 4)
    ensures Row(41, 0, 0xeaa127fa, 11)
    ensures Row(42, 3, 0xd4ef3085, 16)
    ensures Row(43, 6, 0x04881d05, 23)
    ensures Row(44, 9, 0xd9d4d039, 4)
    ensures Row(45, 12, 0xe6db99e5, 11)
    ensures Row(46, 15, 0x1fa27cf8, 16)
    ensures Row(47, 2, 0xc4ac5665, 23)
  {
  }

  lemma Rows48()
    ensures Row(48, 0, 0xf4292244, 6)
    ensures Row(49, 7, 0x432aff97, 10)
    ensures Row(50, 14, 0xab9423a7, 15)
    ensures Row(51, 5, 0xfc93a039, 21)
    ensures Row(52, 12, 0x655b59c3, 6)
    ensures Row(53, 3, 0x8f0ccc92, 10)
    ensures Row(54, 10, 0xffeff47d, 15)
    ensures Row(55, 1, 0x85845dd1, 21)
  {
  }

  lemma Rows56()
    ensures Row(56, 8, 0x6fa87e4f, 6)
    ensures Row(57, 15, 0xfe2ce6e0, 10)
    ensures Row(58, 6, 0xa3014314, 15)
    ensures Row(59, 13, 0x4e0811a1, 21)
    ensures Row(60, 4, 0xf7537e82, 6)
    ensures Row(61, 11, 0xbd3af235, 10)
    ensures Row(62, 2, 0x2ad7d2bb, 15)
    ensures Row(63, 9, 0xeb86d391, 21)
  {
  }

  /** Round 1 of the unrolled steps. */
  method Round1(ghost r: Regs, x: Words, a0: Word, b0: Word, c0: Word, d0: Word)
    returns (a: Word, b: Word, c: Word, d: Word)
    requires Regs(a0, b0, c0, d0) == FastSteps(0, r, x)
    ensures Regs(a, b, c, d) == FastSteps(16, r, x)
  {
    hide Md5Step, F1, F2, F3, F4, FastSteps, WordIndex, Sine, Shift;
    Rows0();
    Rows8();
    a, b, c, d := a0, b0, c0, d0;

    FourSteps(0, r, x, a, b, c, d);
    a := Md5Step(F1(b, c, d), a, b, x[0], 0xd76aa478, 7);
    d := Md5Step(F1(a, b, c), d, a, x[1], 0xe8c7b756, 12);
    c := Md5Step(F1(d, a, b), c, d, x[2], 0x242070db, 17);
    b := Md5Step(F1(c, d, a), b, c, x[3], 0xc1bdceee, 22);
    assert Regs(a, b, c, d) == FastSteps(4, r, x);

    FourSteps(4, r, x, a, b, c, d);
    a := Md5Step(F1(b, c, d), a, b, x[4], 0xf57c0faf, 7);
    d := Md5Step(F1(a, b, c), d, a, x[5], 0x4787c62a, 12);
    c := Md5Step(F1(d, a, b), c, d, x[6], 0xa8304613, 17);
    b := Md5Step(F1(c, d, a), b, c, x[7], 0xfd469501, 22);
    assert Regs(a, b, c, d) == FastSteps(8, r, x);

    FourSteps(8, r, x, a, b, c, d);
    a := Md5Step(F1(b, c, d), a, b, x[8], 0x698098d8, 7);
    d := Md5Step(F1(a, b, c), d, a, x[9], 0x8b44f7af, 12);
    c := Md5Step(F1(d, a, b), c, d, x[10], 0xffff5bb1, 17);
    b := Md5Step(F1(c, d, a), b, c, x[11], 0x895cd7be, 22);
    assert Regs(a, b, c, d) == FastSteps(12, r, x);

    FourSteps(12, r, x, a, b, c, d);
    a := Md5Step(F1(b, c, d), a, b, x[12], 0x6b901122, 7);
    d := Md5Step(F1(a, b, c), d, a, x[13], 0xfd987193, 12);
    c := Md5Step(F1(d, a, b), c, d, x[14], 0xa679438e, 17);
    b := Md5Step(F1(c, d, a), b, c, x[15], 0x49b40821, 22);
    assert Regs(a, b, c, d) == FastSteps(16, r, x);
  }

  /** Round 2 of the unrolled steps. */
  method Round2(ghost r: Regs, x: Words, a0: Word, b0: Word, c0: Word, d0: Word)
    returns (a: Word, b: Word, c: Word, d: Word)
    requires Regs(a0, b0, c0, d0) == FastSteps(16, r, x)
    ensures Regs(a, b, c, d) == FastSteps(32, r, x)
  {
    hide Md5Step, F1, F2, F3, F4, FastSteps, WordIndex, Sine, Shift;
    Rows16();
    Rows24();
    a, b, c, d := a0, b0, c0, d0;

    FourSteps(16, r, x, a, b, c, d);
    a := Md5Step(F2(b, c, d), a, b, x[1], 0xf61e2562, 5);
    d := Md5Step(F2(a, b, c), d, a, x[6], 0xc040b340, 9);
    c := Md5Step(F2(d, a, b), c, d, x[11], 0x265e5a51, 14);
    b := Md5Step(F2(c, d, a), b, c, x[0], 0xe9b6c7aa, 20);
    assert Regs(a, b, c, d) == FastSteps(20, r, x);

    FourSteps(20, r, x, a, b, c, d);
    a := Md5Step(F2(b, c, d), a, b, x[5], 0xd62f105d, 5);
    d := Md5Step(F2(a, b, c), d, a, x[10], 0x02441453, 9);
    c := Md5Step(F2(d, a, b), c, d, x[15], 0xd8a1e681, 14);
    b := Md5Step(F2(c, d, a), b, c, x[4], 0xe7d3fbc8, 20);
    assert Regs(a, b, c, d) == FastSteps(24, r, x);

    FourSteps(24, r, x, a, b, c, d);
    a := Md5Step(F2(b, c, d), a, b, x[9], 0x21e1cde6, 5);
    d := Md5Step(F2(a, b, c), d, a, x[14], 0xc33707d6, 9);
    c := Md5Step(F2(d, a, b), c, d, x[3], 0xf4d50d87, 14);
    b := Md5Step(F2(c, d, a), b, c, x[8], 0x455a14ed, 20);
    assert Regs(a, b, c, d) == FastSteps(28, r, x);

    FourSteps(28, r, x, a, b, c, d);
    a := Md5Step(F2(b, c, d), a, b, x[13], 0xa9e3e905, 5);
    d := Md5Step(F2(a, b, c), d, a, x[2], 0xfcefa3f8, 9);
    c := Md5Step(F2(d, a, b), c, d, x[7], 0x676f02d9, 14);
    b := Md5Step(F2(c, d, a), b, c, x[12], 0x8d2a4c8a, 20);
    assert Regs(a, b, c, d) == FastSteps(32, r, x);
  }

  /** Round 3 of the unrolled steps. */
  method Round3(ghost r: Regs, x: Words, a0: Word, b0: Word, c0: Word, d0: Word)
    returns (a: Word, b: Word, c: Word, d: Word)
    requires Regs(a0, b0, c0, d0) == FastSteps(32, r, x)
    ensures Regs(a, b, c, d) == FastSteps(48, r, x)
  {
    hide Md5Step, F1, F2, F3, F4, FastSteps, WordIndex, Sine, Shift;
    Rows32();
    Rows40();
    a, b, c, d := a0, b0, c0, d0;

    FourSteps(32, r, x, a, b, c, d);
    a := Md5Step(F3(b, c, d), a, b, x[5], 0xfffa3942, 4);
    d := Md5Step(F3(a, b, c), d, a, x[8], 0x8771f681, 11);
    c := Md5Step(F3(d, a, b), c, d, x[11], 0x6d9d6122, 16);
    b := Md5Step(F3(c, d, a), b, c, x[14], 0xfde5380c, 23);
    assert Regs(a, b, c, d) == FastSteps(36, r, x);

    FourSteps(36, r, x, a, b, c, d);
    a := Md5Step(F3(b, c, d), a, b, x[1], 0xa4beea44, 4);
    d := Md5Step(F3(a, b, c), d, a, x[4], 0x4bdecfa9, 11);
    c := Md5Step(F3(d, a, b), c, d, x[7], 0xf6bb4b60, 16);
    b := Md5Step(F3(c, d, a), b, c, x[10], 0xbebfbc70, 23);
    assert Regs(a, b, c, d) == FastSteps(40, r, x);

    FourSteps(40, r, x, a, b, c, d);
    a := Md5Step(F3(b, c, d), a, b, x[13], 0x289b7ec6, 4);
    d := Md5Step(F3(a, b, c), d, a, x[0], 0xeaa127fa, 11);
    c := Md5Step(F3(d, a, b), c, d, x[3], 0xd4ef3085, 16);
    b := Md5Step(F3(c, d, a), b, c, x[6], 0x04881d05, 23);
    assert Regs(a, b, c, d) == FastSteps(44, r, x);

    FourSteps(44, r, x, a, b, c, d);
    a := Md5Step(F3(b, c, d), a, b, x[9], 0xd9d4d039, 4);
    d := Md5Step(F3(a, b, c), d, a, x[12], 0xe6db99e5, 11);
    c := Md5Step(F3(d, a, b), c, d, x[15], 0x1fa27cf8, 16);
    b := Md5Step(F3(c, d, a), b, c, x[2], 0xc4ac5665, 23);
    assert Regs(a, b, c, d) == FastSteps(48, r, x);
  }

  /** Round 4 of the unrolled steps. */
  method Round4(ghost r: Regs, x: Words, a0: Word, b0: Word, c0: Word, d0: Word)
    returns (a: Word, b: Word, c: Word, d: Word)
    requires Regs(a0, b0, c0, d0) == FastSteps(48, r, x)
    ensures Regs(a, b, c, d) == FastSteps(64, r, x)
  {
    hide Md5Step, F1, F2, F3, F4, FastSteps, WordIndex, Sine, Shift;
    Rows48();
    Rows56();
    a, b, c, d := a0, b0, c0, d0;

    FourSteps(48, r, x, a, b, c, d);
    a := Md5Step(F4(b, c, d), a, b, x[0], 0xf4292244, 6);
    d := Md5Step(F4(a, b, c), d, a, x[7], 0x432aff97, 10);
    c := Md5Step(F4(d, a, b), c, d, x[14], 0xab9423a7, 15);
    b := Md5Step(F4(c, d, a), b, c, x[5], 0xfc93a039, 21);
    assert Regs(a, b, c, d) == FastSteps(52, r, x);

    FourSteps(52, r, x, a, b, c, d);
    a := Md5Step(F4(b, c, d), a, b, x[12], 0x655b59c3, 6);
    d := Md5Step(F4(a, b, c), d, a, x[3], 0x8f0ccc92, 10);
    c := Md5Step(F4(d, a, b), c, d, x[10], 0xffeff47d, 15);
    b := Md5Step(F4(c, d, a), b, c, x[1], 0x85845dd1, 21);
    assert Regs(a, b, c, d) == FastSteps(56, r, x);

    FourSteps(56, r, x, a, b, c, d);
    a := Md5Step(F4(b, c, d), a, b, x[8], 0x6fa87e4f, 6);
    d := Md5Step(F4(a, b, c), d, a, x[15], 0xfe2ce6e0, 10);
    c := Md5Step(F4(d, a, b), c, d, x[6], 0xa3014314, 15);
    b := Md5Step(F4(c, d, a), b, c, x[13], 0x4e0811a1, 21);
    assert Regs(a, b, c, d) == FastSteps(60, r, x);

    FourSteps(60, r, x, a, b, c, d);
    a := Md5Step(F4(b, c, d), a, b, x[4], 0xf7537e82, 6);
    d := Md5Step(F4(a, b, c), d, a, x[11], 0xbd3af235, 10);
    c := Md5Step(F4(d, a, b), c, d, x[2], 0x2ad7d2bb, 15);
    b := Md5Step(F4(c, d, a), b, c, x[9], 0xeb86d391, 21);
    assert Regs(a, b, c, d) == FastSteps(64, r, x);
  }

  method MD5Transform(buf: array<Word>, x: Words)
    requires buf.Length == 4
    modifies buf
    ensures Registers(buf[..]) == Plus(old(Registers(buf[..])), Steps(64, old(Registers(buf[..])), x))
  {
    hide Add, Steps, FastStep;
    ghost var r := Registers(buf[..]);
    var a, b, c, d := Round1(r, x, buf[0], buf[1], buf[2], buf[3]);
    a, b, c, d := Round2(r, x, a, b, c, d);
    a, b, c, d := Round3(r, x, a, b, c, d);
    a, b, c, d := Round4(r, x, a, b, c, d);
    FastStepsAreSteps(64, r, x);
    buf[0] := Add(buf[0], a);
    buf[1] := Add(buf[1], b);
    buf[2] := Add(buf[2], c);
    buf[3] := Add(buf[3], d);
  }

  function Registers(buf: seq<Word>): Regs
    requires |buf| == 4
  {
    Regs(buf[0], buf[1], buf[2], buf[3])
  }

  // ---------------------------------------------------------------- bytes and words

  lemma LeBytesRoundTrip(b: seq<Byte>)
    requires |b| == 4
    ensures LeBytes(Le32(b)) == b
  {
  }

  /** On a little-endian machine this rewrites every word with itself. */
  method ByteReverse(buf: array<Byte>, longs: nat)
    requires 1 <= longs && 4 * longs <= buf.Length
    modifies buf
    ensures buf[..] == old(buf[..])
  {
    var at, left := 0, longs;
    while left > 0
      invariant at == 4 * (longs - left) && left <= longs
      invariant buf[..] == old(buf[..])
    {
      LeBytesRoundTrip(buf[at..at + 4]);
      CopyInto(buf, at, LeBytes(Le32(buf[at..at + 4])));
      assert old(buf[..]) == old(buf[..])[..at] + old(buf[..])[at..at + 4] + old(buf[..])[at + 4..];
      at, left := at + 4, left - 1;
    }
  }

  // ---------------------------------------------------------------- the two counters

  /** bits[0] and bits[1] for n bytes: the low and the high word of 8 * n modulo 2^64. */
  function LowBits(n: nat): Counter { 8 * n % TWO_TO_THE_32 }
  function HighBits(n: nat): Counter { 8 * n / TWO_TO_THE_32 % TWO_TO_THE_32 }

  lemma DivModUnique(n: nat, q: nat, r: nat)
    requires n == q * TWO_TO_THE_32 + r && r < TWO_TO_THE_32
    ensures n / TWO_TO_THE_32 == q && n % TWO_TO_THE_32 == r
  {
  }

  lemma ModSum(a: nat, b: nat)
    ensures (a % TWO_TO_THE_32 + b % TWO_TO_THE_32) % TWO_TO_THE_32 == (a + b) % TWO_TO_THE_32
  {
    var q := a / TWO_TO_THE_32 + b / TWO_TO_THE_32;
    var r := a % TWO_TO_THE_32 + b % TWO_TO_THE_32;
    if r < TWO_TO_THE_32 {
      DivModUnique(a + b, q, r);
    } else {
      DivModUnique(a + b, q + 1, r - TWO_TO_THE_32);
    }
  }

  /** The low word of 8 * length, as the source computes it, and its high word. */
  lemma ShiftedLength(length: nat)
    ensures length % TWO_TO_THE_32 * 8 % TWO_TO_THE_32 == 8 * length % TWO_TO_THE_32
    ensures length / 0x2000_0000 == 8 * length / TWO_TO_THE_32
  {
    ShiftedHigh(length);
    var h, l := length / TWO_TO_THE_32, length % TWO_TO_THE_32;
    ModMore(8 * h, 8 * l);
    assert 8 * length == 8 * h * TWO_TO_THE_32 + 8 * l;
  }

  lemma ShiftedHigh(length: nat)
    ensures length / 0x2000_0000 == 8 * length / TWO_TO_THE_32
    ensures 8 * length % TWO_TO_THE_32 == 8 * (length % 0x2000_0000)
  {
    DivModUnique(8 * length, length / 0x2000_0000, 8 * (length % 0x2000_0000));
  }

  /** Whole multiples do not matter. */
  lemma ModMore(k: nat, n: nat)
    ensures (k * TWO_TO_THE_32 + n) % TWO_TO_THE_32 == n % TWO_TO_THE_32
  {
    DivModUnique(k * TWO_TO_THE_32 + n, k + n / TWO_TO_THE_32, n % TWO_TO_THE_32);
  }

  /** The carry from the low to the high counter. */
  lemma CountersAdd(n: nat, length: nat)
    ensures var low := (LowBits(n) + length % TWO_TO_THE_32 * 8 % TWO_TO_THE_32) % TWO_TO_THE_32;
            var high := if low < LowBits(n) then (HighBits(n) + 1) % TWO_TO_THE_32 else HighBits(n);
            && low == LowBits(n + length)
            && (high + length / 0x2000_0000 % TWO_TO_THE_32) % TWO_TO_THE_32 == HighBits(n + length)
  {
    ShiftedLength(length);
    var a, b := 8 * n, 8 * length;
    var low := (a % TWO_TO_THE_32 + b % TWO_TO_THE_32) % TWO_TO_THE_32;
    var carry := if a % TWO_TO_THE_32 + b % TWO_TO_THE_32 >= TWO_TO_THE_32 then 1 else 0;
    assert low == a % TWO_TO_THE_32 + b % TWO_TO_THE_32 - carry * TWO_TO_THE_32;
    DivModUnique(a + b, a / TWO_TO_THE_32 + b / TWO_TO_THE_32 + carry, low);
    assert low < a % TWO_TO_THE_32 <==> carry == 1;
    ModSum(a / TWO_TO_THE_32, carry);
    ModSum(a / TWO_TO_THE_32 + carry, b / TWO_TO_THE_32);
  }

  /** How the source finds the offset in the block from the low counter. */
  lemma OffsetFromCounter(n: nat)
    ensures LowBits(n) / 8 % 64 == n % 64
  {
    ShiftedHigh(n);
    Mod64(n / 0x2000_0000, n % 0x2000_0000);
  }

  lemma Mod64(q: nat, r: nat)
    ensures (0x2000_0000 * q + r) % 64 == r % 64
  {
    QuotientUnique(0x2000_0000 * q + r, 64, 0x80_0000 * q + r / 64, r % 64);
  }

  lemma SplitByte(low: nat, high: nat, k: nat)
    requires k > 0
    ensures var n := low + Pow256(k) * high; n % 256 == low % 256 && n / 256 == low / 256 + Pow256(k - 1) * high
  {
    var t := Pow256(k - 1) * high;
    assert Pow256(k) * high == 256 * t;
    QuotientUnique(low + 256 * t, 256, low / 256 + t, low % 256);
  }

  /** The bytes of a number put together from a low part of k bytes and a high part. */
  lemma {:induction false} SplitBytes(low: nat, high: nat, k: nat, j: nat)
    requires low < Pow256(k)
    ensures LowBytes(low + Pow256(k) * high, k + j) == LowBytes(low, k) + LowBytes(high, j)
  {
    if k == 0 {
      ConcatEmpty(LowBytes(high, j));
    } else {
      SplitByte(low, high, k);
      SplitBytes(low / 256, high, k - 1, j);
      ConcatAssoc([(low % 256) as Byte], LowBytes(low / 256, k - 1), LowBytes(high, j));
    }
  }

  /** The eight length bytes are those of the low counter, then those of the high one. */
  lemma LengthBytes(n: nat)
    ensures LowBytes(8 * n % TWO_TO_THE_64, 8) == LowBytes(LowBits(n), 4) + LowBytes(HighBits(n), 4)
  {
    hide LowBytes;
    var q, r := 8 * n / TWO_TO_THE_64, 8 * n % TWO_TO_THE_64;
    var high, low := r / TWO_TO_THE_32, r % TWO_TO_THE_32;
    DivModUnique(8 * n, q * TWO_TO_THE_32 + high, low);
    DivModUnique(q * TWO_TO_THE_32 + high, q, high);
    assert Pow256(1) == 256 && Pow256(2) == 0x1_0000 && Pow256(3) == 0x100_0000 && Pow256(4) == TWO_TO_THE_32;
    SplitBytes(low, high, 4, 4);
  }

  /** Section 3.2: byte i of the length is its digit i to the base 256. */
  lemma {:induction false} LowBytesAt(n: nat, count: nat, i: nat)
    requires i < count
    ensures LowBytes(n, count)[i] == (n / Pow256(i) % 256) as Byte
  {
    if i > 0 {
      LowBytesAt(n / 256, count - 1, i - 1);
      DivDiv(n, Pow256(i - 1));
    }
  }

  // ---------------------------------------------------------------- the context

  /** The chaining value after the full blocks of m. */
  function Chained(m: seq<Byte>): (r: Regs)
  {
    Fold(Compress, INIT, m)
  }

  class Context {
    const buf: array<Word>
    const bits: array<Counter>
    const inbuf: array<Byte>
    ghost var consumed: seq<Byte>  // every byte passed to Update since Init

    ghost predicate Shaped()
    {
      buf.Length == 4 && bits.Length == 2 && inbuf.Length == 64
    }

    /** What the fields say about the message so far; the rest of inbuf has no meaning. */
    ghost predicate Valid()
      reads this, buf, bits, inbuf
    {
      && Shaped()
      && Registers(buf[..]) == Chained(consumed)
      && bits[0] == LowBits(|consumed|) && bits[1] == HighBits(|consumed|)
      && inbuf[..|consumed| % 64] == Tail(consumed)
    }

    ghost function Footprint(): set<object> { {this, buf, bits, inbuf} }

    constructor ()
      ensures Shaped() && fresh(Footprint())
    {
      buf := new Word[4];
      bits := new Counter[2];
      inbuf := new Byte[64];
    }

    method Init()
      requires Shaped()
      modifies Footprint()
      ensures Valid() && consumed == []
    {
      buf[0] := 0x67452301;
      buf[1] := 0xefcdab89;
      buf[2] := 0x98badcfe;
      buf[3] := 0x10325476;
      bits[0] := 0;
      bits[1] := 0;
      consumed := [];
    }

    /** A full block in inbuf goes into the chaining value. */
    method Absorb(ghost m: seq<Byte>)
      requires Shaped() && |m| % 64 == 0 && Registers(buf[..]) == Chained(m)
      modifies buf, inbuf
      ensures inbuf[..] == old(inbuf[..])
      ensures Registers(buf[..]) == Chained(m + inbuf[..])
    {
      ByteReverse(inbuf, 16);
      MD5Transform(buf, Decode(inbuf[..]));
      FoldBlock(Compress, INIT, m, inbuf[..]);
    }

    method AddLength(length: nat)
      requires Shaped() && length < TWO_TO_THE_64
      requires bits[0] == LowBits(|consumed|) && bits[1] == HighBits(|consumed|)
      modifies bits
      ensures bits[0] == LowBits(|consumed| + length) && bits[1] == HighBits(|consumed| + length)
    {
      CountersAdd(|consumed|, length);
      var t := bits[0];
      bits[0] := (t + length % TWO_TO_THE_32 * 8 % TWO_TO_THE_32) % TWO_TO_THE_32;
      if bits[0] < t {
        bits[1] := (bits[1] + 1) % TWO_TO_THE_32;
      }
      bits[1] := (bits[1] + length / 0x2000_0000 % TWO_TO_THE_32) % TWO_TO_THE_32;
    }

    /** Completes the block that earlier calls began. */
    method FillBlock(t: nat, head: seq<Byte>)
      requires Shaped() && Registers(buf[..]) == Chained(consumed)
      requires t == |consumed| % 64 && t + |head| == 64 && inbuf[..t] == Tail(consumed)
      modifies buf, inbuf
      ensures Registers(buf[..]) == Chained(consumed + head)
    {
      hide Fold, Compress, Registers;
      CopyInto(inbuf, t, head);
      assert inbuf[..] == Tail(consumed) + head;
      FoldFilled(Compress, INIT, consumed, head);
      Absorb(consumed[..|consumed| - |consumed| % 64]);
    }

    /** The loop over the 64-byte chunks of data from start on. */
    method FullBlocks(data: seq<Byte>, start: nat) returns (at: nat)
      requires Shaped() && start <= |data| && (|consumed| + start) % 64 == 0
      requires Registers(buf[..]) == Chained(consumed + data[..start])
      modifies buf, inbuf
      ensures at <= |data| < at + 64 && (|consumed| + at) % 64 == 0
      ensures Registers(buf[..]) == Chained(consumed + data[..at])
    {
      hide Fold, Compress, Chained, Registers;
      at := start;
      while |data| - at >= 64
        invariant at <= |data| && (|consumed| + at) % 64 == 0
        invariant Registers(buf[..]) == Chained(consumed + data[..at])
      {
        CopyInto(inbuf, 0, data[at..at + 64]);
        assert inbuf[..] == data[at..at + 64];
        Absorb(consumed + data[..at]);
        PrefixExtends(consumed, data, at, at + 64);
        at := at + 64;
      }
    }

    /** Data that does not fill the block joins the tail. */
    method Store(t: nat, data: seq<Byte>)
      requires Shaped() && Registers(buf[..]) == Chained(consumed)
      requires t == |consumed| % 64 && t + |data| < 64 && inbuf[..t] == Tail(consumed)
      modifies inbuf, this`consumed
      ensures consumed == old(consumed) + data
      ensures Registers(buf[..]) == Chained(consumed) && inbuf[..|consumed| % 64] == Tail(consumed)
    {
      hide Fold, Compress, Registers;
      FoldShort(Compress, INIT, consumed, data);
      CopyInto(inbuf, t, data);
      consumed := consumed + data;
    }

    /** What is behind the last full block becomes the tail. */
    method Keep(data: seq<Byte>, at: nat)
      requires Shaped() && at <= |data| < at + 64 && (|consumed| + at) % 64 == 0
      requires Registers(buf[..]) == Chained(consumed + data[..at])
      modifies inbuf, this`consumed
      ensures consumed == old(consumed) + data
      ensures Registers(buf[..]) == Chained(consumed) && inbuf[..|consumed| % 64] == Tail(consumed)
    {
      hide Fold, Compress, Registers;
      RestIsTail(consumed, data, at);
      CopyInto(inbuf, 0, data[at..]);
      consumed := consumed + data;
    }

    method Update(data: seq<Byte>)
      requires Valid() && |data| < TWO_TO_THE_64
      modifies Footprint()
      ensures Valid() && consumed == old(consumed) + data
    {
      hide Fold, Compress, Registers, LowBits, HighBits, Chained, Tail;
      var t := bits[0];
      AddLength(|data|);
      OffsetFromCounter(|consumed|);
      t := t / 8 % 64;
      var at := 0;
      if t != 0 {
        if |data| < 64 - t {
          Store(t, data);
          return;
        }
        at := 64 - t;
        FillBlock(t, data[..at]);
      } else {
        ConcatEmpty(consumed);
      }
      at := FullBlocks(data, at);
      Keep(data, at);
    }

    /** memset of inbuf[from..to] to zero. */
    method ZeroBuffer(start: nat, count: nat)
      requires Shaped() && start + count <= 64
      modifies inbuf
      ensures inbuf[..] == old(inbuf[..start]) + Zeros(count) + old(inbuf[start + count..])
    {
      CopyInto(inbuf, start, Zeros(count));
    }

    /** The last block: its first 56 bytes are there, the length is still to come. */
    method LastBlock(ghost m: seq<Byte>, ghost head: seq<Byte>, ghost n: nat)
      requires Shaped() && |m| % 64 == 0 && Registers(buf[..]) == Chained(m)
      requires inbuf[..56] == head && bits[0] == LowBits(n) && bits[1] == HighBits(n)
      modifies buf, inbuf
      ensures Registers(buf[..]) == Chained(m + (head + LowBytes(8 * n % TWO_TO_THE_64, 8)))
    {
      hide Fold, Compress, Chained, Registers, LowBits, HighBits, LowBytes;
      ByteReverse(inbuf, 14);
      CopyInto(inbuf, 56, LowBytes(bits[0], 4));
      CopyInto(inbuf, 60, LowBytes(bits[1], 4));
      LengthBytes(n);
      assert inbuf[..] == head + LowBytes(8 * n % TWO_TO_THE_64, 8);
      MD5Transform(buf, Decode(inbuf[..]));
      ChainBlock(m, inbuf[..]);
    }

    /** The padding, in one block or two, and the length. */
    method Pad()
      requires Valid()
      modifies buf, inbuf
      ensures Registers(buf[..]) == Chained(Padded(consumed, LowBytes(8 * |consumed| % TWO_TO_THE_64, 8)))
    {
      hide Fold, Compress, Registers, LowBits, HighBits, LowBytes, Padded;
      ghost var m := consumed;
      ghost var full := m[..|m| - |m| % 64];
      FoldFilled(Compress, INIT, m, Zeros(64 - |m| % 64));
      OffsetFromCounter(|m|);
      var count := bits[0] / 8 % 64;
      inbuf[count] := 0x80;
      var p := count + 1;
      count := 64 - 1 - count;
      assert inbuf[..p] == Tail(m) + [0x80];
      if count < 8 {
        ZeroBuffer(p, count);
        assert inbuf[..] == Tail(m) + [0x80] + Zeros(count);
        Absorb(full);
        ZeroBuffer(0, 56);
        assert inbuf[..56] == Zeros(56);
        LastBlock(full + (Tail(m) + [0x80] + Zeros(count)), Zeros(56), |m|);
        PaddedInTwo(m, count);
      } else {
        ZeroBuffer(p, count - 8);
        assert inbuf[..56] == Tail(m) + [0x80] + Zeros(count - 8);
        LastBlock(full, Tail(m) + [0x80] + Zeros(count - 8), |m|);
        PaddedInOne(m, count);
      }
    }

    method Final(digest: array<Byte>)
      requires Valid() && digest.Length == 16 && digest !in Footprint()
      modifies Footprint(), digest
      ensures digest[..] == Digest(old(consumed))
      ensures buf[..] == [0, 0, 0, 0] && bits[..] == [0, 0] && inbuf[..] == Zeros(64)
    {
      hide Fold, Compress, LowBits, HighBits, LowBytes, Padded, LeBytes;
      Pad();
      var view := new Byte[16];
      CopyInto(view, 0, LeBytes(buf[0]) + LeBytes(buf[1]) + LeBytes(buf[2]) + LeBytes(buf[3]));
      ByteReverse(view, 4);
      CopyInto(digest, 0, view[..]);
      Wipe();
    }

    /** memset over the whole context. */
    method Wipe()
      requires Shaped()
      modifies buf, bits, inbuf
      ensures buf[..] == [0, 0, 0, 0] && bits[..] == [0, 0] && inbuf[..] == Zeros(64)
    {
      buf[0], buf[1], buf[2], buf[3] := 0, 0, 0, 0;
      bits[0], bits[1] := 0, 0;
      ZeroBuffer(0, 64);
    }

    /** The copy that MD5IntermediateFinal finishes in place of the context. */
    method Copy() returns (c: Context)
      requires Valid()
      ensures c.Valid() && c.consumed == consumed && fresh(c.Footprint())
    {
      hide Chained, LowBits, HighBits;
      c := new Context();
      forall i | 0 <= i < 4 { c.buf[i] := buf[i]; }
      forall i | 0 <= i < 2 { c.bits[i] := bits[i]; }
      forall i | 0 <= i < 64 { c.inbuf[i] := inbuf[i]; }
      c.consumed := consumed;
      assert c.buf[..] == buf[..] && c.inbuf[..|consumed| % 64] == inbuf[..|consumed| % 64];
    }

    /** The digest so far; the context is not modified, so later updates go on from it. */
    method IntermediateFinal(digest: array<Byte>)
      requires Valid() && digest.Length == 16 && digest !in Footprint()
      modifies digest
      ensures Valid() && digest[..] == Digest(consumed)
    {
      var c := Copy();
      c.Final(digest);
    }
  }

  lemma ChainBlock(m: seq<Byte>, b: Block)
    requires |m| % 64 == 0
    ensures Chained(m + b) == Plus(Chained(m), Steps(64, Chained(m), Decode(b)))
  {
    FoldBlock(Compress, INIT, m, b);
  }

  lemma PadCount(n: nat, count: nat)
    requires count == 63 - n % 64
    ensures PadZeros(n) == if count >= 8 then count - 8 else count + 56
  {
  }

  lemma BeforeTail(m: seq<Byte>)
    ensures m == m[..|m| - |m| % 64] + Tail(m)
  {
  }

  /** The padding and the length fit into the block of the tail. */
  lemma PaddedInOne(m: seq<Byte>, count: nat)
    requires count == 63 - |m| % 64 && count >= 8
    ensures var length := LowBytes(8 * |m| % TWO_TO_THE_64, 8);
            m[..|m| - |m| % 64] + (Tail(m) + [0x80] + Zeros(count - 8) + length) == Padded(m, length)
  {
    hide LowBytes, Zeros, Tail, PadZeros;
    PadCount(|m|, count);
    BeforeTail(m);
    ConcatFour(m[..|m| - |m| % 64], Tail(m), [0x80], Zeros(count - 8), LowBytes(8 * |m| % TWO_TO_THE_64, 8));
  }

  /** The length goes into a block of its own, after 56 more zeros. */
  lemma PaddedInTwo(m: seq<Byte>, count: nat)
    requires count == 63 - |m| % 64 && count < 8
    ensures var length := LowBytes(8 * |m| % TWO_TO_THE_64, 8);
            m[..|m| - |m| % 64] + (Tail(m) + [0x80] + Zeros(count)) + (Zeros(56) + length) == Padded(m, length)
  {
    hide LowBytes, Zeros, Tail, PadZeros;
    PadCount(|m|, count);
    BeforeTail(m);
    ZerosJoin(count, 56);
    Joins(m[..|m| - |m| % 64], Tail(m), m, Zeros(count), Zeros(56), Zeros(count + 56),
          LowBytes(8 * |m| % TWO_TO_THE_64, 8));
  }

  lemma Joins(full: seq<Byte>, tail: seq<Byte>, m: seq<Byte>, z1: seq<Byte>, z2: seq<Byte>, z: seq<Byte>, length: seq<Byte>)
    requires m == full + tail && z1 + z2 == z
    ensures full + (tail + [0x80] + z1) + (z2 + length) == m + [0x80] + z + length
  {
    ConcatTwice(full, tail, [0x80], z1, z2, length);
  }

  // ---------------------------------------------------------------- whole messages

  method MD5Sum(data: seq<Byte>) returns (d: seq<Byte>)
    requires |data| < TWO_TO_THE_64
    ensures d == Digest(data)
  {
    hide Digest;
    assert [data][1..] == [];
    assert Joined([data]) == data + Joined<Byte>([]);
    ConcatEmpty(data);
    d := HashChunks([data]);
  }

  /**
   However a message is cut into chunks, empty ones included, Init, an Update for each and Final
   give the digest that RFC 1321 defines for the whole message.
   */
  method HashChunks(chunks: seq<seq<Byte>>) returns (d: seq<Byte>)
    requires forall c :: c in chunks ==> |c| < TWO_TO_THE_64
    ensures d == Digest(Joined(chunks))
  {
    hide Digest, Chained, LowBits, HighBits, Registers;
    var ctx := new Context();
    ctx.Init();
    for i := 0 to |chunks|
      invariant ctx.Valid() && ctx.consumed == Joined(chunks[..i])
    {
      JoinedLast(chunks[..i], chunks[i]);
      assert chunks[..i + 1] == chunks[..i] + [chunks[i]];
      ctx.Update(chunks[i]);
    }
    assert chunks[..|chunks|] == chunks;
    var digest := new Byte[16];
    ctx.Final(digest);
    d := digest[..];
  }

  /** What is left after the last full block is the tail of the message. */
  lemma RestIsTail(m: seq<Byte>, data: seq<Byte>, at: nat)
    requires at <= |data| < at + 64 && (|m| + at) % 64 == 0
    ensures Chained(m + data) == Chained(m + data[..at])
    ensures Tail(m + data) == data[at..]
  {
    hide Fold, Compress;
    assert |m + data| - |m + data| % 64 == |m| + at;
    assert (m + data)[..|m| + at] == m + data[..at];
    FoldWithoutTail(Compress, INIT, m + data);
  }
}
