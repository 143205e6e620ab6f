/** Equalities of 32-bit words, kept apart from everything else so that they stay quick to verify. */
module BitIdentities {
  type Word = bv32

  /** The selection written with one operation less is the one of RFC 1321 and FIPS 180-3. */
  lemma SelectByXor(x: Word, y: Word, z: Word)
    ensures z ^ (x & (y ^ z)) == (x & y) | (!x & z)
  {
  }

  lemma SelectOrIsXor(x: Word, y: Word, z: Word)
    ensures (x & y) | (!x & z) == (x & y) ^ (!x & z)
  {
  }

  lemma MajorityOrIsXor(x: Word, y: Word, z: Word)
    ensures (x & y) | (x & z) | (y & z) == (x & y) ^ (x & z) ^ (y & z)
  {
  }

  // ---------------------------------------------------------------- the bytes of a word

  type Byte = bv8

  function Byte0(w: Word): Byte { (w & 0xff) as Byte }
  function Byte1(w: Word): Byte { ((w >> 8) & 0xff) as Byte }
  function Byte2(w: Word): Byte { ((w >> 16) & 0xff) as Byte }
  function Byte3(w: Word): Byte { ((w >> 24) & 0xff) as Byte }

  function With0(w: Word, b: Byte): Word { (w & 0xffffff00) | (b as Word) }
  function With1(w: Word, b: Byte): Word { (w & 0xffff00ff) | ((b as Word) << 8) }
  function With2(w: Word, b: Byte): Word { (w & 0xff00ffff) | ((b as Word) << 16) }
  function With3(w: Word, b: Byte): Word { (w & 0x00ffffff) | ((b as Word) << 24) }

  lemma BytesWith0(w: Word, b: Byte)
    ensures Byte0(With0(w, b)) == b && Byte1(With0(w, b)) == Byte1(w)
    ensures Byte2(With0(w, b)) == Byte2(w) && Byte3(With0(w, b)) == Byte3(w)
  {
  }

  lemma BytesWith1(w: Word, b: Byte)
    ensures Byte0(With1(w, b)) == Byte0(w) && Byte1(With1(w, b)) == b
    ensures Byte2(With1(w, b)) == Byte2(w) && Byte3(With1(w, b)) == Byte3(w)
  {
  }

  lemma BytesWith2(w: Word, b: Byte)
    ensures Byte0(With2(w, b)) == Byte0(w) && Byte1(With2(w, b)) == Byte1(w)
    ensures Byte2(With2(w, b)) == b && Byte3(With2(w, b)) == Byte3(w)
  {
  }

  lemma BytesWith3(w: Word, b: Byte)
    ensures Byte0(With3(w, b)) == Byte0(w) && Byte1(With3(w, b)) == Byte1(w)
    ensures Byte2(With3(w, b)) == Byte2(w) && Byte3(With3(w, b)) == b
  {
  }
}
