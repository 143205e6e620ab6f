/**
 What the bytes of a pickle are, stated without the functions that write and read them: the digits
 of a number, lowest first; two's complement; 16-bit units; and whole fields as they lie in memory.
 */
module PickleImages {
  import opened Arithmetic
  import opened Optional
  import opened Pickles
  import opened Sequences

  // ---------------------------------------------------------------- numbers

  /** Byte i of a number is its digit i to the base 256. */
  lemma {:induction false} ToBytesAt(k: nat, v: nat, i: nat)
    requires i < k
    ensures ToBytes(k, v)[i] == v / Pow256(i) % 256
    decreases k
  {
    if i > 0 {
      ToBytesAt(k - 1, v / 256, i - 1);
      DivDiv(v, Pow256(i - 1));
    }
  }

  /** And the number that bytes stand for has them as its digits. */
  lemma {:induction false} FromBytesAt(b: seq<Byte>, i: nat)
    requires i < |b|
    ensures FromBytes(b) / Pow256(i) % 256 == b[i] && FromBytes(b) < Pow256(|b|)
    decreases |b|
  {
    var rest := FromBytes(b[1..]);
    QuotientUnique(FromBytes(b), 256, rest, b[0]);
    if i > 0 {
      FromBytesAt(b[1..], i - 1);
      DivDiv(FromBytes(b), Pow256(i - 1));
    }
  }

  /** Two's complement: a number of the width, congruent to what is written, and what is read is in range. */
  lemma WrappedIsCongruent(k: nat, n: int)
    requires k > 0 && (InRange(k, true, n) || InRange(k, false, n))
    ensures Wrapped(k, n) == n % Pow256(k)
  {
    RemainderIs(n, Pow256(k), if n < 0 then -1 else 0, Wrapped(k, n));
  }

  lemma RemainderIs(n: int, m: nat, q: int, r: nat)
    requires n == q * m + r && r < m
    ensures n % m == r
  {
    var d := n / m;
    assert n == d * m + n % m;
    if d < q {
      assert q * m == d * m + m + (q - d - 1) * m;
      NonNegative(q - d - 1, m);
    } else if q < d {
      assert d * m == q * m + m + (d - q - 1) * m;
      NonNegative(d - q - 1, m);
    }
  }

  lemma UnwrappedIsCongruent(k: nat, signed: bool, v: nat)
    requires k > 0 && v < Pow256(k)
    ensures InRange(k, signed, Unwrapped(k, signed, v)) && Unwrapped(k, signed, v) % Pow256(k) == v
  {
    var n := Unwrapped(k, signed, v);
    RemainderIs(n, Pow256(k), if n < 0 then -1 else 0, v);
  }

  /** The limits of the types that are written, and of what ReadString16 can double. */
  lemma Limits(n: int)
    ensures InRange(2, true, n) <==> -0x8000 <= n <= 0x7FFF
    ensures InRange(2, false, n) <==> 0 <= n <= 0xFFFF
    ensures InRange(4, true, n) <==> -0x8000_0000 <= n <= 0x7FFF_FFFF
    ensures InRange(4, false, n) <==> 0 <= n <= 0xFFFF_FFFF
    ensures InRange(8, true, n) <==> -0x8000_0000_0000_0000 <= n <= 0x7FFF_FFFF_FFFF_FFFF
    ensures InRange(8, false, n) <==> 0 <= n <= 0xFFFF_FFFF_FFFF_FFFF
    ensures FitsInt(n) <==> InRange(4, true, n)
    ensures INT_MAX == 0x7FFF_FFFF && UINT32_MAX == 0xFFFF_FFFF && PAYLOAD_UNIT == 64
    ensures READ_ONLY == 0xFFFF_FFFF_FFFF_FFFF
  {
    PowersOf256();
  }

  /** The size in a header is the number that its first four bytes stand for, lowest byte first. */
  lemma SizeFieldIs(s: seq<Byte>)
    requires |s| >= 4
    ensures HEADER == 4
    ensures SizeField(s) == (s[0] as int) + 0x100 * (s[1] as int) + 0x1_0000 * (s[2] as int) + 0x100_0000 * (s[3] as int)
  {
    var b := s[..4];
    assert b[1..][1..] == b[2..] && b[2..][1..] == b[3..] && b[3..][1..] == b[4..];
    assert FromBytes(b[4..]) == 0 && SizeField(s) == FromBytes(b);
    assert FromBytes(b[3..]) == b[3] && FromBytes(b[2..]) == (b[2] as int) + 256 * FromBytes(b[3..]);
    assert FromBytes(b[1..]) == (b[1] as int) + 256 * FromBytes(b[2..]);
  }

  // ---------------------------------------------------------------- 16-bit units

  /** Unit i lies at byte 2 * i, low byte first. */
  lemma {:induction false} UnitBytesAt(units: seq<Unit>, i: nat)
    requires i < |units|
    ensures UnitBytes(units)[2 * i] == units[i] % 256 && UnitBytes(units)[2 * i + 1] == units[i] / 256
    decreases |units|
  {
    if i > 0 {
      UnitBytesAt(units[1..], i - 1);
    } else {
      assert ToBytes(2, units[0]) == [units[0] % 256] + ToBytes(1, units[0] / 256);
    }
  }

  /** Bytes are read as units in the same way. */
  lemma {:induction false} BytesUnitsAt(b: seq<Byte>, i: nat)
    requires 2 * i + 1 < |b|
    ensures BytesUnits(b)[i] == (b[2 * i] as int) + 256 * (b[2 * i + 1] as int)
    decreases |b|
  {
    if i > 0 {
      BytesUnitsAt(b[2..], i - 1);
    }
  }

  // ---------------------------------------------------------------- fields

  /** b has the digits of v to the base 256, lowest first. */
  ghost predicate IsNumber(b: seq<Byte>, v: nat)
  {
    forall i :: 0 <= i < |b| ==> b[i] == v / Pow256(i) % 256
  }

  lemma NumberIs(k: nat, v: nat)
    ensures IsNumber(ToBytes(k, v), v)
  {
    forall i | 0 <= i < k
      ensures ToBytes(k, v)[i] == v / Pow256(i) % 256
    {
      ToBytesAt(k, v, i);
    }
  }

  /** What the writers can be given: a number of the type, and a length that an int can hold. */
  lemma WritableIs(f: Field)
    ensures Writable(f)
       <==> match f.format
            case Boolean => f.value.Truth?
            case Integer(width, signed) => width in {2, 4, 8} && f.value.Number? && InRange(width, signed, f.value.number)
            case Length => f.value.Number? && InRange(4, true, f.value.number) && f.value.number >= 0
            case Sized => f.value.Bytes? && InRange(4, true, |f.value.bytes|)
            case Sized16 => f.value.Units? && InRange(4, true, 2 * |f.value.units|)
            case Fixed(count) => f.value.Bytes? && |f.value.bytes| == count && InRange(4, true, count)
  {
    PowersOf256();
  }

  /** How many bytes of a field mean something. */
  function Used(f: Field): (n: nat)
    requires Writable(f)
  {
    match f.format
    case Boolean => 4
    case Integer(width, _) => width
    case Length => 4
    case Sized => 4 + |f.value.bytes|
    case Sized16 => 4 + 2 * |f.value.units|
    case Fixed(count) => count
  }

  /**
   What a field looks like in the payload: a bool is an int of 0 or 1, a number its two's complement
   of the width, a string its length as an int and then what it consists of; zeros up to a multiple of 4.
   */
  lemma FieldImage(f: Field)
    requires Writable(f)
    ensures var b := Encoded(f);
            && Used(f) <= |b| < Used(f) + 4 && |b| % 4 == 0 && (forall i :: Used(f) <= i < |b| ==> b[i] == 0)
            && match f.format
               case Boolean => IsNumber(b[..4], if f.value.truth then 1 else 0)
               case Integer(width, _) => IsNumber(b[..width], f.value.number % Pow256(width))
               case Length => IsNumber(b[..4], f.value.number)
               case Sized => IsNumber(b[..4], |f.value.bytes|) && b[4..4 + |f.value.bytes|] == f.value.bytes
               case Sized16 => IsNumber(b[..4], |f.value.units|) && b[4..4 + 2 * |f.value.units|] == UnitBytes(f.value.units)
               case Fixed(count) => b[..count] == f.value.bytes
  {
    hide ToBytes, UnitBytes, IsNumber, Padded, InRange, Wrapped;
    match f.format {
      case Boolean =>
        NumberIs(4, if f.value.truth then 1 else 0);
        Alone(ToBytes(4, if f.value.truth then 1 else 0));
      case Integer(width, _) =>
        NumberIs(width, Wrapped(width, f.value.number));
        WrappedIsCongruent(width, f.value.number);
        Alone(ToBytes(width, Wrapped(width, f.value.number)));
      case Length =>
        NumberIs(4, f.value.number);
        Alone(ToBytes(4, f.value.number));
      case Sized =>
        NumberIs(4, |f.value.bytes|);
        BehindLength(ToBytes(4, |f.value.bytes|), f.value.bytes);
      case Sized16 =>
        NumberIs(4, |f.value.units|);
        BehindLength(ToBytes(4, |f.value.units|), UnitBytes(f.value.units));
      case Fixed(count) =>
        Alone(f.value.bytes);
    }
  }

  lemma Alone(x: seq<Byte>)
    ensures var b := Padded(x);
            && |x| <= |b| < |x| + 4 && |b| % 4 == 0 && b[..|x|] == x
            && forall i :: |x| <= i < |b| ==> b[i] == 0
  {
  }

  lemma BehindLength(length: seq<Byte>, bytes: seq<Byte>)
    requires |length| == 4
    ensures var b, n := Padded(length) + Padded(bytes), 4 + |bytes|;
            && b[..4] == length && n <= |b| < n + 4 && |b| % 4 == 0 && b[4..n] == bytes
            && forall i :: n <= i < |b| ==> b[i] == 0
  {
    hide Padded;
    Alone(length);
    Alone(bytes);
    assert Padded(length) == length;
  }

  // ---------------------------------------------------------------- reading any bytes

  /** What is unread behind n bytes: up to three bytes that fill them up are skipped as well. */
  function Behind(unread: seq<Byte>, n: nat): (rest: seq<Byte>)
    requires n <= |unread|
  {
    unread[if (n + 3) / 4 * 4 <= |unread| then (n + 3) / 4 * 4 else |unread|..]
  }

  lemma ChunkIs(unread: seq<Byte>, n: int)
    ensures Chunk(unread, n) == if 0 <= n <= |unread| then (Some(unread[..n]), Behind(unread, n)) else (None, [])
  {
    if 0 <= n <= |unread| {
      assert Align(n, 4) == (n + 3) / 4 * 4;
    }
  }

  /** The number that bytes stand for in two's complement, or without a sign. */
  ghost predicate StandsFor(b: seq<Byte>, signed: bool, n: int)
  {
    InRange(|b|, signed, n) && IsNumber(b, n % Pow256(|b|))
  }

  lemma NumberRead(unread: seq<Byte>, width: nat, signed: bool)
    requires width > 0
    ensures var (n, rest) := ReadNumber(unread, width, signed);
            if |unread| < width then n == None && rest == []
            else n.Some? && StandsFor(unread[..width], signed, n.value) && rest == Behind(unread, width)
  {
    ChunkIs(unread, width);
    if |unread| >= width {
      var b := unread[..width];
      forall i | 0 <= i < width
        ensures b[i] == FromBytes(b) / Pow256(i) % 256
      {
        FromBytesAt(b, i);
      }
      FromBytesAt(b, 0);
      UnwrappedIsCongruent(width, signed, FromBytes(b));
    }
  }

  /**
   What is read from any bytes, and what is unread then: a bool from one byte, true unless it is zero;
   a number from its width; a string behind its length, which is an int.
   */
  lemma ReadImage(unread: seq<Byte>, format: Format)
    requires format.Integer? ==> format.width > 0
    ensures var (value, rest) := Read(unread, format);
            match format
            case Boolean =>
              (value, rest) == if unread == [] then (None, []) else (Some(Truth(unread[0] != 0)), Behind(unread, 1))
            case Integer(width, signed) =>
              if |unread| < width then value == None && rest == []
              else value.Some? && value.value.Number? && StandsFor(unread[..width], signed, value.value.number)
                   && rest == Behind(unread, width)
            case Fixed(count) =>
              (value, rest) == if 0 <= count <= |unread| then (Some(Bytes(unread[..count])), Behind(unread, count))
                               else (None, [])
            case _ =>
              if |unread| < 4 then value == None && rest == []
              else exists n :: StandsFor(unread[..4], true, n) && ReadBehind(unread[4..], format, n, value, rest)
  {
    hide ReadNumber, Chunk, IsNumber, Pow256, BytesUnits, InRange;
    match format {
      case Boolean => ChunkIs(unread, 1);
      case Integer(width, signed) => NumberRead(unread, width, signed);
      case Fixed(count) => ChunkIs(unread, count);
      case _ =>
        NumberRead(unread, 4, true);
        if |unread| >= 4 {
          var n := ReadNumber(unread, 4, true).0.value;
          assert Behind(unread, 4) == unread[4..];
          ChunkIs(unread[4..], n);
          ChunkIs(unread[4..], 2 * n);
          var (value, rest) := Read(unread, format);
          assert StandsFor(unread[..4], true, n) && ReadBehind(unread[4..], format, n, value, rest);
        }
    }
  }

  /** The value behind a length of n, which is a number of 16-bit units for a String16. */
  ghost predicate ReadBehind(unread: seq<Byte>, format: Format, n: int, value: Option<Value>, rest: seq<Byte>)
  {
    match format
    case Length => rest == unread && value == if n < 0 then None else Some(Number(n))
    case Sized =>
      (value, rest) == if 0 <= n <= |unread| then (Some(Bytes(unread[..n])), Behind(unread, n)) else (None, [])
    case Sized16 =>
      (value, rest) == if !(-0x8000_0000 <= 2 * n <= 0x7FFF_FFFF) then (None, unread)
                       else if 0 <= 2 * n <= |unread| then (Some(Units(BytesUnits(unread[..2 * n]))), Behind(unread, 2 * n))
                       else (None, [])
    case _ => false
  }
}
