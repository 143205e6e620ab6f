/**
 pickle.cc and pickle.h: values written one after another into a growing, 4-byte-aligned buffer
 behind a header, read back in order by a bounded iterator, and framed by the size in the header.
 Bytes are little-endian.
 */
module Pickles {
  import opened Arithmetic
  import opened Optional
  import opened Sequences

  type Byte = n: int | 0 <= n < 256
  type Unit = n: int | 0 <= n < 0x1_0000

  const PAYLOAD_UNIT := 64
  const HEADER := 4
  const INT_MAX := 0x7FFF_FFFF
  const UINT32_MAX := 0xFFFF_FFFF
  const READ_ONLY := 0xFFFF_FFFF_FFFF_FFFF

  /** AlignInt */
  function Align(i: nat, alignment: nat): (r: nat)
    requires alignment == 4 || alignment == 64
    ensures i <= r < i + alignment
    ensures alignment == 4 ==> r % 4 == 0
    ensures alignment == 64 ==> r % 64 == 0
  {
    if alignment == 4 then i + Missing4(i) else i + Missing64(i)
  }

  /** (alignment - (i % alignment)) % alignment, for either alignment. */
  function Missing4(i: nat): (m: nat)
    ensures m < 4 && (i + m) % 4 == 0
  {
    (4 - i % 4) % 4
  }

  function Missing64(i: nat): (m: nat)
    ensures m < 64 && (i + m) % 64 == 0
  {
    (64 - i % 64) % 64
  }

  // ---------------------------------------------------------------- little-endian numbers

  function ToBytes(k: nat, v: nat): (b: seq<Byte>)
    ensures |b| == k
  {
    if k == 0 then [] else [v % 256] + ToBytes(k - 1, v / 256)
  }

  function FromBytes(b: seq<Byte>): (v: nat)
    ensures v < Pow256(|b|)
  {
    if b == [] then 0 else b[0] + 256 * FromBytes(b[1..])
  }

  lemma {:induction false} BytesRoundTrip(k: nat, v: nat)
    requires v < Pow256(k)
    ensures FromBytes(ToBytes(k, v)) == v
    decreases k
  {
    if k > 0 {
      BytesRoundTrip(k - 1, v / 256);
      assert ToBytes(k, v)[1..] == ToBytes(k - 1, v / 256);
    }
  }

  predicate InRange(k: nat, signed: bool, n: int)
  {
    if signed then 0 <= 2 * n + Pow256(k) < 2 * Pow256(k) else 0 <= n < Pow256(k)
  }

  /** Two's complement in k bytes, and back. */
  function Wrapped(k: nat, n: int): (v: nat)
    requires InRange(k, true, n) || InRange(k, false, n)
    ensures v < Pow256(k)
  {
    if n < 0 then n + Pow256(k) else n
  }

  function Unwrapped(k: nat, signed: bool, v: nat): int
  {
    if signed && 2 * v >= Pow256(k) then v - Pow256(k) else v
  }

  // ---------------------------------------------------------------- what a field looks like

  /**
   The types that fields are written and read as; Length is an int that ReadLength reads, Sized a
   string or data, whose bytes follow its length.
   */
  datatype Format =
    | Boolean
    | Integer(width: nat, signed: bool)
    | Length
    | Sized
    | Sized16
    | Fixed(count: int)

  datatype Value = Truth(truth: bool) | Number(number: int) | Bytes(bytes: seq<Byte>) | Units(units: seq<Unit>)

  datatype Field = Field(format: Format, value: Value)

  /** What WriteBytesCommon stores: the bytes, and zeros up to the next multiple of four. */
  function Padded(b: seq<Byte>): (p: seq<Byte>)
    ensures |p| == Align(|b|, 4) && p[..|b|] == b
    ensures forall i :: |b| <= i < |p| ==> p[i] == 0
  {
    b + Repeated<Byte>(0, Align(|b|, 4) - |b|)
  }

  /** The memory image of an array of 16-bit units. */
  function UnitBytes(units: seq<Unit>): (b: seq<Byte>)
    ensures |b| == 2 * |units|
  {
    if units == [] then [] else ToBytes(2, units[0]) + UnitBytes(units[1..])
  }

  function BytesUnits(b: seq<Byte>): (units: seq<Unit>)
    ensures |units| == |b| / 2
  {
    if |b| < 2 then [] else [(b[0] as int) + 256 * (b[1] as int)] + BytesUnits(b[2..])
  }

  lemma {:induction false} UnitsRoundTrip(units: seq<Unit>)
    ensures BytesUnits(UnitBytes(units)) == units
    decreases |units|
  {
    if units != [] {
      var b := UnitBytes(units);
      UnitsRoundTrip(units[1..]);
      assert ToBytes(1, units[0] / 256) == [units[0] / 256] + ToBytes(0, 0);
      assert ToBytes(2, units[0]) == [units[0] % 256, units[0] / 256];
      assert b[2..] == UnitBytes(units[1..]);
    }
  }

  lemma PowersOf256()
    ensures Pow256(1) == 256 && Pow256(2) == 0x1_0000 && Pow256(4) == 0x1_0000_0000
    ensures Pow256(8) == 0x1_0000_0000_0000_0000
  {
    assert Pow256(0) == 1 && Pow256(1) == 256 && Pow256(2) == 256 * Pow256(1) && Pow256(3) == 256 * Pow256(2);
    assert Pow256(4) == 256 * Pow256(3) && Pow256(5) == 256 * Pow256(4) && Pow256(6) == 256 * Pow256(5);
    assert Pow256(7) == 256 * Pow256(6) && Pow256(8) == 256 * Pow256(7);
  }

  /** Fields that the writers are given: numbers of their type, lengths that fit an int. */
  predicate Writable(f: Field)
  {
    match f.format
    case Boolean => f.value.Truth?
    case Integer(width, signed) =>
      (width == 2 || width == 4 || width == 8) && f.value.Number? && InRange(width, signed, f.value.number)
    case Length => f.value.Number? && 0 <= f.value.number <= INT_MAX
    case Sized => f.value.Bytes? && |f.value.bytes| <= INT_MAX
    case Sized16 =>
      f.value.Units? && 2 * |f.value.units| <= INT_MAX
    case Fixed(count) => f.value.Bytes? && |f.value.bytes| == count <= INT_MAX
  }

  /** What a writer appends to the payload. */
  function Encoded(f: Field): (b: seq<Byte>)
    requires Writable(f)
  {
    match f.format
    case Boolean => Padded(ToBytes(4, if f.value.truth then 1 else 0))
    case Integer(width, signed) => Padded(ToBytes(width, Wrapped(width, f.value.number)))
    case Length => Padded(ToBytes(4, f.value.number))
    case Sized => Padded(ToBytes(4, |f.value.bytes|)) + Padded(f.value.bytes)
    case Sized16 => Padded(ToBytes(4, |f.value.units|)) + Padded(UnitBytes(f.value.units))
    case Fixed(_) => Padded(f.value.bytes)
  }

  predicate AllWritable(fields: seq<Field>) { forall f :: f in fields ==> Writable(f) }

  function Stream(fields: seq<Field>): (b: seq<Byte>)
    requires AllWritable(fields)
  {
    if fields == [] then [] else Encoded(fields[0]) + Stream(fields[1..])
  }

  // ---------------------------------------------------------------- what the reader finds

  /** GetReadPointerAndAdvance over the unread bytes: the bytes pointed to, and what stays unread. */
  function Chunk(unread: seq<Byte>, n: int): (r: (Option<seq<Byte>>, seq<Byte>))
    ensures r.0.Some? <==> 0 <= n <= |unread|
    ensures r.0.None? ==> r.1 == []
  {
    if n < 0 || |unread| < n then (None, [])
    else (Some(unread[..n]), unread[if |unread| < Align(n, 4) then |unread| else Align(n, 4)..])
  }

  function ReadNumber(unread: seq<Byte>, width: nat, signed: bool): (r: (Option<int>, seq<Byte>))
  {
    var (chunk, rest) := Chunk(unread, width);
    (if chunk.Some? then Some(Unwrapped(width, signed, FromBytes(chunk.value))) else None, rest)
  }

  predicate FitsInt(n: int) { -INT_MAX - 1 <= n <= INT_MAX }

  function Read(unread: seq<Byte>, format: Format): (r: (Option<Value>, seq<Byte>))
  {
    match format
    case Boolean =>
      var (chunk, rest) := Chunk(unread, 1);
      (if chunk.Some? then Some(Truth(chunk.value[0] != 0)) else None, rest)
    case Integer(width, signed) =>
      var (n, rest) := ReadNumber(unread, width, signed);
      (if n.Some? then Some(Number(n.value)) else None, rest)
    case Length =>
      var (n, rest) := ReadNumber(unread, 4, true);
      (if n.Some? && n.value >= 0 then Some(Number(n.value)) else None, rest)
    case Sized =>
      var (n, rest) := ReadNumber(unread, 4, true);
      if n.None? then (None, rest) else
      var (chunk, rest2) := Chunk(rest, n.value);
      (if chunk.Some? then Some(Bytes(chunk.value)) else None, rest2)
    case Sized16 =>
      var (n, rest) := ReadNumber(unread, 4, true);
      if n.None? || !FitsInt(2 * n.value) then (None, rest) else
      var (chunk, rest2) := Chunk(rest, 2 * n.value);
      (if chunk.Some? then Some(Units(BytesUnits(chunk.value))) else None, rest2)
    case Fixed(count) =>
      var (chunk, rest) := Chunk(unread, count);
      (if chunk.Some? then Some(Bytes(chunk.value)) else None, rest)
  }

  // ---------------------------------------------------------------- round trip

  lemma PaddedChunk(b: seq<Byte>, post: seq<Byte>, n: nat)
    requires n <= |b| && Align(n, 4) == Align(|b|, 4)
    ensures Chunk(Padded(b) + post, n) == (Some(b[..n]), post)
  {
    var s := Padded(b) + post;
    assert s[..n] == Padded(b)[..|b|][..n];
    assert s[|Padded(b)|..] == post;
  }

  lemma NumberRoundTrip(width: nat, signed: bool, n: int, post: seq<Byte>)
    requires InRange(width, signed, n)
    ensures ReadNumber(Padded(ToBytes(width, Wrapped(width, n))) + post, width, signed) == (Some(n), post)
  {
    var b := ToBytes(width, Wrapped(width, n));
    PaddedChunk(b, post, width);
    assert b[..width] == b;
    BytesRoundTrip(width, Wrapped(width, n));
  }

  lemma LengthRoundTrip(n: nat, post: seq<Byte>)
    requires n <= INT_MAX
    ensures ReadNumber(Padded(ToBytes(4, n)) + post, 4, true) == (Some(n), post)
  {
    PowersOf256();
    NumberRoundTrip(4, true, n, post);
  }

  lemma BooleanRoundTrip(truth: bool, post: seq<Byte>)
    ensures Read(Padded(ToBytes(4, if truth then 1 else 0)) + post, Boolean) == (Some(Truth(truth)), post)
  {
    var b := ToBytes(4, if truth then 1 else 0);
    PaddedChunk(b, post, 1);
    assert b[..1][0] == b[0] == if truth then 1 else 0;
  }

  /** A field that was written reads back as its value, and the reader stands behind it. */
  lemma FieldRoundTrips(f: Field, post: seq<Byte>)
    requires Writable(f)
    ensures Read(Encoded(f) + post, f.format) == (Some(f.value), post)
  {
    hide Padded, ReadNumber, Chunk, ToBytes, UnitBytes, BytesUnits, InRange;
    match f.format {
      case Boolean =>
        BooleanRoundTrip(f.value.truth, post);
      case Integer(width, signed) =>
        NumberRoundTrip(width, signed, f.value.number, post);
      case Length =>
        LengthRoundTrip(f.value.number, post);
      case Sized =>
        var b := f.value.bytes;
        ConcatAssoc(Padded(ToBytes(4, |b|)), Padded(b), post);
        LengthRoundTrip(|b|, Padded(b) + post);
        PaddedChunk(b, post, |b|);
        assert b[..|b|] == b;
      case Sized16 =>
        var b := UnitBytes(f.value.units);
        ConcatAssoc(Padded(ToBytes(4, |f.value.units|)), Padded(b), post);
        LengthRoundTrip(|f.value.units|, Padded(b) + post);
        PaddedChunk(b, post, |b|);
        assert b[..|b|] == b;
        UnitsRoundTrip(f.value.units);
      case Fixed(count) =>
        PaddedChunk(f.value.bytes, post, count);
        assert f.value.bytes[..count] == f.value.bytes;
    }
  }

  /** Reading a list of formats in order, stopping at the first that fails. */
  function ReadAll(unread: seq<Byte>, formats: seq<Format>): (r: (seq<Value>, seq<Byte>))
    ensures |r.0| <= |formats|
    decreases |formats|
  {
    if formats == [] then ([], unread)
    else
      var (value, rest) := Read(unread, formats[0]);
      if value.None? then ([], rest)
      else
        var (values, rest2) := ReadAll(rest, formats[1..]);
        ([value.value] + values, rest2)
  }

  function Formats(fields: seq<Field>): (formats: seq<Format>)
  {
    if fields == [] then [] else [fields[0].format] + Formats(fields[1..])
  }

  function Values(fields: seq<Field>): (values: seq<Value>)
  {
    if fields == [] then [] else [fields[0].value] + Values(fields[1..])
  }

  /** Whatever was written is read back in order, and what follows it is left. */
  lemma {:induction false} StreamRoundTrips(fields: seq<Field>, post: seq<Byte>)
    requires AllWritable(fields)
    ensures ReadAll(Stream(fields) + post, Formats(fields)) == (Values(fields), post)
    decreases |fields|
  {
    hide Writable, Encoded, Read;
    if fields == [] {
      ConcatEmpty(post);
    } else {
      assert fields[0] in fields;
      StreamRoundTrips(fields[1..], post);
      ConcatAssoc(Encoded(fields[0]), Stream(fields[1..]), post);
      FieldRoundTrips(fields[0], Stream(fields[1..]) + post);
    }
  }

  /** Behind the last field no read of a positive number of bytes succeeds. */
  lemma NothingAfterTheEnd(format: Format)
    requires format.Fixed? ==> format.count != 0
    requires format.Integer? ==> format.width > 0
    ensures Read([], format) == (None, [])
  {
  }

  // ---------------------------------------------------------------- failing reads

  /** The int that the unread bytes start with. */
  function FirstInt(unread: seq<Byte>): int
    requires |unread| >= 4
  {
    Unwrapped(4, true, FromBytes(unread[..4]))
  }

  /**
   The documentation says that nothing can be read after a failure. That holds except of two reads
   that fail at a value they have read, with more bytes behind it: ReadString16, when its length
   overflows as it is doubled, and ReadLength, when it is negative.
   */
  lemma FailureEndsReading(unread: seq<Byte>, format: Format)
    requires Read(unread, format).0.None?
    ensures Read(unread, format).1 == []
       <==> |unread| <= 4 || !((format.Sized16? && !FitsInt(2 * FirstInt(unread)))
                               || (format.Length? && FirstInt(unread) < 0))
  {
    hide BytesUnits, FromBytes, Unwrapped, Chunk, FitsInt;
    if format.Sized16? || format.Length? {
      LengthRead(unread);
    }
  }

  /** SkipBytes, documented to do nothing when it fails, does something unless it is at the end. */
  lemma FailedSkipMoves(unread: seq<Byte>, n: int)
    requires Read(unread, Fixed(n)).0.None?
    ensures Read(unread, Fixed(n)).1 == unread <==> unread == []
  {
  }

  lemma SkipOfTwoTakesOne()
    ensures Read([7], Fixed(2)) == (None, [])
  {
  }

  lemma LengthRead(unread: seq<Byte>)
    ensures ReadNumber(unread, 4, true)
         == if |unread| < 4 then (None, []) else (Some(Unwrapped(4, true, FromBytes(unread[..4]))), unread[4..])
  {
    hide FromBytes, Unwrapped, Pow256, Chunk;
    ChunkOf4(unread);
  }

  lemma ChunkOf4(unread: seq<Byte>)
    ensures Chunk(unread, 4) == if |unread| < 4 then (None, []) else (Some(unread[..4]), unread[4..])
  {
  }

  /** Behind such a length, any field still reads as it was written. */
  lemma OverflowingLengthReadsOn(f: Field)
    requires Writable(f)
    ensures var (failed, rest) := Read(Padded(ToBytes(4, 0x4000_0000)) + Encoded(f), Sized16);
            failed == None && Read(rest, f.format).0 == Some(f.value)
  {
    hide ToBytes, Padded, Encoded, ReadNumber, Chunk, Writable;
    LengthRoundTrip(0x4000_0000, Encoded(f));
    FieldRoundTrips(f, []);
    ConcatEmpty(Encoded(f));
  }

  /** The same behind a negative length. */
  lemma NegativeLengthReadsOn(f: Field)
    requires Writable(f)
    ensures var (failed, rest) := Read(Padded(ToBytes(4, 0xFFFF_FFFF)) + Encoded(f), Length);
            failed == None && Read(rest, f.format).0 == Some(f.value)
  {
    hide ToBytes, Padded, Encoded, ReadNumber, Chunk, Writable;
    PowersOf256();
    assert Wrapped(4, -1) == 0xFFFF_FFFF;
    NumberRoundTrip(4, true, -1, Encoded(f));
    FieldRoundTrips(f, []);
    ConcatEmpty(Encoded(f));
  }

  // ---------------------------------------------------------------- frames

  /** payload_size of the header that s starts with */
  function SizeField(s: seq<Byte>): (n: nat)
    requires |s| >= HEADER
  {
    FromBytes(s[..HEADER])
  }

  /** FindNext: how far behind the start of s the next frame starts. */
  function FindEnd(headerSize: nat, s: seq<Byte>): (r: Option<nat>)
  {
    if |s| < HEADER || |s| < headerSize || |s| - headerSize < SizeField(s) then None
    else Some(headerSize + SizeField(s))
  }

  /** The data of one pickle: a header of the given size, and as much payload as it says. */
  predicate IsFrame(headerSize: nat, p: seq<Byte>)
  {
    HEADER <= headerSize <= |p| && SizeField(p) == |p| - headerSize
  }

  lemma FrameFound(headerSize: nat, p: seq<Byte>, rest: seq<Byte>)
    requires IsFrame(headerSize, p)
    ensures FindEnd(headerSize, p + rest) == Some(|p|)
  {
    assert (p + rest)[..HEADER] == p[..HEADER];
  }

  lemma PrefixNotFound(headerSize: nat, p: seq<Byte>, k: nat)
    requires IsFrame(headerSize, p) && k < |p|
    ensures FindEnd(headerSize, p[..k]) == None
  {
    if k >= HEADER {
      assert p[..k][..HEADER] == p[..HEADER];
    }
  }

  /** Cutting s with FindNext until it returns null. */
  function Frames(headerSize: nat, s: seq<Byte>): (r: (seq<seq<Byte>>, seq<Byte>))
    requires headerSize > 0
    decreases |s|
  {
    var end := FindEnd(headerSize, s);
    if end.None? then ([], s)
    else
      var (frames, rest) := Frames(headerSize, s[end.value..]);
      ([s[..end.value]] + frames, rest)
  }

  /** Pickles of one header size, sent one behind the other, come apart as they were, up to a cut-off last one. */
  lemma {:induction false} FramesComeApart(headerSize: nat, pickles: seq<seq<Byte>>, last: seq<Byte>, k: nat)
    requires IsFrame(headerSize, last) && k < |last|
    requires forall p :: p in pickles ==> IsFrame(headerSize, p)
    ensures Frames(headerSize, Joined<Byte>(pickles) + last[..k]) == (pickles, last[..k])
    decreases |pickles|
  {
    hide FindEnd, IsFrame;
    assert headerSize > 0 by {
      FrameHasHeader(headerSize, last);
    }
    if pickles == [] {
      ConcatEmpty(last[..k]);
      PrefixNotFound(headerSize, last, k);
    } else {
      var p, rest := pickles[0], Joined<Byte>(pickles[1..]) + last[..k];
      assert p in pickles;
      ConcatAssoc(p, Joined<Byte>(pickles[1..]), last[..k]);
      FrameFound(headerSize, p, rest);
      FramesComeApart(headerSize, pickles[1..], last, k);
      assert Joined<Byte>(pickles) + last[..k] == p + rest;
      assert (p + rest)[..|p|] == p && (p + rest)[|p|..] == rest;
      assert pickles == [p] + pickles[1..];
    }
  }

  lemma FrameHasHeader(headerSize: nat, p: seq<Byte>)
    requires IsFrame(headerSize, p)
    ensures 0 < headerSize <= |p|
  {
  }

  /** The header size that Pickle(data, data_len) deduces in unsigned arithmetic; 0 if it rejects the data. */
  function DeducedHeader(s: seq<Byte>): (headerSize: nat)
    requires |s| <= INT_MAX
    ensures headerSize <= |s|
  {
    var difference := if |s| >= HEADER then |s| - SizeField(s) else 0;
    var headerSize := if difference < 0 then difference + UINT32_MAX + 1 else difference;
    if headerSize < 0 || headerSize > |s| then 0
    else if headerSize != Align(headerSize, 4) then 0
    else headerSize
  }

  lemma SizeFieldFits(s: seq<Byte>)
    requires |s| >= HEADER
    ensures SizeField(s) <= UINT32_MAX
  {
    PowersOf256();
  }

  /** Exactly which data is accepted, and that its frame is then the whole of it. */
  lemma AcceptedExactly(s: seq<Byte>)
    requires HEADER <= |s| <= INT_MAX
    ensures DeducedHeader(s) != 0 <==> SizeField(s) < |s| && (|s| - SizeField(s)) % 4 == 0
    ensures DeducedHeader(s) != 0 ==> IsFrame(DeducedHeader(s), s)
  {
    hide SizeField;
    SizeFieldFits(s);
  }

  lemma WrappedFrame(headerSize: nat, s: seq<Byte>)
    requires IsFrame(headerSize, s) && headerSize % 4 == 0 && |s| <= INT_MAX
    ensures DeducedHeader(s) == headerSize
  {
    hide SizeField;
  }

  /** Data of a pickle, wrapped for reading, reads back as the fields that were written. */
  lemma WrappedDataRoundTrips(header: seq<Byte>, fields: seq<Field>)
    requires AllWritable(fields) && HEADER <= |header| && |header| % 4 == 0
    requires var data := header + Stream(fields); |data| <= INT_MAX && IsFrame(|header|, data)
    ensures var data := header + Stream(fields);
            && DeducedHeader(data) == |header|
            && ReadAll(data[DeducedHeader(data)..], Formats(fields)) == (Values(fields), [])
  {
    hide SizeField, Stream, ReadAll, DeducedHeader, Formats, Values;
    var data := header + Stream(fields);
    WrappedFrame(|header|, data);
    assert data[|header|..] == Stream(fields);
    ConcatEmpty(Stream(fields));
    StreamRoundTrips(fields, []);
  }

  // ---------------------------------------------------------------- growth

  /** Capacity and offset, how often the buffer grew, and how many payload bytes that copied. */
  datatype Growth = Growth(capacity: nat, offset: nat, growths: nat, copied: nat)

  function Max(a: nat, b: nat): nat { if a < b then b else a }

  /** What one write of length bytes does. */
  function Write(g: Growth, length: nat): Growth
  {
    var newSize := g.offset + Align(length, 4);
    if newSize > g.capacity then
      Growth(Align(Max(g.capacity * 2, newSize), PAYLOAD_UNIT), newSize, g.growths + 1, g.copied + g.capacity)
    else g.(offset := newSize)
  }

  function WriteEach(g: Growth, lengths: seq<nat>): Growth
    decreases |lengths|
  {
    if lengths == [] then g else WriteEach(Write(g, lengths[0]), lengths[1..])
  }

  function Pow2(k: nat): nat { if k == 0 then 1 else 2 * Pow2(k - 1) }

  predicate Amortized(g: Growth)
  {
    && g.offset <= g.capacity && g.offset % 4 == 0 && g.capacity % PAYLOAD_UNIT == 0
    && (g.capacity == PAYLOAD_UNIT || g.capacity < 2 * g.offset)
    && g.capacity >= PAYLOAD_UNIT * Pow2(g.growths)
    && g.copied + PAYLOAD_UNIT <= g.capacity
  }

  lemma WriteAmortizes(g: Growth, length: nat)
    requires Amortized(g)
    ensures Amortized(Write(g, length))
  {
    var newSize := g.offset + Align(length, 4);
    Pow2Positive(g.growths);
    if newSize > g.capacity {
      hide Align, Max;
      DoublingAligned(g.capacity, newSize);
      GrowthDoubles(g, newSize, Align(Max(g.capacity * 2, newSize), PAYLOAD_UNIT));
      assert newSize % 4 == 0 by {
        SumAligned(g.offset, Align(length, 4));
      }
    } else {
      hide Pow2, Max;
      SumAligned(g.offset, Align(length, 4));
    }
  }

  lemma SumAligned(a: nat, b: nat)
    requires a % 4 == 0 && b % 4 == 0
    ensures (a + b) % 4 == 0
  {
  }

  lemma GrowthDoubles(g: Growth, newSize: nat, capacity: nat)
    requires Amortized(g) && g.capacity >= PAYLOAD_UNIT && 2 * g.capacity <= capacity
    ensures capacity >= PAYLOAD_UNIT * Pow2(g.growths + 1)
    ensures g.copied + g.capacity + PAYLOAD_UNIT <= capacity
  {
    assert Pow2(g.growths + 1) == 2 * Pow2(g.growths);
  }

  lemma DoublingAligned(capacity: nat, newSize: nat)
    requires capacity % PAYLOAD_UNIT == 0 && PAYLOAD_UNIT <= capacity < newSize
    ensures var r := Align(Max(capacity * 2, newSize), PAYLOAD_UNIT);
            r % PAYLOAD_UNIT == 0 && newSize <= r < 2 * newSize && 2 * capacity <= r
  {
    if capacity * 2 >= newSize {
      assert (capacity * 2) % 64 == 0;
    }
  }

  lemma {:induction false} Pow2Positive(k: nat)
    ensures Pow2(k) >= 1
  {
    if k > 0 {
      Pow2Positive(k - 1);
    }
  }

  /**
   Writes on a fresh pickle, without Reserve: the capacity is the unit or below twice the payload,
   it doubles with every growth, and all growths together copied less than it.
   */
  lemma WritesAmortize(lengths: seq<nat>)
    ensures Amortized(WriteEach(Growth(PAYLOAD_UNIT, 0, 0, 0), lengths))
  {
    WritesKeepAmortized(Growth(PAYLOAD_UNIT, 0, 0, 0), lengths);
  }

  lemma {:induction false} WritesKeepAmortized(g: Growth, lengths: seq<nat>)
    requires Amortized(g)
    ensures Amortized(WriteEach(g, lengths))
    decreases |lengths|
  {
    hide Amortized, Write;
    if lengths != [] {
      WriteAmortizes(g, lengths[0]);
      WritesKeepAmortized(Write(g, lengths[0]), lengths[1..]);
    }
  }

  // ---------------------------------------------------------------- the objects

  class Pickle {
    var header: array?<Byte>
    var headerSize: nat
    var capacity: nat
    var writeOffset: nat
    ghost var growths: nat
    ghost var copied: nat

    /** What holds of every pickle, also of one around foreign data. */
    ghost predicate Bounded()
      reads this, header
    {
      && (header == null ==> headerSize == 0)
      && (header != null ==> HEADER <= headerSize <= header.Length && headerSize + SizeField(header[..]) <= header.Length)
    }

    /** What holds of a pickle that owns its buffer. */
    ghost predicate Valid()
      reads this, header
    {
      && header != null && header.Length == headerSize + capacity
      && HEADER <= headerSize <= PAYLOAD_UNIT && headerSize % 4 == 0
      && writeOffset % 4 == 0 && writeOffset <= capacity && writeOffset <= UINT32_MAX
      && capacity % PAYLOAD_UNIT == 0 && PAYLOAD_UNIT <= capacity < 3 * UINT32_MAX + PAYLOAD_UNIT
      && SizeField(header[..]) == writeOffset
    }

    ghost function Payload(): (p: seq<Byte>)
      requires Bounded()
      reads this, header
    {
      if header == null then [] else header[headerSize..headerSize + SizeField(header[..])]
    }

    ghost function Data(): (d: seq<Byte>)
      requires Bounded() && header != null
      reads this, header
    {
      header[..headerSize + SizeField(header[..])]
    }

    ghost function GrowthState(): Growth
      reads this
    {
      Growth(capacity, writeOffset, growths, copied)
    }

    constructor (size: nat)
      requires HEADER <= size <= PAYLOAD_UNIT
      ensures Valid() && fresh(header) && Payload() == []
      ensures headerSize == Align(size, 4) && GrowthState() == Growth(PAYLOAD_UNIT, 0, 0, 0) && capacity == 64
    {
      header := null;
      headerSize, capacity, writeOffset := Align(size, 4), 0, 0;
      growths, copied := 0, 0;
      new;
      Resize(PAYLOAD_UNIT);
      StorePayloadSize(0);
    }

    /** Pickle(const char* data, int data_len) */
    constructor Around(data: array<Byte>)
      requires data.Length <= INT_MAX
      ensures Bounded() && headerSize == DeducedHeader(data[..])
      ensures header == (if headerSize == 0 then null else data) && capacity == READ_ONLY && writeOffset == 0
      ensures headerSize != 0 ==> Data() == data[..] && Payload() == data[headerSize..]
    {
      headerSize, capacity, writeOffset := 0, READ_ONLY, 0;
      growths, copied := 0, 0;
      var size := DeduceHeader(data);
      headerSize := size;
      header := if size == 0 then null else data;
      new;
      if size != 0 {
        assert data.Length >= HEADER;
        AcceptedExactly(data[..]);
        assert data[..data.Length] == data[..];
      }
    }

    method Resize(newCapacity: nat)
      requires capacity < READ_ONLY && newCapacity >= capacity
      requires header != null ==> header.Length == headerSize + capacity
      modifies this`header, this`capacity
      ensures capacity == Align(newCapacity, PAYLOAD_UNIT)
      ensures header != null && fresh(header) && header.Length == headerSize + capacity
      ensures old(header) != null ==> header[..old(header).Length] == old(header[..])
    {
      var aligned := Align(newCapacity, PAYLOAD_UNIT);
      var p := new Byte[headerSize + aligned];
      if header != null {
        forall i | 0 <= i < header.Length {
          p[i] := header[i];
        }
        assert p[..header.Length] == header[..];
      }
      header, capacity := p, aligned;
    }

    method StorePayloadSize(n: nat)
      requires header != null && header.Length >= HEADER && n <= UINT32_MAX
      modifies header
      ensures SizeField(header[..]) == n && header[HEADER..] == old(header[HEADER..])
    {
      var b := ToBytes(HEADER, n);
      header[0], header[1], header[2], header[3] := b[0], b[1], b[2], b[3];
      assert header[..][..HEADER] == b;
      PowersOf256();
      BytesRoundTrip(HEADER, n);
    }

    /** Room for newSize bytes of payload, doubling the capacity if that is enough. */
    method Grow(newSize: nat)
      requires Valid() && newSize <= UINT32_MAX
      modifies this`header, this`capacity, this`growths, this`copied
      ensures Valid() && newSize <= capacity && (header == old(header) || fresh(header))
      ensures Payload() == old(Payload())
      ensures newSize <= old(capacity) ==> GrowthState() == old(GrowthState())
      ensures newSize > old(capacity) ==>
        GrowthState() == Growth(Align(Max(old(capacity) * 2, newSize), PAYLOAD_UNIT), writeOffset,
                                old(growths) + 1, old(copied + capacity))
    {
      if newSize > capacity {
        growths, copied := growths + 1, copied + capacity;
        ghost var before := header[..];
        Resize(Max(capacity * 2, newSize));
        assert header[..][..HEADER] == before[..HEADER];
        SameSlices(header[..], before, headerSize + writeOffset, headerSize);
      }
    }

    /** memcpy of data and memset of what is missing up to end. */
    method Copy(data: seq<Byte>, start: nat, end: nat)
      requires header != null && start + |data| <= end <= header.Length
      modifies header
      ensures header[start..end] == data + Repeated<Byte>(0, end - start - |data|)
      ensures header[..start] == old(header[..start])
    {
      forall i | 0 <= i < |data| {
        header[start + i] := data[i];
      }
      forall i | start + |data| <= i < end {
        header[i] := 0;
      }
    }

    /** Appends data with its padding to the payload, which the capacity has room for. */
    method Fill(data: seq<Byte>, newSize: nat)
      requires header != null && HEADER <= headerSize && headerSize + newSize <= header.Length
      requires newSize == writeOffset + Align(|data|, 4) <= UINT32_MAX
      modifies header
      ensures SizeField(header[..]) == newSize
      ensures header[headerSize..headerSize + newSize]
           == old(header[headerSize..headerSize + writeOffset]) + Padded(data)
    {
      hide SizeField, Padded, Align;
      var start, end := headerSize + writeOffset, headerSize + newSize;
      ghost var before := header[..];
      Copy(data, start, end);
      ghost var copied := header[..];
      StorePayloadSize(newSize);
      PaddedIs(data, end - start);
      Appended(before, copied, headerSize, start, end, Padded(data));
      assert header[headerSize..end] == copied[headerSize..end] by {
        SliceAfter(header[..], copied, HEADER, headerSize, end);
      }
    }

    /** The same with the new write offset. */
    method Append(data: seq<Byte>, newSize: nat)
      requires Valid() && newSize == writeOffset + Align(|data|, 4) <= UINT32_MAX && newSize <= capacity
      modifies header, this`writeOffset
      ensures Valid() && writeOffset == newSize && Payload() == old(Payload()) + Padded(data)
    {
      hide SizeField, Padded, Align;
      assert Payload() == header[headerSize..headerSize + writeOffset];
      Fill(data, newSize);
      writeOffset := newSize;
    }

    method WriteBytesCommon(data: seq<Byte>)
      requires Valid() && writeOffset + Align(|data|, 4) <= UINT32_MAX
      modifies this, header
      ensures Valid() && (header == old(header) || fresh(header)) && headerSize == old(headerSize)
      ensures Payload() == old(Payload()) + Padded(data)
      ensures GrowthState() == Write(old(GrowthState()), |data|)
    {
      hide SizeField, Padded, Max, Align;
      var newSize := writeOffset + Align(|data|, 4);
      Grow(newSize);
      Append(data, newSize);
    }

    method Reserve(length: nat)
      requires Valid() && writeOffset + Align(length, 4) <= UINT32_MAX
      modifies this`header, this`capacity
      ensures Valid() && (header == old(header) || fresh(header))
      ensures Payload() == old(Payload()) && writeOffset + Align(length, 4) <= capacity
      ensures capacity == if writeOffset + Align(length, 4) <= old(capacity) then old(capacity)
                          else Align(old(capacity) * 2 + writeOffset + Align(length, 4), 64)
    {
      var newSize := writeOffset + Align(length, 4);
      if newSize > capacity {
        ghost var before := header[..];
        Resize(capacity * 2 + newSize);
        assert header[..headerSize + writeOffset] == before[..headerSize + writeOffset] by {
          assert header[..old(header).Length] == before;
        }
        SameSlices(header[..], before, headerSize + writeOffset, headerSize);
      }
    }

    /** Pickle(const Pickle& other); a pickle around foreign data leaves its write offset of 0. */
    constructor CopyOf(other: Pickle)
      requires other.Bounded() && other.header != null
      ensures Bounded() && header != null && fresh(header) && (other.Valid() ==> Valid())
      ensures headerSize == other.headerSize && writeOffset == other.writeOffset && capacity == Align(|Data()|, 64)
      ensures Data() == other.Data() && Payload() == other.Payload()
    {
      header := null;
      headerSize, capacity, writeOffset := other.headerSize, 0, other.writeOffset;
      growths, copied := 0, 0;
      new;
      var bytes := other.header[..headerSize + FromBytes(other.header[..HEADER])];
      assert other.header[..][..HEADER] == other.header[..HEADER];
      Resize(|bytes|);
      StoreAll(bytes);
      SameSlices(header[..], other.header[..], |bytes|, headerSize);
    }

    method StoreAll(bytes: seq<Byte>)
      requires header != null && |bytes| <= header.Length
      modifies header
      ensures header[..|bytes|] == bytes
    {
      forall i | 0 <= i < |bytes| {
        header[i] := bytes[i];
      }
    }

    // The typed writers: each appends the encoding of one field.

    method WriteNumber(width: nat, signed: bool, n: int)
      requires Valid() && Writable(Field(Integer(width, signed), Number(n)))
      requires writeOffset + |Encoded(Field(Integer(width, signed), Number(n)))| <= UINT32_MAX
      modifies this, header
      ensures Valid() && (header == old(header) || fresh(header)) && headerSize == old(headerSize)
      ensures Payload() == old(Payload()) + Encoded(Field(Integer(width, signed), Number(n)))
    {
      hide Padded, ToBytes;
      WriteBytesCommon(ToBytes(width, Wrapped(width, n)));
    }

    method WriteInt(n: int)
      requires Valid() && FitsInt(n) && writeOffset + 4 <= UINT32_MAX
      modifies this, header
      ensures Valid() && (header == old(header) || fresh(header)) && headerSize == old(headerSize)
      ensures writeOffset == old(writeOffset) + 4
      ensures Writable(Field(Integer(4, true), Number(n)))
      ensures Payload() == old(Payload()) + Encoded(Field(Integer(4, true), Number(n)))
    {
      PowersOf256();
      WriteNumber(4, true, n);
    }

    method WriteBool(truth: bool)
      requires Valid() && writeOffset + 4 <= UINT32_MAX
      modifies this, header
      ensures Valid() && (header == old(header) || fresh(header)) && headerSize == old(headerSize)
      ensures Payload() == old(Payload()) + Encoded(Field(Boolean, Truth(truth)))
    {
      hide Padded, ToBytes;
      WriteInt(if truth then 1 else 0);
    }

    method WriteBytes(bytes: seq<Byte>)
      requires Valid() && |bytes| <= INT_MAX && writeOffset + Align(|bytes|, 4) <= UINT32_MAX
      modifies this, header
      ensures Valid() && (header == old(header) || fresh(header)) && headerSize == old(headerSize)
      ensures Payload() == old(Payload()) + Encoded(Field(Fixed(|bytes|), Bytes(bytes)))
    {
      hide Padded;
      WriteBytesCommon(bytes);
    }

    /** The bytes that data points to, of which length are written; false for a negative length. */
    method WriteData(data: seq<Byte>, length: int) returns (ok: bool)
      requires Valid() && length <= INT_MAX && length <= |data|
      requires length >= 0 ==> writeOffset + 4 + Align(length, 4) <= UINT32_MAX
      modifies this, header
      ensures Valid() && (header == old(header) || fresh(header)) && headerSize == old(headerSize)
      ensures ok <==> length >= 0
      ensures ok ==> Payload() == old(Payload()) + Encoded(Field(Sized, Bytes(data[..length])))
      ensures !ok ==> Payload() == old(Payload()) && writeOffset == old(writeOffset)
    {
      if length < 0 {
        return false;
      }
      WriteSized(data[..length]);
      return true;
    }

    /** WriteString */
    method WriteSized(bytes: seq<Byte>)
      requires Valid() && |bytes| <= INT_MAX && writeOffset + 4 + Align(|bytes|, 4) <= UINT32_MAX
      modifies this, header
      ensures Valid() && (header == old(header) || fresh(header)) && headerSize == old(headerSize)
      ensures Payload() == old(Payload()) + Encoded(Field(Sized, Bytes(bytes)))
    {
      hide Padded, ToBytes;
      ghost var before := Payload();
      WriteInt(|bytes|);
      WriteBytesCommon(bytes);
      ConcatAssoc(before, Padded(ToBytes(4, |bytes|)), Padded(bytes));
    }

    method WriteString16(units: seq<Unit>)
      requires Valid() && 2 * |units| <= INT_MAX && writeOffset + 4 + Align(2 * |units|, 4) <= UINT32_MAX
      modifies this, header
      ensures Valid() && (header == old(header) || fresh(header)) && headerSize == old(headerSize)
      ensures Payload() == old(Payload()) + Encoded(Field(Sized16, Units(units)))
    {
      hide Padded, ToBytes;
      ghost var before := Payload();
      WriteInt(|units|);
      WriteBytesCommon(UnitBytes(units));
      ConcatAssoc(before, Padded(ToBytes(4, |units|)), Padded(UnitBytes(units)));
    }

    /** The writer for the type of a field. */
    method WriteField(f: Field)
      requires Valid() && Writable(f) && writeOffset + |Encoded(f)| <= UINT32_MAX
      modifies this, header
      ensures Valid() && (header == old(header) || fresh(header)) && headerSize == old(headerSize)
      ensures Payload() == old(Payload()) + Encoded(f)
    {
      match f.format {
        case Boolean => WriteBool(f.value.truth);
        case Integer(width, signed) => WriteNumber(width, signed, f.value.number);
        case Length => WriteInt(f.value.number);
        case Sized => WriteSized(f.value.bytes);
        case Sized16 => WriteString16(f.value.units);
        case Fixed(_) => WriteBytes(f.value.bytes);
      }
    }
  }

  class PickleIterator {
    const payload: array?<Byte>
    const start: nat
    const endIndex: nat
    var readIndex: nat

    ghost predicate Valid()
      reads this
    {
      && readIndex <= endIndex
      && (payload != null ==> start + endIndex <= payload.Length)
      && (payload == null ==> endIndex == 0)
    }

    ghost function Unread(): (u: seq<Byte>)
      requires Valid()
      reads this, payload
    {
      if payload == null then [] else payload[start + readIndex..start + endIndex]
    }

    /** What a read of the format returns: as Read says, but nothing from a null payload. */
    ghost function Outcome(format: Format): Option<Value>
      requires Valid()
      reads this, payload
    {
      if payload == null then None else Read(Unread(), format).0
    }

    ghost function Rest(format: Format): seq<Byte>
      requires Valid()
      reads this, payload
    {
      Read(Unread(), format).1
    }

    constructor (pickle: Pickle)
      requires pickle.Bounded()
      ensures Valid() && payload == pickle.header && readIndex == 0 && Unread() == pickle.Payload()
    {
      payload, start, readIndex := pickle.header, pickle.headerSize, 0;
      endIndex := if pickle.header == null then 0 else FromBytes(pickle.header[..HEADER]);
      assert pickle.header != null ==> pickle.header[..][..HEADER] == pickle.header[..HEADER];
    }

    method Advance(size: nat)
      requires Valid()
      modifies this
      ensures Valid()
      ensures readIndex == if endIndex - old(readIndex) < Align(size, 4) then endIndex
                           else old(readIndex) + Align(size, 4)
    {
      var alignedSize := Align(size, 4);
      if endIndex - readIndex < alignedSize {
        readIndex := endIndex;
      } else {
        readIndex := readIndex + alignedSize;
      }
    }

    /** Returns an index into the payload, null for a pointer that is not given out. */
    method GetReadPointerAndAdvance(numBytes: int) returns (from: Option<nat>)
      requires Valid()
      modifies this
      ensures Valid() && Unread() == Chunk(old(Unread()), numBytes).1
      ensures from.Some? <==> payload != null && Chunk(old(Unread()), numBytes).0.Some?
      ensures from.Some? ==> start <= from.value && from.value + numBytes <= start + endIndex
                             && payload[from.value..from.value + numBytes] == Chunk(old(Unread()), numBytes).0.value
    {
      ghost var unread := Unread();
      if numBytes < 0 || endIndex - readIndex < numBytes {
        readIndex := endIndex;
        return None;
      }
      from := if payload == null then None else Some(start + readIndex);
      ghost var at := readIndex;
      Advance(numBytes);
      if payload != null {
        UnreadRest(payload[..], start + at, start + readIndex, start + endIndex, numBytes);
      }
    }

    method ReadNumber(width: nat, signed: bool) returns (ok: bool, n: int)
      requires Valid()
      modifies this
      ensures Valid() && Unread() == old(Rest(Integer(width, signed)))
      ensures (if ok then Some(Number(n)) else None) == old(Outcome(Integer(width, signed)))
    {
      hide Chunk, FromBytes, Unwrapped;
      var from := GetReadPointerAndAdvance(width);
      if from.None? {
        return false, 0;
      }
      ok, n := true, Unwrapped(width, signed, FromBytes(payload[from.value..from.value + width]));
    }

    method ReadBool() returns (ok: bool, truth: bool)
      requires Valid()
      modifies this
      ensures Valid() && Unread() == old(Rest(Boolean))
      ensures (if ok then Some(Truth(truth)) else None) == old(Outcome(Boolean))
    {
      var from := GetReadPointerAndAdvance(1);
      if from.None? {
        return false, false;
      }
      assert payload[from.value..from.value + 1][0] == payload[from.value];
      ok, truth := true, payload[from.value] != 0;
    }

    method ReadLength() returns (ok: bool, n: int)
      requires Valid()
      modifies this
      ensures Valid() && Unread() == old(Rest(Length))
      ensures (if ok then Some(Number(n)) else None) == old(Outcome(Length))
    {
      hide Chunk, FromBytes, Unwrapped;
      ok, n := ReadNumber(4, true);
      ok := ok && n >= 0;
    }

    method ReadBytes(length: int) returns (ok: bool, bytes: seq<Byte>)
      requires Valid()
      modifies this
      ensures Valid() && Unread() == old(Rest(Fixed(length)))
      ensures (if ok then Some(Bytes(bytes)) else None) == old(Outcome(Fixed(length)))
    {
      hide Chunk;
      var from := GetReadPointerAndAdvance(length);
      if from.None? {
        return false, [];
      }
      ok, bytes := true, payload[from.value..from.value + length];
    }

    method SkipBytes(numBytes: int) returns (ok: bool)
      requires Valid()
      modifies this
      ensures Valid() && Unread() == old(Rest(Fixed(numBytes)))
      ensures ok <==> old(Outcome(Fixed(numBytes))).Some?
    {
      hide Chunk;
      var from := GetReadPointerAndAdvance(numBytes);
      ok := from.Some?;
    }

    /** ReadString, ReadStringPiece and ReadData */
    method ReadSized() returns (ok: bool, bytes: seq<Byte>)
      requires Valid()
      modifies this
      ensures Valid() && Unread() == old(Rest(Sized))
      ensures (if ok then Some(Bytes(bytes)) else None) == old(Outcome(Sized))
    {
      hide Chunk, FromBytes, Unwrapped;
      var gotLength, length := ReadNumber(4, true);
      if !gotLength {
        return false, [];
      }
      ok, bytes := ReadBytes(length);
    }

    /** ReadString16 and ReadStringPiece16 */
    method ReadString16() returns (ok: bool, units: seq<Unit>)
      requires Valid()
      modifies this
      ensures Valid() && Unread() == old(Rest(Sized16))
      ensures (if ok then Some(Units(units)) else None) == old(Outcome(Sized16))
    {
      hide Chunk, FromBytes, Unwrapped, BytesUnits;
      var gotLength, length := ReadNumber(4, true);
      if !gotLength {
        return false, [];
      }
      if !FitsInt(2 * length) {
        return false, [];
      }
      var from := GetReadPointerAndAdvance(2 * length);
      if from.None? {
        return false, [];
      }
      ok, units := true, BytesUnits(payload[from.value..from.value + 2 * length]);
    }

    /** The reader for a type. */
    method ReadField(format: Format) returns (value: Option<Value>)
      requires Valid()
      modifies this
      ensures Valid() && Unread() == old(Rest(format)) && value == old(Outcome(format))
    {
      hide Read;
      var ok: bool;
      match format {
        case Boolean =>
          var truth;
          ok, truth := ReadBool();
          value := if ok then Some(Truth(truth)) else None;
        case Integer(width, signed) =>
          var n;
          ok, n := ReadNumber(width, signed);
          value := if ok then Some(Number(n)) else None;
        case Length =>
          var n;
          ok, n := ReadLength();
          value := if ok then Some(Number(n)) else None;
        case Sized =>
          var bytes;
          ok, bytes := ReadSized();
          value := if ok then Some(Bytes(bytes)) else None;
        case Sized16 =>
          var units;
          ok, units := ReadString16();
          value := if ok then Some(Units(units)) else None;
        case Fixed(count) =>
          var bytes;
          ok, bytes := ReadBytes(count);
          value := if ok then Some(Bytes(bytes)) else None;
      }
    }
  }

  /**
   What pickles are for: fields written into a pickle with any header size, read back in order by
   an iterator over it, have the same values, and the iterator ends at its end index.
   */
  method WriteAndRead(fields: seq<Field>, size: nat) returns (values: seq<Value>, atEnd: bool)
    requires AllWritable(fields) && |Stream(fields)| <= UINT32_MAX && HEADER <= size <= PAYLOAD_UNIT
    ensures values == Values(fields) && atEnd
  {
    hide Stream, Values, Encoded, Writable, Read;
    var pickle := new Pickle(size);
    NoFields();
    for i := 0 to |fields|
      invariant pickle.Valid() && fresh(pickle) && fresh(pickle.header)
      invariant pickle.Payload() == Stream(fields[..i])
    {
      NextField(fields, i);
      pickle.WriteField(fields[i]);
    }
    assert fields[..|fields|] == fields && fields[0..] == fields;
    var it := new PickleIterator(pickle);
    values := [];
    for i := 0 to |fields|
      invariant it.Valid() && it.payload != null
      invariant it.Unread() == Stream(fields[i..]) && values == Values(fields[..i])
    {
      NextField(fields, i);
      FieldRoundTrips(fields[i], Stream(fields[i + 1..]));
      var value := it.ReadField(fields[i].format);
      values := values + [value.value];
    }
    assert fields[|fields|..] == [];
    atEnd := it.readIndex == it.endIndex;
  }

  lemma NoFields()
    ensures Stream([]) == [] && Values([]) == []
  {
  }

  lemma {:induction false} StreamConcat(a: seq<Field>, b: seq<Field>)
    requires AllWritable(a) && AllWritable(b)
    ensures AllWritable(a + b) && Stream(a + b) == Stream(a) + Stream(b)
    ensures Values(a + b) == Values(a) + Values(b)
  {
    hide Writable, Encoded;
    if a == [] {
      ConcatEmpty(b);
    } else {
      ConcatTail(a, b);
      StreamConcat(a[1..], b);
      ConcatAssoc(Encoded(a[0]), Stream(a[1..]), Stream(b));
      ConcatAssoc([a[0].value], Values(a[1..]), Values(b));
    }
  }

  /** The i-th field in the stream and among the values. */
  lemma NextField(fields: seq<Field>, i: nat)
    requires i < |fields| && AllWritable(fields)
    ensures AllWritable(fields[..i]) && AllWritable(fields[..i + 1]) && AllWritable(fields[i..]) && AllWritable(fields[i + 1..])
    ensures Writable(fields[i])
    ensures Stream(fields[..i + 1]) == Stream(fields[..i]) + Encoded(fields[i])
    ensures Stream(fields[i..]) == Encoded(fields[i]) + Stream(fields[i + 1..])
    ensures |Stream(fields[..i + 1])| <= |Stream(fields)|
    ensures Values(fields[..i + 1]) == Values(fields[..i]) + [fields[i].value]
  {
    hide Writable, Encoded;
    assert fields[i] in fields;
    assert AllWritable([fields[i]]) && AllWritable(fields[i + 1..]) && AllWritable(fields[..i]);
    assert fields[i..] == [fields[i]] + fields[i + 1..];
    assert fields[..i + 1] == fields[..i] + [fields[i]];
    assert fields == fields[..i + 1] + fields[i + 1..];
    StreamConcat(fields[..i], [fields[i]]);
    StreamConcat([fields[i]], fields[i + 1..]);
    StreamConcat(fields[..i + 1], fields[i + 1..]);
    assert [fields[i]][1..] == [];
    ConcatEmpty(Encoded(fields[i]));
  }

  lemma UnreadRest(s: seq<Byte>, at: nat, next: nat, end: nat, n: nat)
    requires at + n <= end <= |s|
    requires next == if end - at < Align(n, 4) then end else at + Align(n, 4)
    ensures Chunk(s[at..end], n) == (Some(s[at..at + n]), s[next..end])
  {
    var u := s[at..end];
    assert u[..n] == s[at..at + n];
    assert u[next - at..] == s[next..end];
  }

  lemma SameSlices(a: seq<Byte>, b: seq<Byte>, size: nat, h: nat)
    requires HEADER <= h <= size <= |a| && size <= |b| && a[..size] == b[..size]
    ensures a[..HEADER] == b[..HEADER] && a[h..size] == b[h..size]
  {
    assert a[..HEADER] == a[..size][..HEADER] && b[..HEADER] == b[..size][..HEADER];
    assert a[h..size] == a[..size][h..] && b[h..size] == b[..size][h..];
  }

  lemma Appended(before: seq<Byte>, after: seq<Byte>, i: nat, j: nat, k: nat, more: seq<Byte>)
    requires i <= j <= k <= |after| == |before|
    requires after[..j] == before[..j] && after[j..k] == more
    ensures after[i..k] == before[i..j] + more
  {
    assert after[i..j] == after[..j][i..] && before[i..j] == before[..j][i..];
    assert after[i..k] == after[i..j] + after[j..k];
  }

  lemma SliceAfter(a: seq<Byte>, b: seq<Byte>, h: nat, i: nat, j: nat)
    requires h <= i <= j <= |a| == |b| && a[h..] == b[h..]
    ensures a[i..j] == b[i..j]
  {
    forall k | i <= k < j
      ensures a[k] == b[k]
    {
      assert a[h..][k - h] == b[h..][k - h];
    }
  }

  lemma PaddedIs(data: seq<Byte>, n: nat)
    requires n == Align(|data|, 4)
    ensures data + Repeated<Byte>(0, n - |data|) == Padded(data)
  {
  }

  /** The data of a pickle that owns its buffer is one frame, and wraps as what it is. */
  lemma DataIsFrame(p: Pickle)
    requires p.Valid()
    ensures p.Bounded() && IsFrame(p.headerSize, p.Data())
    ensures p.Data() == p.Data()[..p.headerSize] + p.Payload()
    ensures |p.Data()| <= INT_MAX ==> DeducedHeader(p.Data()) == p.headerSize
  {
    hide SizeField, DeducedHeader;
    var data := p.Data();
    assert data[..HEADER] == p.header[..][..HEADER];
    assert SizeField(data) == SizeField(p.header[..]) by {
      SameField(data, p.header[..]);
    }
    assert p.Payload() == data[p.headerSize..];
    if |data| <= INT_MAX {
      WrappedFrame(p.headerSize, data);
    }
  }

  lemma SameField(a: seq<Byte>, b: seq<Byte>)
    requires |a| >= HEADER && |b| >= HEADER && a[..HEADER] == b[..HEADER]
    ensures SizeField(a) == SizeField(b)
  {
  }

  /** Pickle::FindNext between two positions of a buffer. */
  method FindNext(headerSize: nat, data: array<Byte>, start: nat, end: nat) returns (next: Option<nat>)
    requires start <= end <= data.Length && headerSize % 4 == 0 && headerSize <= PAYLOAD_UNIT
    ensures var found := FindEnd(headerSize, data[start..end]);
            next == if found.None? then None else Some(start + found.value)
  {
    var length := end - start;
    if length < HEADER {
      return None;
    }
    var payloadSize := FromBytes(data[start..start + HEADER]);
    assert data[start..end][..HEADER] == data[start..start + HEADER];
    if length < headerSize || length - headerSize < payloadSize {
      return None;
    }
    next := Some(start + headerSize + payloadSize);
  }

  /** The deduction of the header size as the constructor carries it out. */
  method DeduceHeader(data: array<Byte>) returns (headerSize: nat)
    requires data.Length <= INT_MAX
    ensures headerSize == DeducedHeader(data[..])
  {
    headerSize := 0;
    if data.Length >= HEADER {
      var payloadSize := FromBytes(data[..HEADER]);
      assert data[..][..HEADER] == data[..HEADER];
      SizeFieldFits(data[..]);
      headerSize := if data.Length < payloadSize then data.Length - payloadSize + UINT32_MAX + 1
                    else data.Length - payloadSize;
    }
    if headerSize > data.Length {
      headerSize := 0;
    }
    if headerSize != Align(headerSize, 4) {
      headerSize := 0;
    }
  }
}