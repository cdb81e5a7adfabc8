/** Byte layouts of the ZIP records the server writes, and an independent
    reader for them (PKWARE APPNOTE.TXT, sections 4.3.7, 4.3.9, 4.3.12, 4.3.16
    and 4.4.4). */
module ZipFormat {
  type byte = x: int | 0 <= x < 256

  const U16_LIMIT: nat := 0x1_0000
  const U32_LIMIT: nat := 0x1_0000_0000

  const LOCAL_SIGNATURE: nat := 0x0403_4b50
  const DESCRIPTOR_SIGNATURE: nat := 0x0807_4b50
  const CENTRAL_SIGNATURE: nat := 0x0201_4b50
  const END_SIGNATURE: nat := 0x0605_4b50

  /** Data descriptor present (0x0008) and UTF-8 names (0x0800). */
  const FLAGS: nat := 0x0808

  /** One file handed to the archive: its stored path and its contents. */
  datatype File = File(name: seq<byte>, data: seq<byte>)

  // ---------------------------------------------------------------- integers

  function Le16(v: nat): (b: seq<byte>)
    requires v < U16_LIMIT
    ensures |b| == 2
  {
    [v % 256, v / 256]
  }

  function Le32(v: nat): (b: seq<byte>)
    requires v < U32_LIMIT
    ensures |b| == 4
  {
    [v % 256, v / 256 % 256, v / 65536 % 256, v / 65536 / 256]
  }

  function U16At(b: seq<byte>, at: nat): nat
    requires at + 2 <= |b|
  {
    (b[at] as int) + 256 * (b[at + 1] as int)
  }

  function U32At(b: seq<byte>, at: nat): nat
    requires at + 4 <= |b|
  {
    (b[at] as int) + 256 * (b[at + 1] as int) + 65536 * (b[at + 2] as int) + 16777216 * (b[at + 3] as int)
  }

  lemma U32AtLe32(v: nat)
    requires v < U32_LIMIT
    ensures U32At(Le32(v), 0) == v
  {
    assert v / 256 == (v / 65536) * 256 + v / 256 % 256;
  }

  // ---------------------------------------------------------------- checksum

  type U32 = x: int | 0 <= x < U32_LIMIT

  /** A streaming checksum: a register, one step a byte, and a final step.
      The server uses CRC-32; the archive needs no more than this. */
  datatype Checksum = Checksum(start: U32, step: (U32, byte) -> U32, finish: U32 -> U32) {
    /** The register after feeding `bytes` to a hasher whose register is `c`. */
    function Update(c: U32, bytes: seq<byte>): U32 {
      if bytes == [] then c
      else step(Update(c, bytes[..|bytes| - 1]), bytes[|bytes| - 1])
    }

    function Of(bytes: seq<byte>): U32 {
      finish(Update(start, bytes))
    }

    /** Hashing in pieces is hashing the whole, however the source splits it, and
        one byte is one step of the register. */
    lemma {:induction false} UpdateAppend(c: U32, a: seq<byte>, b: seq<byte>)
      ensures Update(c, a + b) == Update(Update(c, a), b)
      ensures Update(c, []) == c && forall x: byte :: Update(c, [x]) == step(c, x)
    {
      assert forall x: byte :: [x][..0] == [];
      if b == [] {
        assert a + b == a;
      } else {
        var n := |b| - 1;
        assert (a + b)[..|a + b| - 1] == a + b[..n] && (a + b)[|a + b| - 1] == b[n];
        UpdateAppend(c, a, b[..n]);
      }
    }
  }

  // ----------------------------------------------------------------- records

  /** The fields of a local file header before the length of the name. */
  function LocalStart(): seq<byte> {
    Le32(LOCAL_SIGNATURE) + Le16(20) + Le16(FLAGS) + Le16(0) + Le16(0) + Le16(0)
    + Le32(0) + Le32(0) + Le32(0)
  }

  /** The fixed part of a local file header; the name follows it. */
  function LocalHeader(nameLength: nat): seq<byte>
    requires nameLength < U16_LIMIT
  {
    LocalStart() + Le16(nameLength) + Le16(0)
  }

  function Descriptor(crc: nat, size: nat): seq<byte>
    requires crc < U32_LIMIT && size < U32_LIMIT
  {
    Le32(DESCRIPTOR_SIGNATURE) + Le32(crc) + Le32(size) + Le32(size)
  }

  /** The fixed part of a central directory entry; the name follows it. */
  function CentralHeader(nameLength: nat, crc: nat, size: nat, offset: nat): seq<byte>
    requires nameLength < U16_LIMIT && crc < U32_LIMIT && size < U32_LIMIT && offset < U32_LIMIT
  {
    Le32(CENTRAL_SIGNATURE) + Le16(20) + Le16(20) + Le16(FLAGS) + Le16(0) + Le16(0) + Le16(0)
    + Le32(crc) + Le32(size) + Le32(size) + Le16(nameLength) + Le16(0) + Le16(0) + Le16(0) + Le16(0)
    + Le32(0) + Le32(offset)
  }

  function EndRecord(count: nat, size: nat, offset: nat): seq<byte>
    requires count < U16_LIMIT && size < U32_LIMIT && offset < U32_LIMIT
  {
    Le32(END_SIGNATURE) + Le16(0) + Le16(0) + Le16(count) + Le16(count) + Le32(size) + Le32(offset) + Le16(0)
  }

  /** What a reader must find in the fixed part of a local header: with bit 3
      set the checksum and both sizes are zero there. */
  predicate IsLocalHeader(h: seq<byte>, nameLength: nat) {
    && |h| == 30 && U32At(h, 0) == LOCAL_SIGNATURE && U16At(h, 4) == 20 && U16At(h, 6) == FLAGS && U16At(h, 8) == 0
    && U16At(h, 10) == 0 && U16At(h, 12) == 0 && U32At(h, 14) == 0 && U32At(h, 18) == 0 && U32At(h, 22) == 0
    && U16At(h, 26) == nameLength && U16At(h, 28) == 0
  }

  predicate IsDescriptor(d: seq<byte>, crc: nat, size: nat) {
    && |d| == 16 && U32At(d, 0) == DESCRIPTOR_SIGNATURE
    && U32At(d, 4) == crc && U32At(d, 8) == size && U32At(d, 12) == size
  }

  /** Versions, flags, method, time, date, checksum and sizes of a central entry. */
  predicate IsCentralStart(e: seq<byte>, crc: nat, size: nat) {
    && |e| == 46 && U32At(e, 0) == CENTRAL_SIGNATURE && U16At(e, 4) == 20 && U16At(e, 6) == 20
    && U16At(e, 8) == FLAGS && U16At(e, 10) == 0 && U16At(e, 12) == 0 && U16At(e, 14) == 0
    && U32At(e, 16) == crc && U32At(e, 20) == size && U32At(e, 24) == size
  }

  /** Lengths, disk number, attributes and header offset of a central entry. */
  predicate IsCentralEnd(e: seq<byte>, nameLength: nat, offset: nat) {
    && |e| == 46 && U16At(e, 28) == nameLength && U16At(e, 30) == 0 && U16At(e, 32) == 0
    && U16At(e, 34) == 0 && U16At(e, 36) == 0 && U32At(e, 38) == 0 && U32At(e, 42) == offset
  }

  predicate IsCentralHeader(e: seq<byte>, nameLength: nat, crc: nat, size: nat, offset: nat) {
    IsCentralStart(e, crc, size) && IsCentralEnd(e, nameLength, offset)
  }

  predicate IsEndRecord(r: seq<byte>, count: nat, size: nat, offset: nat) {
    && |r| == 22 && U32At(r, 0) == END_SIGNATURE && U16At(r, 4) == 0 && U16At(r, 6) == 0
    && U16At(r, 8) == count && U16At(r, 10) == count
    && U32At(r, 12) == size && U32At(r, 16) == offset && U16At(r, 20) == 0
  }

  lemma HeaderLengths(nameLength: nat, crc: nat, size: nat, offset: nat)
    requires nameLength < U16_LIMIT && crc < U32_LIMIT && size < U32_LIMIT && offset < U32_LIMIT
    ensures |LocalHeader(nameLength)| == 30 && |Descriptor(crc, size)| == 16
    ensures |CentralHeader(nameLength, crc, size, offset)| == 46
  {
  }

  lemma LocalHeaderFields(nameLength: nat)
    requires nameLength < U16_LIMIT
    ensures IsLocalHeader(LocalHeader(nameLength), nameLength)
  {
  }

  lemma DescriptorFields(crc: nat, size: nat)
    requires crc < U32_LIMIT && size < U32_LIMIT
    ensures IsDescriptor(Descriptor(crc, size), crc, size)
  {
    U32AtLe32(crc);
    U32AtLe32(size);
  }

  lemma CentralHeaderWords(nameLength: nat, crc: nat, size: nat, offset: nat)
    requires nameLength < U16_LIMIT && crc < U32_LIMIT && size < U32_LIMIT && offset < U32_LIMIT
    ensures var e := CentralHeader(nameLength, crc, size, offset);
            && |e| == 46 && U32At(e, 0) == CENTRAL_SIGNATURE && U16At(e, 4) == 20 && U16At(e, 6) == 20
            && U16At(e, 8) == FLAGS && U16At(e, 10) == 0 && U16At(e, 12) == 0 && U16At(e, 14) == 0
  {
    hide Le32;
    U32AtLe32(CENTRAL_SIGNATURE);
  }

  lemma CentralHeaderSizes(nameLength: nat, crc: nat, size: nat, offset: nat)
    requires nameLength < U16_LIMIT && crc < U32_LIMIT && size < U32_LIMIT && offset < U32_LIMIT
    ensures var e := CentralHeader(nameLength, crc, size, offset);
            |e| == 46 && U32At(e, 16) == crc && U32At(e, 20) == size && U32At(e, 24) == size
  {
    U32AtLe32(crc);
    U32AtLe32(size);
  }

  lemma CentralHeaderLastFields(nameLength: nat, crc: nat, size: nat, offset: nat)
    requires nameLength < U16_LIMIT && crc < U32_LIMIT && size < U32_LIMIT && offset < U32_LIMIT
    ensures IsCentralEnd(CentralHeader(nameLength, crc, size, offset), nameLength, offset)
  {
    U32AtLe32(offset);
  }

  lemma CentralHeaderFields(nameLength: nat, crc: nat, size: nat, offset: nat)
    requires nameLength < U16_LIMIT && crc < U32_LIMIT && size < U32_LIMIT && offset < U32_LIMIT
    ensures IsCentralHeader(CentralHeader(nameLength, crc, size, offset), nameLength, crc, size, offset)
  {
    hide CentralHeader, IsCentralEnd, U16At, U32At;
    CentralHeaderWords(nameLength, crc, size, offset);
    CentralHeaderSizes(nameLength, crc, size, offset);
    CentralHeaderLastFields(nameLength, crc, size, offset);
  }

  lemma EndRecordFields(count: nat, size: nat, offset: nat)
    requires count < U16_LIMIT && size < U32_LIMIT && offset < U32_LIMIT
    ensures IsEndRecord(EndRecord(count, size, offset), count, size, offset)
  {
    U32AtLe32(size);
    U32AtLe32(offset);
  }
}
