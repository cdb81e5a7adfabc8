/** The bytes of an archive, written out: where each record stands and what it
    holds (PKWARE APPNOTE.TXT, sections 4.3.7, 4.3.9, 4.3.12 and 4.3.16). */
module ZipBytes {
  import opened ZipFormat
  import opened ZipArchive
  import opened Concat

  // ------------------------------------------------------------ the byte layout

  /** The bytes stand at the position. */
  predicate At(b: seq<byte>, at: nat, bytes: seq<byte>) {
    at + |bytes| <= |b| && b[at..at + |bytes|] == bytes
  }

  /** Two and four bytes at the position, the low byte first, are the number. */
  predicate ShortAt(b: seq<byte>, at: nat, v: nat) {
    at + 2 <= |b| && b[at] as int + 0x100 * b[at + 1] as int == v
  }

  predicate LongAt(b: seq<byte>, at: nat, v: nat) {
    && at + 4 <= |b|
    && b[at] as int + 0x100 * b[at + 1] as int + 0x1_0000 * b[at + 2] as int + 0x100_0000 * b[at + 3] as int == v
  }

  /** Signature, version 2.0, flags, stored, no time and date, three unknown sizes. */
  predicate LocalHeaderAt(b: seq<byte>, at: nat, nameLength: nat) {
    && At(b, at, [0x50, 0x4b, 3, 4, 20, 0, 8, 8, 0, 0, 0, 0, 0, 0, 0, 0, 0, 0, 0, 0, 0, 0, 0, 0, 0, 0])
    && ShortAt(b, at + 26, nameLength) && At(b, at + 28, [0, 0])
  }

  predicate DescriptorAt(b: seq<byte>, at: nat, crc: nat, size: nat) {
    At(b, at, [0x50, 0x4b, 7, 8]) && LongAt(b, at + 4, crc) && LongAt(b, at + 8, size) && LongAt(b, at + 12, size)
  }

  /** Header, name, data and descriptor of one file. */
  predicate LocalBlockAt(b: seq<byte>, at: nat, f: File, crc: nat) {
    && LocalHeaderAt(b, at, |f.name|) && At(b, at + 30, f.name) && At(b, at + 30 + |f.name|, f.data)
    && DescriptorAt(b, at + 30 + |f.name| + |f.data|, crc, |f.data|)
  }

  predicate CentralEntryAt(b: seq<byte>, at: nat, f: File, crc: nat, offset: nat) {
    && At(b, at, [0x50, 0x4b, 1, 2, 20, 0, 20, 0, 8, 8, 0, 0, 0, 0, 0, 0])
    && LongAt(b, at + 16, crc) && LongAt(b, at + 20, |f.data|) && LongAt(b, at + 24, |f.data|)
    && ShortAt(b, at + 28, |f.name|) && At(b, at + 30, [0, 0, 0, 0, 0, 0, 0, 0, 0, 0, 0, 0])
    && LongAt(b, at + 42, offset) && At(b, at + 46, f.name)
  }

  predicate EndRecordAt(b: seq<byte>, at: nat, count: nat, size: nat, offset: nat) {
    && At(b, at, [0x50, 0x4b, 5, 6, 0, 0, 0, 0]) && ShortAt(b, at + 8, count) && ShortAt(b, at + 10, count)
    && LongAt(b, at + 12, size) && LongAt(b, at + 16, offset) && At(b, at + 20, [0, 0]) && at + 22 == |b|
  }

  /** The files one after the other, the directory entries in the same order, and
      the end record; every position is a sum of name and data lengths. */
  ghost predicate IsArchive(sum: Checksum, files: seq<File>, b: seq<byte>) {
    && (forall i :: 0 <= i < |files| ==> LocalBlockAt(b, SumLocal(files[..i]), files[i], sum.Of(files[i].data)))
    && (forall i :: 0 <= i < |files| ==>
          CentralEntryAt(b, SumLocal(files) + SumCentral(files[..i]), files[i], sum.Of(files[i].data),
                         SumLocal(files[..i])))
    && EndRecordAt(b, SumLocal(files) + SumCentral(files), |files|, SumCentral(files), SumLocal(files))
  }

  /** What 16 and 32 bits hold. */
  ghost predicate SizesFit(files: seq<File>) {
    && (forall i :: 0 <= i < |files| ==> |files[i].name| < 65536 && |files[i].data| < 4294967296)
    && (forall i :: 0 <= i <= |files| ==> SumLocal(files[..i]) < 4294967296)
    && SumCentral(files) < 4294967296 && |files| < 65536
  }

  // ------------------------------------------------------------------- the proof

  lemma ShortOf(v: nat)
    requires v < U16_LIMIT
    ensures ShortAt(Le16(v), 0, v)
  {
  }

  lemma LongOf(v: nat)
    requires v < U32_LIMIT
    ensures LongAt(Le32(v), 0, v)
  {
    U32AtLe32(v);
  }

  /** What stands in a slice stands in the whole. */
  lemma AtSlice(b: seq<byte>, at: nat, n: nat, i: nat, bytes: seq<byte>)
    requires at + n <= |b| && At(b[at..at + n], i, bytes)
    ensures At(b, at + i, bytes)
  {
    SubSlice(b, at, at + n, i, i + |bytes|);
  }

  lemma ShortSlice(b: seq<byte>, at: nat, n: nat, i: nat, v: nat)
    requires at + n <= |b| && ShortAt(b[at..at + n], i, v)
    ensures ShortAt(b, at + i, v)
  {
  }

  lemma LongSlice(b: seq<byte>, at: nat, n: nat, i: nat, v: nat)
    requires at + n <= |b| && LongAt(b[at..at + n], i, v)
    ensures LongAt(b, at + i, v)
  {
  }

  lemma LocalStartBytes()
    ensures LocalStart() == [0x50, 0x4b, 3, 4, 20, 0, 8, 8, 0, 0, 0, 0, 0, 0, 0, 0, 0, 0, 0, 0, 0, 0, 0, 0, 0, 0]
  {
  }

  lemma CentralStartBytes()
    ensures Le32(CENTRAL_SIGNATURE) + Le16(20) + Le16(20) + Le16(FLAGS) + Le16(0) + Le16(0) + Le16(0)
         == [0x50, 0x4b, 1, 2, 20, 0, 20, 0, 8, 8, 0, 0, 0, 0, 0, 0]
  {
  }

  lemma CentralZeros()
    ensures Le16(0) + Le16(0) + Le16(0) + Le16(0) + Le32(0) == [0, 0, 0, 0, 0, 0, 0, 0, 0, 0, 0, 0]
  {
  }

  /** The pieces of a central header: constants, three words, a length, constants, an offset. */
  function CentralPieces(head: seq<byte>, crc: seq<byte>, size: seq<byte>, name: seq<byte>, zeros: seq<byte>,
                         offset: seq<byte>): seq<byte> {
    head + crc + size + size + name + zeros + offset
  }

  lemma CentralIsPieces(nameLength: nat, crc: nat, size: nat, offset: nat)
    requires nameLength < U16_LIMIT && crc < U32_LIMIT && size < U32_LIMIT && offset < U32_LIMIT
    ensures CentralHeader(nameLength, crc, size, offset)
         == CentralPieces([0x50, 0x4b, 1, 2, 20, 0, 20, 0, 8, 8, 0, 0, 0, 0, 0, 0], Le32(crc), Le32(size),
                          Le16(nameLength), [0, 0, 0, 0, 0, 0, 0, 0, 0, 0, 0, 0], Le32(offset))
  {
    CentralStartBytes();
    CentralZeros();
    hide Le16, Le32;
    var head := Le32(CENTRAL_SIGNATURE) + Le16(20) + Le16(20) + Le16(FLAGS) + Le16(0) + Le16(0) + Le16(0);
    var zeros := Le16(0) + Le16(0) + Le16(0) + Le16(0) + Le32(0);
    var start := head + Le32(crc) + Le32(size) + Le32(size) + Le16(nameLength);
    assert start + Le16(0) + Le16(0) + Le16(0) + Le16(0) + Le32(0) == start + zeros;
  }

  lemma PiecesStand(head: seq<byte>, crc: seq<byte>, size: seq<byte>, name: seq<byte>, zeros: seq<byte>,
                    offset: seq<byte>)
    requires |head| == 16 && |crc| == 4 && |size| == 4 && |name| == 2 && |zeros| == 12 && |offset| == 4
    ensures var e := CentralPieces(head, crc, size, name, zeros, offset);
            && |e| == 46 && e[0..16] == head && e[16..20] == crc && e[20..24] == size && e[24..28] == size
            && e[28..30] == name && e[30..42] == zeros && e[42..46] == offset
  {
  }

  lemma CentralBytes(nameLength: nat, crc: nat, size: nat, offset: nat, e: seq<byte>)
    requires nameLength < U16_LIMIT && crc < U32_LIMIT && size < U32_LIMIT && offset < U32_LIMIT
    requires e == CentralHeader(nameLength, crc, size, offset)
    ensures |e| == 46 && At(e, 0, [0x50, 0x4b, 1, 2, 20, 0, 20, 0, 8, 8, 0, 0, 0, 0, 0, 0])
    ensures LongAt(e, 16, crc) && LongAt(e, 20, size) && LongAt(e, 24, size) && ShortAt(e, 28, nameLength)
    ensures At(e, 30, [0, 0, 0, 0, 0, 0, 0, 0, 0, 0, 0, 0]) && LongAt(e, 42, offset)
  {
    hide Le16, Le32, CentralHeader, CentralPieces, ShortAt, LongAt;
    CentralIsPieces(nameLength, crc, size, offset);
    PiecesStand([0x50, 0x4b, 1, 2, 20, 0, 20, 0, 8, 8, 0, 0, 0, 0, 0, 0], Le32(crc), Le32(size), Le16(nameLength),
                [0, 0, 0, 0, 0, 0, 0, 0, 0, 0, 0, 0], Le32(offset));
    LongOf(crc);
    LongOf(size);
    LongOf(offset);
    ShortOf(nameLength);
    LongSlice(e, 16, 4, 0, crc);
    LongSlice(e, 20, 4, 0, size);
    LongSlice(e, 24, 4, 0, size);
    LongSlice(e, 42, 4, 0, offset);
    ShortSlice(e, 28, 2, 0, nameLength);
  }

  lemma LocalBytes(nameLength: nat, h: seq<byte>)
    requires nameLength < U16_LIMIT && h == LocalHeader(nameLength)
    ensures |h| == 30 && LocalHeaderAt(h, 0, nameLength)
  {
    hide Le32, LocalStart, ShortAt, Le16;
    LocalStartBytes();
    ZeroShort();
    ShortOf(nameLength);
    assert h[26..28] == Le16(nameLength);
    assert h[28..30] == Le16(0);
    ShortSlice(h, 26, 2, 0, nameLength);
  }

  lemma ZeroShort()
    ensures Le16(0) == [0, 0]
  {
  }

  lemma DescriptorStart()
    ensures Le32(DESCRIPTOR_SIGNATURE) == [0x50, 0x4b, 7, 8]
  {
  }

  lemma DescriptorBytes(crc: nat, size: nat, d: seq<byte>)
    requires crc < U32_LIMIT && size < U32_LIMIT && d == Descriptor(crc, size)
    ensures |d| == 16 && DescriptorAt(d, 0, crc, size)
  {
    hide Le32, LongAt;
    DescriptorStart();
    LongOf(crc);
    LongOf(size);
    FourParts(Le32(DESCRIPTOR_SIGNATURE), Le32(crc), Le32(size), Le32(size));
    assert d[4..8] == Le32(crc) && d[8..12] == Le32(size) && d[12..16] == Le32(size);
    LongSlice(d, 4, 4, 0, crc);
    LongSlice(d, 8, 4, 0, size);
    LongSlice(d, 12, 4, 0, size);
  }

  lemma EndStart()
    ensures Le32(END_SIGNATURE) + Le16(0) + Le16(0) == [0x50, 0x4b, 5, 6, 0, 0, 0, 0]
  {
  }

  lemma EndParts(head: seq<byte>, count: seq<byte>, size: seq<byte>, offset: seq<byte>, last: seq<byte>)
    requires |head| == 8 && |count| == 2 && |size| == 4 && |offset| == 4 && |last| == 2
    ensures var r := head + count + count + size + offset + last;
            && |r| == 22 && r[0..8] == head && r[8..10] == count && r[10..12] == count && r[12..16] == size
            && r[16..20] == offset && r[20..22] == last
  {
  }

  lemma EndBytes(count: nat, size: nat, offset: nat, r: seq<byte>)
    requires count < U16_LIMIT && size < U32_LIMIT && offset < U32_LIMIT && r == EndRecord(count, size, offset)
    ensures EndRecordAt(r, 0, count, size, offset)
  {
    hide Le16, Le32, ShortAt, LongAt;
    EndStart();
    ZeroShort();
    EndParts([0x50, 0x4b, 5, 6, 0, 0, 0, 0], Le16(count), Le32(size), Le32(offset), [0, 0]);
    ShortOf(count);
    LongOf(size);
    LongOf(offset);
    ShortSlice(r, 8, 2, 0, count);
    ShortSlice(r, 10, 2, 0, count);
    LongSlice(r, 12, 4, 0, size);
    LongSlice(r, 16, 4, 0, offset);
  }

  lemma BlockBytes(sum: Checksum, f: File, b: seq<byte>, at: nat)
    requires StorableFile(f) && At(b, at, LocalBlock(sum, f))
    ensures LocalBlockAt(b, at, f, sum.Of(f.data))
  {
    hide LocalHeader, Descriptor, ShortAt, LongAt, At, Checksum.Of;
    var n, m := |f.name|, |f.data|;
    var h, d := LocalHeader(n), Descriptor(sum.Of(f.data), m);
    LocalBytes(n, h);
    DescriptorBytes(sum.Of(f.data), m, d);
    FourParts(h, f.name, f.data, d);
    PartsAt(b, at, h, f.name, f.data, d);
    FieldsMove(b, at, 30, n, sum.Of(f.data), m, at + 30 + n + m);
  }

  lemma PartsAt(b: seq<byte>, at: nat, h: seq<byte>, name: seq<byte>, data: seq<byte>, d: seq<byte>)
    requires At(b, at, h + name + data + d)
    ensures At(b, at, h) && At(b, at + |h|, name) && At(b, at + |h| + |name|, data)
    ensures At(b, at + |h| + |name| + |data|, d)
  {
    var n := |h| + |name| + |data| + |d|;
    FourParts(h, name, data, d);
    SubSlice(b, at, at + n, 0, |h|);
    SubSlice(b, at, at + n, |h|, |h| + |name|);
    SubSlice(b, at, at + n, |h| + |name|, |h| + |name| + |data|);
    SubSlice(b, at, at + n, |h| + |name| + |data|, n);
  }

  /** The fields of a header and a descriptor stand where the records stand. */
  lemma FieldsMove(b: seq<byte>, at: nat, hl: nat, nameLength: nat, crc: nat, size: nat, dt: nat)
    requires hl == 30 && nameLength < U16_LIMIT && crc < U32_LIMIT && size < U32_LIMIT
    requires At(b, at, LocalHeader(nameLength)) && At(b, dt, Descriptor(crc, size))
    ensures LocalHeaderAt(b, at, nameLength) && DescriptorAt(b, dt, crc, size)
  {
    hide LocalHeader, Descriptor, ShortAt, LongAt;
    var h, d := LocalHeader(nameLength), Descriptor(crc, size);
    LocalBytes(nameLength, h);
    DescriptorBytes(crc, size, d);
    AtSlice(b, at, 30, 0, [0x50, 0x4b, 3, 4, 20, 0, 8, 8, 0, 0, 0, 0, 0, 0, 0, 0, 0, 0, 0, 0, 0, 0, 0, 0, 0, 0]);
    ShortSlice(b, at, 30, 26, nameLength);
    AtSlice(b, at, 30, 28, [0, 0]);
    AtSlice(b, dt, 16, 0, [0x50, 0x4b, 7, 8]);
    LongSlice(b, dt, 16, 4, crc);
    LongSlice(b, dt, 16, 8, size);
    LongSlice(b, dt, 16, 12, size);
  }

  lemma EntryBytes(sum: Checksum, f: File, offset: nat, b: seq<byte>, at: nat)
    requires StorableFile(f) && offset < U32_LIMIT && At(b, at, EntryAt(sum, f, offset))
    ensures CentralEntryAt(b, at, f, sum.Of(f.data), offset)
  {
    hide CentralHeader, ShortAt, LongAt, Checksum.Of;
    var n, m, crc := |f.name|, |f.data|, sum.Of(f.data);
    var e := CentralHeader(n, crc, m, offset);
    CentralBytes(n, crc, m, offset, e);
    assert e + f.name == e + f.name + [] + [];
    PartsAt(b, at, e, f.name, [], []);
    AtSlice(b, at, 46, 0, [0x50, 0x4b, 1, 2, 20, 0, 20, 0, 8, 8, 0, 0, 0, 0, 0, 0]);
    LongSlice(b, at, 46, 16, crc);
    LongSlice(b, at, 46, 20, m);
    LongSlice(b, at, 46, 24, m);
    ShortSlice(b, at, 46, 28, n);
    AtSlice(b, at, 46, 30, [0, 0, 0, 0, 0, 0, 0, 0, 0, 0, 0, 0]);
    LongSlice(b, at, 46, 42, offset);
  }

  lemma EndOfArchive(a: seq<byte>, count: nat, size: nat, offset: nat)
    requires count < U16_LIMIT && size < U32_LIMIT && offset < U32_LIMIT
    ensures EndRecordAt(a + EndRecord(count, size, offset), |a|, count, size, offset)
  {
    hide EndRecord, ShortAt, LongAt;
    var r := EndRecord(count, size, offset);
    var b := a + r;
    EndBytes(count, size, offset, r);
    assert b[|a|..|a| + 22] == r;
    AtSlice(b, |a|, 22, 0, [0x50, 0x4b, 5, 6, 0, 0, 0, 0]);
    ShortSlice(b, |a|, 22, 8, count);
    ShortSlice(b, |a|, 22, 10, count);
    LongSlice(b, |a|, 22, 12, size);
    LongSlice(b, |a|, 22, 16, offset);
    AtSlice(b, |a|, 22, 20, [0, 0]);
  }

  lemma EntryPositions(sum: Checksum, files: seq<File>, i: nat)
    requires Fits(sum, files) && i <= |files|
    ensures EntryPosition(sum, files, i) == SumLocal(files) + SumCentral(files[..i])
    ensures Offset(sum, files, i) == SumLocal(files[..i])
  {
    hide LocalBlock, EntryAt, Locals;
    LocalsLength(sum, files);
    LocalsLength(sum, files[..i]);
    EntriesLength(sum, files, i);
  }

  /** Every archive has these bytes. */
  lemma ArchiveBytes(sum: Checksum, files: seq<File>)
    requires Fits(sum, files)
    ensures IsArchive(sum, files, Archive(sum, files))
  {
    hide LocalBlock, EntryAt, EndRecord, Locals, Central, Offset, EntryPosition, SumLocal, SumCentral, Archive, Fits,
         LocalBlockAt, CentralEntryAt, EndRecordAt, Checksum.Of;
    var b := Archive(sum, files);
    forall i | 0 <= i < |files|
      ensures LocalBlockAt(b, SumLocal(files[..i]), files[i], sum.Of(files[i].data))
      ensures CentralEntryAt(b, SumLocal(files) + SumCentral(files[..i]), files[i], sum.Of(files[i].data),
                             SumLocal(files[..i]))
    {
      FitsEntry(sum, files, i);
      BlockInArchive(sum, files, i);
      EntryInArchive(sum, files, i);
      EntryPositions(sum, files, i);
      BlockBytes(sum, files[i], b, Offset(sum, files, i));
      EntryBytes(sum, files[i], Offset(sum, files, i), b, EntryPosition(sum, files, i));
    }
    ArchiveEnd(sum, files);
  }

  lemma ArchiveEnd(sum: Checksum, files: seq<File>)
    requires Fits(sum, files)
    ensures EndRecordAt(Archive(sum, files), SumLocal(files) + SumCentral(files), |files|, SumCentral(files),
                        SumLocal(files))
  {
    hide LocalBlock, EntryAt, EndRecord, Locals, Central, OffsetsFit, EndRecordAt;
    LayoutSizes(sum, files);
    LocalsLength(sum, files);
    EndOfArchive(Locals(sum, files) + Central(sum, files), |files|, |Central(sum, files)|, |Locals(sum, files)|);
  }

  /** The fields fit exactly when every size, offset and count is in range. */
  lemma FitsMeans(sum: Checksum, files: seq<File>)
    ensures Fits(sum, files) <==> SizesFit(files)
  {
    hide LocalBlock, EntryAt, Locals;
    if Storable(files) {
      forall i | 0 <= i <= |files|
        ensures Offset(sum, files, i) == SumLocal(files[..i])
      {
        LocalsLength(sum, files[..i]);
      }
      LocalsLength(sum, files);
      assert files[..|files|] == files;
      if OffsetsFit(sum, files) {
        EntriesLength(sum, files, |files|);
        assert Entries(sum, files)[..|files|] == Entries(sum, files);
      }
    }
  }
}
