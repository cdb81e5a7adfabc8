/** The archive as one byte sequence, a reader that finds files through the
    central directory, and the proof that the reader gets back what was stored. */
module ZipArchive {
  import opened Options
  import opened ZipFormat
  import opened Concat

  // ------------------------------------------------------- archive contents

  /** One entry's bytes before the central directory: header, data, descriptor. */
  function LocalBlock(sum: Checksum, f: File): (b: seq<byte>)
    requires StorableFile(f)
  {
    LocalHeader(|f.name|) + f.name + f.data + Descriptor(sum.Of(f.data), |f.data|)
  }

  predicate StorableFile(f: File) {
    |f.name| < U16_LIMIT && |f.data| < U32_LIMIT
  }

  predicate Storable(files: seq<File>) {
    forall i :: 0 <= i < |files| ==> StorableFile(files[i])
  }

  function Blocks(sum: Checksum, files: seq<File>): seq<seq<byte>>
    requires Storable(files)
  {
    seq(|files|, i requires 0 <= i < |files| => LocalBlock(sum, files[i]))
  }

  function Locals(sum: Checksum, files: seq<File>): seq<byte>
    requires Storable(files)
  {
    Join(Blocks(sum, files))
  }

  /** The offset at which entry `i` starts. */
  function Offset(sum: Checksum, files: seq<File>, i: nat): nat
    requires Storable(files) && i <= |files|
  {
    |Locals(sum, files[..i])|
  }

  /** Every entry starts below 4 GiB. */
  predicate OffsetsFit(sum: Checksum, files: seq<File>)
    requires Storable(files)
  {
    forall i :: 0 <= i < |files| ==> Offset(sum, files, i) < U32_LIMIT
  }

  function EntryAt(sum: Checksum, f: File, offset: nat): seq<byte>
    requires StorableFile(f) && offset < U32_LIMIT
  {
    CentralHeader(|f.name|, sum.Of(f.data), |f.data|, offset) + f.name
  }

  function Entries(sum: Checksum, files: seq<File>): seq<seq<byte>>
    requires Storable(files) && OffsetsFit(sum, files)
  {
    seq(|files|, i requires 0 <= i < |files| => EntryAt(sum, files[i], Offset(sum, files, i)))
  }

  /** The central directory. */
  function Central(sum: Checksum, files: seq<File>): seq<byte>
    requires Storable(files) && OffsetsFit(sum, files)
  {
    Join(Entries(sum, files))
  }

  /** What the 16- and 32-bit fields of the format can hold. */
  predicate Fits(sum: Checksum, files: seq<File>) {
    && Storable(files)
    && OffsetsFit(sum, files)
    && |Locals(sum, files)| < U32_LIMIT
    && |Central(sum, files)| < U32_LIMIT
    && |files| < U16_LIMIT
  }

  function Archive(sum: Checksum, files: seq<File>): seq<byte>
    requires Fits(sum, files)
  {
    Locals(sum, files) + Central(sum, files)
    + EndRecord(|files|, |Central(sum, files)|, |Locals(sum, files)|)
  }

  // ------------------------------------------------------------------ reader

  datatype EndFields = EndFields(count: nat, size: nat, offset: nat)

  /** Reads the end record from the last 22 bytes. */
  function ReadEnd(b: seq<byte>): Option<EndFields> {
    if |b| < 22 then None
    else
      var r := b[|b| - 22..];
      var e := EndFields(U16At(r, 8), U32At(r, 12), U32At(r, 16));
      if IsEndRecord(r, e.count, e.size, e.offset) && e.offset + e.size == |b| - 22 then Some(e) else None
  }

  datatype CentralFields = CentralFields(name: seq<byte>, crc: nat, size: nat, offset: nat)

  function ReadCentral(b: seq<byte>, at: nat): Option<CentralFields> {
    if at + 46 > |b| then None
    else
      var h := b[at..at + 46];
      var n := U16At(h, 28);
      if IsCentralHeader(h, n, U32At(h, 16), U32At(h, 20), U32At(h, 42)) && at + 46 + n <= |b|
      then Some(CentralFields(b[at + 46..at + 46 + n], U32At(h, 16), U32At(h, 20), U32At(h, 42)))
      else None
  }

  /** Follows a central entry to its local header, checks header, data
      descriptor and checksum against the entry, and returns the data. */
  function ReadLocal(sum: Checksum, b: seq<byte>, c: CentralFields): Option<File> {
    var start := c.offset + 30 + |c.name|;
    var end := start + c.size;
    if end + 16 > |b| then None
    else if !IsLocalHeader(b[c.offset..c.offset + 30], |c.name|) then None
    else if b[c.offset + 30..start] != c.name then None
    else if !IsDescriptor(b[end..end + 16], c.crc, c.size) then None
    else if sum.Of(b[start..end]) != c.crc then None
    else Some(File(c.name, b[start..end]))
  }

  /** Walks `count` central entries from `at`; they must end exactly at `limit`. */
  function ReadEntries(sum: Checksum, b: seq<byte>, at: nat, limit: nat, count: nat): Option<seq<File>>
    decreases count
  {
    if count == 0 then (if at == limit then Some([]) else None)
    else
      match ReadCentral(b, at)
      case None => None
      case Some(c) =>
        match ReadLocal(sum, b, c)
        case None => None
        case Some(f) =>
          match ReadEntries(sum, b, at + 46 + |c.name|, limit, count - 1)
          case None => None
          case Some(rest) => Some([f] + rest)
  }

  function ReadArchive(sum: Checksum, b: seq<byte>): Option<seq<File>> {
    match ReadEnd(b)
    case None => None
    case Some(e) => ReadEntries(sum, b, e.offset, e.offset + e.size, e.count)
  }

  // ------------------------------------------------------------------ layout

  lemma LocalBlockLength(sum: Checksum, f: File)
    requires StorableFile(f)
    ensures |LocalBlock(sum, f)| == 46 + |f.name| + |f.data|
  {
    LocalHeaderFields(|f.name|);
    DescriptorFields(sum.Of(f.data), |f.data|);
  }

  function SumLocal(files: seq<File>): nat {
    if files == [] then 0
    else SumLocal(files[..|files| - 1]) + 46 + |files[|files| - 1].name| + |files[|files| - 1].data|
  }

  function SumCentral(files: seq<File>): nat {
    if files == [] then 0 else SumCentral(files[..|files| - 1]) + 46 + |files[|files| - 1].name|
  }

  lemma EntryLength(sum: Checksum, f: File, offset: nat)
    requires StorableFile(f) && offset < U32_LIMIT
    ensures |EntryAt(sum, f, offset)| == 46 + |f.name|
  {
    CentralHeaderFields(|f.name|, sum.Of(f.data), |f.data|, offset);
  }

  lemma {:induction false} LocalsLength(sum: Checksum, files: seq<File>)
    requires Storable(files)
    ensures |Locals(sum, files)| == SumLocal(files)
  {
    if files != [] {
      var n := |files| - 1;
      LocalsLength(sum, files[..n]);
      LocalBlockLength(sum, files[n]);
      assert Blocks(sum, files)[..n] == Blocks(sum, files[..n]);
    }
  }

  lemma {:induction false} EntriesLength(sum: Checksum, files: seq<File>, n: nat)
    requires Storable(files) && OffsetsFit(sum, files) && n <= |files|
    ensures |Join(Entries(sum, files)[..n])| == SumCentral(files[..n])
  {
    hide LocalBlock, EntryAt;
    if n > 0 {
      EntriesLength(sum, files, n - 1);
      assert files[..n][..n - 1] == files[..n - 1];
      assert Entries(sum, files)[..n][..n - 1] == Entries(sum, files)[..n - 1];
      EntryLength(sum, files[n - 1], Offset(sum, files, n - 1));
    }
  }

  /** Adding a file appends its block and moves no earlier entry. */
  lemma AddFile(sum: Checksum, files: seq<File>, f: File)
    requires Storable(files) && StorableFile(f)
    ensures Storable(files + [f])
    ensures Locals(sum, files + [f]) == Locals(sum, files) + LocalBlock(sum, f)
    ensures forall i :: 0 <= i <= |files| ==> Offset(sum, files + [f], i) == Offset(sum, files, i)
    ensures Offset(sum, files, |files|) == |Locals(sum, files)|
  {
    hide LocalBlock;
    var g := files + [f];
    assert Blocks(sum, g) == Blocks(sum, files) + [LocalBlock(sum, f)];
    JoinSnoc(Blocks(sum, files), LocalBlock(sum, f));
    forall i | 0 <= i <= |files|
      ensures Offset(sum, g, i) == Offset(sum, files, i)
    {
      assert g[..i] == files[..i];
    }
    assert files[..|files|] == files;
  }

  /** The offsets and sizes of the layout in closed form: entry `i` starts at
      the sum of 46 + |name| + |data| over the earlier entries, and the
      directory has the sum of 46 + |name|. */
  lemma LayoutSizes(sum: Checksum, files: seq<File>)
    requires Fits(sum, files)
    ensures forall i :: 0 <= i <= |files| ==> Offset(sum, files, i) == SumLocal(files[..i])
    ensures |Central(sum, files)| == SumCentral(files)
    ensures |Archive(sum, files)| == SumLocal(files) + SumCentral(files) + 22
  {
    hide LocalBlock, EntryAt, EndRecord;
    forall i | 0 <= i <= |files|
      ensures Offset(sum, files, i) == SumLocal(files[..i])
    {
      LocalsLength(sum, files[..i]);
    }
    LocalsLength(sum, files);
    EntriesLength(sum, files, |files|);
    assert files[..|files|] == files && Entries(sum, files)[..|files|] == Entries(sum, files);
    EndRecordFields(|files|, |Central(sum, files)|, |Locals(sum, files)|);
  }

  lemma ReadLocalParts(sum: Checksum, b: seq<byte>, offset: nat, h: seq<byte>, f: File, d: seq<byte>)
    requires |h| == 30 && |d| == 16
    requires IsLocalHeader(h, |f.name|) && IsDescriptor(d, sum.Of(f.data), |f.data|)
    requires offset + |h| + |f.name| + |f.data| + |d| <= |b|
    requires b[offset..offset + |h| + |f.name| + |f.data| + |d|] == h + f.name + f.data + d
    ensures ReadLocal(sum, b, CentralFields(f.name, sum.Of(f.data), |f.data|, offset)) == Some(f)
  {
    hide *;
    var n, m := |f.name|, |f.data|;
    FourParts(h, f.name, f.data, d);
    SubSlice(b, offset, offset + 46 + n + m, 0, 30);
    SubSlice(b, offset, offset + 46 + n + m, 30, 30 + n);
    SubSlice(b, offset, offset + 46 + n + m, 30 + n, 30 + n + m);
    SubSlice(b, offset, offset + 46 + n + m, 30 + n + m, 46 + n + m);
    ReadLocalPieces(sum, b, CentralFields(f.name, sum.Of(f.data), m, offset), h, f.data, d);
  }

  lemma ReadLocalPieces(sum: Checksum, b: seq<byte>, c: CentralFields, h: seq<byte>, data: seq<byte>, d: seq<byte>)
    requires IsLocalHeader(h, |c.name|) && IsDescriptor(d, c.crc, c.size) && sum.Of(data) == c.crc
    requires c.offset + 46 + |c.name| + c.size <= |b|
    requires b[c.offset..c.offset + 30] == h && b[c.offset + 30..c.offset + 30 + |c.name|] == c.name
    requires b[c.offset + 30 + |c.name|..c.offset + 30 + |c.name| + c.size] == data
    requires b[c.offset + 30 + |c.name| + c.size..c.offset + 46 + |c.name| + c.size] == d
    ensures ReadLocal(sum, b, c) == Some(File(c.name, data))
  {
    hide IsLocalHeader, IsDescriptor, Checksum.Of;
  }

  lemma ReadLocalAt(sum: Checksum, b: seq<byte>, f: File, offset: nat)
    requires StorableFile(f)
    requires offset + |LocalBlock(sum, f)| <= |b|
    requires b[offset..offset + |LocalBlock(sum, f)|] == LocalBlock(sum, f)
    ensures ReadLocal(sum, b, CentralFields(f.name, sum.Of(f.data), |f.data|, offset)) == Some(f)
  {
    hide LocalHeader, Descriptor, ReadLocal, IsLocalHeader, IsDescriptor, Checksum.Of;
    LocalHeaderFields(|f.name|);
    DescriptorFields(sum.Of(f.data), |f.data|);
    HeaderLengths(|f.name|, sum.Of(f.data), |f.data|, 0);
    ReadLocalParts(sum, b, offset, LocalHeader(|f.name|), f, Descriptor(sum.Of(f.data), |f.data|));
  }

  lemma ReadEntryParts(b: seq<byte>, at: nat, h: seq<byte>, c: CentralFields)
    requires |h| == 46 && IsCentralHeader(h, |c.name|, c.crc, c.size, c.offset)
    requires at + 46 + |c.name| <= |b| && b[at..at + 46] == h && b[at + 46..at + 46 + |c.name|] == c.name
    ensures ReadCentral(b, at) == Some(c)
  {
  }

  lemma ReadEntryAt(sum: Checksum, b: seq<byte>, at: nat, f: File, offset: nat)
    requires StorableFile(f) && offset < U32_LIMIT
    requires at + |EntryAt(sum, f, offset)| <= |b|
    requires b[at..at + |EntryAt(sum, f, offset)|] == EntryAt(sum, f, offset)
    ensures ReadCentral(b, at) == Some(CentralFields(f.name, sum.Of(f.data), |f.data|, offset))
  {
    hide CentralHeader, IsCentralHeader, U16At, U32At, Checksum.Of, ReadCentral;
    var h, n := CentralHeader(|f.name|, sum.Of(f.data), |f.data|, offset), |f.name|;
    CentralHeaderFields(n, sum.Of(f.data), |f.data|, offset);
    HeaderLengths(n, sum.Of(f.data), |f.data|, offset);
    FourParts(h, f.name, [], []);
    assert h + f.name == h + f.name + [] + [];
    SubSlice(b, at, at + 46 + n, 0, 46);
    SubSlice(b, at, at + 46 + n, 46, 46 + n);
    ReadEntryParts(b, at, h, CentralFields(f.name, sum.Of(f.data), |f.data|, offset));
  }

  /** The position of central entry `i` in the archive. */
  function EntryPosition(sum: Checksum, files: seq<File>, i: nat): nat
    requires Fits(sum, files) && i <= |files|
  {
    |Locals(sum, files)| + |Join(Entries(sum, files)[..i])|
  }

  lemma EntryInArchive(sum: Checksum, files: seq<File>, i: nat)
    requires Fits(sum, files) && i < |files|
    ensures var at := EntryPosition(sum, files, i);
            var entry := EntryAt(sum, files[i], Offset(sum, files, i));
            && EntryPosition(sum, files, i + 1) == at + |entry| <= |Archive(sum, files)|
            && Archive(sum, files)[at..at + |entry|] == entry
  {
    hide LocalBlock, EntryAt, EndRecord, Locals, OffsetsFit;
    var es := Entries(sum, files);
    PartAt(es, i);
    assert es[..i + 1] == es[..i] + [es[i]];
    JoinSnoc(es[..i], es[i]);
    PrefixParts(Locals(sum, files), Central(sum, files), EndRecord(|files|, |Central(sum, files)|, |Locals(sum, files)|),
                |Join(es[..i])|, |es[i]|);
  }

  lemma BlockInArchive(sum: Checksum, files: seq<File>, i: nat)
    requires Fits(sum, files) && i < |files|
    ensures var block := LocalBlock(sum, files[i]);
            && Offset(sum, files, i) + |block| <= |Archive(sum, files)|
            && Archive(sum, files)[Offset(sum, files, i)..Offset(sum, files, i) + |block|] == block
  {
    hide LocalBlock, EntryAt, EndRecord, OffsetsFit, Central;
    PartAt(Blocks(sum, files), i);
    assert Blocks(sum, files)[..i] == Blocks(sum, files[..i]);
  }

  lemma PrefixParts(a: seq<byte>, c: seq<byte>, e: seq<byte>, i: nat, n: nat)
    requires i + n <= |c|
    ensures (a + c + e)[|a| + i..|a| + i + n] == c[i..i + n]
  {
  }

  lemma FitsEntry(sum: Checksum, files: seq<File>, i: nat)
    requires Fits(sum, files) && i < |files|
    ensures Storable(files) && StorableFile(files[i]) && Offset(sum, files, i) < U32_LIMIT
  {
  }

  lemma ReadStep(sum: Checksum, files: seq<File>, b: seq<byte>, i: nat)
    requires Fits(sum, files) && i < |files| && b == Archive(sum, files)
    ensures var f, at := files[i], EntryPosition(sum, files, i);
            var c := CentralFields(f.name, sum.Of(f.data), |f.data|, Offset(sum, files, i));
            && ReadCentral(b, at) == Some(c) && ReadLocal(sum, b, c) == Some(f)
            && EntryPosition(sum, files, i + 1) == at + 46 + |f.name|
  {
    hide *;
    FitsEntry(sum, files, i);
    EntryInArchive(sum, files, i);
    BlockInArchive(sum, files, i);
    EntryLength(sum, files[i], Offset(sum, files, i));
    ReadEntryAt(sum, b, EntryPosition(sum, files, i), files[i], Offset(sum, files, i));
    ReadLocalAt(sum, b, files[i], Offset(sum, files, i));
  }

  /** Reading from entry `i` on returns exactly the files from `i` on. */
  lemma {:induction false} ReadEntriesFrom(sum: Checksum, files: seq<File>, b: seq<byte>, i: nat)
    requires Fits(sum, files) && i <= |files| && b == Archive(sum, files)
    ensures ReadEntries(sum, b, EntryPosition(sum, files, i), EntryPosition(sum, files, |files|), |files| - i)
         == Some(files[i..])
    decreases |files| - i
  {
    hide EntryPosition, Archive, Fits, ReadLocal, ReadCentral;
    if i < |files| {
      ReadStep(sum, files, b, i);
      ReadEntriesFrom(sum, files, b, i + 1);
      assert [files[i]] + files[i + 1..] == files[i..];
    } else {
      assert files[i..] == [];
    }
  }

  lemma ReadEndOf(a: seq<byte>, count: nat, size: nat, offset: nat)
    requires count < U16_LIMIT && size < U32_LIMIT && offset < U32_LIMIT && |a| == offset + size
    ensures ReadEnd(a + EndRecord(count, size, offset)) == Some(EndFields(count, size, offset))
  {
    var r := EndRecord(count, size, offset);
    EndRecordFields(count, size, offset);
    assert (a + r)[|a + r| - 22..] == r;
  }

  /** The round trip: every archive whose fields fit reads back as exactly the
      files that were stored, in order. */
  lemma {:induction false} RoundTrip(sum: Checksum, files: seq<File>)
    requires Fits(sum, files)
    ensures ReadArchive(sum, Archive(sum, files)) == Some(files)
  {
    hide LocalBlock, EntryAt, EndRecord, ReadLocal, ReadCentral, ReadEnd, Locals, OffsetsFit;
    assert Entries(sum, files)[..0] == [];
    ReadEndOf(Locals(sum, files) + Central(sum, files), |files|, |Central(sum, files)|, |Locals(sum, files)|);
    ReadEntriesFrom(sum, files, Archive(sum, files), 0);
    assert Entries(sum, files)[..|files|] == Entries(sum, files);
  }
}
