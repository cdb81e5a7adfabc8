/** The streaming ZIP writer and the channel writer under it. */
module ZipWriter {
  import opened Options
  import opened Concat
  import opened ZipFormat
  import opened ZipArchive
  import opened ZipBytes

  const CHUNK_SIZE: nat := 64 * 1024

  datatype ZipError =
    | StreamClosed | ArchiveTooBig | EntryTooBig | CentralTooBig | TooManyEntries | NameTooLong | SourceFailed

  datatype Outcome = Done | Failed(error: ZipError)

  /** The response channel. Its receiver may hang up after any number of chunks. */
  class ChunkSender {
    var sent: seq<seq<byte>>
    const hangUpAfter: Option<nat>

    constructor (hangUpAfter: Option<nat>)
      ensures sent == [] && this.hangUpAfter == hangUpAfter
    {
      sent := [];
      this.hangUpAfter := hangUpAfter;
    }

    predicate HungUp()
      reads this
    {
      hangUpAfter.Some? && hangUpAfter.value <= |sent|
    }

    method BlockingSend(chunk: seq<byte>) returns (ok: bool)
      modifies this
      ensures ok == !old(HungUp())
      ensures sent == if ok then old(sent) + [chunk] else old(sent)
    {
      ok := !HungUp();
      if ok {
        sent := sent + [chunk];
      }
    }
  }

  /** Collects small writes into chunks for the response channel. */
  class ChannelZipWriter {
    const sender: ChunkSender
    var buffer: seq<byte>

    constructor (sender: ChunkSender)
      requires sender.sent == []
      ensures Valid() && Output() == [] && this.sender == sender
    {
      this.sender := sender;
      buffer := [];
    }

    /** Every chunk sent is full, and less than one chunk is held back. */
    ghost predicate Valid()
      reads this, sender
    {
      |buffer| < CHUNK_SIZE && ChunksInRange(sender.sent)
    }

    /** Everything accepted so far, sent or held back. */
    ghost function Output(): seq<byte>
      reads this, sender
    {
      Join(sender.sent) + buffer
    }

    method FlushBuffer() returns (ok: bool)
      requires |buffer| < 2 * CHUNK_SIZE && ChunksInRange(sender.sent)
      modifies this, sender
      ensures ok == (old(buffer) == [] || !old(sender.HungUp()))
      ensures sender.sent == if ok && old(buffer) != [] then old(sender.sent) + [old(buffer)] else old(sender.sent)
      ensures ok ==> buffer == [] && Output() == old(Output())
      ensures ok && (old(buffer) == [] || |old(buffer)| >= CHUNK_SIZE) ==> Valid()
      ensures !ok ==> sender.HungUp()
    {
      if buffer == [] {
        return true;
      }
      var chunk := buffer;
      buffer := [];
      ok := sender.BlockingSend(chunk);
      if ok {
        JoinSnoc(old(sender.sent), chunk);
      }
    }

    method Write(bytes: seq<byte>) returns (ok: bool)
      requires Valid() && |bytes| <= CHUNK_SIZE
      modifies this, sender
      ensures ok ==> Valid() && Output() == old(Output()) + bytes
      ensures !ok ==> sender.HungUp() && sender.sent == old(sender.sent)
    {
      AppendAssoc(Join(sender.sent), buffer, bytes);
      buffer := buffer + bytes;
      if |buffer| >= CHUNK_SIZE {
        ok := FlushBuffer();
        return;
      }
      return true;
    }
  }

  /** Full chunks: at least 64 and less than 128 KiB. */
  ghost predicate ChunksInRange(chunks: seq<seq<byte>>) {
    forall i :: 0 <= i < |chunks| ==> 65536 <= |chunks[i]| < 131072
  }

  /** Full chunks, but for a last one that is shorter and not empty. */
  ghost predicate ProperChunks(chunks: seq<seq<byte>>) {
    && (forall i :: 0 <= i < |chunks| ==> 0 < |chunks[i]| < 131072)
    && (forall i :: 0 <= i < |chunks| - 1 ==> 65536 <= |chunks[i]|)
  }

  /** A source file: it yields its bytes in pieces of any size up to the buffer,
      then end of file, or an error. */
  class ReadSource {
    const chunks: seq<seq<byte>>
    const fails: bool
    var next: nat

    constructor (chunks: seq<seq<byte>>, fails: bool)
      requires PiecesInRange(chunks)
      ensures Valid() && this.chunks == chunks && this.fails == fails && next == 0
    {
      this.chunks, this.fails, next := chunks, fails, 0;
    }

    ghost predicate Valid()
      reads this
    {
      next <= |chunks| && PiecesInRange(chunks)
    }

    /** `None` is a read error; an empty piece is end of file. */
    method Read() returns (piece: Option<seq<byte>>)
      requires Valid()
      modifies this
      ensures Valid()
      ensures old(next) < |chunks| ==> next == old(next) + 1 && piece == Some(chunks[old(next)])
      ensures old(next) == |chunks| ==> next == old(next) && piece == if fails then None else Some([])
    {
      if next < |chunks| {
        piece := Some(chunks[next]);
        next := next + 1;
      } else {
        piece := if fails then None else Some([]);
      }
    }
  }

  ghost predicate PiecesInRange(chunks: seq<seq<byte>>) {
    forall i :: 0 <= i < |chunks| ==> 0 < |chunks[i]| <= CHUNK_SIZE
  }

  datatype CentralDirectoryEntry = CentralDirectoryEntry(
    name: seq<byte>, crc32: nat, compressedSize: nat, uncompressedSize: nat, headerOffset: nat)

  class StreamingZipWriter {
    const sum: Checksum
    const inner: ChannelZipWriter
    var entries: seq<CentralDirectoryEntry>
    var position: nat
    ghost var files: seq<File>   // the files added so far
    ghost var base: seq<byte>    // the output when the current record began
    ghost var tail: seq<byte>    // what the current record has written since
    ghost var goal: seq<byte>    // all that the current record is to write

    constructor (sum: Checksum, inner: ChannelZipWriter)
      requires inner.Valid() && inner.Output() == []
      ensures Valid() && files == [] && this.inner == inner && this.sum == sum
    {
      this.sum, this.inner := sum, inner;
      entries, position := [], 0;
      files, base, tail, goal := [], [], [], [];
    }

    /** `position` counts the bytes written. */
    ghost predicate Counting()
      reads this`position, inner, inner.sender
    {
      inner.Valid() && position == |inner.Output()|
    }

    /** Between two entries: the output is exactly the local blocks of `files`. */
    ghost predicate Valid()
      reads this, inner, inner.sender
    {
      && Counting()
      && Storable(files) && OffsetsFit(sum, files)
      && inner.Output() == Locals(sum, files)
      && EntriesMatch(sum, entries, files)
    }

    /** After a failure: what was sent is in proper chunks, and no more than the
        output up to the end of the current record. */
    ghost predicate Broken()
      reads this`base, this`goal, inner, inner.sender
    {
      ChunksInRange(inner.sender.sent) && Join(inner.sender.sent) <= base + goal
    }

    /** Between two writes of one record. */
    ghost predicate Writing()
      reads this`position, this`base, this`tail, this`goal, inner, inner.sender
    {
      Counting() && inner.Output() == base + tail && tail <= goal
    }

    lemma BrokenSoFar(start: seq<byte>, all: seq<byte>)
      requires ChunksInRange(inner.sender.sent) && Join(inner.sender.sent) <= start && start <= base + all
      ensures ChunksInRange(inner.sender.sent) && Join(inner.sender.sent) <= base + all
    {
    }

    lemma CountsBytes()
      requires Counting()
      ensures position == |inner.Output()|
    {
    }

    method WriteCounted(bytes: seq<byte>) returns (ok: bool)
      requires Writing() && |bytes| <= CHUNK_SIZE && tail + bytes <= goal
      modifies this`position, this`tail, inner, inner.sender
      ensures ok ==> Writing() && inner.Output() == old(inner.Output()) + bytes && tail == old(tail) + bytes
      ensures ok ==> position == old(position) + |bytes|
      ensures !ok ==> inner.sender.HungUp() && Broken()
    {
      if |bytes| > 0 {
        ok := inner.Write(bytes);
        if !ok {
          LongerPrefix(base, tail, goal);
          BrokenSoFar(old(inner.Output()), goal);
          return;
        }
      }
      position := position + |bytes|;
      AppendAssoc(base, tail, bytes);
      tail := tail + bytes;
      ok := true;
    }

    method WriteU16(value: nat) returns (ok: bool)
      requires Writing() && value < U16_LIMIT && tail + Le16(value) <= goal
      modifies this`position, this`tail, inner, inner.sender
      ensures ok ==> Writing() && tail == old(tail) + Le16(value)
      ensures !ok ==> inner.sender.HungUp() && Broken()
    {
      hide Broken, Writing;
      ok := WriteCounted(Le16(value));
    }

    method WriteU32(value: nat) returns (ok: bool)
      requires Writing() && value < U32_LIMIT && tail + Le32(value) <= goal
      modifies this`position, this`tail, inner, inner.sender
      ensures ok ==> Writing() && tail == old(tail) + Le32(value)
      ensures !ok ==> inner.sender.HungUp() && Broken()
    {
      hide Broken, Writing;
      ok := WriteCounted(Le32(value));
    }

    /** Begins a record: what it is to write comes after all that was written. */
    ghost method Begin(record: seq<byte>)
      requires Counting()
      modifies this`base, this`tail, this`goal
      ensures Writing() && base == inner.Output() && tail == [] && goal == record
    {
      base, tail, goal := inner.Output(), [], record;
    }

    /** Writes one piece of a body. */
    method CopyPiece(piece: seq<byte>, ghost start: seq<byte>, ghost got: seq<byte>) returns (ok: bool)
      requires Counting() && |piece| <= CHUNK_SIZE && inner.Output() == start + got
      modifies this`position, this`base, this`tail, this`goal, inner, inner.sender
      ensures ok ==> Counting() && inner.Output() == start + (got + piece)
      ensures !ok ==> inner.sender.HungUp() && SentWithin(inner.sender.sent, start, got + piece)
    {
      hide Writing, Broken, SentWithin, ChannelZipWriter.Output;
      Begin(piece);
      assert [] + piece == piece;
      AppendAssoc(start, got, piece);
      ok := WriteCounted(piece);
      if ok {
        WritingCounts();
      } else {
        BrokenMeans();
        SentAfter(inner.sender.sent, start, got, piece);
      }
    }

    lemma SentUpTo(start: seq<byte>, got: seq<byte>)
      requires Counting() && inner.Output() == start + got
      ensures SentWithin(inner.sender.sent, start, got)
    {
    }

    /** Copies the body of an entry, hashing and counting as it goes. */
    method CopyBody(reader: ReadSource) returns (r: Outcome, crc: nat, size: nat)
      requires Counting() && reader.Valid() && reader.next == 0
      modifies this`position, this`base, this`tail, this`goal, inner, inner.sender, reader
      ensures r.Done? ==> Counting() && inner.Output() == old(inner.Output()) + Join(reader.chunks)
      ensures r.Done? ==> crc == sum.Of(Join(reader.chunks)) && size == |Join(reader.chunks)| && !reader.fails
      ensures r.Done? || (r == Failed(SourceFailed) && reader.fails) || (r == Failed(StreamClosed) && inner.sender.HungUp())
      ensures r.Failed? ==> SentWithin(inner.sender.sent, old(inner.Output()), Join(reader.chunks))
    {
      assert Join(reader.chunks[..0]) == [] && sum.Update(sum.start, []) == sum.start;
      hide Counting, Writing, Broken, ChannelZipWriter.Output, Join, Checksum.Update, ChunkSender.HungUp, SentWithin;
      var register: U32 := sum.start;
      crc, size := 0, 0;
      ghost var start := inner.Output();
      ghost var got: seq<byte> := [];
      while true
        invariant Counting() && reader.Valid()
        invariant got == Join(reader.chunks[..reader.next])
        invariant inner.Output() == start + got
        invariant register == sum.Update(sum.start, got) && size == |got|
        decreases |reader.chunks| - reader.next
      {
        ghost var before := reader.next;
        var piece := reader.Read();
        if piece.None? {
          assert reader.chunks[..reader.next] == reader.chunks;
          SentUpTo(start, got);
          return Failed(SourceFailed), 0, 0;
        }
        if piece.value == [] {
          assert reader.chunks[..reader.next] == reader.chunks;
          break;
        }
        BodyStep(sum, reader.chunks, before, start, got);
        register := sum.Update(register, piece.value);
        size := size + |piece.value|;
        var ok := CopyPiece(piece.value, start, got);
        got := got + piece.value;
        if !ok {
          JoinPrefix(reader.chunks, before + 1);
          SentJoins(inner.sender.sent, start, got, Join(reader.chunks));
          return Failed(StreamClosed), 0, 0;
        }
      }
      r, crc := Done, sum.finish(register);
    }

    lemma WritingCounts()
      requires Writing()
      ensures Counting()
    {
    }

    lemma BrokenMeans()
      requires Broken()
      ensures SentWithin(inner.sender.sent, base, goal)
    {
    }

    lemma SentSoFar()
      requires Counting()
      ensures SentWithin(inner.sender.sent, inner.Output(), [])
    {
      assert inner.Output() + [] == inner.Output();
    }

    /** Adds one entry; its size and checksum are known only after the body has
        been written, so they follow it in a data descriptor. */
    method AddReader(name: seq<byte>, reader: ReadSource) returns (r: Outcome)
      requires Valid() && reader.Valid() && reader.next == 0
      modifies this`entries, this`position, this`files, this`base, this`tail, this`goal, inner, inner.sender, reader
      ensures r.Done? ==> Valid() && files == old(files) + [File(name, Join(reader.chunks))] && !reader.fails
      ensures old(position) >= U32_LIMIT ==> r == Failed(ArchiveTooBig)
      ensures r.Failed? ==>
                match r.error
                case ArchiveTooBig => old(position) >= U32_LIMIT
                case NameTooLong => |name| >= U16_LIMIT
                case EntryTooBig => |Join(reader.chunks)| >= U32_LIMIT
                case SourceFailed => reader.fails
                case StreamClosed => inner.sender.HungUp()
                case _ => false
      ensures r.Failed? ==>
                SentWithin(inner.sender.sent, Locals(sum, old(files)), Attempt(sum, File(name, Join(reader.chunks))))
      ensures r.Failed? ==> files == old(files)
    {
      hide LocalHeader, Descriptor, EncodedEntry, EntryAt, Locals, FieldsFit, LocalBlock, OffsetsFit, Checksum.Of,
           SentWithin, HeaderBytes, Attempt, Broken;
      var headerOffset := position;
      ghost var f := File(name, Join(reader.chunks));
      ghost var start := inner.Output();
      AttemptParts(sum, f);
      if headerOffset >= U32_LIMIT {
        SentSoFar();
        SentJoins(inner.sender.sent, start, [], Attempt(sum, f));
        return Failed(ArchiveTooBig);
      }
      r := WriteLocalHeader(name);
      if r.Failed? {
        SentJoins(inner.sender.sent, start, HeaderBytes(name), Attempt(sum, f));
        return;
      }
      var crc, size;
      r, crc, size := CopyBody(reader);
      if r.Failed? {
        SentAfter(inner.sender.sent, start, HeaderBytes(name), f.data);
        SentJoins(inner.sender.sent, start, HeaderBytes(name) + f.data, Attempt(sum, f));
        return;
      }
      AppendAssoc(start, HeaderBytes(name), f.data);
      if size >= U32_LIMIT {
        SentSoFar();
        SentAfter(inner.sender.sent, start, HeaderBytes(name) + f.data, []);
        SentJoins(inner.sender.sent, start, HeaderBytes(name) + f.data + [], Attempt(sum, f));
        return Failed(EntryTooBig);
      }
      var ok := WriteDataDescriptor(crc, size);
      if !ok {
        SentAfter(inner.sender.sent, start, HeaderBytes(name) + f.data, Descriptor(crc, size));
        SentJoins(inner.sender.sent, start, HeaderBytes(name) + f.data + Descriptor(crc, size), Attempt(sum, f));
        return Failed(StreamClosed);
      }
      BlockOutput(sum, old(inner.Output()), f);
      AddFile(sum, files, f);
      AddEntry(sum, entries, files, f);
      entries := entries + [CentralDirectoryEntry(name, crc, size, size, headerOffset)];
      files := files + [f];
    }

    /** Writes the central directory and the end record. */
    method Finish() returns (r: Outcome)
      requires Valid()
      modifies this`position, this`base, this`tail, this`goal, inner, inner.sender
      ensures r.Done? ==> Counting() && Fits(sum, files) && inner.Output() == Archive(sum, files)
      ensures r.Failed? ==>
                match r.error
                case ArchiveTooBig => |Locals(sum, files)| >= U32_LIMIT
                case CentralTooBig => |Central(sum, files)| >= U32_LIMIT
                case TooManyEntries => |files| >= U16_LIMIT
                case StreamClosed => inner.sender.HungUp()
                case _ => false
      ensures r.Failed? ==> SentWithin(inner.sender.sent, Locals(sum, files), Ending(sum, files))
    {
      hide EncodedEntry, EntryAt, Locals, FieldsFit, EndRecord, OffsetsFit, Counting, SentWithin, Ending;
      assert Counting();
      CountsBytes();
      var centralOffset := position;
      ghost var locals, es := Locals(sum, files), Entries(sum, files);
      EndingParts(sum, files);
      if centralOffset >= U32_LIMIT {
        SentSoFar();
        SentJoins(inner.sender.sent, locals, [], Ending(sum, files));
        return Failed(ArchiveTooBig);
      }
      assert locals == locals + Join(es[..0]);
      for index := 0 to |entries|
        invariant Counting() && EntriesMatch(sum, entries, files)
        invariant inner.Output() == locals + Join(es[..index])
      {
        assert es[..index + 1] == es[..index] + [es[index]];
        JoinSnoc(es[..index], es[index]);
        AppendAssoc(locals, Join(es[..index]), es[index]);
        var ok := WriteCentralDirectoryEntry(index);
        if !ok {
          SentAfter(inner.sender.sent, locals, Join(es[..index]), es[index]);
          JoinPrefix(es, index + 1);
          PrefixJoins(Join(es[..index + 1]), Central(sum, files), Ending(sum, files));
          SentJoins(inner.sender.sent, locals, Join(es[..index + 1]), Ending(sum, files));
          return Failed(StreamClosed);
        }
      }
      assert es[..|entries|] == es;
      CountsBytes();
      var centralSize := position - centralOffset;
      if centralSize >= U32_LIMIT {
        SentSoFar();
        SentAfter(inner.sender.sent, locals, Central(sum, files), []);
        assert Central(sum, files) + [] == Central(sum, files);
        SentJoins(inner.sender.sent, locals, Central(sum, files), Ending(sum, files));
        return Failed(CentralTooBig);
      }
      r := WriteEndOfCentralDirectory(centralSize, centralOffset);
      if r.Failed? {
        SentAtEnd(sum, files, inner.sender.sent);
      }
    }

    method WriteLocalHeader(name: seq<byte>) returns (r: Outcome)
      requires Counting()
      modifies this`position, this`base, this`tail, this`goal, inner, inner.sender
      ensures r.Done? ==> Counting() && |name| < U16_LIMIT
      ensures r.Done? ==> HeaderBytes(name) == LocalHeader(|name|) + name
      ensures r.Done? ==> inner.Output() == old(inner.Output()) + HeaderBytes(name)
      ensures r == Failed(NameTooLong) ==> |name| >= U16_LIMIT
      ensures r.Done? || r == Failed(NameTooLong) || (r == Failed(StreamClosed) && inner.sender.HungUp())
      ensures r.Failed? ==> SentWithin(inner.sender.sent, old(inner.Output()), HeaderBytes(name))
    {
      hide Writing, Broken, SentWithin, ChannelZipWriter.Output, Le16, Le32, HeaderBytes, LocalStart;
      Begin(HeaderBytes(name));
      HeaderPieces(name);
      var ok := WriteLocalStart();
      if ok && |name| >= U16_LIMIT {
        WrittenIsWithin();
        return Failed(NameTooLong);
      }
      if ok { ok := WriteU16(|name|); }
      if ok { ok := WriteU16(0); }
      if ok { ok := WriteCounted(name); }
      if ok {
        WritingCounts();
        WrittenAll();
        r := Done;
      } else {
        BrokenMeans();
        r := Failed(StreamClosed);
      }
    }

    lemma WrittenIsWithin()
      requires Writing()
      ensures SentWithin(inner.sender.sent, base, goal)
    {
      LongerPrefix(base, tail, goal);
    }

    lemma WrittenAll()
      requires Writing()
      ensures inner.Output() == base + tail
    {
    }

    method WriteLocalStart() returns (ok: bool)
      requires Writing() && tail == [] && LocalStart() <= goal
      modifies this`position, this`tail, inner, inner.sender
      ensures ok ==> Writing() && tail == LocalStart()
      ensures !ok ==> inner.sender.HungUp() && Broken()
    {
      hide Writing, Broken, ChannelZipWriter.Output, Le16, Le32;
      LocalStartPrefixes(goal);
      ok := WriteU32(LOCAL_SIGNATURE);
      assert ok ==> tail == Le32(LOCAL_SIGNATURE);
      if ok { ok := WriteU16(20); }
      if ok { ok := WriteU16(FLAGS); }
      if ok { ok := WriteU16(0); }
      if ok { ok := WriteU16(0); }
      if ok { ok := WriteU16(0); }
      if ok { ok := WriteU32(0); }
      if ok { ok := WriteU32(0); }
      if ok { ok := WriteU32(0); }
    }

    method WriteDataDescriptor(crc: nat, size: nat) returns (ok: bool)
      requires Counting() && crc < U32_LIMIT && size < U32_LIMIT
      modifies this`position, this`base, this`tail, this`goal, inner, inner.sender
      ensures ok ==> Counting() && inner.Output() == old(inner.Output()) + Descriptor(crc, size)
      ensures !ok ==> inner.sender.HungUp()
      ensures !ok ==> SentWithin(inner.sender.sent, old(inner.Output()), Descriptor(crc, size))
    {
      hide Writing, Broken, SentWithin, ChannelZipWriter.Output, Le16, Le32;
      Begin(Descriptor(crc, size));
      Prefixes(goal, [], Le32(DESCRIPTOR_SIGNATURE), Le32(crc), Le32(size), Le32(size));
      assert [] + Le32(DESCRIPTOR_SIGNATURE) == Le32(DESCRIPTOR_SIGNATURE);
      ok := WriteU32(DESCRIPTOR_SIGNATURE);
      if ok { ok := WriteU32(crc); }
      if ok { ok := WriteU32(size); }
      if ok { ok := WriteU32(size); }
      if ok {
        WritingCounts();
        WrittenAll();
      } else {
        BrokenMeans();
      }
    }

    /** The first ten fields of a central entry, up to its sizes. */
    method WriteCentralStart(entry: CentralDirectoryEntry) returns (ok: bool)
      requires FieldsFit(entry) && Writing() && tail == [] && CentralStart(entry) <= goal
      modifies this`position, this`tail, inner, inner.sender
      ensures ok ==> Writing() && tail == CentralStart(entry)
      ensures !ok ==> inner.sender.HungUp() && Broken()
    {
      hide Writing, Broken, ChannelZipWriter.Output, Le16, Le32;
      CentralStartPrefixes(entry, goal);
      ok := WriteU32(CENTRAL_SIGNATURE);
      assert ok ==> tail == Le32(CENTRAL_SIGNATURE);
      if ok { ok := WriteU16(20); }
      if ok { ok := WriteU16(20); }
      if ok { ok := WriteU16(FLAGS); }
      if ok { ok := WriteU16(0); }
      if ok { ok := WriteU16(0); }
      if ok { ok := WriteU16(0); }
      if ok { ok := WriteU32(entry.crc32); }
      if ok { ok := WriteU32(entry.compressedSize); }
      if ok { ok := WriteU32(entry.uncompressedSize); }
    }

    method WriteCentralRest(entry: CentralDirectoryEntry, ghost start: seq<byte>) returns (ok: bool)
      requires FieldsFit(entry) && Writing() && tail == start && CentralAll(start, entry) <= goal
      modifies this`position, this`tail, inner, inner.sender
      ensures ok ==> Writing() && tail == CentralAll(start, entry)
      ensures !ok ==> inner.sender.HungUp() && Broken()
    {
      hide Writing, Broken, ChannelZipWriter.Output, Le16, Le32;
      CentralAllPrefixes(start, entry, goal);
      ok := WriteU16(|entry.name|);
      if ok { ok := WriteU16(0); }
      if ok { ok := WriteU16(0); }
      if ok { ok := WriteU16(0); }
      if ok { ok := WriteU16(0); }
      if ok { ok := WriteU32(0); }
      if ok { ok := WriteU32(entry.headerOffset); }
      if ok { ok := WriteCounted(entry.name); }
    }

    method WriteCentralDirectoryEntry(index: nat) returns (ok: bool)
      requires Counting() && index < |entries| && FieldsFit(entries[index])
      modifies this`position, this`base, this`tail, this`goal, inner, inner.sender
      ensures ok ==> Counting() && inner.Output() == old(inner.Output()) + EncodedEntry(entries[index])
      ensures !ok ==> inner.sender.HungUp()
      ensures !ok ==> SentWithin(inner.sender.sent, old(inner.Output()), EncodedEntry(entries[index]))
    {
      hide Writing, Broken, SentWithin, ChannelZipWriter.Output, CentralStart, CentralAll, EncodedEntry;
      var entry := entries[index];
      Begin(EncodedEntry(entry));
      EntryPieces(entry);
      ok := WriteCentralStart(entry);
      if ok { ok := WriteCentralRest(entry, tail); }
      if ok {
        WritingCounts();
        WrittenAll();
      } else {
        BrokenMeans();
      }
    }

    method WriteEndOfCentralDirectory(size: nat, offset: nat) returns (r: Outcome)
      requires Counting() && size < U32_LIMIT && offset < U32_LIMIT
      modifies this`position, this`base, this`tail, this`goal, inner, inner.sender
      ensures r.Done? ==> Counting() && |entries| < U16_LIMIT
      ensures r.Done? ==> inner.Output() == old(inner.Output()) + EndRecord(|entries|, size, offset)
      ensures r == Failed(TooManyEntries) <==> |entries| >= U16_LIMIT
      ensures r.Done? || r == Failed(TooManyEntries) || (r == Failed(StreamClosed) && inner.sender.HungUp())
      ensures r == Failed(TooManyEntries) ==> SentWithin(inner.sender.sent, old(inner.Output()), [])
      ensures r == Failed(StreamClosed) ==>
                SentWithin(inner.sender.sent, old(inner.Output()), EndRecord(|entries|, size, offset))
    {
      hide Writing, Broken, SentWithin, ChannelZipWriter.Output, Le16, Le32;
      if |entries| >= U16_LIMIT {
        SentSoFar();
        return Failed(TooManyEntries);
      }
      Begin(EndRecord(|entries|, size, offset));
      EndPrefixes(|entries|, size, offset);
      var ok := WriteU32(END_SIGNATURE);
      assert ok ==> tail == Le32(END_SIGNATURE);
      if ok { ok := WriteU16(0); }
      if ok { ok := WriteU16(0); }
      if ok { ok := WriteU16(|entries|); }
      if ok { ok := WriteU16(|entries|); }
      if ok { ok := WriteU32(size); }
      if ok { ok := WriteU32(offset); }
      if ok { ok := WriteU16(0); }
      if ok {
        WritingCounts();
        WrittenAll();
        r := Done;
      } else {
        BrokenMeans();
        r := Failed(StreamClosed);
      }
    }
  }

  // -------------------------------------------------- what a failure leaves sent

  /** The chunks are proper ones and join to a prefix of `start + all`. */
  ghost predicate SentWithin(sent: seq<seq<byte>>, start: seq<byte>, all: seq<byte>) {
    ChunksInRange(sent) && Join(sent) <= start + all
  }

  lemma SentJoins(sent: seq<seq<byte>>, start: seq<byte>, part: seq<byte>, all: seq<byte>)
    requires SentWithin(sent, start, part) && part <= all
    ensures SentWithin(sent, start, all)
  {
    LongerPrefix(start, part, all);
    PrefixJoins(Join(sent), start + part, start + all);
  }

  lemma SentAfter(sent: seq<seq<byte>>, start: seq<byte>, first: seq<byte>, second: seq<byte>)
    requires SentWithin(sent, start + first, second)
    ensures SentWithin(sent, start, first + second)
  {
    AppendAssoc(start, first, second);
  }

  lemma {:induction false} JoinPrefix(parts: seq<seq<byte>>, n: nat)
    requires n <= |parts|
    ensures Join(parts[..n]) <= Join(parts)
  {
    assert parts == parts[..n] + parts[n..];
    JoinAppend(parts[..n], parts[n..]);
  }

  /** The local header of a file as far as it can be written, with the name. */
  function HeaderBytes(name: seq<byte>): seq<byte> {
    if |name| < U16_LIMIT then LocalHeader(|name|) + name else LocalStart()
  }

  /** All that storing a file may write: the part before the length of a name
      that is too long, no descriptor for a size that does not fit. */
  function Attempt(sum: Checksum, f: File): seq<byte> {
    if |f.name| >= U16_LIMIT then HeaderBytes(f.name)
    else HeaderBytes(f.name) + f.data
         + if |f.data| < U32_LIMIT then Descriptor(sum.Of(f.data), |f.data|) else []
  }

  lemma AttemptParts(sum: Checksum, f: File)
    ensures [] <= Attempt(sum, f) && HeaderBytes(f.name) <= Attempt(sum, f)
    ensures |f.name| < U16_LIMIT ==> HeaderBytes(f.name) + f.data <= Attempt(sum, f)
    ensures |f.name| < U16_LIMIT && |f.data| < U32_LIMIT ==>
              HeaderBytes(f.name) + f.data + Descriptor(sum.Of(f.data), |f.data|) == Attempt(sum, f)
    ensures StorableFile(f) ==> Attempt(sum, f) == LocalBlock(sum, f)
  {
    hide HeaderBytes, Descriptor, Checksum.Of, LocalHeader;
    HeaderWhole(f.name);
  }

  lemma HeaderWhole(name: seq<byte>)
    ensures |name| < U16_LIMIT ==> HeaderBytes(name) == LocalHeader(|name|) + name
  {
    hide LocalHeader;
  }

  /** All that finishing may write after the local blocks. */
  function Ending(sum: Checksum, files: seq<File>): seq<byte>
    requires Storable(files) && OffsetsFit(sum, files)
  {
    if Fits(sum, files)
    then Central(sum, files) + EndRecord(|files|, |Central(sum, files)|, |Locals(sum, files)|)
    else Central(sum, files)
  }

  lemma EndingParts(sum: Checksum, files: seq<File>)
    requires Storable(files) && OffsetsFit(sum, files)
    ensures [] <= Ending(sum, files) && Central(sum, files) <= Ending(sum, files)
  {
    hide Central, Fits, EndRecord, Locals, OffsetsFit;
  }

  lemma SentAtEnd(sum: Checksum, files: seq<File>, sent: seq<seq<byte>>)
    requires Storable(files) && OffsetsFit(sum, files)
    requires if |files| < U16_LIMIT
             then Fits(sum, files)
                  && SentWithin(sent, Locals(sum, files) + Central(sum, files),
                                EndRecord(|files|, |Central(sum, files)|, |Locals(sum, files)|))
             else SentWithin(sent, Locals(sum, files) + Central(sum, files), [])
    ensures SentWithin(sent, Locals(sum, files), Ending(sum, files))
  {
    hide Central, EndRecord, Locals, OffsetsFit, SentWithin;
    if |files| < U16_LIMIT {
      SentAfter(sent, Locals(sum, files), Central(sum, files),
                EndRecord(|files|, |Central(sum, files)|, |Locals(sum, files)|));
    } else {
      SentAfter(sent, Locals(sum, files), Central(sum, files), []);
      assert Central(sum, files) + [] == Central(sum, files);
    }
  }

  lemma LocalStartPrefixes(goal: seq<byte>)
    requires LocalStart() <= goal
    ensures var p1 := Le32(LOCAL_SIGNATURE);
            var p2 := p1 + Le16(20);
            var p3 := p2 + Le16(FLAGS);
            var p4 := p3 + Le16(0);
            var p5 := p4 + Le16(0);
            var p6 := p5 + Le16(0);
            var p7 := p6 + Le32(0);
            var p8 := p7 + Le32(0);
            && [] + p1 <= goal && p2 <= goal && p3 <= goal && p4 <= goal && p5 <= goal && p6 <= goal && p7 <= goal
            && p8 <= goal && p8 + Le32(0) <= goal
  {
    hide Le16, Le32;
    var p1 := Le32(LOCAL_SIGNATURE);
    var p5 := p1 + Le16(20) + Le16(FLAGS) + Le16(0) + Le16(0);
    Prefixes(goal, p5, Le16(0), Le32(0), Le32(0), Le32(0));
    Prefixes(goal, p1, Le16(20), Le16(FLAGS), Le16(0), Le16(0));
    assert [] + p1 == p1;
  }

  function CentralStart(entry: CentralDirectoryEntry): seq<byte>
    requires FieldsFit(entry)
  {
    Le32(CENTRAL_SIGNATURE) + Le16(20) + Le16(20) + Le16(FLAGS) + Le16(0) + Le16(0) + Le16(0)
    + Le32(entry.crc32) + Le32(entry.compressedSize) + Le32(entry.uncompressedSize)
  }

  function CentralAll(start: seq<byte>, entry: CentralDirectoryEntry): seq<byte>
    requires FieldsFit(entry)
  {
    start + Le16(|entry.name|) + Le16(0) + Le16(0) + Le16(0) + Le16(0) + Le32(0)
    + Le32(entry.headerOffset) + entry.name
  }

  lemma CentralStartPrefixes(entry: CentralDirectoryEntry, goal: seq<byte>)
    requires FieldsFit(entry) && CentralStart(entry) <= goal
    ensures var p1 := Le32(CENTRAL_SIGNATURE);
            var p2 := p1 + Le16(20);
            var p3 := p2 + Le16(20);
            var p4 := p3 + Le16(FLAGS);
            var p5 := p4 + Le16(0);
            var p6 := p5 + Le16(0);
            var p7 := p6 + Le16(0);
            var p8 := p7 + Le32(entry.crc32);
            var p9 := p8 + Le32(entry.compressedSize);
            && [] + p1 <= goal && p2 <= goal && p3 <= goal && p4 <= goal && p5 <= goal && p6 <= goal && p7 <= goal
            && p8 <= goal && p9 <= goal && p9 + Le32(entry.uncompressedSize) <= goal
  {
    hide Le16, Le32;
    var p1 := Le32(CENTRAL_SIGNATURE);
    var p2 := p1 + Le16(20);
    var p6 := p2 + Le16(20) + Le16(FLAGS) + Le16(0) + Le16(0);
    Prefixes(goal, p6, Le16(0), Le32(entry.crc32), Le32(entry.compressedSize), Le32(entry.uncompressedSize));
    Prefixes(goal, p2, Le16(20), Le16(FLAGS), Le16(0), Le16(0));
    PrefixJoins(p1, p2, goal);
    assert [] + p1 == p1;
  }

  lemma CentralAllPrefixes(start: seq<byte>, entry: CentralDirectoryEntry, goal: seq<byte>)
    requires FieldsFit(entry) && CentralAll(start, entry) <= goal
    ensures var p1 := start + Le16(|entry.name|);
            var p2 := p1 + Le16(0);
            var p3 := p2 + Le16(0);
            var p4 := p3 + Le16(0);
            var p5 := p4 + Le16(0);
            var p6 := p5 + Le32(0);
            var p7 := p6 + Le32(entry.headerOffset);
            && p1 <= goal && p2 <= goal && p3 <= goal && p4 <= goal && p5 <= goal && p6 <= goal && p7 <= goal
            && p7 + entry.name <= goal
  {
    hide Le16, Le32;
    var p4 := start + Le16(|entry.name|) + Le16(0) + Le16(0) + Le16(0);
    Prefixes(goal, p4, Le16(0), Le32(0), Le32(entry.headerOffset), entry.name);
    Prefixes(goal, start, Le16(|entry.name|), Le16(0), Le16(0), Le16(0));
  }

  lemma EndPrefixes(count: nat, size: nat, offset: nat)
    requires count < U16_LIMIT && size < U32_LIMIT && offset < U32_LIMIT
    ensures var goal := EndRecord(count, size, offset);
            var p1 := Le32(END_SIGNATURE);
            var p2 := p1 + Le16(0);
            var p3 := p2 + Le16(0);
            var p4 := p3 + Le16(count);
            var p5 := p4 + Le16(count);
            var p6 := p5 + Le32(size);
            var p7 := p6 + Le32(offset);
            && [] + p1 <= goal && p2 <= goal && p3 <= goal && p4 <= goal && p5 <= goal && p6 <= goal && p7 <= goal
            && p7 + Le16(0) == goal
  {
    hide Le16, Le32;
    var goal, p1 := EndRecord(count, size, offset), Le32(END_SIGNATURE);
    var p4 := p1 + Le16(0) + Le16(0) + Le16(count);
    Prefixes(goal, p4, Le16(count), Le32(size), Le32(offset), Le16(0));
    Prefixes(goal, [] + p1, Le16(0), Le16(0), Le16(count), []);
    assert [] + p1 == p1 && p4 + [] == p4;
  }

  lemma HeaderPieces(name: seq<byte>)
    ensures LocalStart() <= HeaderBytes(name)
    ensures |name| < U16_LIMIT ==>
              && LocalStart() + Le16(|name|) <= HeaderBytes(name)
              && LocalStart() + Le16(|name|) + Le16(0) <= HeaderBytes(name)
              && LocalStart() + Le16(|name|) + Le16(0) + name == HeaderBytes(name) == LocalHeader(|name|) + name
  {
    hide Le16, Le32, LocalStart;
    if |name| < U16_LIMIT {
      Prefixes(HeaderBytes(name), LocalStart(), Le16(|name|), Le16(0), name, []);
      assert HeaderBytes(name) + [] == HeaderBytes(name);
    }
  }

  lemma EntryPieces(entry: CentralDirectoryEntry)
    requires FieldsFit(entry)
    ensures CentralStart(entry) <= EncodedEntry(entry)
    ensures CentralAll(CentralStart(entry), entry) == EncodedEntry(entry)
  {
    hide Le16, Le32;
    var start := CentralStart(entry);
    CentralAllPrefixes(start, entry, CentralAll(start, entry));
    PrefixJoins(start, start + Le16(|entry.name|), EncodedEntry(entry));
  }

  predicate FieldsFit(e: CentralDirectoryEntry) {
    && |e.name| < U16_LIMIT && e.crc32 < U32_LIMIT && e.compressedSize < U32_LIMIT
    && e.uncompressedSize == e.compressedSize && e.headerOffset < U32_LIMIT
  }

  function EncodedEntry(e: CentralDirectoryEntry): seq<byte>
    requires FieldsFit(e)
  {
    CentralHeader(|e.name|, e.crc32, e.compressedSize, e.headerOffset) + e.name
  }

  ghost predicate EntriesMatch(sum: Checksum, entries: seq<CentralDirectoryEntry>, files: seq<File>)
    requires Storable(files) && OffsetsFit(sum, files)
  {
    && |entries| == |files|
    && forall i :: 0 <= i < |files| ==>
         FieldsFit(entries[i]) && EncodedEntry(entries[i]) == EntryAt(sum, files[i], Offset(sum, files, i))
  }

  lemma BodyStep(sum: Checksum, chunks: seq<seq<byte>>, i: nat, start: seq<byte>, got: seq<byte>)
    requires i < |chunks| && got == Join(chunks[..i])
    ensures Join(chunks[..i + 1]) == got + chunks[i]
    ensures start + got + chunks[i] == start + (got + chunks[i])
    ensures sum.Update(sum.start, got + chunks[i]) == sum.Update(sum.Update(sum.start, got), chunks[i])
  {
    assert chunks[..i + 1] == chunks[..i] + [chunks[i]];
    JoinSnoc(chunks[..i], chunks[i]);
    sum.UpdateAppend(sum.start, got, chunks[i]);
  }

  lemma BlockOutput(sum: Checksum, start: seq<byte>, f: File)
    requires StorableFile(f)
    ensures start + (LocalHeader(|f.name|) + f.name) + f.data + Descriptor(sum.Of(f.data), |f.data|)
            == start + LocalBlock(sum, f)
  {
    hide LocalHeader, Descriptor;
  }

  lemma AddEntry(sum: Checksum, entries: seq<CentralDirectoryEntry>, files: seq<File>, f: File)
    requires Storable(files) && OffsetsFit(sum, files) && EntriesMatch(sum, entries, files)
    requires StorableFile(f) && |Locals(sum, files)| < U32_LIMIT
    ensures Storable(files + [f]) && OffsetsFit(sum, files + [f])
    ensures EntriesMatch(sum,
              entries + [CentralDirectoryEntry(f.name, sum.Of(f.data), |f.data|, |f.data|, |Locals(sum, files)|)],
              files + [f])
  {
    AddFile(sum, files, f);
    hide LocalHeader, Descriptor, CentralHeader, Locals, LocalBlock, Checksum.Of, Offset;
  }

  // --------------------------------------------------------- whole archives

  /** One file to store: its path in the archive and how reading it will go. */
  datatype Source = Source(name: seq<byte>, chunks: seq<seq<byte>>, fails: bool)

  ghost function FilesOf(sources: seq<Source>): (files: seq<File>)
    ensures |files| == |sources|
  {
    seq(|sources|, i requires 0 <= i < |sources| => File(sources[i].name, Join(sources[i].chunks)))
  }

  function Attempts(sum: Checksum, files: seq<File>): seq<seq<byte>> {
    seq(|files|, i requires 0 <= i < |files| => Attempt(sum, files[i]))
  }

  /** All that storing the files may write; for files that fit, the archive. */
  function Intended(sum: Checksum, files: seq<File>): seq<byte> {
    Join(Attempts(sum, files)) + if Storable(files) && OffsetsFit(sum, files) then Ending(sum, files) else []
  }

  lemma AttemptsAreBlocks(sum: Checksum, files: seq<File>)
    requires Storable(files)
    ensures Join(Attempts(sum, files)) == Locals(sum, files)
  {
    hide Attempt, LocalBlock, Join;
    forall i | 0 <= i < |files|
      ensures Attempt(sum, files[i]) == LocalBlock(sum, files[i])
    {
      AttemptParts(sum, files[i]);
    }
    assert Attempts(sum, files) == Blocks(sum, files);
  }

  lemma SentWhileAdding(sum: Checksum, files: seq<File>, i: nat, sent: seq<seq<byte>>)
    requires i < |files| && Storable(files[..i])
    requires SentWithin(sent, Locals(sum, files[..i]), Attempt(sum, files[i]))
    ensures ChunksInRange(sent) && Join(sent) <= Intended(sum, files)
  {
    hide Attempt, Locals, Ending, Join, ChunksInRange, OffsetsFit;
    var parts := Attempts(sum, files);
    AttemptsAreBlocks(sum, files[..i]);
    assert Attempts(sum, files[..i]) == parts[..i];
    assert parts[..i + 1] == parts[..i] + [parts[i]];
    JoinSnoc(parts[..i], parts[i]);
    JoinPrefix(parts, i + 1);
    PrefixJoins(Join(sent), Join(parts[..i + 1]), Join(parts));
    PrefixJoins(Join(sent), Join(parts), Intended(sum, files));
  }

  lemma SentWhileFinishing(sum: Checksum, files: seq<File>, sent: seq<seq<byte>>)
    requires Storable(files) && OffsetsFit(sum, files)
    requires SentWithin(sent, Locals(sum, files), Ending(sum, files))
    ensures ChunksInRange(sent) && Join(sent) <= Intended(sum, files)
  {
    hide Attempts, Locals, Ending, Join, ChunksInRange, OffsetsFit;
    AttemptsAreBlocks(sum, files);
  }

  lemma IntendedFits(sum: Checksum, files: seq<File>)
    requires Fits(sum, files)
    ensures Intended(sum, files) == Archive(sum, files)
  {
    hide Attempts, Locals, Central, EndRecord, Join, OffsetsFit;
    AttemptsAreBlocks(sum, files);
    AppendAssoc(Locals(sum, files), Central(sum, files),
                EndRecord(|files|, |Central(sum, files)|, |Locals(sum, files)|));
  }

  /** The response body for a list of files. When it succeeds, the chunks sent
      concatenate to an archive that reads back as exactly those files. With
      readable files and a listening client it succeeds exactly when every
      name, size, offset and count fits its field. Whatever happens, the chunks
      sent are proper ones and join to a prefix of what was to be written. */
  method BuildZip(sum: Checksum, sources: seq<Source>, sender: ChunkSender) returns (r: Outcome)
    requires sender.sent == []
    requires forall i :: 0 <= i < |sources| ==> PiecesInRange(sources[i].chunks)
    modifies sender
    ensures r.Done? ==> Fits(sum, FilesOf(sources)) && Join(sender.sent) == Archive(sum, FilesOf(sources))
    ensures r.Done? ==> ReadArchive(sum, Join(sender.sent)) == Some(FilesOf(sources))
    ensures r.Done? ==> forall i :: 0 <= i < |sources| ==> !sources[i].fails
    ensures r.Done? ==> IsArchive(sum, FilesOf(sources), Join(sender.sent))
    ensures ProperChunks(sender.sent) && Join(sender.sent) <= Intended(sum, FilesOf(sources))
    ensures sender.hangUpAfter.None? && (forall i :: 0 <= i < |sources| ==> !sources[i].fails)
            ==> (r.Done? <==> SizesFit(FilesOf(sources)))
  {
    hide Locals, Archive, OffsetsFit, EntriesMatch, ReadArchive, Central, Intended, SentWithin, Attempt, Ending, Join,
         IsArchive, SizesFit, Fits, ChunksInRange, ProperChunks;
    ghost var all := FilesOf(sources);
    FitsMeans(sum, all);
    var channel := new ChannelZipWriter(sender);
    var writer := new StreamingZipWriter(sum, channel);
    for i := 0 to |sources|
      invariant fresh(channel) && fresh(writer) && writer.inner == channel && writer.sum == sum && channel.sender == sender
      invariant writer.Valid() && writer.files == all[..i]
      invariant forall j :: 0 <= j < i ==> !sources[j].fails
    {
      var reader := new ReadSource(sources[i].chunks, sources[i].fails);
      r := writer.AddReader(sources[i].name, reader);
      if r.Failed? {
        FitsAt(sum, all, i);
        SentWhileAdding(sum, all, i, sender.sent);
        FullAreProper(sender.sent);
        return;
      }
      assert all[..i + 1] == all[..i] + [all[i]];
    }
    assert all[..|sources|] == all;
    r := writer.Finish();
    FitsParts(sum, all);
    if r.Failed? {
      SentWhileFinishing(sum, all, sender.sent);
      FullAreProper(sender.sent);
      return;
    }
    RoundTrip(sum, all);
    ArchiveBytes(sum, all);
    IntendedFits(sum, all);
    ghost var full, last := sender.sent, channel.buffer;
    FullAreProper(full);
    var ok := channel.FlushBuffer();
    if !ok {
      r := Failed(StreamClosed);
    } else if last != [] {
      LastIsProper(full, last);
    }
  }

  lemma FullAreProper(chunks: seq<seq<byte>>)
    requires ChunksInRange(chunks)
    ensures ProperChunks(chunks)
  {
  }

  lemma LastIsProper(chunks: seq<seq<byte>>, last: seq<byte>)
    requires ChunksInRange(chunks) && 0 < |last| < 131072
    ensures ProperChunks(chunks + [last])
  {
  }

  lemma FitsParts(sum: Checksum, files: seq<File>)
    requires Storable(files) && OffsetsFit(sum, files)
    ensures Fits(sum, files) <==>
              |Locals(sum, files)| < U32_LIMIT && |Central(sum, files)| < U32_LIMIT && |files| < U16_LIMIT
  {
    hide Locals, Central;
  }

  lemma FitsAt(sum: Checksum, all: seq<File>, i: nat)
    requires i < |all| && Storable(all[..i])
    ensures Fits(sum, all) ==> |Locals(sum, all[..i])| < U32_LIMIT && StorableFile(all[i])
  {
    hide Locals;
    if Fits(sum, all) {
      FitsEntry(sum, all, i);
    }
  }
}
