/**
 * Reading and writing TLD records on a stream (tld_read.c, tld_write.c).
 *
 * A record is a four-byte record header (a 24-bit record length that counts the header
 * itself, and a record type) followed by its payload; a raster record (type 5) carries a
 * packed raster. Each operation is specified by a function of the stream's contents and
 * position and of the handler's allocation budget.
 */
module TldIo {
  import opened Bytes
  import opened Errors
  import opened TldTypes
  import opened TldCodec
  import opened TldSize
  import opened TldPack
  import opened TldUnpack
  import opened TldRoundTrip
  import opened Memories
  import opened Streams

  /** The outcome of reading a record: the error, the record header, the raster, and what is left of the stream and handler. */
  datatype ReadStep = ReadStep(err: Error, header: TldHeader, raster: Raster, budget: nat, pos: nat, released: nat)

  /** The outcome of writing a raster record. */
  datatype WriteStep = WriteStep(err: Error, data: seq<Byte>, pos: nat, budget: nat, released: nat)

  // Specification -------------------------------------------------------------------

  /** Where a relative seek of `offset` bytes forward leaves the cursor. */
  function SkipPos(pos: nat, offset: nat, seekFails: bool): (p: nat)
    ensures p == pos || p == pos + offset
  {
    if seekFails then pos else pos + offset
  }

  /**
   * `eaarlio_tld_read_record` on a valid stream and handler: a four-byte buffer for the record
   * header, then (for a raster record) the buffer grown to the payload, or to the raster header
   * alone when pulses are not wanted, and the raster unpacked from it. A record of another type
   * is skipped with a seek whose failure is ignored.
   */
  function ReadRecordOutcome(data: seq<Byte>, pos: nat, readFails: bool, seekFails: bool, raster: Raster,
                             includePulses: bool, includeWaveforms: bool, budget: nat): (s: ReadStep)
    ensures s.err == Success ==> s.header.recordLength >= RECORD_HEADER_SIZE && pos + RECORD_HEADER_SIZE <= s.pos
    ensures s.err == Success && s.header.recordType != TLD_TYPE_RASTER ==> s.raster == raster.(pulse := None)
    ensures s.err == Success && !includePulses ==> s.raster.pulse.None?
  {
    var r := raster.(pulse := None);
    if budget == 0 then ReadStep(MemoryAllocFail, EmptyHeader, r, 0, pos, 0)
    else
      var e := ReadError(data, pos, RECORD_HEADER_SIZE, readFails);
      var at := ReadPos(data, pos, RECORD_HEADER_SIZE, readFails);
      if e != Success then ReadStep(e, EmptyHeader, r, budget - 1, at, 1)
      else HeaderedOutcome(data, at, RecordHeaderOf(data[pos..pos + RECORD_HEADER_SIZE]), readFails, seekFails, r,
                           includePulses, includeWaveforms, budget - 1)
  }

  /**
   * What `eaarlio_tld_read_record` does once the record header `h` is decoded and the cursor is
   * at `pos`, just past it: a record length too short for its own header is corrupt, a record
   * of another type is skipped, and a raster record's payload is read.
   */
  function HeaderedOutcome(data: seq<Byte>, pos: nat, h: TldHeader, readFails: bool, seekFails: bool, r: Raster,
                           includePulses: bool, includeWaveforms: bool, budget: nat): (s: ReadStep)
    ensures s.header == h
    ensures s.err == Success ==> h.recordLength >= RECORD_HEADER_SIZE && pos <= s.pos
    ensures s.err == Success && h.recordType != TLD_TYPE_RASTER ==> s.raster == r
    ensures s.err == Success && !includePulses ==> s.raster.pulse.None? || h.recordType != TLD_TYPE_RASTER
  {
    if h.recordLength < RECORD_HEADER_SIZE then ReadStep(Corrupt, h, r, budget, pos, 1)
    else if h.recordType != TLD_TYPE_RASTER then
      ReadStep(Success, h, r, budget, SkipPos(pos, h.recordLength - RECORD_HEADER_SIZE, seekFails), 1)
    else
      PayloadOutcome(data, pos, h.recordLength - RECORD_HEADER_SIZE, readFails, seekFails, h, r,
                     includePulses, includeWaveforms, budget)
  }

  /**
   * The payload of a raster record of `rasterLength` bytes starting at `pos`: the header buffer is
   * grown to the payload, or to the raster header alone when pulses are not wanted. A failed
   * reallocation returns without releasing the header buffer.
   */
  function PayloadOutcome(data: seq<Byte>, pos: nat, rasterLength: nat, readFails: bool, seekFails: bool, h: TldHeader,
                          r: Raster, includePulses: bool, includeWaveforms: bool, budget: nat): (s: ReadStep)
    ensures s.header == h
    ensures s.err == Success ==> s.pos == pos + rasterLength || (!includePulses && s.pos == pos + RASTER_HEADER_SIZE)
    ensures s.err == Success && !includePulses ==> s.raster.pulse.None?
  {
    if budget == 0 then ReadStep(MemoryAllocFail, h, r, 0, pos, 0)
    else
      var n := if includePulses then rasterLength else RASTER_HEADER_SIZE;
      FilledOutcome(data, pos, n, rasterLength, readFails, seekFails, h, r, includePulses, includeWaveforms, budget - 1)
  }

  /**
   * Reading `n` bytes of a `rasterLength`-byte payload into the grown buffer and unpacking them.
   * When fewer bytes were read than the payload holds, the rest is skipped; unpack is handed the
   * payload length, of which only the bytes read can matter (the raster header alone when pulses
   * are not wanted). The buffer is released on every path.
   */
  function FilledOutcome(data: seq<Byte>, pos: nat, n: nat, rasterLength: nat, readFails: bool, seekFails: bool, h: TldHeader,
                         r: Raster, includePulses: bool, includeWaveforms: bool, budget: nat): (s: ReadStep)
    ensures s.header == h && s.released == 1
    ensures s.err == Success ==> s.pos == pos + (if n < rasterLength then rasterLength else n)
    ensures s.err == Success && !includePulses ==> s.raster.pulse.None?
  {
    var e := ReadError(data, pos, n, readFails);
    var at := ReadPos(data, pos, n, readFails);
    if e != Success then ReadStep(e, h, r, budget, at, 1)
    else if n < rasterLength && seekFails then ReadStep(StreamSeekError, h, r, budget, at, 1)
    else
      var next := if n < rasterLength then at + (rasterLength - n) else at;
      var got := ReadBytes(data, pos, n, readFails);
      var u := RasterOutcome(got[..if n < rasterLength then n else rasterLength], r, includePulses, includeWaveforms, budget);
      ReadStep(u.err, h, u.raster, u.budget, next, 1)
  }

  /** A packed raster as a record: its record header, then the packed raster. */
  function RecordBytes(r: Raster): (b: seq<Byte>)
    requires RasterEncodable(r) && RasterSize(r) + RECORD_HEADER_SIZE <= UINT24_MAX
    ensures |b| == RECORD_HEADER_SIZE + RasterSize(r)
  {
    RasterBytesLength(r);
    RecordHeaderBytes(TldHeader(RasterSize(r) + RECORD_HEADER_SIZE, TLD_TYPE_RASTER)) + RasterBytes(r)
  }

  /**
   * `eaarlio_tld_write_raster` on a valid stream and handler: pack, then write the record header
   * and the packed raster. Nothing is written unless packing succeeded and the record length fits
   * 24 bits; the packed buffer is released whenever it was allocated.
   */
  function WriteRasterOutcome(r: Raster, data: seq<Byte>, pos: nat, writeFails: bool, budget: nat): (s: WriteStep)
    requires RasterWellFormed(r)
    ensures s.err == Success <==>
              RasterEncodable(r) && budget > 0 && RasterSize(r) + RECORD_HEADER_SIZE <= UINT24_MAX && !writeFails
    ensures s.err == Success ==> s.data == Overwrite(data, pos, RecordBytes(r)) && s.pos == pos + |RecordBytes(r)|
    ensures s.err != Success ==> s.data == data && s.pos == pos
    ensures !(r.pulse.None? && r.pulseCount > 0) && SizeRasterError(r) == Success && budget == 0 ==>
              s.err == MemoryAllocFail
  {
    var granted := PackAllocates(r, true, budget);
    var left := if granted then budget - 1 else budget;
    var freed := if granted then 1 else 0;
    var e := PackError(r, true, budget);
    if e != Success then WriteStep(e, data, pos, left, freed)
    else if RasterSize(r) + RECORD_HEADER_SIZE > UINT24_MAX then WriteStep(ValueOutOfRange, data, pos, left, freed)
    else if writeFails then WriteStep(StreamWriteError, data, pos, left, freed)
    else WriteStep(Success, Overwrite(data, pos, RecordBytes(r)), pos + |RecordBytes(r)|, left, freed)
  }

  // Lemmas ----------------------------------------------------------------------------

  /** Without pulses, unpack looks at the raster header only: any two buffers that start alike unpack alike. */
  lemma HeaderOnlyUnpack(x: seq<Byte>, y: seq<Byte>, r: Raster, includeWaveforms: bool, budget: nat)
    requires |x| >= RASTER_HEADER_SIZE && |y| >= RASTER_HEADER_SIZE && x[..RASTER_HEADER_SIZE] == y[..RASTER_HEADER_SIZE]
    ensures RasterOutcome(x, r, false, includeWaveforms, budget) == RasterOutcome(y, r, false, includeWaveforms, budget)
  {
  }

  /**
   * A raster record written at `pos` reads back from `pos`, pulses and waveforms included, as the
   * raster unpack stores, with the record's header, the cursor just past the record, and the
   * header buffer, the payload buffer and the raster's own blocks allocated.
   */
  lemma WriteThenRead(r: Raster, data: seq<Byte>, pos: nat, seekFails: bool, start: Raster, left: nat)
    requires RasterEncodable(r) && RasterSize(r) + RECORD_HEADER_SIZE <= UINT24_MAX
    requires left >= RasterAllocations(r)
    ensures var written := Overwrite(data, pos, RecordBytes(r));
      ReadRecordOutcome(written, pos, false, seekFails, start, true, true, left + 2)
      == ReadStep(Success, TldHeader(RasterSize(r) + RECORD_HEADER_SIZE, TLD_TYPE_RASTER), StoredRaster(r),
                  left - RasterAllocations(r), pos + |RecordBytes(r)|, 1)
  {
    ReadWrittenRecord(r, data, pos, seekFails, start, left);
    UnpackPacked(r, start.(pulse := None), left);
  }

  /** A written raster record, read with pulses and waveforms, is its packed raster unpacked. */
  lemma ReadWrittenRecord(r: Raster, data: seq<Byte>, pos: nat, seekFails: bool, start: Raster, left: nat)
    requires RasterEncodable(r) && RasterSize(r) + RECORD_HEADER_SIZE <= UINT24_MAX
    ensures var u := RasterOutcome(RasterBytes(r), start.(pulse := None), true, true, left);
      ReadRecordOutcome(Overwrite(data, pos, RecordBytes(r)), pos, false, seekFails, start, true, true, left + 2)
      == ReadStep(u.err, TldHeader(RasterSize(r) + RECORD_HEADER_SIZE, TLD_TYPE_RASTER), u.raster, u.budget,
                  pos + |RecordBytes(r)|, 1)
  {
    RasterBytesLength(r);
    ReadWrittenPayload(data, pos, RecordBytes(r), RasterBytes(r), RasterSize(r), seekFails, start, left);
  }

  /** A record written as its header and then `payload`, read with pulses and waveforms, is `payload` unpacked. */
  lemma ReadWrittenPayload(data: seq<Byte>, pos: nat, record: seq<Byte>, payload: seq<Byte>, size: nat, seekFails: bool,
                           start: Raster, left: nat)
    requires size == |payload| && size + RECORD_HEADER_SIZE <= UINT24_MAX
    requires record == RecordHeaderBytes(TldHeader(size + RECORD_HEADER_SIZE, TLD_TYPE_RASTER)) + payload
    ensures var u := RasterOutcome(payload, start.(pulse := None), true, true, left);
      ReadRecordOutcome(Overwrite(data, pos, record), pos, false, seekFails, start, true, true, left + 2)
      == ReadStep(u.err, TldHeader(size + RECORD_HEADER_SIZE, TLD_TYPE_RASTER), u.raster, u.budget, pos + |record|, 1)
  {
    WrittenRecord(data, pos, payload);
    ReadRasterRecord(Overwrite(data, pos, record), pos, payload, seekFails, start, left);
  }

  /**
   * Without pulses, a written raster record reads back as its header fields with a NULL pulse
   * array, the cursor past the record (when the skip succeeds), and only the two buffers allocated.
   */
  lemma WriteThenReadHeader(r: Raster, data: seq<Byte>, pos: nat, start: Raster, includeWaveforms: bool, left: nat)
    requires RasterEncodable(r) && RasterSize(r) + RECORD_HEADER_SIZE <= UINT24_MAX
    ensures var written := Overwrite(data, pos, RecordBytes(r));
      ReadRecordOutcome(written, pos, false, false, start, false, includeWaveforms, left + 2)
      == ReadStep(Success, TldHeader(RasterSize(r) + RECORD_HEADER_SIZE, TLD_TYPE_RASTER), r.(pulse := None),
                  left, pos + |RecordBytes(r)|, 1)
  {
    RasterBytesLength(r);
    ReadWrittenHeader(data, pos, RecordBytes(r), RasterBytes(r), RasterSize(r), start, includeWaveforms, left);
    UnpackPackedHeader(r, start.(pulse := None), includeWaveforms, left);
  }

  /** A record written as its header and then `payload`, read without pulses, is `payload` unpacked without pulses. */
  lemma ReadWrittenHeader(data: seq<Byte>, pos: nat, record: seq<Byte>, payload: seq<Byte>, size: nat, start: Raster,
                          includeWaveforms: bool, left: nat)
    requires size == |payload| && RASTER_HEADER_SIZE <= size && size + RECORD_HEADER_SIZE <= UINT24_MAX
    requires record == RecordHeaderBytes(TldHeader(size + RECORD_HEADER_SIZE, TLD_TYPE_RASTER)) + payload
    ensures var u := RasterOutcome(payload, start.(pulse := None), false, includeWaveforms, left);
      ReadRecordOutcome(Overwrite(data, pos, record), pos, false, false, start, false, includeWaveforms, left + 2)
      == ReadStep(u.err, TldHeader(size + RECORD_HEADER_SIZE, TLD_TYPE_RASTER), u.raster, u.budget, pos + |record|, 1)
  {
    WrittenRecord(data, pos, payload);
    ReadRasterRecordHeader(Overwrite(data, pos, record), pos, payload, start, includeWaveforms, left);
    HeaderOnlyUnpack(payload[..RASTER_HEADER_SIZE], payload, start.(pulse := None), includeWaveforms, left);
  }

  /** A written raster record holds its record header, then its payload. */
  lemma WrittenRecord(data: seq<Byte>, pos: nat, payload: seq<Byte>)
    requires |payload| + RECORD_HEADER_SIZE <= UINT24_MAX
    ensures var header := RecordHeaderBytes(TldHeader(|payload| + RECORD_HEADER_SIZE, TLD_TYPE_RASTER));
      var written := Overwrite(data, pos, header + payload);
      pos + RECORD_HEADER_SIZE + |payload| <= |written|
      && written[pos..pos + RECORD_HEADER_SIZE] == header
      && written[pos + RECORD_HEADER_SIZE..pos + RECORD_HEADER_SIZE + |payload|] == payload
  {
    var header := RecordHeaderBytes(TldHeader(|payload| + RECORD_HEADER_SIZE, TLD_TYPE_RASTER));
    var written := Overwrite(data, pos, header + payload);
    var record := written[pos..pos + RECORD_HEADER_SIZE + |payload|];
    assert record == header + payload;
    assert written[pos..pos + RECORD_HEADER_SIZE] == record[..RECORD_HEADER_SIZE];
    assert written[pos + RECORD_HEADER_SIZE..pos + RECORD_HEADER_SIZE + |payload|] == record[RECORD_HEADER_SIZE..];
  }

  /** A raster record in the stream, read with pulses and waveforms, is its payload unpacked. */
  lemma ReadRasterRecord(data: seq<Byte>, pos: nat, payload: seq<Byte>, seekFails: bool, start: Raster, left: nat)
    requires |payload| + RECORD_HEADER_SIZE <= UINT24_MAX
    requires pos + RECORD_HEADER_SIZE + |payload| <= |data|
    requires data[pos..pos + RECORD_HEADER_SIZE] == RecordHeaderBytes(TldHeader(|payload| + RECORD_HEADER_SIZE, TLD_TYPE_RASTER))
    requires data[pos + RECORD_HEADER_SIZE..pos + RECORD_HEADER_SIZE + |payload|] == payload
    ensures var u := RasterOutcome(payload, start.(pulse := None), true, true, left);
      ReadRecordOutcome(data, pos, false, seekFails, start, true, true, left + 2)
      == ReadStep(u.err, TldHeader(|payload| + RECORD_HEADER_SIZE, TLD_TYPE_RASTER), u.raster, u.budget,
                  pos + RECORD_HEADER_SIZE + |payload|, 1)
  {
    var h := TldHeader(|payload| + RECORD_HEADER_SIZE, TLD_TYPE_RASTER);
    var r := start.(pulse := None);
    var at := pos + RECORD_HEADER_SIZE;
    assert RecordHeaderOf(data[pos..at]) == h by {
      RecordHeaderRoundTrip(h);
    }
    HeaderRead(data, pos, false, seekFails, start, true, true, left + 2);
    RasterPayloadRead(data, at, |payload|, seekFails, h, r, left);
    FilledPayload(data, at, payload, seekFails, h, r, left);
  }

  /** A raster record's header, read with pulses, leads to its whole payload read into the grown buffer. */
  lemma RasterPayloadRead(data: seq<Byte>, at: nat, n: nat, seekFails: bool, h: TldHeader, r: Raster, left: nat)
    requires n + RECORD_HEADER_SIZE <= UINT24_MAX && h == TldHeader(n + RECORD_HEADER_SIZE, TLD_TYPE_RASTER)
    ensures HeaderedOutcome(data, at, h, false, seekFails, r, true, true, left + 1)
            == FilledOutcome(data, at, n, n, false, seekFails, h, r, true, true, left)
  {
  }

  /** A whole payload in the stream, read into the grown buffer, is that payload unpacked. */
  lemma FilledPayload(data: seq<Byte>, at: nat, payload: seq<Byte>, seekFails: bool, h: TldHeader, r: Raster, left: nat)
    requires at + |payload| <= |data| && data[at..at + |payload|] == payload
    ensures var u := RasterOutcome(payload, r, true, true, left);
      FilledOutcome(data, at, |payload|, |payload|, false, seekFails, h, r, true, true, left)
      == ReadStep(u.err, h, u.raster, u.budget, at + |payload|, 1)
  {
    var got := ReadBytes(data, at, |payload|, false);
    assert got[..|payload|] == payload;
  }

  /** A raster record in the stream, read without pulses, is its raster header unpacked. */
  lemma ReadRasterRecordHeader(data: seq<Byte>, pos: nat, payload: seq<Byte>, start: Raster, includeWaveforms: bool, left: nat)
    requires RASTER_HEADER_SIZE <= |payload| && |payload| + RECORD_HEADER_SIZE <= UINT24_MAX
    requires pos + RECORD_HEADER_SIZE + |payload| <= |data|
    requires data[pos..pos + RECORD_HEADER_SIZE] == RecordHeaderBytes(TldHeader(|payload| + RECORD_HEADER_SIZE, TLD_TYPE_RASTER))
    requires data[pos + RECORD_HEADER_SIZE..pos + RECORD_HEADER_SIZE + |payload|] == payload
    ensures var u := RasterOutcome(payload[..RASTER_HEADER_SIZE], start.(pulse := None), false, includeWaveforms, left);
      ReadRecordOutcome(data, pos, false, false, start, false, includeWaveforms, left + 2)
      == ReadStep(u.err, TldHeader(|payload| + RECORD_HEADER_SIZE, TLD_TYPE_RASTER), u.raster, u.budget,
                  pos + RECORD_HEADER_SIZE + |payload|, 1)
  {
    var h := TldHeader(|payload| + RECORD_HEADER_SIZE, TLD_TYPE_RASTER);
    RecordHeaderRoundTrip(h);
    var at := pos + RECORD_HEADER_SIZE;
    var got := ReadBytes(data, at, RASTER_HEADER_SIZE, false);
    assert got == data[at..at + |payload|][..RASTER_HEADER_SIZE];
    assert got[..RASTER_HEADER_SIZE] == payload[..RASTER_HEADER_SIZE];
  }

  /** Once the record header is read, what is left of `eaarlio_tld_read_record` is `HeaderedOutcome`. */
  lemma HeaderRead(data: seq<Byte>, pos: nat, readFails: bool, seekFails: bool, raster: Raster,
                   includePulses: bool, includeWaveforms: bool, budget: nat)
    requires budget > 0 && ReadError(data, pos, RECORD_HEADER_SIZE, readFails) == Success
    ensures ReadRecordOutcome(data, pos, readFails, seekFails, raster, includePulses, includeWaveforms, budget)
            == HeaderedOutcome(data, pos + RECORD_HEADER_SIZE, RecordHeaderOf(data[pos..pos + RECORD_HEADER_SIZE]),
                               readFails, seekFails, raster.(pulse := None), includePulses, includeWaveforms, budget - 1)
  {
  }

  // Methods -------------------------------------------------------------------------

  /**
   * `eaarlio_tld_read_record`. The record header is zeroed and the pulse array NULL before
   * anything is checked; then an invalid stream and an invalid handler are refused in that order.
   */
  method ReadRecord(stream: Stream, raster: Raster, memory: Memory, includePulses: bool, includeWaveforms: bool)
    returns (err: Error, header: TldHeader, result: Raster)
    modifies stream`pos, memory`budget, memory`released
    ensures !StreamValid(stream) || !MemoryValid(memory) ==>
              err == (if !StreamValid(stream) then StreamInvalid else MemoryInvalid)
              && header == EmptyHeader && result == raster.(pulse := None)
              && memory.budget == old(memory.budget) && memory.released == old(memory.released)
              && stream.pos == old(stream.pos)
    ensures StreamValid(stream) && MemoryValid(memory) ==>
              var s := ReadRecordOutcome(stream.data, old(stream.pos), stream.readFails, stream.seekFails, raster,
                                         includePulses, includeWaveforms, old(memory.budget));
              err == s.err && header == s.header && result == s.raster && stream.pos == s.pos
              && memory.budget == s.budget && memory.released == old(memory.released) + s.released
  {
    header := EmptyHeader;
    result := raster.(pulse := None);
    if !StreamValid(stream) {
      return StreamInvalid, header, result;
    }
    if !MemoryValid(memory) {
      return MemoryInvalid, header, result;
    }
    err, header, result := ReadValidRecord(stream, raster, memory, includePulses, includeWaveforms);
  }

  /** `eaarlio_tld_read_record` on a valid stream and handler. */
  method ReadValidRecord(stream: Stream, raster: Raster, memory: Memory, includePulses: bool, includeWaveforms: bool)
    returns (err: Error, header: TldHeader, result: Raster)
    requires StreamValid(stream) && MemoryValid(memory)
    modifies stream`pos, memory`budget, memory`released
    ensures var s := ReadRecordOutcome(stream.data, old(stream.pos), stream.readFails, stream.seekFails, raster,
                                       includePulses, includeWaveforms, old(memory.budget));
      err == s.err && header == s.header && result == s.raster && stream.pos == s.pos
      && memory.budget == s.budget && memory.released == old(memory.released) + s.released
  {
    header := EmptyHeader;
    result := raster.(pulse := None);
    var buf := memory.Malloc(RECORD_HEADER_SIZE);
    if buf == null {
      return MemoryAllocFail, header, result;
    }
    err, header, result := ReadIntoHeaderBuffer(stream, buf, raster, memory, includePulses, includeWaveforms);
  }

  /** `eaarlio_tld_read_record` once the four-byte record header buffer `buf` is allocated. */
  method ReadIntoHeaderBuffer(stream: Stream, buf: array<Byte>, raster: Raster, memory: Memory,
                              includePulses: bool, includeWaveforms: bool)
    returns (err: Error, header: TldHeader, result: Raster)
    requires StreamValid(stream) && MemoryValid(memory) && buf.Length == RECORD_HEADER_SIZE
    modifies stream`pos, memory`budget, memory`released, buf
    ensures var s := ReadRecordOutcome(stream.data, old(stream.pos), stream.readFails, stream.seekFails, raster,
                                       includePulses, includeWaveforms, old(memory.budget) + 1);
      err == s.err && header == s.header
    ensures var s := ReadRecordOutcome(stream.data, old(stream.pos), stream.readFails, stream.seekFails, raster,
                                       includePulses, includeWaveforms, old(memory.budget) + 1);
      result == s.raster && stream.pos == s.pos
    ensures var s := ReadRecordOutcome(stream.data, old(stream.pos), stream.readFails, stream.seekFails, raster,
                                       includePulses, includeWaveforms, old(memory.budget) + 1);
      memory.budget == s.budget && memory.released == old(memory.released) + s.released
  {
    header := EmptyHeader;
    result := raster.(pulse := None);
    ghost var data, pos := stream.data, stream.pos;
    err := stream.Read(RECORD_HEADER_SIZE, buf, 0);
    if err != Success {
      memory.Free();
      return;
    }
    assert buf[..] == data[pos..pos + RECORD_HEADER_SIZE];
    // A four-byte buffer always holds a record header.
    err, header := DecodeRecordHeader(buf, 0, RECORD_HEADER_SIZE, header);
    assert buf[0..RECORD_HEADER_SIZE] == buf[..];
    HeaderRead(data, pos, stream.readFails, stream.seekFails, raster, includePulses, includeWaveforms, memory.budget + 1);
    err, result := ReadHeadered(stream, buf, header, result, memory, includePulses, includeWaveforms);
  }

  /** `eaarlio_tld_read_record` after the record header is decoded from `buf`. */
  method ReadHeadered(stream: Stream, buf: array<Byte>, header: TldHeader, raster: Raster, memory: Memory,
                      includePulses: bool, includeWaveforms: bool)
    returns (err: Error, result: Raster)
    requires StreamValid(stream) && MemoryValid(memory)
    modifies stream`pos, memory`budget, memory`released
    ensures var s := HeaderedOutcome(stream.data, old(stream.pos), header, stream.readFails, stream.seekFails, raster,
                                     includePulses, includeWaveforms, old(memory.budget));
      err == s.err && result == s.raster && stream.pos == s.pos
      && memory.budget == s.budget && memory.released == old(memory.released) + s.released
  {
    result := raster;
    if header.recordLength < RECORD_HEADER_SIZE {
      memory.Free();
      return Corrupt, result;
    }
    var rasterLength := header.recordLength - RECORD_HEADER_SIZE;
    if header.recordType != TLD_TYPE_RASTER {
      if rasterLength > 0 {
        var ignored := stream.Seek(rasterLength, SEEK_CUR);
      }
      memory.Free();
      return Success, result;
    }
    err, result := ReadPayload(stream, buf, rasterLength, header, result, memory, includePulses, includeWaveforms);
  }

  /** The raster part of `eaarlio_tld_read_record`, from the reallocation of the buffer to its release. */
  method ReadPayload(stream: Stream, buf: array<Byte>, rasterLength: nat, header: TldHeader, raster: Raster, memory: Memory,
                     includePulses: bool, includeWaveforms: bool)
    returns (err: Error, result: Raster)
    requires StreamValid(stream) && MemoryValid(memory)
    modifies stream`pos, memory`budget, memory`released
    ensures var s := PayloadOutcome(stream.data, old(stream.pos), rasterLength, stream.readFails, stream.seekFails, header, raster,
                                    includePulses, includeWaveforms, old(memory.budget));
      err == s.err && result == s.raster && stream.pos == s.pos
      && memory.budget == s.budget && memory.released == old(memory.released) + s.released
  {
    var n := if includePulses then rasterLength else RASTER_HEADER_SIZE;
    var grown := memory.Realloc(buf, n);
    if grown == null {
      return MemoryAllocFail, raster;
    }
    err, result := ReadFilled(stream, grown, n, rasterLength, header, raster, memory, includePulses, includeWaveforms);
  }

  /** Reading the payload into the grown buffer, skipping what was not read, unpacking, and releasing the buffer. */
  method ReadFilled(stream: Stream, grown: array<Byte>, n: nat, rasterLength: nat, header: TldHeader, raster: Raster,
                    memory: Memory, includePulses: bool, includeWaveforms: bool)
    returns (err: Error, result: Raster)
    requires StreamValid(stream) && MemoryValid(memory) && grown.Length == n
    modifies stream`pos, memory`budget, memory`released, grown
    ensures var s := FilledOutcome(stream.data, old(stream.pos), n, rasterLength, stream.readFails, stream.seekFails, header,
                                   raster, includePulses, includeWaveforms, old(memory.budget));
      err == s.err && result == s.raster && stream.pos == s.pos
      && memory.budget == s.budget && memory.released == old(memory.released) + 1
  {
    result := raster;
    ghost var start := stream.pos;
    err := stream.Read(n, grown, 0);
    if err != Success {
      memory.Free();
      return;
    }
    ghost var got := ReadBytes(stream.data, start, n, stream.readFails);
    assert grown[..] == got;
    if n < rasterLength {
      err := stream.Seek(rasterLength - n, SEEK_CUR);
      if err != Success {
        memory.Free();
        return;
      }
    }
    var unpackLen := if n < rasterLength then n else rasterLength;
    FrontOfBuffer(grown, got, unpackLen);
    err, result := UnpackRaster(grown, 0, unpackLen, result, memory, includePulses, includeWaveforms);
    memory.Free();
  }

  /** The first `j` bytes of a buffer holding `got` are the first `j` bytes of `got`. */
  lemma FrontOfBuffer(buffer: array<Byte>, got: seq<Byte>, j: nat)
    requires buffer[..] == got && j <= |got|
    ensures buffer[0..j] == got[..j]
  {
  }

  /** `eaarlio_tld_read_raster`: a record of any other type is an error. */
  method ReadRaster(stream: Stream, raster: Raster, memory: Memory, includePulses: bool, includeWaveforms: bool)
    returns (err: Error, result: Raster)
    modifies stream`pos, memory`budget, memory`released
    ensures StreamValid(stream) && MemoryValid(memory) ==>
              var s := ReadRecordOutcome(stream.data, old(stream.pos), stream.readFails, stream.seekFails, raster,
                                         includePulses, includeWaveforms, old(memory.budget));
              err == (if s.err != Success then s.err else if s.header.recordType != TLD_TYPE_RASTER then TldTypeUnknown else Success)
              && result == s.raster && stream.pos == s.pos
              && memory.budget == s.budget && memory.released == old(memory.released) + s.released
    ensures !StreamValid(stream) || !MemoryValid(memory) ==>
              err == (if !StreamValid(stream) then StreamInvalid else MemoryInvalid)
              && result == raster.(pulse := None) && memory.budget == old(memory.budget)
              && memory.released == old(memory.released) && stream.pos == old(stream.pos)
  {
    var header;
    err, header, result := ReadRecord(stream, raster, memory, includePulses, includeWaveforms);
    if err != Success {
      return;
    }
    if header.recordType != TLD_TYPE_RASTER {
      return TldTypeUnknown, result;
    }
  }

  /**
   * `eaarlio_tld_write_raster`. An invalid stream and an invalid handler are refused before
   * anything is packed or written.
   */
  method WriteRaster(stream: Stream, raster: Raster, memory: Memory) returns (err: Error)
    requires RasterWellFormed(raster)
    modifies stream`data, stream`pos, memory`budget, memory`released
    ensures !StreamValid(stream) || !MemoryValid(memory) ==>
              err == (if !StreamValid(stream) then StreamInvalid else MemoryInvalid)
              && memory.budget == old(memory.budget) && memory.released == old(memory.released)
              && stream.data == old(stream.data) && stream.pos == old(stream.pos)
    ensures StreamValid(stream) && MemoryValid(memory) ==>
              var s := WriteRasterOutcome(raster, old(stream.data), old(stream.pos), stream.writeFails, old(memory.budget));
              err == s.err
    ensures StreamValid(stream) && MemoryValid(memory) ==>
              var s := WriteRasterOutcome(raster, old(stream.data), old(stream.pos), stream.writeFails, old(memory.budget));
              stream.data == s.data && stream.pos == s.pos
    ensures StreamValid(stream) && MemoryValid(memory) ==>
              var s := WriteRasterOutcome(raster, old(stream.data), old(stream.pos), stream.writeFails, old(memory.budget));
              memory.budget == s.budget && memory.released == old(memory.released) + s.released
  {
    if !StreamValid(stream) {
      return StreamInvalid;
    }
    if !MemoryValid(memory) {
      return MemoryInvalid;
    }
    err := PackAndWrite(stream, raster, memory);
  }

  /** `eaarlio_tld_write_raster` once the stream and the handler are valid: pack, write, free the buffer. */
  method PackAndWrite(stream: Stream, raster: Raster, memory: Memory) returns (err: Error)
    requires RasterWellFormed(raster) && StreamValid(stream) && MemoryValid(memory)
    modifies stream`data, stream`pos, memory`budget, memory`released
    ensures var s := WriteRasterOutcome(raster, old(stream.data), old(stream.pos), stream.writeFails, old(memory.budget));
            err == s.err
    ensures var s := WriteRasterOutcome(raster, old(stream.data), old(stream.pos), stream.writeFails, old(memory.budget));
            stream.data == s.data && stream.pos == s.pos
    ensures var s := WriteRasterOutcome(raster, old(stream.data), old(stream.pos), stream.writeFails, old(memory.budget));
            memory.budget == s.budget && memory.released == old(memory.released) + s.released
  {
    var packed, packedLen;
    err, packed, packedLen := PackRaster(raster, memory);
    if err == Success {
      err := WriteRecord(stream, packed, packedLen);
      assert RecordLength(packedLen) == RasterSize(raster) + RECORD_HEADER_SIZE;
      if err == Success {
        RecordOfPacked(raster, packed[..], packedLen);
      }
    }
    if packed != null {
      memory.Free();
    }
  }

  /** The record `eaarlio_tld_write_raster` writes is the record header, then the packed raster. */
  lemma RecordOfPacked(r: Raster, packed: seq<Byte>, packedLen: U32)
    requires RasterEncodable(r) && packed == RasterBytes(r) && packedLen == RasterSize(r)
    requires RasterSize(r) + RECORD_HEADER_SIZE <= UINT24_MAX
    ensures RecordBytes(r) == RecordHeaderBytes(TldHeader(RecordLength(packedLen), TLD_TYPE_RASTER)) + packed
  {
  }

  /** The record length `eaarlio_tld_write_raster` stores: the payload length plus the record header, in 32 bits. */
  function RecordLength(payloadLen: U32): (n: U32)
    ensures payloadLen + RECORD_HEADER_SIZE < 0x1_0000_0000 ==> n == payloadLen + RECORD_HEADER_SIZE
    ensures payloadLen + RECORD_HEADER_SIZE >= 0x1_0000_0000 ==> n < RECORD_HEADER_SIZE
  {
    (payloadLen + RECORD_HEADER_SIZE) % 0x1_0000_0000
  }

  /**
   * The two writes of `eaarlio_tld_write_raster` after a successful pack: the record header, then
   * the `packedLen` packed bytes. A record length beyond 24 bits is refused before anything is written.
   */
  method WriteRecord(stream: Stream, packed: array<Byte>, packedLen: U32) returns (err: Error)
    requires StreamValid(stream) && packed.Length == packedLen
    modifies stream`data, stream`pos
    ensures var h := TldHeader(RecordLength(packedLen), TLD_TYPE_RASTER);
      err == if !RecordHeaderInRange(h) then ValueOutOfRange else if stream.writeFails then StreamWriteError else Success
    ensures err == Success ==>
              stream.data == Overwrite(old(stream.data), old(stream.pos),
                                       RecordHeaderBytes(TldHeader(RecordLength(packedLen), TLD_TYPE_RASTER)) + packed[..])
              && stream.pos == old(stream.pos) + RECORD_HEADER_SIZE + packedLen
    ensures err != Success ==> stream.data == old(stream.data) && stream.pos == old(stream.pos)
  {
    var header := TldHeader(RecordLength(packedLen), TLD_TYPE_RASTER);
    var record := new Byte[RECORD_HEADER_SIZE];
    err := EncodeRecordHeader(record, 0, RECORD_HEADER_SIZE, header);
    if err != Success {
      return;
    }
    ghost var head := record[..];
    assert head == RecordHeaderBytes(header);
    err := stream.Write(RECORD_HEADER_SIZE, record, 0);
    if err != Success {
      return;
    }
    assert record[0..RECORD_HEADER_SIZE] == head;
    err := stream.Write(packedLen, packed, 0);
    assert packed[0..packedLen] == packed[..];
    OverwriteTwice(old(stream.data), old(stream.pos), head, packed[..]);
  }
}
