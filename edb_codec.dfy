/**
 * Field codecs of the EDB index file (edb_encode.c, edb_decode.c, edb_internals.h).
 *
 * An EDB file is a 12-byte header, then one 20-byte record per raster, then the TLD
 * file names, each a 2-byte little-endian length followed by that many bytes.
 * Encoders write into a caller's buffer at offset `at`; a NULL buffer is a null array.
 */
module EdbCodec {
  import opened Bytes
  import opened Errors
  import opened IntCodec
  import opened CStrings

  const HEADER_SIZE: nat := 12
  const RECORD_SIZE: nat := 20
  const FILENAME_LENGTH_SIZE: nat := 2

  /**
   * The library's limit on a file name's length, `1 << 16`: one more than its 16-bit length
   * prefix can hold (see `FilenameLengthCarried` for the limit the format can honour).
   */
  const FILENAME_MAX_LENGTH: nat := 0x1_0000

  /** The longest file name the 16-bit length prefix can carry. */
  const FILENAME_CARRIED_LENGTH: nat := 0xFFFF

  datatype EdbHeader = EdbHeader(filesOffset: U32, recordCount: U32, fileCount: U32)

  datatype EdbRecord = EdbRecord(
    timeSeconds: U32,
    timeFraction: U32,
    recordOffset: U32,
    recordLength: U32,
    fileIndex: I16,
    pulseCount: Byte,
    digitizer: Byte)

  const EmptyRecord := EdbRecord(0, 0, 0, 0, 0, 0, 0)

  // Byte layouts ------------------------------------------------------------

  /** files_offset, record_count and file_count as little-endian 32-bit words at 0, 4 and 8. */
  function HeaderBytes(h: EdbHeader): (b: seq<Byte>)
    ensures |b| == HEADER_SIZE
  {
    Uint32Bytes(h.filesOffset) + Uint32Bytes(h.recordCount) + Uint32Bytes(h.fileCount)
  }

  function HeaderOf(b: seq<Byte>): EdbHeader
    requires |b| >= HEADER_SIZE
  {
    EdbHeader(DecodeUint32(b), DecodeUint32(b[4..]), DecodeUint32(b[8..]))
  }

  /** The record layout: four 32-bit words, a signed 16-bit file index, then two single bytes. */
  function RecordBytes(r: EdbRecord): (b: seq<Byte>)
    ensures |b| == RECORD_SIZE
  {
    Uint32Bytes(r.timeSeconds) + Uint32Bytes(r.timeFraction) + Uint32Bytes(r.recordOffset)
      + Uint32Bytes(r.recordLength) + Int16Bytes(r.fileIndex) + [r.pulseCount] + [r.digitizer]
  }

  function RecordOf(b: seq<Byte>): EdbRecord
    requires |b| >= RECORD_SIZE
  {
    EdbRecord(DecodeUint32(b), DecodeUint32(b[4..]), DecodeUint32(b[8..]), DecodeUint32(b[12..]),
      DecodeInt16(b[16..]), DecodeUint8(b[18..]), DecodeUint8(b[19..]))
  }

  lemma HeaderRoundTrip(h: EdbHeader)
    ensures HeaderOf(HeaderBytes(h)) == h
  {
    var b := HeaderBytes(h);
    assert b[4..][..4] == Uint32Bytes(h.recordCount);
    assert b[8..][..4] == Uint32Bytes(h.fileCount);
    Uint32RoundTrip(h.filesOffset);
    Uint32RoundTrip(h.recordCount);
    Uint32RoundTrip(h.fileCount);
  }

  lemma HeaderBytesRoundTrip(b: seq<Byte>)
    requires |b| == HEADER_SIZE
    ensures HeaderBytes(HeaderOf(b)) == b
  {
    Uint32BytesRoundTrip(b);
    Uint32BytesRoundTrip(b[4..]);
    Uint32BytesRoundTrip(b[8..]);
    assert b == b[..4] + b[4..][..4] + b[8..][..4];
  }

  lemma RecordRoundTrip(r: EdbRecord)
    ensures RecordOf(RecordBytes(r)) == r
  {
    var b := RecordBytes(r);
    assert b[..4] == Uint32Bytes(r.timeSeconds);
    assert b[4..][..4] == Uint32Bytes(r.timeFraction);
    assert b[8..][..4] == Uint32Bytes(r.recordOffset);
    assert b[12..][..4] == Uint32Bytes(r.recordLength);
    assert b[16..][..2] == Int16Bytes(r.fileIndex);
    Uint32RoundTrip(r.timeSeconds);
    Uint32RoundTrip(r.timeFraction);
    Uint32RoundTrip(r.recordOffset);
    Uint32RoundTrip(r.recordLength);
    Int16RoundTrip(r.fileIndex);
  }

  lemma RecordBytesRoundTrip(b: seq<Byte>)
    requires |b| == RECORD_SIZE
    ensures RecordBytes(RecordOf(b)) == b
  {
    Uint32BytesRoundTrip(b);
    Uint32BytesRoundTrip(b[4..]);
    Uint32BytesRoundTrip(b[8..]);
    Uint32BytesRoundTrip(b[12..]);
    Int16BytesRoundTrip(b[16..]);
    assert b == b[..4] + b[4..][..4] + b[8..][..4] + b[12..][..4] + b[16..][..2] + [b[18]] + [b[19]];
  }

  /** The shared test vectors: 70 00 00 00 05 00 00 00 03 00 00 00 is (112, 5, 3). */
  lemma HeaderSampleVector()
    ensures HeaderOf([0x70, 0, 0, 0, 5, 0, 0, 0, 3, 0, 0, 0]) == EdbHeader(112, 5, 3)
    ensures HeaderOf([1, 2, 3, 4, 5, 6, 7, 8, 9, 10, 11, 12]) == EdbHeader(67305985, 134678021, 202050057)
  {
  }

  // Encoders ---------------------------------------------------------------

  /** `eaarlio_edb_encode_header` */
  method EncodeHeader(buffer: array?<Byte>, at: nat, bufferLen: nat, header: EdbHeader) returns (err: Error)
    requires buffer != null ==> at + bufferLen <= buffer.Length
    modifies buffer
    ensures err == if buffer == null then Null else if bufferLen < HEADER_SIZE then BufferShort else Success
    ensures err == Success ==> buffer[..] == old(buffer[..at]) + HeaderBytes(header) + old(buffer[at + HEADER_SIZE..])
    ensures err != Success && buffer != null ==> buffer[..] == old(buffer[..])
  {
    if buffer == null {
      return Null;
    }
    if bufferLen < HEADER_SIZE {
      return BufferShort;
    }
    ghost var s0 := buffer[..];
    EncodeUint32(buffer, at, header.filesOffset);
    ghost var s1 := buffer[..];
    EncodeUint32(buffer, at + 4, header.recordCount);
    ghost var s2 := buffer[..];
    Splice(s0, s1, s2, at, Uint32Bytes(header.filesOffset), Uint32Bytes(header.recordCount));
    EncodeUint32(buffer, at + 8, header.fileCount);
    Splice(s0, s2, buffer[..], at, Uint32Bytes(header.filesOffset) + Uint32Bytes(header.recordCount), Uint32Bytes(header.fileCount));
    err := Success;
  }

  /** `eaarlio_edb_encode_record` */
  method EncodeRecord(buffer: array?<Byte>, at: nat, bufferLen: nat, record: EdbRecord) returns (err: Error)
    requires buffer != null ==> at + bufferLen <= buffer.Length
    modifies buffer
    ensures err == if buffer == null then Null else if bufferLen < RECORD_SIZE then BufferShort else Success
    ensures err == Success ==> buffer[..] == old(buffer[..at]) + RecordBytes(record) + old(buffer[at + RECORD_SIZE..])
    ensures err != Success && buffer != null ==> buffer[..] == old(buffer[..])
  {
    if buffer == null {
      return Null;
    }
    if bufferLen < RECORD_SIZE {
      return BufferShort;
    }
    ghost var s0 := buffer[..];
    EncodeUint32(buffer, at, record.timeSeconds);
    ghost var s1 := buffer[..];
    EncodeUint32(buffer, at + 4, record.timeFraction);
    ghost var s2 := buffer[..];
    Splice(s0, s1, s2, at, Uint32Bytes(record.timeSeconds), Uint32Bytes(record.timeFraction));
    ghost var w := Uint32Bytes(record.timeSeconds) + Uint32Bytes(record.timeFraction);
    EncodeUint32(buffer, at + 8, record.recordOffset);
    ghost var s3 := buffer[..];
    Splice(s0, s2, s3, at, w, Uint32Bytes(record.recordOffset));
    w := w + Uint32Bytes(record.recordOffset);
    EncodeUint32(buffer, at + 12, record.recordLength);
    ghost var s4 := buffer[..];
    Splice(s0, s3, s4, at, w, Uint32Bytes(record.recordLength));
    w := w + Uint32Bytes(record.recordLength);
    EncodeInt16(buffer, at + 16, record.fileIndex);
    ghost var s5 := buffer[..];
    Splice(s0, s4, s5, at, w, Int16Bytes(record.fileIndex));
    w := w + Int16Bytes(record.fileIndex);
    EncodeUint8(buffer, at + 18, record.pulseCount);
    ghost var s6 := buffer[..];
    Splice(s0, s5, s6, at, w, [record.pulseCount]);
    w := w + [record.pulseCount];
    EncodeUint8(buffer, at + 19, record.digitizer);
    Splice(s0, s6, buffer[..], at, w, [record.digitizer]);
    err := Success;
  }

  /** `eaarlio_edb_encode_filename_length` */
  method EncodeFilenameLength(buffer: array?<Byte>, at: nat, bufferLen: nat, length: U16) returns (err: Error)
    requires buffer != null ==> at + bufferLen <= buffer.Length
    modifies buffer
    ensures err == if buffer == null then Null else if bufferLen < FILENAME_LENGTH_SIZE then BufferShort else Success
    ensures err == Success ==> buffer[..] == old(buffer[..at]) + Uint16Bytes(length) + old(buffer[at + 2..])
    ensures err != Success && buffer != null ==> buffer[..] == old(buffer[..])
  {
    if buffer == null {
      return Null;
    }
    if bufferLen < FILENAME_LENGTH_SIZE {
      return BufferShort;
    }
    EncodeUint16(buffer, at, length);
    err := Success;
  }

  /** The length limit the encoder and the writer apply: at most `1 << 16` bytes. */
  predicate FilenameLengthAccepted(len: nat)
  {
    len <= FILENAME_MAX_LENGTH
  }

  /** The length limit the format can honour: the 16-bit prefix must carry the length. */
  predicate FilenameLengthCarried(len: nat)
  {
    len <= FILENAME_CARRIED_LENGTH
  }

  /** The prefix the writer stores for a name of `len` bytes: the length cast to `uint16_t`. */
  function FilenamePrefix(len: nat): (v: U16)
    ensures FilenameLengthCarried(len) ==> v == len
    ensures len == FILENAME_MAX_LENGTH ==> v == 0
  {
    len % 0x1_0000
  }

  /** Among the lengths the library accepts, a length survives its 16-bit prefix exactly when the corrected limit, 65535, admits it. */
  lemma FilenameLengthPrefixExact(len: nat)
    requires FilenameLengthAccepted(len)
    ensures DecodeUint16(Uint16Bytes(FilenamePrefix(len))) == len <==> FilenameLengthCarried(len)
  {
    Uint16RoundTrip(FilenamePrefix(len));
  }

  /**
   * `eaarlio_edb_encode_filename`: copies the name's characters, without the terminator.
   * The name's memory must hold a terminator or at least as many bytes as are scanned.
   */
  method EncodeFilename(buffer: array?<Byte>, at: nat, bufferLen: nat, filename: seq<Byte>) returns (err: Error)
    requires buffer != null ==> at + bufferLen <= buffer.Length
    requires FILENAME_MAX_LENGTH + 1 <= |filename| || 0 in filename
    modifies buffer
    ensures var len := StrNLen(filename, FILENAME_MAX_LENGTH + 1);
      err == if buffer == null then Null
        else if !FilenameLengthAccepted(len) then EdbFilenameTooLong
        else if bufferLen < len then BufferShort
        else Success
    ensures err == Success ==> var len := StrNLen(filename, FILENAME_MAX_LENGTH + 1);
      buffer[..] == old(buffer[..at]) + filename[..len] + old(buffer[at + len..])
    ensures err != Success && buffer != null ==> buffer[..] == old(buffer[..])
  {
    if buffer == null {
      return Null;
    }
    var len := StrNLen(filename, FILENAME_MAX_LENGTH + 1);
    if !FilenameLengthAccepted(len) {
      return EdbFilenameTooLong;
    }
    if bufferLen < len {
      return BufferShort;
    }
    forall i | 0 <= i < len {
      buffer[at + i] := filename[i];
    }
    err := Success;
  }

  // Decoders ---------------------------------------------------------------

  /** `eaarlio_edb_decode_header`: the header is left as it was on failure. */
  method DecodeHeader(buffer: array?<Byte>, at: nat, bufferLen: nat, header: EdbHeader) returns (err: Error, result: EdbHeader)
    requires buffer != null ==> at + bufferLen <= buffer.Length
    ensures err == if buffer == null then Null else if bufferLen < HEADER_SIZE then BufferShort else Success
    ensures result == if err == Success then HeaderOf(buffer[at..at + HEADER_SIZE]) else header
  {
    result := header;
    if buffer == null {
      return Null, result;
    }
    if bufferLen < HEADER_SIZE {
      return BufferShort, result;
    }
    result := result.(filesOffset := DecodeUint32(buffer[at..at + 4]));
    result := result.(recordCount := DecodeUint32(buffer[at + 4..at + 8]));
    result := result.(fileCount := DecodeUint32(buffer[at + 8..at + 12]));
    err := Success;
  }

  /** `eaarlio_edb_decode_record`: file_index is read as a signed value; the record is left as it was on failure. */
  method DecodeRecord(buffer: array?<Byte>, at: nat, bufferLen: nat, record: EdbRecord) returns (err: Error, result: EdbRecord)
    requires buffer != null ==> at + bufferLen <= buffer.Length
    ensures err == if buffer == null then Null else if bufferLen < RECORD_SIZE then BufferShort else Success
    ensures result == if err == Success then RecordOf(buffer[at..at + RECORD_SIZE]) else record
  {
    result := record;
    if buffer == null {
      return Null, result;
    }
    if bufferLen < RECORD_SIZE {
      return BufferShort, result;
    }
    result := result.(timeSeconds := DecodeUint32(buffer[at..at + 4]));
    result := result.(timeFraction := DecodeUint32(buffer[at + 4..at + 8]));
    result := result.(recordOffset := DecodeUint32(buffer[at + 8..at + 12]));
    result := result.(recordLength := DecodeUint32(buffer[at + 12..at + 16]));
    result := result.(fileIndex := DecodeInt16(buffer[at + 16..at + 18]));
    result := result.(pulseCount := DecodeUint8(buffer[at + 18..at + 19]));
    result := result.(digitizer := DecodeUint8(buffer[at + 19..at + 20]));
    err := Success;
  }

  /** `eaarlio_edb_decode_filename_length` */
  method DecodeFilenameLength(buffer: array?<Byte>, at: nat, bufferLen: nat, length: U16) returns (err: Error, result: U16)
    requires buffer != null ==> at + bufferLen <= buffer.Length
    ensures err == if buffer == null then Null else if bufferLen < FILENAME_LENGTH_SIZE then BufferShort else Success
    ensures result == if err == Success then DecodeUint16(buffer[at..at + 2]) else length
  {
    if buffer == null {
      return Null, length;
    }
    if bufferLen < FILENAME_LENGTH_SIZE {
      return BufferShort, length;
    }
    return Success, DecodeUint16(buffer[at..at + 2]);
  }

  /**
   * `eaarlio_edb_decode_filename`: copies `length` bytes into `filename` and terminates them.
   * A zero length succeeds at once and writes nothing, not even the terminator.
   */
  method DecodeFilename(buffer: array?<Byte>, at: nat, bufferLen: nat, length: U16, filename: array?<Byte>, filenameLen: nat)
    returns (err: Error)
    requires buffer != null ==> at + bufferLen <= buffer.Length
    requires filename != null ==> filenameLen <= filename.Length
    requires buffer == null || buffer != filename
    modifies filename
    ensures err == if buffer == null || filename == null then Null
      else if length == 0 then Success
      else if bufferLen < length || filenameLen <= length then BufferShort
      else Success
    ensures err == Success && length > 0 ==>
      filename[..] == buffer[at..at + length] + [0] + old(filename[length + 1..])
    ensures (err != Success || length == 0) && filename != null ==> filename[..] == old(filename[..])
  {
    if buffer == null || filename == null {
      return Null;
    }
    if length == 0 {
      return Success;
    }
    if bufferLen < length || filenameLen <= length {
      return BufferShort;
    }
    forall i | 0 <= i < length {
      filename[i] := buffer[at + i];
    }
    filename[length] := 0;
    err := Success;
  }
}
