/**
 * Writing the parts of an EDB index to a stream (edb_write.c): the header at offset 0,
 * the records from offset 12, and the file names at the header's files offset.
 *
 * Each writer is specified by a function of the stream's contents, position and flags.
 */
module EdbWrite {
  import opened Bytes
  import opened Errors
  import opened IntCodec
  import opened CStrings
  import opened EdbCodec
  import opened Streams
  import opened EdbRead

  /** The outcome of a write: the error, the file contents and the cursor. */
  datatype WriteStep = WriteStep(err: Error, data: seq<Byte>, pos: nat)

  /** What writing `bytes` at `pos` leaves: a write of nothing leaves the file as it was. */
  function Written(data: seq<Byte>, pos: nat, bytes: seq<Byte>): (r: seq<Byte>)
    ensures |bytes| > 0 ==> r == Overwrite(data, pos, bytes)
    ensures |bytes| == 0 ==> r == data
  {
    if |bytes| == 0 then data else Overwrite(data, pos, bytes)
  }

  /** Two writes back to back leave what one write of both blocks leaves. */
  lemma WrittenTwice(data: seq<Byte>, pos: nat, a: seq<Byte>, b: seq<Byte>)
    ensures Written(Written(data, pos, a), pos + |a|, b) == Written(data, pos, a + b)
  {
    if |a| == 0 {
      assert a + b == b;
    } else if |b| == 0 {
      assert a + b == a;
    } else {
      OverwriteTwice(data, pos, a, b);
    }
  }

  /** A write of a non-empty block just past what an earlier write left extends that write. */
  lemma WrittenStep(data: seq<Byte>, pos: nat, done: seq<Byte>, one: seq<Byte>, before: seq<Byte>)
    requires before == Written(data, pos, done) && |one| > 0
    ensures Overwrite(before, pos + |done|, one) == Written(data, pos, done + one)
  {
    WrittenTwice(data, pos, done, one);
  }

  // Header --------------------------------------------------------------------------

  /** `eaarlio_edb_write_header` on a valid stream: a seek to 0, then the twelve header bytes. */
  function HeaderWriteOutcome(header: EdbHeader, data: seq<Byte>, pos: nat, writeFails: bool, seekFails: bool): (s: WriteStep)
    ensures s.err == Success <==> !seekFails && !writeFails
    ensures s.err == Success ==> |s.data| >= HEADER_SIZE && s.data[..HEADER_SIZE] == HeaderBytes(header) && s.pos == HEADER_SIZE
    ensures s.err != Success ==> s.data == data
  {
    if seekFails then WriteStep(StreamSeekError, data, pos)
    else if writeFails then WriteStep(StreamWriteError, data, 0)
    else WriteStep(Success, Overwrite(data, 0, HeaderBytes(header)), HEADER_SIZE)
  }

  /** `eaarlio_edb_write_header` */
  method WriteHeader(stream: Stream, header: EdbHeader) returns (err: Error)
    modifies stream`data, stream`pos
    ensures !StreamValid(stream) ==> err == StreamInvalid && stream.data == old(stream.data) && stream.pos == old(stream.pos)
    ensures StreamValid(stream) ==>
              var s := HeaderWriteOutcome(header, old(stream.data), old(stream.pos), stream.writeFails, stream.seekFails);
              err == s.err && stream.data == s.data && stream.pos == s.pos
  {
    if !StreamValid(stream) {
      return StreamInvalid;
    }
    var buf := new Byte[HEADER_SIZE];
    err := EncodeHeader(buf, 0, HEADER_SIZE, header);
    assert buf[..] == HeaderBytes(header);
    err := stream.Seek(0, SEEK_SET);
    if err != Success {
      return;
    }
    err := stream.Write(HEADER_SIZE, buf, 0);
    assert buf[0..HEADER_SIZE] == buf[..];
  }

  // Records -------------------------------------------------------------------------

  /** The record section for the first `n` records: each record's twenty bytes, in order. */
  function RecordsBytes(records: seq<EdbRecord>, n: nat): (b: seq<Byte>)
    requires n <= |records|
    ensures |b| == RECORD_SIZE * n
  {
    if n == 0 then [] else RecordsBytes(records, n - 1) + RecordBytes(records[n - 1])
  }

  /**
   * `eaarlio_edb_write_records` on a valid stream: a seek to offset 12, then each of `count`
   * records encoded and written in order. Only the first write can fail.
   */
  function RecordsWriteOutcome(records: seq<EdbRecord>, count: nat, data: seq<Byte>, pos: nat, writeFails: bool,
                               seekFails: bool): (s: WriteStep)
    requires count <= |records|
    ensures s.err == Success <==> !seekFails && (count == 0 || !writeFails)
    ensures s.err == Success && count > 0 ==>
              |s.data| >= RecordSpan(count) && s.data[HEADER_SIZE..RecordSpan(count)] == RecordsBytes(records, count)
    ensures s.err == Success ==> s.pos == RecordSpan(count)
    ensures s.err != Success || count == 0 ==> s.data == data
  {
    if seekFails then WriteStep(StreamSeekError, data, pos)
    else if count > 0 && writeFails then WriteStep(StreamWriteError, data, HEADER_SIZE)
    else WriteStep(Success, Written(data, HEADER_SIZE, RecordsBytes(records, count)), RecordSpan(count))
  }

  /** `eaarlio_edb_write_records`: the caller's array holds at least `recordCount` records. */
  method WriteRecords(stream: Stream, header: EdbHeader, records: seq<EdbRecord>) returns (err: Error)
    requires header.recordCount <= |records|
    modifies stream`data, stream`pos
    ensures !StreamValid(stream) ==> err == StreamInvalid && stream.data == old(stream.data) && stream.pos == old(stream.pos)
    ensures StreamValid(stream) ==>
              var s := RecordsWriteOutcome(records, header.recordCount, old(stream.data), old(stream.pos),
                                           stream.writeFails, stream.seekFails);
              err == s.err && stream.data == s.data && stream.pos == s.pos
  {
    if !StreamValid(stream) {
      return StreamInvalid;
    }
    err := stream.Seek(HEADER_SIZE, SEEK_SET);
    if err != Success {
      return;
    }
    err := WriteRecordLoop(stream, records, header.recordCount);
  }

  /**
   * The record loop's state before record `i`: the first `i` records are in the file after the
   * header, and a write has succeeded once any record was written.
   */
  predicate RecordsWrittenBefore(data: seq<Byte>, pos: nat, writeFails: bool, start: seq<Byte>,
                                 records: seq<EdbRecord>, count: nat, i: nat)
  {
    i <= count <= |records| && pos == RecordSpan(i)
    && data == Written(start, HEADER_SIZE, RecordsBytes(records, i)) && (i > 0 ==> !writeFails)
  }

  /** A failed write can only be the first one, so nothing has been written yet. */
  lemma RecordsStopped(data: seq<Byte>, pos: nat, writeFails: bool, start: seq<Byte>, records: seq<EdbRecord>,
                       count: nat, i: nat)
    requires RecordsWrittenBefore(data, pos, writeFails, start, records, count, i) && writeFails
    ensures i == 0 && data == start && pos == HEADER_SIZE
  {
  }

  /** The loop of `eaarlio_edb_write_records`, from the cursor at offset 12: one buffer, reused for each record. */
  method WriteRecordLoop(stream: Stream, records: seq<EdbRecord>, count: nat) returns (err: Error)
    requires StreamValid(stream) && stream.pos == HEADER_SIZE && count <= |records|
    modifies stream`data, stream`pos
    ensures err == if count > 0 && stream.writeFails then StreamWriteError else Success
    ensures err != Success ==> stream.data == old(stream.data) && stream.pos == HEADER_SIZE
    ensures err == Success ==> stream.data == Written(old(stream.data), HEADER_SIZE, RecordsBytes(records, count))
    ensures err == Success ==> stream.pos == RecordSpan(count)
  {
    ghost var start := stream.data;
    var buf := new Byte[RECORD_SIZE];
    var i := 0;
    while i < count
      invariant RecordsWrittenBefore(stream.data, stream.pos, stream.writeFails, start, records, count, i)
    {
      err := WriteRecordNext(stream, buf, start, records, count, i);
      if err != Success {
        RecordsStopped(stream.data, stream.pos, stream.writeFails, start, records, count, i);
        return;
      }
      i := i + 1;
    }
    err := Success;
  }

  /** One pass of the record loop: record `i` is written after the first `i`, or the loop stops. */
  method WriteRecordNext(stream: Stream, buf: array<Byte>, ghost start: seq<Byte>, records: seq<EdbRecord>,
                         count: nat, i: nat)
    returns (err: Error)
    requires StreamValid(stream) && buf.Length == RECORD_SIZE && i < count
    requires RecordsWrittenBefore(stream.data, stream.pos, stream.writeFails, start, records, count, i)
    modifies stream`data, stream`pos, buf
    ensures err == if stream.writeFails then StreamWriteError else Success
    ensures err != Success ==> stream.data == old(stream.data) && stream.pos == old(stream.pos)
    ensures err == Success ==> RecordsWrittenBefore(stream.data, stream.pos, stream.writeFails, start, records, count, i + 1)
  {
    ghost var before := stream.data;
    err := WriteRecordAt(stream, buf, records[i]);
    if err == Success {
      RecordAppended(records, i);
      WrittenStep(start, HEADER_SIZE, RecordsBytes(records, i), RecordBytes(records[i]), before);
    }
  }

  /** The record section grows by one record at a time. */
  lemma RecordAppended(records: seq<EdbRecord>, i: nat)
    requires i < |records|
    ensures RecordsBytes(records, i + 1) == RecordsBytes(records, i) + RecordBytes(records[i])
  {
  }

  /** One turn of the record loop: the record encoded into `buf` and written at the cursor. */
  method WriteRecordAt(stream: Stream, buf: array<Byte>, record: EdbRecord) returns (err: Error)
    requires StreamValid(stream) && buf.Length == RECORD_SIZE
    modifies stream`data, stream`pos, buf
    ensures err == if stream.writeFails then StreamWriteError else Success
    ensures err == Success ==> stream.data == Overwrite(old(stream.data), old(stream.pos), RecordBytes(record))
                               && stream.pos == old(stream.pos) + RECORD_SIZE
    ensures err != Success ==> stream.data == old(stream.data) && stream.pos == old(stream.pos)
  {
    err := EncodeRecord(buf, 0, RECORD_SIZE, record);
    assert buf[..] == RecordBytes(record);
    err := stream.Write(RECORD_SIZE, buf, 0);
    assert buf[0..RECORD_SIZE] == buf[..];
  }

  // File names ----------------------------------------------------------------------

  /** A name whose length can be measured: its allocation holds a terminator, or at least the bytes the scan looks at. */
  predicate Measurable(name: seq<Byte>)
  {
    FILENAME_MAX_LENGTH + 1 <= |name| || 0 in name
  }

  /** The length the writer measures, scanning at most one byte past the library's limit. */
  function NameLength(name: seq<Byte>): (n: nat)
    requires Measurable(name)
    ensures n <= FILENAME_MAX_LENGTH + 1 && n <= |name|
    ensures n <= FILENAME_MAX_LENGTH ==> n < |name| && name[n] == 0
    ensures 0 !in name[..n]
  {
    StrNLen(name, FILENAME_MAX_LENGTH + 1)
  }

  /**
   * A name as the file stores it: its length cut to 16 bits, then its characters without the
   * terminator. A name of the library's full limit, 65536 bytes, is stored with prefix 0.
   */
  function NameBytes(name: seq<Byte>): (b: seq<Byte>)
    requires Measurable(name) && FilenameLengthAccepted(NameLength(name))
    ensures |b| == FILENAME_LENGTH_SIZE + NameLength(name)
  {
    Uint16Bytes(FilenamePrefix(NameLength(name))) + name[..NameLength(name)]
  }

  /** The first `count` name slots are non-NULL and measurable, as `eaarlio_edb_write_filenames` needs. */
  predicate NamesWritable(names: seq<Name>, count: nat)
  {
    count <= |names| && forall j | 0 <= j < count :: names[j].Some? && Measurable(names[j].value)
  }

  /** A name slot the writer stores: non-NULL, measurable and within the library's limit. */
  predicate Storable(name: Name)
  {
    name.Some? && Measurable(name.value) && FilenameLengthAccepted(NameLength(name.value))
  }

  /** Each of the first `k` names is stored. */
  predicate NamesAccepted(names: seq<Name>, k: nat)
    requires k <= |names|
  {
    forall j | 0 <= j < k :: Storable(names[j])
  }

  /** The index of the first of `count` names, from name `i`, that is not stored, or `count`. */
  function FirstTooLong(names: seq<Name>, i: nat, count: nat): (k: nat)
    requires i <= count <= |names|
    ensures i <= k <= count
    ensures k < count ==> !Storable(names[k])
    decreases count - i
  {
    if i == count || !Storable(names[i]) then i
    else FirstTooLong(names, i + 1, count)
  }

  /** Every name before the first that is not stored is stored. */
  lemma {:induction false} StoredBeforeFirst(names: seq<Name>, i: nat, count: nat)
    requires i <= count <= |names|
    ensures forall j | i <= j < FirstTooLong(names, i, count) :: Storable(names[j])
    decreases count - i
  {
    if i < count && Storable(names[i]) {
      StoredBeforeFirst(names, i + 1, count);
    }
  }

  /** A stored name slot's bytes in the file name section. */
  function SlotBytes(name: Name): (b: seq<Byte>)
    ensures Storable(name) ==> b == NameBytes(name.value)
  {
    if Storable(name) then NameBytes(name.value) else []
  }

  /** The file name section for the first `k` names, in order (meaningful when they are all stored). */
  function NamesBytes(names: seq<Name>, k: nat): (b: seq<Byte>)
    requires k <= |names|
  {
    if k == 0 then [] else NamesBytes(names, k - 1) + SlotBytes(names[k - 1])
  }

  /**
   * `eaarlio_edb_write_filenames` on a valid stream: a seek to the files offset, then each
   * name's prefix and characters. The first name over the library's limit stops the loop with
   * EDB_FILENAME_TOO_LONG, after the names before it were written.
   */
  function FilenamesWriteOutcome(names: seq<Name>, header: EdbHeader, data: seq<Byte>, pos: nat, writeFails: bool,
                                 seekFails: bool): (s: WriteStep)
    requires NamesWritable(names, header.fileCount)
    ensures s.err == Success <==>
              !seekFails && (header.fileCount == 0 || !writeFails) && NamesAccepted(names, header.fileCount)
    ensures s.err == Success ==> s.data == Written(data, header.filesOffset, NamesBytes(names, header.fileCount))
    ensures s.err == Success ==> s.pos == header.filesOffset + |NamesBytes(names, header.fileCount)|
  {
    var count := header.fileCount;
    if seekFails then WriteStep(StreamSeekError, data, pos)
    else
      var k := FirstTooLong(names, 0, count);
      var b := NamesBytes(names, k);
      StoredBeforeFirst(names, 0, count);
      if k > 0 && writeFails then WriteStep(StreamWriteError, data, header.filesOffset)
      else WriteStep(if k < count then EdbFilenameTooLong else Success,
                     Written(data, header.filesOffset, b), header.filesOffset + |b|)
  }

  /** `eaarlio_edb_write_filenames`: each name is measured, then written without its terminator. */
  method WriteFilenames(stream: Stream, header: EdbHeader, names: seq<Name>) returns (err: Error)
    requires NamesWritable(names, header.fileCount)
    modifies stream`data, stream`pos
    ensures !StreamValid(stream) ==> err == StreamInvalid && stream.data == old(stream.data) && stream.pos == old(stream.pos)
    ensures StreamValid(stream) ==>
              var s := FilenamesWriteOutcome(names, header, old(stream.data), old(stream.pos), stream.writeFails,
                                             stream.seekFails);
              err == s.err
    ensures StreamValid(stream) ==>
              var s := FilenamesWriteOutcome(names, header, old(stream.data), old(stream.pos), stream.writeFails,
                                             stream.seekFails);
              stream.data == s.data && stream.pos == s.pos
  {
    if !StreamValid(stream) {
      return StreamInvalid;
    }
    err := stream.Seek(header.filesOffset, SEEK_SET);
    if err != Success {
      return;
    }
    err := WriteNames(stream, header.filesOffset, names, header.fileCount, FirstTooLong(names, 0, header.fileCount));
  }

  /**
   * How the name loop ends, from `start` with the cursor at `offset`, when name `k` is the
   * first not stored: a failed first write changes nothing; otherwise the names before `k` are
   * in the file and the result says whether `k` stopped the loop.
   */
  predicate NamesWriteEnded(err: Error, data: seq<Byte>, pos: nat, writeFails: bool, start: seq<Byte>, offset: nat,
                            names: seq<Name>, count: nat, k: nat)
    requires k <= |names|
  {
    if k > 0 && writeFails then
      err == StreamWriteError && data == start && pos == offset
    else
      err == (if k < count then EdbFilenameTooLong else Success)
      && data == Written(start, offset, NamesBytes(names, k)) && pos == offset + |NamesBytes(names, k)|
  }

  /**
   * The name loop before name `i`, from `start` with the cursor at `offset`, when name `k` is
   * the first not stored: the names before `i` are in the file, back to back, and a write
   * has succeeded once any name was written.
   */
  predicate NamesWrittenBefore(data: seq<Byte>, pos: nat, writeFails: bool, start: seq<Byte>, offset: nat,
                               names: seq<Name>, count: nat, i: nat, k: nat)
  {
    i <= count <= |names| && FirstTooLong(names, i, count) == k
    && pos == offset + |NamesBytes(names, i)| && data == Written(start, offset, NamesBytes(names, i))
    && (i > 0 ==> !writeFails)
  }

  /** The loop of `eaarlio_edb_write_filenames`, from the cursor at the files offset. */
  method WriteNames(stream: Stream, offset: nat, names: seq<Name>, count: nat, ghost k: nat) returns (err: Error)
    requires StreamValid(stream) && stream.pos == offset && NamesWritable(names, count)
    requires k == FirstTooLong(names, 0, count)
    modifies stream`data, stream`pos
    ensures k <= |names|
    ensures NamesWriteEnded(err, stream.data, stream.pos, stream.writeFails, old(stream.data), offset, names, count, k)
  {
    ghost var start := stream.data;
    var i := 0;
    while i < count
      invariant NamesWrittenBefore(stream.data, stream.pos, stream.writeFails, start, offset, names, count, i, k)
    {
      err := WriteNameAt(stream, start, offset, names, count, i, k);
      if err != Success {
        return;
      }
      i := i + 1;
    }
    err := Success;
    NamesAllWritten(stream.data, stream.pos, stream.writeFails, start, offset, names, count, k);
  }

  /** Once every name is written, the loop ends in success with the whole section in the file. */
  lemma NamesAllWritten(data: seq<Byte>, pos: nat, writeFails: bool, start: seq<Byte>, offset: nat, names: seq<Name>,
                        count: nat, k: nat)
    requires NamesWrittenBefore(data, pos, writeFails, start, offset, names, count, count, k)
    ensures k == count <= |names| && NamesWriteEnded(Success, data, pos, writeFails, start, offset, names, count, k)
  {
  }

  /** One pass of the name loop: name `i` is written after the first `i`, or the loop stops. */
  method WriteNameAt(stream: Stream, ghost start: seq<Byte>, offset: nat, names: seq<Name>, count: nat, i: nat,
                     ghost k: nat)
    returns (err: Error)
    requires StreamValid(stream) && i < count
    requires NamesWrittenBefore(stream.data, stream.pos, stream.writeFails, start, offset, names, count, i, k)
    requires names[i].Some? && Measurable(names[i].value)
    modifies stream`data, stream`pos
    ensures err == Success ==>
              NamesWrittenBefore(stream.data, stream.pos, stream.writeFails, start, offset, names, count, i + 1, k)
    ensures err != Success ==> NamesWriteEnded(err, stream.data, stream.pos, stream.writeFails, start, offset, names, count, k)
  {
    var name := names[i].value;
    ghost var before, at := stream.data, stream.pos;
    err := WriteName(stream, name);
    if err != Success {
      NameStopped(err, before, at, stream.writeFails, start, offset, names, count, i, k);
      return;
    }
    NameWritten(stream.data, stream.pos, before, at, stream.writeFails, start, offset, names, count, i, k);
  }

  /** A stored name written after the first `i` extends the names in the file by one. */
  lemma NameWritten(data: seq<Byte>, pos: nat, before: seq<Byte>, at: nat, writeFails: bool, start: seq<Byte>,
                    offset: nat, names: seq<Name>, count: nat, i: nat, k: nat)
    requires i < count && NamesWrittenBefore(before, at, writeFails, start, offset, names, count, i, k)
    requires Storable(names[i]) && !writeFails
    requires data == Overwrite(before, at, NameBytes(names[i].value)) && pos == at + |NameBytes(names[i].value)|
    ensures NamesWrittenBefore(data, pos, writeFails, start, offset, names, count, i + 1, k)
  {
    var done, one := NamesBytes(names, i), NameBytes(names[i].value);
    FirstTooLongStep(names, i, count);
    NameAppended(names, i);
    WrittenStep(start, offset, done, one, before);
    assert NamesBytes(names, i + 1) == done + one && at == offset + |done|;
  }

  /** A name refused, or a first write that fails, ends the loop with the names before it in the file. */
  lemma NameStopped(err: Error, data: seq<Byte>, pos: nat, writeFails: bool, start: seq<Byte>, offset: nat,
                    names: seq<Name>, count: nat, i: nat, k: nat)
    requires i < count && NamesWrittenBefore(data, pos, writeFails, start, offset, names, count, i, k)
    requires names[i].Some? && Measurable(names[i].value)
    requires err == (if !Storable(names[i]) then EdbFilenameTooLong else if writeFails then StreamWriteError else Success)
    requires err != Success
    ensures NamesWriteEnded(err, data, pos, writeFails, start, offset, names, count, k)
  {
    FirstTooLongStep(names, i, count);
    if err == StreamWriteError {
      assert i == 0 && NamesBytes(names, 0) == [];
    }
  }

  /** One step of the search for the first name that is not stored. */
  lemma FirstTooLongStep(names: seq<Name>, i: nat, count: nat)
    requires i < count <= |names|
    ensures Storable(names[i]) ==> i < FirstTooLong(names, i, count) == FirstTooLong(names, i + 1, count)
    ensures !Storable(names[i]) ==> FirstTooLong(names, i, count) == i
  {
  }

  /** The name section grows by one stored name at a time. */
  lemma NameAppended(names: seq<Name>, i: nat)
    requires i < |names| && Storable(names[i])
    ensures NamesBytes(names, i + 1) == NamesBytes(names, i) + NameBytes(names[i].value)
  {
  }

  /** One name: its length is measured and refused over the library's limit, then the prefix and the characters are written. */
  method WriteName(stream: Stream, name: seq<Byte>) returns (err: Error)
    requires StreamValid(stream) && Measurable(name)
    modifies stream`data, stream`pos
    ensures err == if !FilenameLengthAccepted(NameLength(name)) then EdbFilenameTooLong
                   else if stream.writeFails then StreamWriteError else Success
    ensures err == Success ==> stream.data == Overwrite(old(stream.data), old(stream.pos), NameBytes(name))
                               && stream.pos == old(stream.pos) + |NameBytes(name)|
    ensures err != Success ==> stream.data == old(stream.data) && stream.pos == old(stream.pos)
  {
    var len := StrNLen(name, FILENAME_MAX_LENGTH + 1);
    if len > FILENAME_MAX_LENGTH {
      return EdbFilenameTooLong;
    }
    var prefix := new Byte[FILENAME_LENGTH_SIZE];
    err := EncodeFilenameLength(prefix, 0, FILENAME_LENGTH_SIZE, FilenamePrefix(len));
    assert prefix[..] == Uint16Bytes(FilenamePrefix(len));
    err := stream.Write(FILENAME_LENGTH_SIZE, prefix, 0);
    if err != Success {
      return;
    }
    assert prefix[0..FILENAME_LENGTH_SIZE] == prefix[..];
    err := WriteNameChars(stream, name, len, old(stream.data), old(stream.pos));
  }

  /** The characters of a name whose prefix was just written at `at`, without the terminator. */
  method WriteNameChars(stream: Stream, name: seq<Byte>, len: nat, ghost before: seq<Byte>, ghost at: nat)
    returns (err: Error)
    requires StreamValid(stream) && !stream.writeFails && Measurable(name) && len == NameLength(name)
    requires FilenameLengthAccepted(len) && stream.pos == at + FILENAME_LENGTH_SIZE
    requires stream.data == Overwrite(before, at, Uint16Bytes(FilenamePrefix(len)))
    modifies stream`data, stream`pos
    ensures err == Success
    ensures stream.data == Overwrite(before, at, NameBytes(name)) && stream.pos == at + |NameBytes(name)|
  {
    var chars := NameChars(name, len);
    err := stream.Write(len, chars, 0);
    if len > 0 {
      assert chars[0..len] == chars[..];
      OverwriteTwice(before, at, Uint16Bytes(FilenamePrefix(len)), name[..len]);
    } else {
      assert NameBytes(name) == Uint16Bytes(FilenamePrefix(len));
    }
  }

  /** A fresh array holding the first `len` characters of a name. */
  method NameChars(name: seq<Byte>, len: nat) returns (chars: array<Byte>)
    requires len <= |name|
    ensures fresh(chars) && chars[..] == name[..len]
  {
    chars := new Byte[len](j => if 0 <= j < len then name[j] else 0);
  }
}
