/**
 * Reading the parts of an EDB index from a stream (edb_read.c): the header at offset 0,
 * the records that follow it, and the file names at the header's files offset.
 *
 * Each reader is specified by a function of the stream's contents, flags and position
 * and, for the file names, of the handler's allocation budget.
 */
module EdbRead {
  import opened Bytes
  import opened Errors
  import opened IntCodec
  import opened CStrings
  import opened EdbCodec
  import opened Memories
  import opened Streams

  /** A file name slot: NULL, or the bytes of the string allocation, terminator included. */
  type Name = Option<seq<Byte>>

  /** The size of the scratch buffer when the file name loop starts. */
  const SCRATCH_INITIAL: nat := 32

  /** The header as `eaarlio_edb_read_header` clears it before reading. */
  const ZeroHeader := EdbHeader(0, 0, 0)

  /** `count` NULL file name slots. */
  function Nulls(count: nat): (r: seq<Name>)
    ensures |r| == count && forall j | 0 <= j < count :: r[j].None?
  {
    seq(count, _ => None)
  }

  /** A read of `n` bytes to the front of `buf`, stated by what the front of `buf` then holds. */
  method ReadFront(stream: Stream, buf: array<Byte>, n: nat) returns (err: Error)
    requires stream.hasRead && n <= buf.Length
    modifies stream`pos, buf
    ensures err == ReadError(stream.data, old(stream.pos), n, stream.readFails)
    ensures stream.pos == ReadPos(stream.data, old(stream.pos), n, stream.readFails)
    ensures err == Success ==> buf[..n] == ReadBytes(stream.data, old(stream.pos), n, stream.readFails)
  {
    ghost var got := ReadBytes(stream.data, stream.pos, n, stream.readFails);
    err := stream.Read(n, buf, 0);
    if err == Success {
      assert |got| == n;
      assert buf[..n] == got;
    }
  }

  // Header --------------------------------------------------------------------------

  /** The error of `eaarlio_edb_read_header` on a valid stream: a seek to 0, then a 12-byte read. */
  function HeaderError(data: seq<Byte>, readFails: bool, seekFails: bool): (e: Error)
    ensures e == Success <==> !seekFails && !readFails && HEADER_SIZE <= |data|
  {
    if seekFails then StreamSeekError else ReadError(data, 0, HEADER_SIZE, readFails)
  }

  /**
   * `eaarlio_edb_read_header`: the header is cleared first and filled only when all twelve
   * bytes at the start of the file were read.
   */
  method ReadHeader(stream: Stream) returns (err: Error, header: EdbHeader)
    modifies stream`pos
    ensures err == if !StreamValid(stream) then StreamInvalid else HeaderError(stream.data, stream.readFails, stream.seekFails)
    ensures header == if err == Success then HeaderOf(stream.data[..HEADER_SIZE]) else ZeroHeader
    ensures stream.pos == if !StreamValid(stream) || stream.seekFails then old(stream.pos)
                          else ReadPos(stream.data, 0, HEADER_SIZE, stream.readFails)
  {
    header := ZeroHeader;
    if !StreamValid(stream) {
      return StreamInvalid, header;
    }
    err := stream.Seek(0, SEEK_SET);
    if err != Success {
      return;
    }
    var buf := new Byte[HEADER_SIZE];
    err := ReadFront(stream, buf, HEADER_SIZE);
    if err != Success {
      return;
    }
    err, header := DecodeHeader(buf, 0, HEADER_SIZE, header);
    assert buf[0..HEADER_SIZE] == buf[..HEADER_SIZE];
  }

  // Records -------------------------------------------------------------------------

  /** Where record `i` starts: the records follow the header back to back. */
  function RecordSpan(i: nat): nat
  {
    HEADER_SIZE + RECORD_SIZE * i
  }

  /** Record `i` as the file holds it. */
  function RecordAt(data: seq<Byte>, i: nat): EdbRecord
    requires RecordSpan(i + 1) <= |data|
  {
    RecordOf(data[RecordSpan(i)..RecordSpan(i + 1)])
  }

  /** How far the record loop gets from record `i`: it stops at the first read that fails. */
  function RecordsRead(data: seq<Byte>, i: nat, count: nat, readFails: bool): (k: nat)
    requires i <= count
    ensures i <= k <= count
    ensures k > i ==> !readFails && RecordSpan(k) <= |data|
    ensures k < count ==> readFails || |data| < RecordSpan(k + 1)
    decreases count - i
  {
    if i == count || ReadError(data, RecordSpan(i), RECORD_SIZE, readFails) != Success then i
    else RecordsRead(data, i + 1, count, readFails)
  }

  /** The outcome of the record loop: the error, how many records were decoded, the cursor. */
  datatype RecordsStep = RecordsStep(err: Error, read: nat, pos: nat)

  /**
   * `eaarlio_edb_read_records` on a valid stream: a seek to offset 12, then one 20-byte read
   * per record; the first failing read ends the loop with its error.
   */
  function RecordsOutcome(data: seq<Byte>, pos: nat, count: nat, readFails: bool, seekFails: bool): (s: RecordsStep)
    ensures s.read <= count && (s.read > 0 ==> RecordSpan(s.read) <= |data|)
    ensures s.err == Success <==> !seekFails && (count == 0 || (!readFails && RecordSpan(count) <= |data|))
    ensures s.err == Success ==> s.read == count && s.pos == RecordSpan(count)
  {
    if seekFails then RecordsStep(StreamSeekError, 0, pos)
    else
      var k := RecordsRead(data, 0, count, readFails);
      if k == count then
        AllRecordsRead(data, count, readFails);
        RecordsStep(Success, k, RecordSpan(k))
      else RecordsStep(ReadError(data, RecordSpan(k), RECORD_SIZE, readFails), k, ReadPos(data, RecordSpan(k), RECORD_SIZE, readFails))
  }

  /** The loop reads every record exactly when none is missing from the file. */
  lemma AllRecordsRead(data: seq<Byte>, count: nat, readFails: bool)
    ensures RecordsRead(data, 0, count, readFails) == count <==> count == 0 || (!readFails && RecordSpan(count) <= |data|)
  {
    if count > 0 && !readFails && RecordSpan(count) <= |data| {
      ReadsFrom(data, 0, count);
    }
    if count > 0 && RecordsRead(data, 0, count, readFails) == count {
      assert RecordSpan(count) <= |data|;
    }
  }

  lemma {:induction false} ReadsFrom(data: seq<Byte>, i: nat, count: nat)
    requires i <= count && RecordSpan(count) <= |data|
    ensures RecordsRead(data, i, count, false) == count
    decreases count - i
  {
    if i < count {
      ReadsFrom(data, i + 1, count);
    }
  }

  /**
   * `eaarlio_edb_read_records`: record `i` is decoded from the 20 bytes at offset 12 + 20i;
   * when a read fails, the records before it stay filled and the rest are untouched.
   */
  method ReadRecords(stream: Stream, header: EdbHeader, records: array<EdbRecord>) returns (err: Error)
    requires header.recordCount <= records.Length
    modifies stream`pos, records
    ensures !StreamValid(stream) ==> err == StreamInvalid && records[..] == old(records[..]) && stream.pos == old(stream.pos)
    ensures StreamValid(stream) ==>
              var s := RecordsOutcome(stream.data, old(stream.pos), header.recordCount, stream.readFails, stream.seekFails);
              err == s.err && stream.pos == s.pos
              && (forall i | 0 <= i < s.read :: records[i] == RecordAt(stream.data, i))
              && (forall i | s.read <= i < records.Length :: records[i] == old(records[i]))
  {
    if !StreamValid(stream) {
      return StreamInvalid;
    }
    err := stream.Seek(HEADER_SIZE, SEEK_SET);
    if err != Success {
      return;
    }
    err := ReadRecordLoop(stream, header.recordCount, records);
  }

  /** The loop of `eaarlio_edb_read_records`, from the cursor at offset 12. */
  method ReadRecordLoop(stream: Stream, count: nat, records: array<EdbRecord>) returns (err: Error)
    requires StreamValid(stream) && stream.pos == RecordSpan(0) && count <= records.Length
    modifies stream`pos, records
    ensures var k := RecordsRead(stream.data, 0, count, stream.readFails);
      err == (if k == count then Success else ReadError(stream.data, RecordSpan(k), RECORD_SIZE, stream.readFails))
    ensures var k := RecordsRead(stream.data, 0, count, stream.readFails);
      stream.pos == (if k == count then RecordSpan(k) else ReadPos(stream.data, RecordSpan(k), RECORD_SIZE, stream.readFails))
    ensures var k := RecordsRead(stream.data, 0, count, stream.readFails);
      forall i | 0 <= i < k :: records[i] == RecordAt(stream.data, i)
    ensures var k := RecordsRead(stream.data, 0, count, stream.readFails);
      forall i | k <= i < records.Length :: records[i] == old(records[i])
  {
    ghost var data, readFails := stream.data, stream.readFails;
    ghost var k := RecordsRead(data, 0, count, readFails);
    var buf := new Byte[RECORD_SIZE];
    var i := 0;
    while i < count
      invariant i <= count && stream.data == data
      invariant stream.pos == RecordSpan(i)
      invariant RecordsRead(data, i, count, readFails) == k
      invariant i > 0 ==> RecordSpan(i) <= |data|
      invariant forall j | 0 <= j < i :: records[j] == RecordAt(data, j)
      invariant forall j | i <= j < records.Length :: records[j] == old(records[j])
    {
      var record;
      err, record := ReadRecordAt(stream, buf, i, records[i]);
      if err != Success {
        assert k == i;
        return;
      }
      ghost var before := records[..];
      records[i] := record;
      assert records[..] == before[i := RecordAt(data, i)];
      i := i + 1;
    }
    err := Success;
  }

  /** One turn of the record loop: record `i` read into `buf` and decoded; `record` is kept when the read fails. */
  method ReadRecordAt(stream: Stream, buf: array<Byte>, i: nat, record: EdbRecord) returns (err: Error, result: EdbRecord)
    requires StreamValid(stream) && stream.pos == RecordSpan(i) && buf.Length == RECORD_SIZE
    modifies stream`pos, buf
    ensures err == ReadError(stream.data, RecordSpan(i), RECORD_SIZE, stream.readFails)
    ensures err == Success ==> stream.pos == RecordSpan(i + 1) && result == RecordAt(stream.data, i)
    ensures err != Success ==> stream.pos == ReadPos(stream.data, RecordSpan(i), RECORD_SIZE, stream.readFails) && result == record
  {
    result := record;
    err := ReadFront(stream, buf, RECORD_SIZE);
    if err != Success {
      return;
    }
    err, result := DecodeRecord(buf, 0, RECORD_SIZE, result);
    assert buf[0..RECORD_SIZE] == buf[..RECORD_SIZE];
  }

  // Scratch buffer growth -------------------------------------------------------------

  /** The scratch size after doubling `size` until it holds `length` bytes. */
  function Grown(size: nat, length: nat): (r: nat)
    requires size > 0
    ensures r >= length && r >= size
    ensures r > size ==> r % 2 == 0 && r / 2 < length
    decreases length - size
  {
    if size >= length then size else Grown(2 * size, length)
  }

  /**
   * The growth as written: nothing unless `length > size + 1`, then doubling while
   * `size + 1 < length`. It only promises room for one byte less than the name.
   */
  function GrownAsWritten(size: nat, length: nat): (r: nat)
    requires size > 0
    ensures r + 1 >= length && r >= size
  {
    if length > size + 1 then DoubledAsWritten(size, length) else size
  }

  function DoubledAsWritten(size: nat, length: nat): (r: nat)
    requires size > 0
    ensures r + 1 >= length && r >= size
    decreases length - size
  {
    if size + 1 < length then DoubledAsWritten(2 * size, length) else size
  }

  /**
   * As written, a name one byte longer than the scratch buffer leaves the buffer as it is, and
   * the whole name is then read into it: a 33-byte name lands in the initial 32-byte buffer.
   */
  lemma ScratchOverrunAsWritten(size: nat)
    requires size > 0
    ensures GrownAsWritten(size, size + 1) < size + 1
    ensures GrownAsWritten(SCRATCH_INITIAL, 33) == SCRATCH_INITIAL
  {
  }

  /** The corrected growth: the scratch buffer is doubled until it holds the whole name. */
  method GrowScratch(size: nat, length: nat) returns (r: nat)
    requires size > 0
    ensures r == Grown(size, length)
  {
    r := size;
    while r < length
      invariant r >= size && Grown(r, length) == Grown(size, length)
      decreases length - r
    {
      r := r * 2;
    }
  }

  /** How many more doublings the scratch buffer can need: none once it holds the longest name. */
  function Headroom(size: nat): nat
    requires size > 0
    decreases FILENAME_MAX_LENGTH - size
  {
    if size >= FILENAME_MAX_LENGTH then 0 else 1 + Headroom(2 * size)
  }

  /** Growing for a name the format can carry uses up at least one doubling of headroom. */
  lemma {:induction false} GrowthUsesHeadroom(size: nat, length: nat)
    requires 0 < size < length <= FILENAME_MAX_LENGTH
    ensures Headroom(Grown(size, length)) + 1 <= Headroom(size)
    decreases length - size
  {
    if 2 * size < length {
      GrowthUsesHeadroom(2 * size, length);
    }
  }

  /** From its initial size the scratch buffer can be doubled eleven times, to 65536 bytes. */
  lemma InitialHeadroom()
    ensures Headroom(SCRATCH_INITIAL) == 11
  {
    assert Headroom(0x1_0000) == 0;
    assert Headroom(0x8000) == 1;
    assert Headroom(0x1000) == 4;
    assert Headroom(0x200) == 7;
    assert Headroom(0x40) == 10;
  }

  // File names ----------------------------------------------------------------------

  /** Where the file name loop ends: the error, the name slots, the cursor, the budget, and how many blocks it released. */
  datatype NamesStep = NamesStep(err: Error, names: seq<Name>, pos: nat, budget: nat, released: nat)

  /**
   * The file name loop from name `i` with the cursor at `pos` and a scratch buffer of
   * `scratch` bytes: a two-byte length read into the scratch buffer, then the name itself.
   * Every exit except a failed reallocation releases the scratch buffer.
   */
  function NamesLoop(data: seq<Byte>, pos: nat, i: nat, count: nat, scratch: nat, readFails: bool, budget: nat,
                     names: seq<Name>): (s: NamesStep)
    requires i <= count == |names| && scratch > 0
    ensures |s.names| == count && s.names[..i] == names[..i]
    ensures s.err == Success ==> s.released == 1 && forall j | i <= j < count :: s.names[j].Some? && Terminated(s.names[j].value)
    decreases count - i, 2
  {
    if i == count then NamesStep(Success, names, pos, budget, 1)
    else
      var e := ReadError(data, pos, FILENAME_LENGTH_SIZE, readFails);
      if e != Success then NamesStep(e, names, ReadPos(data, pos, FILENAME_LENGTH_SIZE, readFails), budget, 1)
      else NameOutcome(data, pos + FILENAME_LENGTH_SIZE, DecodeUint16(data[pos..pos + FILENAME_LENGTH_SIZE]),
                       i, count, scratch, readFails, budget, names)
  }

  /**
   * Name `i` of `length` bytes at `pos`: the scratch buffer grows to hold it (one reallocation),
   * the name is read into it, and a block of `length + 1` bytes receives it and a terminator.
   */
  function NameOutcome(data: seq<Byte>, pos: nat, length: U16, i: nat, count: nat, scratch: nat, readFails: bool,
                       budget: nat, names: seq<Name>): (s: NamesStep)
    requires i < count == |names| && scratch > 0 && pos <= |data|
    ensures |s.names| == count && s.names[..i] == names[..i]
    ensures s.err == Success ==> s.released == 1 && forall j | i <= j < count :: s.names[j].Some? && Terminated(s.names[j].value)
    decreases count - i, 1
  {
    var grows := length > scratch;
    if grows && budget == 0 then NamesStep(MemoryAllocFail, names, pos, 0, 0)
    else NameRead(data, pos, length, i, count, if grows then Grown(scratch, length) else scratch, readFails,
                  if grows then budget - 1 else budget, names)
  }

  /** Name `i` once the scratch buffer holds `size` bytes: the read, then the block for the name and its terminator. */
  function NameRead(data: seq<Byte>, pos: nat, length: U16, i: nat, count: nat, size: nat, readFails: bool,
                    budget: nat, names: seq<Name>): (s: NamesStep)
    requires i < count == |names| && size > 0 && pos <= |data|
    ensures |s.names| == count && s.names[..i] == names[..i]
    ensures s.err == Success ==> s.released == 1 && forall j | i <= j < count :: s.names[j].Some? && Terminated(s.names[j].value)
    decreases count - i, 0
  {
    var e := ReadError(data, pos, length, readFails);
    if e != Success then NamesStep(e, names, ReadPos(data, pos, length, readFails), budget, 1)
    else if budget == 0 then NamesStep(MemoryAllocFail, names, pos + length, 0, 1)
    else
      var name := data[pos..pos + length] + [0];
      assert name[length] == 0;
      var s := NamesLoop(data, pos + length, i + 1, count, size, readFails, budget - 1, names[i := Some(name)]);
      assert s.names[..i + 1][i] == Some(name);
      s
  }

  /**
   * `eaarlio_edb_read_filenames` on a valid stream and handler: a 32-byte scratch buffer,
   * a seek to the files offset, then the name loop. A failed seek returns without releasing
   * the scratch buffer.
   */
  function FilenamesOutcome(data: seq<Byte>, pos: nat, header: EdbHeader, readFails: bool, seekFails: bool,
                            budget: nat): (s: NamesStep)
    ensures |s.names| == header.fileCount
    ensures s.err == Success ==> s.released == 1 && forall j | 0 <= j < header.fileCount :: s.names[j].Some? && Terminated(s.names[j].value)
  {
    var nulls := Nulls(header.fileCount);
    if budget == 0 then NamesStep(MemoryAllocFail, nulls, pos, 0, 0)
    else if seekFails then NamesStep(StreamSeekError, nulls, pos, budget - 1, 0)
    else NamesLoop(data, header.filesOffset, 0, header.fileCount, SCRATCH_INITIAL, readFails, budget - 1, nulls)
  }

  /**
   * `eaarlio_edb_read_filenames`: the first `fileCount` slots are set to NULL before anything
   * is checked, then filled in order from the names at the files offset.
   */
  method ReadFilenames(stream: Stream, header: EdbHeader, names: array<Name>, memory: Memory) returns (err: Error)
    requires header.fileCount <= names.Length
    modifies names, stream`pos, memory`budget, memory`released
    ensures forall j | header.fileCount <= j < names.Length :: names[j] == old(names[j])
    ensures !StreamValid(stream) || !MemoryValid(memory) ==>
              err == (if !StreamValid(stream) then StreamInvalid else MemoryInvalid)
              && names[..header.fileCount] == Nulls(header.fileCount)
              && memory.budget == old(memory.budget) && memory.released == old(memory.released)
              && stream.pos == old(stream.pos)
    ensures StreamValid(stream) && MemoryValid(memory) ==>
              var s := FilenamesOutcome(stream.data, old(stream.pos), header, stream.readFails, stream.seekFails,
                                        old(memory.budget));
              err == s.err && names[..header.fileCount] == s.names && stream.pos == s.pos
              && memory.budget == s.budget && memory.released == old(memory.released) + s.released
  {
    var i := 0;
    while i < header.fileCount
      invariant i <= header.fileCount
      invariant forall j | 0 <= j < i :: names[j].None?
      invariant forall j | header.fileCount <= j < names.Length :: names[j] == old(names[j])
      modifies names
    {
      names[i] := None;
      i := i + 1;
    }
    assert names[..header.fileCount] == Nulls(header.fileCount);
    if !StreamValid(stream) {
      return StreamInvalid;
    }
    if !MemoryValid(memory) {
      return MemoryInvalid;
    }
    var buf := memory.Malloc(SCRATCH_INITIAL);
    if buf == null {
      return MemoryAllocFail;
    }
    err := stream.Seek(header.filesOffset, SEEK_SET);
    if err != Success {
      return;
    }
    ghost var goal := NamesLoop(stream.data, stream.pos, 0, header.fileCount, SCRATCH_INITIAL, stream.readFails,
                                memory.budget, names[..header.fileCount]);
    err := ReadNames(stream, header.fileCount, buf, names, memory, goal);
  }

  /** The file name loop of `eaarlio_edb_read_filenames`, from the first name to the release of the scratch buffer. */
  method ReadNames(stream: Stream, count: nat, buf: array<Byte>, names: array<Name>, memory: Memory, ghost goal: NamesStep)
    returns (err: Error)
    requires StreamValid(stream) && MemoryValid(memory)
    requires count <= names.Length && buf.Length >= SCRATCH_INITIAL
    requires NamesLoop(stream.data, stream.pos, 0, count, buf.Length, stream.readFails, memory.budget, names[..count]) == goal
    modifies names, stream`pos, memory`budget, memory`released, buf
    ensures err == goal.err && names[..count] == goal.names && stream.pos == goal.pos
    ensures memory.budget == goal.budget && memory.released == old(memory.released) + goal.released
    ensures forall j | count <= j < names.Length :: names[j] == old(names[j])
  {
    var scratch: array<Byte> := buf;
    var i := 0;
    while i < count
      invariant i <= count && scratch.Length >= SCRATCH_INITIAL
      invariant scratch == buf || fresh(scratch)
      invariant NamesLoop(stream.data, stream.pos, i, count, scratch.Length, stream.readFails, memory.budget, names[..count]) == goal
      invariant memory.released == old(memory.released)
      invariant forall j | count <= j < names.Length :: names[j] == old(names[j])
    {
      var next;
      err, next := ReadNameNext(stream, scratch, i, count, names, memory, goal);
      if err != Success {
        if next != null {
          memory.Free();
        }
        return;
      }
      scratch := next;
      i := i + 1;
    }
    memory.Free();
    err := Success;
  }

  /** One turn of the file name loop: the length prefix, then the name. */
  method ReadNameNext(stream: Stream, scratch: array<Byte>, i: nat, count: nat, names: array<Name>, memory: Memory,
                      ghost goal: NamesStep)
    returns (err: Error, next: array?<Byte>)
    requires StreamValid(stream) && MemoryValid(memory)
    requires i < count <= names.Length && scratch.Length >= SCRATCH_INITIAL
    requires NamesLoop(stream.data, stream.pos, i, count, scratch.Length, stream.readFails, memory.budget, names[..count]) == goal
    modifies names, stream`pos, memory`budget, scratch
    ensures next == null || next == scratch || fresh(next)
    ensures forall j | count <= j < names.Length :: names[j] == old(names[j])
    ensures err != Success ==>
              err == goal.err && names[..count] == goal.names && stream.pos == goal.pos
              && memory.budget == goal.budget && goal.released == (if next == null then 0 else 1)
    ensures err == Success ==>
              next != null && next.Length >= SCRATCH_INITIAL
              && NamesLoop(stream.data, stream.pos, i + 1, count, next.Length, stream.readFails, memory.budget, names[..count]) == goal
  {
    ghost var pos := stream.pos;
    err := ReadFront(stream, scratch, FILENAME_LENGTH_SIZE);
    if err != Success {
      return err, scratch;
    }
    assert scratch[0..FILENAME_LENGTH_SIZE] == scratch[..FILENAME_LENGTH_SIZE];
    var length;
    err, length := DecodeFilenameLength(scratch, 0, scratch.Length, 0);
    err, next := ReadName(stream, scratch, length, i, count, names, memory, goal);
  }

  /** Name `i` of `length` bytes: the corrected growth of the scratch buffer, then the name itself. */
  method ReadName(stream: Stream, scratch: array<Byte>, length: U16, i: nat, count: nat, names: array<Name>,
                  memory: Memory, ghost goal: NamesStep)
    returns (err: Error, next: array?<Byte>)
    requires StreamValid(stream) && MemoryValid(memory)
    requires i < count <= names.Length && scratch.Length >= SCRATCH_INITIAL && stream.pos <= |stream.data|
    requires NameOutcome(stream.data, stream.pos, length, i, count, scratch.Length, stream.readFails, memory.budget,
                         names[..count]) == goal
    modifies names, stream`pos, memory`budget, scratch
    ensures next == null || next == scratch || fresh(next)
    ensures forall j | count <= j < names.Length :: names[j] == old(names[j])
    ensures err != Success ==>
              err == goal.err && names[..count] == goal.names && stream.pos == goal.pos
              && memory.budget == goal.budget && goal.released == (if next == null then 0 else 1)
    ensures err == Success ==>
              next != null && next.Length >= SCRATCH_INITIAL
              && NamesLoop(stream.data, stream.pos, i + 1, count, next.Length, stream.readFails, memory.budget, names[..count]) == goal
  {
    next := scratch;
    if length > scratch.Length {
      var size := GrowScratch(scratch.Length, length);
      next := memory.Realloc(scratch, size);
      if next == null {
        return MemoryAllocFail, null;
      }
    }
    err := ReadNameInto(stream, next, length, i, count, names, memory, goal);
  }

  /** Name `i` read into a scratch buffer that holds it, then copied into a fresh block and terminated. */
  method ReadNameInto(stream: Stream, scratch: array<Byte>, length: U16, i: nat, count: nat, names: array<Name>,
                      memory: Memory, ghost goal: NamesStep)
    returns (err: Error)
    requires StreamValid(stream) && MemoryValid(memory)
    requires i < count <= names.Length && 0 < scratch.Length && length <= scratch.Length && stream.pos <= |stream.data|
    requires NameRead(stream.data, stream.pos, length, i, count, scratch.Length, stream.readFails, memory.budget,
                      names[..count]) == goal
    modifies names, stream`pos, memory`budget, scratch
    ensures forall j | count <= j < names.Length :: names[j] == old(names[j])
    ensures err != Success ==>
              err == goal.err && names[..count] == goal.names && stream.pos == goal.pos
              && memory.budget == goal.budget && goal.released == 1
    ensures err == Success ==>
              NamesLoop(stream.data, stream.pos, i + 1, count, scratch.Length, stream.readFails, memory.budget, names[..count]) == goal
  {
    ghost var pos := stream.pos;
    err := ReadFront(stream, scratch, length);
    if err != Success {
      return;
    }
    assert scratch[..length] == stream.data[pos..pos + length];
    var name;
    err, name := CopyName(scratch, length, memory);
    if err != Success {
      return;
    }
    ghost var before := names[..count];
    names[i] := Some(name);
    assert names[..count] == before[i := Some(name)];
  }

  /** The name's block: `length + 1` bytes holding the first `length` bytes of the scratch buffer and a terminator. */
  method CopyName(scratch: array<Byte>, length: U16, memory: Memory) returns (err: Error, name: seq<Byte>)
    requires MemoryValid(memory) && length <= scratch.Length
    modifies memory`budget
    ensures err == if old(memory.budget) == 0 then MemoryAllocFail else Success
    ensures memory.budget == if err == Success then old(memory.budget) - 1 else 0
    ensures err == Success ==> name == scratch[..length] + [0]
  {
    var block := memory.Malloc(length + 1);
    if block == null {
      return MemoryAllocFail, [];
    }
    err := DecodeFilename(scratch, 0, scratch.Length, length, block, length + 1);
    block[length] := 0;
    assert block[..] == scratch[..length] + [0] by {
      assert scratch[0..length] == scratch[..length];
    }
    name := block[..];
  }
}
