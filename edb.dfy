/**
 * The EDB index as a whole (edb.c): an `eaarlio_edb` holds two counts and two owned
 * arrays, the records and the file names. Reading fills it from a stream, writing
 * lays it out as header, records and names, and freeing hands its blocks back.
 */
module EdbFile {
  import opened Bytes
  import opened Errors
  import opened CStrings
  import opened EdbCodec
  import opened Streams
  import opened Memories
  import opened EdbRead
  import opened EdbWrite

  /** What an `eaarlio_edb` holds: NULL arrays are `None`, a present array is its contents. */
  datatype EdbValue = EdbValue(recordCount: U32, fileCount: U32, records: Option<seq<EdbRecord>>,
                               files: Option<seq<Name>>)

  /** `eaarlio_edb_empty()`: zero counts and no arrays. */
  const EmptyEdb := EdbValue(0, 0, None, None)

  /** `struct eaarlio_edb`, whose fields the library's functions update in place. */
  class Edb {
    var recordCount: U32
    var fileCount: U32
    var records: array?<EdbRecord>
    var files: array?<Name>

    /** An EDB initialised with `eaarlio_edb_empty()`. */
    constructor ()
      ensures Value() == EmptyEdb
    {
      recordCount := 0;
      fileCount := 0;
      records := null;
      files := null;
    }

    /** The EDB's current contents. */
    function Value(): EdbValue
      reads this, records, files
    {
      EdbValue(recordCount, fileCount, if records == null then None else Some(records[..]),
               if files == null then None else Some(files[..]))
    }
  }

  // Freeing ------------------------------------------------------------------------

  /** The name table, when present, has a slot for every counted name, as the free loop needs. */
  predicate Freeable(v: EdbValue)
  {
    v.files.Some? ==> v.fileCount as nat <= |v.files.value|
  }

  /** How many of the first `k` name slots hold a block. */
  function NamesHeld(names: seq<Name>, k: nat): (n: nat)
    requires k <= |names|
    ensures n <= k
  {
    if k == 0 then 0 else NamesHeld(names, k - 1) + (if names[k - 1].Some? then 1 else 0)
  }

  /** The blocks an EDB owns: the record array, the name table, and every counted name in it. */
  function Held(v: EdbValue): nat
    requires Freeable(v)
  {
    (if v.records.Some? then 1 else 0)
    + (if v.files.Some? then 1 + NamesHeld(v.files.value, v.fileCount as nat) else 0)
  }

  /** What `eaarlio_edb_free` leaves: the counts as they were and no arrays. */
  function Freed(v: EdbValue): (r: EdbValue)
    ensures r.records.None? && r.files.None?
    ensures r.recordCount == v.recordCount && r.fileCount == v.fileCount
  {
    v.(records := None, files := None)
  }

  /** Freeing an EDB that was already freed releases nothing. */
  lemma FreeTwiceReleasesNothing(v: EdbValue)
    requires Freeable(v)
    ensures Freeable(Freed(v)) && Held(Freed(v)) == 0
    ensures Freed(Freed(v)) == Freed(v)
  {
  }

  /** A table whose counted slots all hold names owns one block per name. */
  lemma {:induction false} AllNamesHeld(names: seq<Name>, k: nat)
    requires k <= |names| && forall j | 0 <= j < k :: names[j].Some?
    ensures NamesHeld(names, k) == k
  {
    if k > 0 {
      AllNamesHeld(names, k - 1);
    }
  }

  /**
   * `eaarlio_edb_free`: the record array, each counted name and then the name table are
   * released, and both pointers become NULL. A NULL EDB or an incomplete handler releases nothing.
   */
  method FreeEdb(edb: Edb?, memory: Memory) returns (err: Error)
    requires edb != null ==> Freeable(edb.Value())
    modifies edb, memory`released, if edb != null && edb.files != null then {edb.files} else {}
    ensures edb == null ==> err == Null && memory.released == old(memory.released)
    ensures edb != null && !MemoryValid(memory) ==>
              err == MemoryInvalid && memory.released == old(memory.released) && edb.Value() == old(edb.Value())
    ensures edb != null && MemoryValid(memory) ==>
              err == Success && edb.Value() == Freed(old(edb.Value()))
              && memory.released == old(memory.released) + Held(old(edb.Value()))
    ensures edb != null && MemoryValid(memory) && old(edb.files) != null ==>
              old(edb.files)[..old(edb.fileCount) as nat] == Nulls(old(edb.fileCount) as nat)
  {
    if edb == null {
      return Null;
    }
    if !MemoryValid(memory) {
      return MemoryInvalid;
    }
    ghost var v := edb.Value();
    if edb.records != null {
      memory.Free();
      edb.records := null;
    }
    if edb.files != null {
      FreeNames(edb.files, edb.fileCount as nat, memory);
      memory.Free();
      edb.files := null;
    }
    err := Success;
  }

  /** The name loop of `eaarlio_edb_free`: each counted name is released and its slot set to NULL. */
  method FreeNames(files: array<Name>, count: nat, memory: Memory)
    requires count <= files.Length && MemoryValid(memory)
    modifies files, memory`released
    ensures files[..count] == Nulls(count) && files[count..] == old(files[count..])
    ensures memory.released == old(memory.released) + NamesHeld(old(files[..]), count)
  {
    var i: nat := 0;
    while i < count
      invariant i <= count
      invariant files[i..] == old(files[i..]) && files[..i] == Nulls(i)
      invariant memory.released == old(memory.released) + NamesHeld(old(files[..]), i)
    {
      if files[i].Some? {
        memory.Free();
        files[i] := None;
      }
      i := i + 1;
    }
  }

  // Reading ------------------------------------------------------------------------

  /** The record array after the record loop: the first `read` records decoded, the rest as allocated. */
  function Filled(data: seq<Byte>, read: nat, count: nat): (r: seq<EdbRecord>)
    requires read <= count && (read > 0 ==> RecordSpan(read) <= |data|)
    ensures |r| == count
    ensures forall i | 0 <= i < read :: r[i] == RecordAt(data, i)
    ensures forall i | read <= i < count :: r[i] == EmptyRecord
  {
    seq(count, i => if 0 <= i < read && RecordSpan(i + 1) <= |data| then RecordAt(data, i) else EmptyRecord)
  }

  /** Where `eaarlio_edb_read` ends: the error, the EDB, the cursor, the budget, and how many blocks it released. */
  datatype ReadStep = ReadStep(err: Error, edb: EdbValue, pos: nat, budget: nat, released: nat)

  /**
   * `eaarlio_edb_read` on a valid stream and handler, with the cursor at `pos`: the header,
   * then the records when asked for and present, then the names when asked for and present.
   */
  function ReadOutcome(data: seq<Byte>, pos: nat, readFails: bool, seekFails: bool, budget: nat,
                       includeRecords: bool, includeFiles: bool): (s: ReadStep)
    ensures s.err == Success ==>
              (s.edb.records.Some? <==> includeRecords && s.edb.recordCount > 0)
              && (s.edb.files.Some? <==> includeFiles && s.edb.fileCount > 0)
    ensures s.edb.records.Some? ==> |s.edb.records.value| == s.edb.recordCount as nat
    ensures s.edb.files.Some? ==> |s.edb.files.value| == s.edb.fileCount as nat
    ensures s.err != Success && HeaderError(data, readFails, seekFails) != Success ==> s.edb == EmptyEdb
  {
    var e := HeaderError(data, readFails, seekFails);
    if e != Success then
      ReadStep(e, EmptyEdb, if seekFails then pos else ReadPos(data, 0, HEADER_SIZE, readFails), budget, 0)
    else
      RecordsPart(data, HeaderOf(data[..HEADER_SIZE]), readFails, seekFails, budget, includeRecords, includeFiles)
  }

  /** The record array of `eaarlio_edb_read`, with the cursor just past the header. */
  function RecordsPart(data: seq<Byte>, header: EdbHeader, readFails: bool, seekFails: bool, budget: nat,
                       includeRecords: bool, includeFiles: bool): (s: ReadStep)
    ensures s.edb.recordCount == header.recordCount && s.edb.fileCount == header.fileCount
    ensures s.err == Success ==>
              (s.edb.records.Some? <==> includeRecords && header.recordCount > 0)
              && (s.edb.files.Some? <==> includeFiles && header.fileCount > 0)
    ensures s.edb.records.Some? ==> |s.edb.records.value| == header.recordCount as nat
    ensures s.edb.files.Some? ==> |s.edb.files.value| == header.fileCount as nat
  {
    var count := header.recordCount as nat;
    if includeRecords && count > 0 then
      if budget == 0 then ReadStep(MemoryAllocFail, EdbValue(header.recordCount, header.fileCount, None, None),
                                   HEADER_SIZE, 0, 0)
      else
        var r := RecordsOutcome(data, HEADER_SIZE, count, readFails, seekFails);
        var records := Some(Filled(data, r.read, count));
        if r.err != Success then
          ReadStep(r.err, EdbValue(header.recordCount, header.fileCount, records, None), r.pos, budget - 1, 0)
        else FilesPart(data, header, r.pos, readFails, seekFails, budget - 1, includeFiles, records)
    else FilesPart(data, header, HEADER_SIZE, readFails, seekFails, budget, includeFiles, None)
  }

  /** The name table of `eaarlio_edb_read`, after the records. */
  function FilesPart(data: seq<Byte>, header: EdbHeader, pos: nat, readFails: bool, seekFails: bool, budget: nat,
                     includeFiles: bool, records: Option<seq<EdbRecord>>): (s: ReadStep)
    ensures s.edb.recordCount == header.recordCount && s.edb.fileCount == header.fileCount && s.edb.records == records
    ensures s.err == Success ==> (s.edb.files.Some? <==> includeFiles && header.fileCount > 0)
    ensures s.edb.files.Some? ==> |s.edb.files.value| == header.fileCount as nat
  {
    if includeFiles && header.fileCount > 0 then
      if budget == 0 then ReadStep(MemoryAllocFail, EdbValue(header.recordCount, header.fileCount, records, None),
                                   pos, 0, 0)
      else
        var n := FilenamesOutcome(data, pos, header, readFails, seekFails, budget - 1);
        ReadStep(n.err, EdbValue(header.recordCount, header.fileCount, records, Some(n.names)), n.pos, n.budget,
                 n.released)
    else ReadStep(Success, EdbValue(header.recordCount, header.fileCount, records, None), pos, budget, 0)
  }

  /**
   * `eaarlio_edb_read`: the EDB is emptied before anything is checked; then the header is read
   * and its counts kept, the records are read into a fresh array, and the names into a fresh table.
   */
  method ReadEdb(stream: Stream?, edb: Edb?, memory: Memory, includeRecords: bool, includeFiles: bool)
    returns (err: Error)
    modifies edb, stream, memory`budget, memory`released
    ensures stream != null ==> StreamValid(stream) == old(StreamValid(stream))
    ensures stream != null ==> stream.data == old(stream.data)
    ensures stream == null || edb == null ==>
              err == Null && memory.budget == old(memory.budget) && memory.released == old(memory.released)
              && (stream != null ==> stream.pos == old(stream.pos))
    ensures edb != null && (stream == null || !StreamValid(stream) || !MemoryValid(memory)) ==> edb.Value() == EmptyEdb
    ensures stream != null && edb != null && !StreamValid(stream) ==>
              err == StreamInvalid && stream.pos == old(stream.pos)
              && memory.budget == old(memory.budget) && memory.released == old(memory.released)
    ensures stream != null && edb != null && StreamValid(stream) && !MemoryValid(memory) ==>
              err == MemoryInvalid && stream.pos == old(stream.pos)
              && memory.budget == old(memory.budget) && memory.released == old(memory.released)
    ensures edb != null && StreamValid(stream) && MemoryValid(memory) ==>
              var s := ReadOutcome(stream.data, old(stream.pos), stream.readFails, stream.seekFails, old(memory.budget),
                                   includeRecords, includeFiles);
              err == s.err && edb.Value() == s.edb && stream.pos == s.pos
              && memory.budget == s.budget && memory.released == old(memory.released) + s.released
              && (edb.records != null ==> fresh(edb.records)) && (edb.files != null ==> fresh(edb.files))
  {
    if edb != null {
      edb.recordCount := 0;
      edb.fileCount := 0;
      edb.records := null;
      edb.files := null;
    }
    if stream == null || edb == null {
      return Null;
    }
    if !StreamValid(stream) {
      return StreamInvalid;
    }
    if !MemoryValid(memory) {
      return MemoryInvalid;
    }
    var header;
    err, header := ReadHeader(stream);
    if err != Success {
      return;
    }
    edb.recordCount := header.recordCount;
    edb.fileCount := header.fileCount;
    err := ReadRecordsPart(stream, edb, header, memory, includeRecords, includeFiles);
  }

  /** The records and names of `eaarlio_edb_read`, once the header is in the EDB. */
  method ReadRecordsPart(stream: Stream, edb: Edb, header: EdbHeader, memory: Memory, includeRecords: bool,
                         includeFiles: bool)
    returns (err: Error)
    requires StreamValid(stream) && MemoryValid(memory) && stream.pos == HEADER_SIZE
    requires edb.Value() == EdbValue(header.recordCount, header.fileCount, None, None)
    modifies edb, stream`pos, memory`budget, memory`released
    ensures var s := RecordsPart(stream.data, header, stream.readFails, stream.seekFails, old(memory.budget),
                                 includeRecords, includeFiles);
            err == s.err && edb.Value() == s.edb && stream.pos == s.pos
            && memory.budget == s.budget && memory.released == old(memory.released) + s.released
            && (edb.records != null ==> fresh(edb.records)) && (edb.files != null ==> fresh(edb.files))
  {
    var count := header.recordCount as nat;
    if includeRecords && count > 0 {
      var ok := memory.Reserve();
      if !ok {
        return MemoryAllocFail;
      }
      var records := new EdbRecord[count](_ => EmptyRecord);
      edb.records := records;
      err := ReadRecords(stream, header, records);
      ghost var r := RecordsOutcome(stream.data, HEADER_SIZE, count, stream.readFails, stream.seekFails);
      assert records[..] == Filled(stream.data, r.read, count);
      if err != Success {
        return;
      }
    }
    err := ReadFilesPart(stream, edb, header, memory, includeFiles);
  }

  /** The name table of `eaarlio_edb_read`, once the records are in the EDB. */
  method ReadFilesPart(stream: Stream, edb: Edb, header: EdbHeader, memory: Memory, includeFiles: bool)
    returns (err: Error)
    requires StreamValid(stream) && MemoryValid(memory)
    requires edb.recordCount == header.recordCount && edb.fileCount == header.fileCount && edb.files == null
    modifies edb, stream`pos, memory`budget, memory`released
    ensures var s := FilesPart(stream.data, header, old(stream.pos), stream.readFails, stream.seekFails,
                               old(memory.budget), includeFiles, old(edb.Value()).records);
            err == s.err && edb.Value() == s.edb && stream.pos == s.pos
            && memory.budget == s.budget && memory.released == old(memory.released) + s.released
            && edb.records == old(edb.records) && (edb.files != null ==> fresh(edb.files))
  {
    if includeFiles && header.fileCount > 0 {
      var ok := memory.Reserve();
      if !ok {
        return MemoryAllocFail;
      }
      var files := new Name[header.fileCount as nat](_ => None);
      edb.files := files;
      err := ReadFilenames(stream, header, files, memory);
      assert files[..] == files[..header.fileCount as nat];
      return;
    }
    err := Success;
  }

  // Writing ------------------------------------------------------------------------

  /** The files offset `eaarlio_edb_write` computes, 12 + 20 × record_count in 32-bit arithmetic. */
  function FilesOffset(recordCount: U32): (r: U32)
    ensures RecordSpan(recordCount as nat) < 0x1_0000_0000 ==> r as nat == RecordSpan(recordCount as nat)
  {
    (HEADER_SIZE + RECORD_SIZE * recordCount as nat) % 0x1_0000_0000
  }

  /** Five records put the names at offset 112. */
  lemma FilesOffsetSample()
    ensures FilesOffset(5) == 112
  {
  }

  /** The header `eaarlio_edb_write` writes: the EDB's counts and the computed files offset. */
  function HeaderFor(v: EdbValue): (h: EdbHeader)
    ensures h.recordCount == v.recordCount && h.fileCount == v.fileCount && h.filesOffset == FilesOffset(v.recordCount)
  {
    EdbHeader(FilesOffset(v.recordCount), v.recordCount, v.fileCount)
  }

  /** The arrays a non-zero count needs are present; `eaarlio_edb_write` returns EAARLIO_NULL otherwise. */
  predicate Pointers(v: EdbValue)
  {
    (v.recordCount > 0 ==> v.records.Some?) && (v.fileCount > 0 ==> v.files.Some?)
  }

  /** The arrays hold at least the counted entries, and every counted name can be measured. */
  predicate Writable(v: EdbValue)
  {
    (v.recordCount > 0 && v.records.Some? ==> v.recordCount as nat <= |v.records.value|)
    && (v.fileCount > 0 && v.files.Some? ==> NamesWritable(v.files.value, v.fileCount as nat))
  }

  /**
   * `eaarlio_edb_write` on a valid stream once the pointers are checked: the header at 0, then
   * the records when there are any, then the names when there are any; the first error ends it.
   */
  function WriteOutcome(v: EdbValue, data: seq<Byte>, pos: nat, writeFails: bool, seekFails: bool): (s: WriteStep)
    requires Pointers(v) && Writable(v)
    ensures s.err == Success <==>
              !seekFails && !writeFails && (v.fileCount > 0 ==> NamesAccepted(v.files.value, v.fileCount as nat))
  {
    var h := HeaderFor(v);
    var a := HeaderWriteOutcome(h, data, pos, writeFails, seekFails);
    if a.err != Success then a
    else
      var b := if v.recordCount > 0 then RecordsWriteOutcome(v.records.value, v.recordCount as nat, a.data, a.pos,
                                                             writeFails, seekFails)
               else a;
      if b.err != Success then b
      else if v.fileCount > 0 then FilenamesWriteOutcome(v.files.value, h, b.data, b.pos, writeFails, seekFails)
      else b
  }

  /**
   * `eaarlio_edb_write`: NULL arguments and missing arrays are refused before the stream is
   * checked; the header's files offset is computed, never taken from the caller.
   */
  method WriteEdb(stream: Stream?, edb: Edb?) returns (err: Error)
    requires edb != null ==> Writable(edb.Value())
    modifies stream
    ensures stream != null ==> StreamValid(stream) == old(StreamValid(stream))
    ensures stream == null || edb == null || !Pointers(edb.Value()) ==>
              err == Null && (stream != null ==> stream.data == old(stream.data) && stream.pos == old(stream.pos))
    ensures stream != null && edb != null && Pointers(edb.Value()) && !StreamValid(stream) ==>
              err == StreamInvalid && stream.data == old(stream.data) && stream.pos == old(stream.pos)
    ensures edb != null && StreamValid(stream) && Pointers(edb.Value()) ==>
              var s := WriteOutcome(edb.Value(), old(stream.data), old(stream.pos), stream.writeFails, stream.seekFails);
              err == s.err && stream.data == s.data && stream.pos == s.pos
  {
    if stream == null || edb == null {
      return Null;
    }
    if edb.recordCount > 0 && edb.records == null {
      return Null;
    }
    if edb.fileCount > 0 && edb.files == null {
      return Null;
    }
    if !StreamValid(stream) {
      return StreamInvalid;
    }
    ghost var v := edb.Value();
    var header := EdbHeader(FilesOffset(edb.recordCount), edb.recordCount, edb.fileCount);
    err := WriteHeader(stream, header);
    if err != Success {
      return;
    }
    if edb.recordCount > 0 {
      err := WriteRecords(stream, header, edb.records[..]);
      if err != Success {
        return;
      }
    }
    if edb.fileCount > 0 {
      err := WriteFilenames(stream, header, edb.files[..]);
      if err != Success {
        return;
      }
    }
  }
}
