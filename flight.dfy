/**
 * A flight (flight.c): an EDB index, a TLD opener and the internal state that remembers
 * which TLD file is open. Reading a raster looks its record up in the EDB, makes the
 * record's file the open one (closing another one first), seeks to the record and reads it.
 *
 * The internal state is a small state machine: file index 0 means no TLD is open, a file
 * index k > 0 means the stream is open on the file the EDB names in slot k - 1.
 */
module Flights {
  import opened Bytes
  import opened Errors
  import opened EdbCodec
  import opened EdbRead
  import opened EdbFile
  import opened Streams
  import opened Memories
  import opened TldTypes
  import opened TldIo

  /**
   * The TLD opener capability (`struct eaarlio_tld_opener`): `open_tld` opens a TLD file by
   * the name the EDB gives it, `close` releases the opener and clears both operations. The
   * files it reaches are a map from a name's bytes to the file's contents; the streams it
   * opens fail their reads, seeks or close as its flags say, and its own close reports
   * `closeError`.
   */
  class TldOpener {
    var hasOpen: bool
    var hasClose: bool
    const files: map<seq<Byte>, seq<Byte>>
    const readFails: bool
    const seekFails: bool
    const streamCloseFails: bool
    const closeError: Error

    constructor (files: map<seq<Byte>, seq<Byte>>, readFails: bool, seekFails: bool, streamCloseFails: bool,
                 closeError: Error)
      ensures hasOpen && hasClose && this.files == files
      ensures this.readFails == readFails && this.seekFails == seekFails
      ensures this.streamCloseFails == streamCloseFails && this.closeError == closeError
    {
      hasOpen, hasClose := true, true;
      this.files := files;
      this.readFails, this.seekFails := readFails, seekFails;
      this.streamCloseFails, this.closeError := streamCloseFails, closeError;
    }

    /** `open_tld`: a NULL name is refused, an unknown one cannot be opened, a known one opens a readable stream. */
    method OpenTld(name: Name) returns (err: Error, stream: Stream?)
      requires hasOpen
      ensures err == Success <==> stream != null
      ensures name.None? ==> err == Null
      ensures name.Some? && name.value !in files ==> err == StreamOpenError
      ensures name.Some? && name.value in files ==>
                err == Success && stream != null && fresh(stream) && StreamValid(stream)
                && stream.data == files[name.value] && stream.pos == 0
                && stream.readFails == readFails && stream.seekFails == seekFails
                && stream.closeFails == streamCloseFails
    {
      if name.None? {
        return Null, null;
      }
      if name.value !in files {
        return StreamOpenError, null;
      }
      // TLD files are opened for reading only.
      stream := new Stream(files[name.value], readFails, true, seekFails, streamCloseFails);
      err := Success;
    }

    /** `close`: on success the opener is left empty, as `eaarlio_tld_opener_empty()` would be. */
    method Close() returns (err: Error)
      requires hasClose
      modifies this
      ensures err == closeError
      ensures err == Success ==> !hasOpen && !hasClose
      ensures err != Success ==> hasOpen == old(hasOpen) && hasClose
    {
      err := closeError;
      if err == Success {
        hasOpen, hasClose := false, false;
      }
    }
  }

  /** Both operations of the opener are present. */
  predicate OpenerComplete(opener: TldOpener)
    reads opener
  {
    opener.hasOpen && opener.hasClose
  }

  /** `struct _eaarlio_flight_internal`: the stream of the open TLD, the handler, and the open file's index. */
  class FlightState {
    var stream: Stream
    const memory: Memory
    var fileIndex: I16

    /** The state `eaarlio_flight_init` allocates: an empty stream and no file open. */
    constructor (memory: Memory)
      ensures this.memory == memory && fileIndex == 0 && fresh(stream)
      ensures stream.data == [] && !stream.hasClose && !StreamValid(stream)
    {
      this.memory := memory;
      stream := new Stream.Empty();
      fileIndex := 0;
    }
  }

  /** `struct eaarlio_flight`: the EDB, the TLD opener and the internal state (NULL before init). */
  class Flight {
    const edb: Edb
    const opener: TldOpener
    var internal: FlightState?

    /** A flight populated with an EDB and an opener, not yet initialised. */
    constructor (edb: Edb, opener: TldOpener)
      ensures this.edb == edb && this.opener == opener && internal == null
    {
      this.edb, this.opener := edb, opener;
      internal := null;
    }
  }

  /** The arrays of the EDB hold at least the counted records and names. */
  predicate Indexed(v: EdbValue)
  {
    (v.records.Some? ==> v.recordCount as nat <= |v.records.value|)
    && (v.files.Some? ==> v.fileCount as nat <= |v.files.value|)
  }

  /** Raster number `n` has a record in the EDB, and that record names one of the EDB's files. */
  predicate Addressable(v: EdbValue, n: int)
    requires Indexed(v)
  {
    1 <= n <= v.recordCount as int && v.records.Some?
    && 1 <= v.records.value[n - 1].fileIndex as int <= v.fileCount as int
  }

  /**
   * The checks `eaarlio_flight_read_raster` makes before it changes anything, in its order:
   * the opener, the EDB arrays and the internal state, the raster number, the record's file index.
   */
  function Admission(v: EdbValue, openerComplete: bool, started: bool, rasterNumber: U32): (e: Error)
    requires Indexed(v)
    ensures e == Success <==> openerComplete && v.records.Some? && v.files.Some? && started
                              && Addressable(v, rasterNumber)
    ensures !openerComplete ==> e == TldOpenerInvalid
    ensures openerComplete && (v.records.None? || v.files.None? || !started) ==> e == FlightInvalid
    ensures e == Corrupt ==> 1 <= rasterNumber as int <= v.recordCount as int
  {
    if !openerComplete then TldOpenerInvalid
    else if v.records.None? || v.files.None? || !started then FlightInvalid
    else if rasterNumber == 0 || rasterNumber as int > v.recordCount as int then FlightRasterInvalid
    else
      var fileIndex := v.records.value[rasterNumber - 1].fileIndex as int;
      if fileIndex < 1 || fileIndex > v.fileCount as int then Corrupt
      else Success
  }

  /** Raster number 0 names no record: it is refused once the flight itself is usable. */
  lemma RasterZeroRefused(v: EdbValue)
    requires Indexed(v) && v.records.Some? && v.files.Some?
    ensures Admission(v, true, true, 0) == FlightRasterInvalid
  {
  }

  // The raster-number check as written -------------------------------------------

  /** The raster-number check of `eaarlio_flight_read_raster` as written: only numbers past the count are refused. */
  predicate RasterCheckAsWritten(v: EdbValue, n: U32)
  {
    !(n as int > v.recordCount as int)
  }

  /** The record slot the code then reads, `raster_number - 1` in 32-bit unsigned arithmetic. */
  function RecordSlotAsWritten(n: U32): (slot: U32)
    ensures n > 0 ==> slot == n - 1
  {
    (n - 1) % 0x1_0000_0000
  }

  /** Raster number 0 passes the check as written and the slot it reads lies past every counted record. */
  lemma RasterZeroOverruns(v: EdbValue)
    ensures RasterCheckAsWritten(v, 0)
    ensures RecordSlotAsWritten(0) >= v.recordCount
  {
    assert RecordSlotAsWritten(0) == 0xFFFF_FFFF;
  }

  // The time offset --------------------------------------------------------------

  /** `record.time_seconds - raster->time_seconds` in 32-bit unsigned arithmetic, stored in an `int32_t`. */
  function TimeOffset(recorded: U32, read: U32): (d: I32)
    ensures (d - (recorded as int - read as int)) % 0x1_0000_0000 == 0
    ensures -0x8000_0000 <= recorded as int - read as int < 0x8000_0000 ==> d == recorded as int - read as int
  {
    var w := (recorded as int - read as int) % 0x1_0000_0000;
    if w < 0x8000_0000 then w else w - 0x1_0000_0000
  }

  /** The offsets of the flight tests: an EDB three seconds behind or two ahead of the TLD, and a wrap. */
  lemma TimeOffsetSamples()
    ensures TimeOffset(1_000_000_002 - 3, 1_000_000_002) == -3
    ensures TimeOffset(1_000_000_003 + 2, 1_000_000_003) == 2
    ensures TimeOffset(0, 0xFFFF_FFFF) == 1
    ensures TimeOffset(0x8000_0000, 0) == -0x8000_0000
  {
  }

  // Switching files --------------------------------------------------------------

  /** Where making a file the open one ends: the error, the file index left, and whether a stream was opened. */
  datatype Switch = Switch(err: Error, index: int, reopened: bool)

  /**
   * How `eaarlio_flight_read_raster` makes file `target` (at least 1) the open one, from the
   * file index, the stream's validity and whether its close fails: an open index needs a valid
   * stream; a stream open on another file is closed and the index cleared; then the file is
   * opened by name unless it is already the open one.
   */
  function SwitchTo(index: int, streamValid: bool, closeFails: bool, target: int, name: Name,
                    files: map<seq<Byte>, seq<Byte>>): (s: Switch)
    requires 1 <= target
    ensures s.err == Success <==> (index == target && streamValid) || ((index == 0 || (streamValid && !closeFails))
                                                                    && name.Some? && name.value in files)
    ensures s.err == Success ==> s.index == target
    ensures s.reopened <==> s.err == Success && index != target
    ensures s.err != Success ==> s.index == index || s.index == 0
    ensures s.err == StreamInvalid <==> index != 0 && !streamValid
  {
    if index != 0 && !streamValid then Switch(StreamInvalid, index, false)
    else if index == target then Switch(Success, index, false)
    else if index != 0 && closeFails then Switch(StreamCloseError, index, false)
    else if name.None? then Switch(Null, 0, false)
    else if name.value !in files then Switch(StreamOpenError, 0, false)
    else Switch(Success, target, true)
  }

  /** Once a file is open, asking for it again reuses the stream: nothing is closed or opened. */
  lemma SwitchAgainReuses(index: int, streamValid: bool, closeFails: bool, target: int, name: Name,
                          files: map<seq<Byte>, seq<Byte>>)
    requires 1 <= target && SwitchTo(index, streamValid, closeFails, target, name, files).err == Success
    ensures var s := SwitchTo(index, streamValid, closeFails, target, name, files);
            SwitchTo(s.index, true, closeFails, target, name, files) == Switch(Success, target, false)
  {
  }

  /** A failed open leaves no file open: the index is 0 whenever the open itself was the step that failed. */
  lemma FailedOpenClears(index: int, streamValid: bool, closeFails: bool, target: int, name: Name,
                         files: map<seq<Byte>, seq<Byte>>)
    requires 1 <= target
    requires var s := SwitchTo(index, streamValid, closeFails, target, name, files);
             s.err == Null || s.err == StreamOpenError
    ensures SwitchTo(index, streamValid, closeFails, target, name, files).index == 0
  {
  }

  /**
   * The state machine's invariant: a non-zero file index comes with a valid stream over the
   * contents of the file the EDB names in that slot.
   */
  predicate Tracking(f: Flight)
    reads f, f.internal, f.edb, f.edb.files, f.opener
    reads if f.internal != null then {f.internal.stream} else {}
  {
    f.internal != null && f.internal.fileIndex != 0 ==>
      var i := f.internal.fileIndex as int;
      StreamValid(f.internal.stream) && f.edb.files != null && 1 <= i <= f.edb.files.Length
      && f.edb.files[i - 1].Some? && f.edb.files[i - 1].value in f.opener.files
      && f.internal.stream.data == f.opener.files[f.edb.files[i - 1].value]
  }

  /** The objects `eaarlio_flight_read_raster` may change: the internal state, its stream and its handler. */
  function ReadFrame(f: Flight?): set<object?>
    reads f
    reads if f != null then {f.internal} else {}
  {
    if f == null || f.internal == null then {} else {f.internal, f.internal.stream, f.internal.memory}
  }

  /** The record `eaarlio_flight_read_raster` reads for an admitted raster number. */
  function RecordOf(v: EdbValue, n: U32): (r: EdbRecord)
    requires Indexed(v) && Addressable(v, n)
    ensures 1 <= r.fileIndex as int <= v.fileCount as int
  {
    v.records.value[n - 1]
  }

  /** The flight is usable and the raster number passes every check before the file switch. */
  predicate Admitted(f: Flight?, hasRaster: bool, n: U32)
    reads f
    reads if f != null then {f.edb, f.edb.records, f.edb.files, f.opener} else {}
  {
    f != null && hasRaster && Indexed(f.edb.Value())
    && Admission(f.edb.Value(), OpenerComplete(f.opener), f.internal != null, n) == Success
  }

  /**
   * `eaarlio_flight_init`: a NULL flight and a flight already initialised are refused, then the
   * handler is checked; on success the flight holds fresh internal state with no file open.
   */
  method Init(flight: Flight?, memory: Memory) returns (err: Error)
    modifies flight, memory`budget
    ensures flight == null ==> err == Null
    ensures flight != null && old(flight.internal) != null ==> err == FlightInvalid
    ensures flight != null && old(flight.internal) == null && !MemoryValid(memory) ==> err == MemoryInvalid
    ensures flight != null && old(flight.internal) == null && MemoryValid(memory) ==>
              err == (if old(memory.budget) == 0 then MemoryAllocFail else Success)
    ensures err != Success ==> memory.budget == old(memory.budget)
                               && (flight != null ==> flight.internal == old(flight.internal))
    ensures err == Success ==>
              flight != null && flight.internal != null && fresh(flight.internal) && fresh(flight.internal.stream)
              && flight.internal.memory == memory && flight.internal.fileIndex == 0
              && flight.internal.stream.data == [] && !flight.internal.stream.hasClose
              && memory.budget == old(memory.budget) - 1 && Tracking(flight)
  {
    if flight == null {
      return Null;
    }
    if flight.internal != null {
      return FlightInvalid;
    }
    if !MemoryValid(memory) {
      return MemoryInvalid;
    }
    var ok := memory.Reserve();
    if !ok {
      return MemoryAllocFail;
    }
    flight.internal := new FlightState(memory);
    err := Success;
  }

  /**
   * The file switch of `eaarlio_flight_read_raster`: the stream is closed when it is open on
   * another file, and the target file opened by name when it is not already the open one.
   */
  method SwitchFile(state: FlightState, opener: TldOpener, target: I16, name: Name) returns (err: Error)
    requires opener.hasOpen && 1 <= target
    modifies state, state.stream
    ensures var s := SwitchTo(old(state.fileIndex), old(StreamValid(state.stream)), old(state.stream.closeFails),
                              target, name, opener.files);
            err == s.err && state.fileIndex == s.index
            && (s.reopened ==>
                  fresh(state.stream) && StreamValid(state.stream) && name.Some? && name.value in opener.files
                  && state.stream.data == opener.files[name.value] && state.stream.pos == 0
                  && state.stream.readFails == opener.readFails && state.stream.seekFails == opener.seekFails)
            && (!s.reopened ==>
                  state.stream == old(state.stream) && state.stream.data == old(state.stream.data)
                  && state.stream.pos == old(state.stream.pos))
            && (!s.reopened && s.index != 0 ==> StreamValid(state.stream) == old(StreamValid(state.stream)))
  {
    var index := state.fileIndex;
    if index != 0 && !StreamValid(state.stream) {
      return StreamInvalid;
    }
    if index != 0 && index != target {
      err := state.stream.Close();
      if err != Success {
        return;
      }
      state.fileIndex := 0;
    }
    if state.fileIndex != target {
      var stream;
      err, stream := opener.OpenTld(name);
      if err != Success {
        return;
      }
      state.stream := stream;
      state.fileIndex := target;
    }
    err := Success;
  }

  /** The file switch an admitted raster number calls for, from the flight's current state. */
  function PlannedSwitch(f: Flight, n: U32): Switch
    requires Admitted(f, true, n)
    reads f, f.internal, f.internal.stream, f.edb, f.edb.records, f.edb.files, f.opener
  {
    var record := RecordOf(f.edb.Value(), n);
    SwitchTo(f.internal.fileIndex as int, StreamValid(f.internal.stream), f.internal.stream.closeFails,
             record.fileIndex as int, f.edb.files[record.fileIndex - 1], f.opener.files)
  }

  /**
   * `eaarlio_flight_read_raster`. The raster and the time offset are reset first; the checks
   * come before any state changes; the record's file is made the open one; then the stream
   * seeks to the record's offset and one raster record is read there. The time offset is the
   * EDB's time less the TLD's, in 32-bit arithmetic.
   */
  method ReadRaster(flight: Flight?, hasRaster: bool, rasterNumber: U32, includePulses: bool,
                    includeWaveforms: bool)
    returns (err: Error, raster: Raster, timeOffset: int)
    requires flight != null ==> Indexed(flight.edb.Value())
    modifies ReadFrame(flight)
    ensures flight == null || !hasRaster ==> err == Null
    ensures flight != null && hasRaster && !old(Admitted(flight, hasRaster, rasterNumber)) ==>
              err == Admission(flight.edb.Value(), OpenerComplete(flight.opener), flight.internal != null,
                               rasterNumber)
              && (flight.internal != null ==>
                    unchanged(flight.internal) && unchanged(flight.internal.stream)
                    && unchanged(flight.internal.memory))
    ensures !old(Admitted(flight, hasRaster, rasterNumber)) ==> raster == EmptyRaster && timeOffset == 0
    ensures old(Admitted(flight, hasRaster, rasterNumber)) ==>
              SwitchDone(flight, old(PlannedSwitch(flight, rasterNumber)), err, raster, timeOffset)
              && (old(PlannedSwitch(flight, rasterNumber)).reopened ==> fresh(flight.internal.stream))
              && (!old(PlannedSwitch(flight, rasterNumber)).reopened ==>
                    flight.internal.stream == old(flight.internal.stream))
              && (old(Tracking(flight)) ==> old(PlannedSwitch(flight, rasterNumber)).err != StreamInvalid)
    ensures old(Admitted(flight, hasRaster, rasterNumber)) && old(PlannedSwitch(flight, rasterNumber)).err == Success ==>
              ReadDone(flight, rasterNumber, includePulses, includeWaveforms, old(flight.internal.memory.budget),
                       old(flight.internal.memory.released), err, raster, timeOffset)
    ensures flight != null && old(Tracking(flight)) ==> Tracking(flight)
  {
    raster, timeOffset := EmptyRaster, 0;
    if flight == null || !hasRaster {
      return Null, raster, timeOffset;
    }
    err := Admission(flight.edb.Value(), OpenerComplete(flight.opener), flight.internal != null, rasterNumber);
    if err != Success {
      return;
    }
    err, raster, timeOffset := ReadAdmitted(flight, rasterNumber, includePulses, includeWaveforms);
  }

  /** What the file switch leaves: the file index it computes and, when it fails, its error and the reset raster. */
  predicate SwitchDone(f: Flight, s: Switch, err: Error, raster: Raster, timeOffset: int)
    reads f, f.internal
  {
    f.internal != null && f.internal.fileIndex as int == s.index
    && (s.err != Success ==> err == s.err && raster == EmptyRaster && timeOffset == 0)
  }

  /**
   * What the seek and the read leave when the switch succeeded: a failing seek or an invalid
   * handler is reported, otherwise the outcome of reading the record at its offset.
   */
  predicate ReadDone(f: Flight, n: U32, includePulses: bool, includeWaveforms: bool, budget: nat, released: nat,
                     err: Error, raster: Raster, timeOffset: int)
    reads f, f.internal, if f.internal != null then {f.internal.stream, f.internal.memory} else {}
    reads f.edb, f.edb.records, f.edb.files
  {
    f.internal != null && Indexed(f.edb.Value()) && Addressable(f.edb.Value(), n)
    && var state := f.internal;
       var record := RecordOf(f.edb.Value(), n);
       (state.stream.seekFails ==> err == StreamSeekError && raster == EmptyRaster && timeOffset == 0)
       && (!state.stream.seekFails && !MemoryValid(state.memory) ==>
             err == MemoryInvalid && raster == EmptyRaster && timeOffset == 0)
       && (!state.stream.seekFails && MemoryValid(state.memory) ==>
             RecordRead(state.stream.data, state.stream.readFails, record, includePulses, includeWaveforms, budget,
                        err, raster, timeOffset, state.stream.pos, state.memory.budget, state.memory.released - released))
  }

  /** `eaarlio_flight_read_raster` once its checks have passed: the file switch, the seek and the read. */
  method ReadAdmitted(flight: Flight, rasterNumber: U32, includePulses: bool, includeWaveforms: bool)
    returns (err: Error, raster: Raster, timeOffset: int)
    requires Admitted(flight, true, rasterNumber)
    modifies ReadFrame(flight)
    ensures SwitchDone(flight, old(PlannedSwitch(flight, rasterNumber)), err, raster, timeOffset)
    ensures old(PlannedSwitch(flight, rasterNumber)).reopened ==> fresh(flight.internal.stream)
    ensures !old(PlannedSwitch(flight, rasterNumber)).reopened ==> flight.internal.stream == old(flight.internal.stream)
    ensures old(Tracking(flight)) ==> old(PlannedSwitch(flight, rasterNumber)).err != StreamInvalid
    ensures old(PlannedSwitch(flight, rasterNumber)).err == Success ==>
              ReadDone(flight, rasterNumber, includePulses, includeWaveforms, old(flight.internal.memory.budget),
                       old(flight.internal.memory.released), err, raster, timeOffset)
    ensures old(Tracking(flight)) ==> Tracking(flight)
  {
    err := SwitchRecordFile(flight, rasterNumber);
    if err != Success {
      return err, EmptyRaster, 0;
    }
    err, raster, timeOffset := ReadAt(flight, rasterNumber, includePulses, includeWaveforms);
  }

  /** The file switch for an admitted raster number, which keeps the flight's invariant. */
  method SwitchRecordFile(flight: Flight, rasterNumber: U32) returns (err: Error)
    requires Admitted(flight, true, rasterNumber)
    modifies flight.internal, flight.internal.stream
    ensures var s := old(PlannedSwitch(flight, rasterNumber));
            err == s.err && SwitchDone(flight, s, err, EmptyRaster, 0)
            && (s.err == Success ==> StreamValid(flight.internal.stream))
            && (old(Tracking(flight)) ==> s.err != StreamInvalid)
    ensures var s := old(PlannedSwitch(flight, rasterNumber));
            var name := flight.edb.files[RecordOf(flight.edb.Value(), rasterNumber).fileIndex - 1];
            (s.reopened ==> fresh(flight.internal.stream) && name.Some? && name.value in flight.opener.files
                            && flight.internal.stream.data == flight.opener.files[name.value])
            && (!s.reopened ==> flight.internal.stream == old(flight.internal.stream)
                                && flight.internal.stream.data == old(flight.internal.stream.data))
    ensures old(Tracking(flight)) ==> Tracking(flight)
  {
    var record := flight.edb.records[rasterNumber - 1];
    err := SwitchFile(flight.internal, flight.opener, record.fileIndex, flight.edb.files[record.fileIndex - 1]);
  }

  /**
   * What the read of `eaarlio_flight_read_raster` leaves once the seek to the record's offset
   * succeeded: the error and the raster of reading one record there, a record of another type
   * refused, the cursor, the handler's budget, the blocks released, and the time offset.
   */
  predicate RecordRead(data: seq<Byte>, readFails: bool, record: EdbRecord, includePulses: bool, includeWaveforms: bool,
                       budget: nat, err: Error, raster: Raster, timeOffset: int, pos: nat, budgetAfter: nat,
                       released: int)
  {
    var r := ReadRecordOutcome(data, record.recordOffset, readFails, false, EmptyRaster, includePulses,
                               includeWaveforms, budget);
    err == (if r.err != Success then r.err else if r.header.recordType != TLD_TYPE_RASTER then TldTypeUnknown else Success)
    && raster == r.raster && pos == r.pos && budgetAfter == r.budget && released == r.released
    && timeOffset == (if err == Success then TimeOffset(record.timeSeconds, raster.timeSeconds) else 0)
  }

  /** The seek and the read of `eaarlio_flight_read_raster`, once the record's file is the open one. */
  method ReadAt(flight: Flight, rasterNumber: U32, includePulses: bool, includeWaveforms: bool)
    returns (err: Error, raster: Raster, timeOffset: int)
    requires flight.internal != null && StreamValid(flight.internal.stream)
    requires Indexed(flight.edb.Value()) && Addressable(flight.edb.Value(), rasterNumber)
    modifies flight.internal.stream`pos, flight.internal.memory`budget, flight.internal.memory`released
    ensures ReadDone(flight, rasterNumber, includePulses, includeWaveforms, old(flight.internal.memory.budget),
                     old(flight.internal.memory.released), err, raster, timeOffset)
    ensures old(Tracking(flight)) ==> Tracking(flight)
  {
    raster, timeOffset := EmptyRaster, 0;
    var record := flight.edb.records[rasterNumber - 1];
    var stream := flight.internal.stream;
    err := stream.Seek(record.recordOffset, SEEK_SET);
    if err != Success {
      return;
    }
    err, raster := TldIo.ReadRaster(stream, EmptyRaster, flight.internal.memory, includePulses, includeWaveforms);
    if err != Success {
      return;
    }
    timeOffset := TimeOffset(record.timeSeconds, raster.timeSeconds);
  }

  // Freeing ----------------------------------------------------------------------

  /** The first of the two closes of `eaarlio_flight_free` that fails: the stream's, then the opener's. */
  function CloseError(streamCloses: bool, streamCloseFails: bool, openerCloses: bool, openerCloseError: Error): (e: Error)
    ensures e == Success <==> (streamCloses ==> !streamCloseFails) && (openerCloses ==> openerCloseError == Success)
    ensures streamCloses && streamCloseFails ==> e == StreamCloseError
  {
    if streamCloses && streamCloseFails then StreamCloseError
    else if openerCloses && openerCloseError != Success then openerCloseError
    else Success
  }

  /** The first step of `eaarlio_flight_free` that fails: closing the stream, closing the opener, freeing the EDB. */
  function FreeError(streamCloses: bool, streamCloseFails: bool, openerCloses: bool, openerCloseError: Error,
                     memoryValid: bool): (e: Error)
    ensures e == Success <==> (streamCloses ==> !streamCloseFails) && (openerCloses ==> openerCloseError == Success)
                              && memoryValid
    ensures e != Success && memoryValid ==> e == CloseError(streamCloses, streamCloseFails, openerCloses, openerCloseError)
  {
    var c := CloseError(streamCloses, streamCloseFails, openerCloses, openerCloseError);
    if c != Success then c else if !memoryValid then MemoryInvalid else Success
  }

  /** The objects `eaarlio_flight_free` may change. */
  function FreeFrame(f: Flight?): set<object?>
    reads f
    reads if f != null then {f.edb, f.internal} else {}
  {
    if f == null then {}
    else {f, f.edb, f.opener} + (if f.edb.files != null then {f.edb.files} else {})
         + (if f.internal != null then {f.internal.stream, f.internal.memory} else {})
  }

  /**
   * `eaarlio_flight_free`: the open stream is closed, then the opener, then the EDB is freed,
   * and last the internal state is released and cleared. The first failure ends it with the
   * later resources still held and the internal state still set, so the call can be repeated;
   * after a success a second call is refused.
   */
  method Free(flight: Flight?) returns (err: Error)
    requires flight != null ==> Freeable(flight.edb.Value())
    modifies FreeFrame(flight)
    ensures flight == null ==> err == Null
    ensures flight != null && old(flight.internal) == null ==>
              err == FlightInvalid && flight.internal == null && flight.edb.Value() == old(flight.edb.Value())
              && flight.opener.hasOpen == old(flight.opener.hasOpen)
              && flight.opener.hasClose == old(flight.opener.hasClose)
    ensures flight != null && old(flight.internal) != null ==>
              var state := old(flight.internal);
              err == FreeError(old(state.stream.hasClose), state.stream.closeFails, old(flight.opener.hasClose),
                               flight.opener.closeError, MemoryValid(state.memory))
              && (err == Success ==> flight.internal == null) && (err != Success ==> flight.internal == state)
    ensures flight != null && old(flight.internal) != null ==>
              var state := old(flight.internal);
              var v := old(flight.edb.Value());
              Freeable(v)
              && (err == Success ==>
                    flight.edb.Value() == Freed(v) && !state.stream.hasClose
                    && state.memory.released == old(state.memory.released) + Held(v) + 1)
              && (err != Success ==>
                    flight.edb.Value() == v && state.memory.released == old(state.memory.released))
    ensures flight != null && old(flight.internal) != null && old(flight.opener.hasClose) && err == Success ==>
              !flight.opener.hasOpen && !flight.opener.hasClose
  {
    if flight == null {
      return Null;
    }
    if flight.internal == null {
      return FlightInvalid;
    }
    err := Release(flight);
  }

  /** The closes of `eaarlio_flight_free`: the open stream's, then the opener's; the first failure ends it. */
  method CloseBoth(flight: Flight) returns (err: Error)
    requires flight.internal != null
    modifies flight.internal.stream, flight.opener
    ensures err == CloseError(old(flight.internal.stream.hasClose), flight.internal.stream.closeFails,
                              old(flight.opener.hasClose), flight.opener.closeError)
    ensures err == Success ==> !flight.internal.stream.hasClose
    ensures err == Success && old(flight.opener.hasClose) ==> !flight.opener.hasOpen && !flight.opener.hasClose
  {
    var stream := flight.internal.stream;
    if stream.hasClose {
      err := stream.Close();
      if err != Success {
        return;
      }
    }
    if flight.opener.hasClose {
      err := flight.opener.Close();
      if err != Success {
        return;
      }
    }
    err := Success;
  }

  /** `eaarlio_flight_free` once the internal state is known to be set. */
  method Release(flight: Flight) returns (err: Error)
    requires flight.internal != null && Freeable(flight.edb.Value())
    modifies FreeFrame(flight)
    ensures var state := old(flight.internal);
            err == FreeError(old(state.stream.hasClose), state.stream.closeFails, old(flight.opener.hasClose),
                             flight.opener.closeError, MemoryValid(state.memory))
            && (err == Success ==> flight.internal == null) && (err != Success ==> flight.internal == state)
    ensures var state := old(flight.internal);
            var v := old(flight.edb.Value());
            (err == Success ==>
               flight.edb.Value() == Freed(v) && !state.stream.hasClose
               && state.memory.released == old(state.memory.released) + Held(v) + 1)
            && (err != Success ==> flight.edb.Value() == v && state.memory.released == old(state.memory.released))
    ensures old(flight.opener.hasClose) && err == Success ==> !flight.opener.hasOpen && !flight.opener.hasClose
  {
    var state := flight.internal;
    err := CloseBoth(flight);
    if err != Success {
      return;
    }
    err := FreeEdb(flight.edb, state.memory);
    if err != Success {
      return;
    }
    state.memory.Free();
    flight.internal := null;
  }
}
