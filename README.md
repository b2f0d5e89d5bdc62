# EAARL lidar file library in Dafny

This project models the core of the EAARL library. The library reads and writes the two file
formats of the Experimental Advanced Airborne Research Lidar:

- **TLD** files hold raster records. Each raster holds pulses, and each pulse holds its transmit
  waveform and up to four receive waveforms.
- An **EDB** file indexes those rasters. It is a header, then 20-byte records, then
  length-prefixed TLD file names.

The model covers these parts of the library:

- the little-endian integer codec;
- the EDB and TLD header and record codecs;
- the TLD size calculator;
- the packer and unpacker of a raster;
- record reading and writing on a stream;
- reading, writing and freeing an EDB;
- freeing pulses and rasters;
- the flight, which joins an EDB and a TLD opener and reads a raster by its number;
- the error-code tables;
- `precheck_rasters`, the filter of the YAML exporter that drops raster numbers a flight cannot read.

The library is C. The model keeps its form where it matters:

- **Objects updated in place are classes.** These are the memory handler, the stream, the EDB,
  the TLD opener, the flight and its internal state. The model checks their `modifies` frames.
- **Buffers are arrays.** The encoders and decoders write into `array<Byte>` at an offset, as
  the C code writes through `unsigned char *`.
- **Every loop of the C code is a `while` loop.** The loops are in records, names, pulses,
  receive channels and the raster filter. Each method is proved against a pure outcome function.
  That function follows the C control flow: every error branch, every early return, what has
  already been written when a later step fails, the stream cursor, and the handler's allocation
  budget.

The memory handler is a class with an allocation budget. Once the budget is spent, every
allocation returns NULL, so each allocation failure path of the library can be reached.

The stream is a class over a byte sequence. Fixed flags make its read, write, seek or close
operations fail.

The main results are four round trips:

- a well-formed EDB written by `eaarlio_edb_write` reads back whole with `eaarlio_edb_read`;
- a raster packed by `eaarlio_tld_pack_raster` unpacks to the same raster, apart from the
  normalisations the format imposes;
- a raster record written by `eaarlio_tld_write_raster` reads back with `eaarlio_tld_read_record`;
- every integer encoder, with its decoder, in both directions.

Other results:

- the size calculator agrees with what the packer produces;
- whatever `eaarlio_edb_read` leaves can be freed with `eaarlio_edb_free`; after a successful
  read the EDB holds its record array, its name table and one block per name; freeing twice
  releases nothing;
- what unpacking allocates is exactly what `eaarlio_raster_free` releases;
- the raster filter keeps exactly the usable numbers, in order.

Source paths below are relative to the library's repository root.

## Model

| member | source | states |
|---|---|---|
| IntCodec.Uint16Bytes | library/private/int_encode.c:9-13 | a 16-bit value is two bytes, low byte first |
| IntCodec.Uint24Bytes | library/private/int_encode.c:15-20 | the low three bytes of a 32-bit value, low byte first; bits 24-31 are not written |
| IntCodec.Uint32Bytes | library/private/int_encode.c:22-28 | a 32-bit value is four bytes, low byte first |
| IntCodec.Int16Bytes | library/private/int_encode.c:30-33 | a signed 16-bit value is stored as its two's-complement reinterpretation |
| IntCodec.DecodeUint24 | library/private/int_decode.c:14-18 | a decoded 24-bit value is always below 2^24 |
| IntCodec.DecodeInt16 | library/private/int_decode.c:26-29 | the decoded value is negative exactly when the high byte has its top bit set |
| IntCodec.EncodeUint8 | library/private/int_encode.c:4-7 | stores one byte at the offset and leaves every other byte of the buffer alone |
| IntCodec.EncodeUint16 | library/private/int_encode.c:9-13 | stores the two bytes at the offset; the rest of the buffer is unchanged |
| IntCodec.EncodeUint24 | library/private/int_encode.c:15-20 | stores the three low bytes at the offset; the rest of the buffer is unchanged |
| IntCodec.EncodeUint32 | library/private/int_encode.c:22-28 | stores the four bytes at the offset; the rest of the buffer is unchanged |
| IntCodec.EncodeInt16 | library/private/int_encode.c:30-33 | stores the two's-complement bytes at the offset; the rest of the buffer is unchanged |
| IntCodec.Uint8RoundTrip | library/private/int_decode.c:4-7 | the byte `eaarlio_int_encode_uint8` stores decodes back to the value, and a decoded byte re-encodes to itself |
| IntCodec.Uint16RoundTrip | library/private/int_decode.c:9-12 | `eaarlio_int_decode_uint16` (`DecodeUint16`) gives back every 16-bit value from its encoded bytes |
| IntCodec.Uint16BytesRoundTrip | library/private/int_encode.c:9-13 | re-encoding any decoded pair of bytes gives the same bytes |
| IntCodec.Uint24Truncates | library/private/int_encode.c:15-20 | the 24-bit encoder loses exactly the high byte: the round trip gives the value modulo 2^24 |
| IntCodec.Uint24RoundTrip | library/private/int_decode.c:14-18 | below 2^24 the 24-bit round trip is exact |
| IntCodec.Uint24BytesRoundTrip | library/private/int_encode.c:15-20 | re-encoding any three decoded bytes gives them back |
| IntCodec.Uint32RoundTrip | library/private/int_decode.c:20-24 | `eaarlio_int_decode_uint32` (`DecodeUint32`) gives back every 32-bit value from its encoded bytes |
| IntCodec.Uint32BytesRoundTrip | library/private/int_encode.c:22-28 | re-encoding any four decoded bytes gives them back |
| IntCodec.Int16RoundTrip | library/private/int_decode.c:26-29 | the signed 16-bit round trip is exact for every value, negative ones included |
| IntCodec.Int16BytesRoundTrip | library/private/int_encode.c:30-33 | re-encoding any two decoded bytes gives them back |
| IntCodec.KnownVectors | library/tests/data_int.c:33-66 | the library's test vectors: 1000000 as 24 bits, -1, -32768 and -1257 as signed 16 bits |
| CStrings.FindNul | library/private/misc_support.c:3-9 | the scan stops at the first NUL or at the bound, and every byte it passed is non-NUL |
| CStrings.StrNLen | library/private/misc_support.c:3-9 | `eaarlio_strnlen`: at most the bound; below the bound it is the index of the first NUL, and no earlier byte is NUL |
| CStrings.Content | library/private/misc_support.c:3-9 | a terminated string's characters are the bytes before its first NUL |
| CStrings.ContentOfTerminated | library/private/edb_read.c:148-150 | NUL-free characters plus a terminator read back as exactly those characters |
| Errors.Code | library/public/eaarlio/error.h:16-92 | the enumerators run from 0 (SUCCESS) to 24 (ERROR_UNKNOWN) |
| Errors.FromCode | library/public/eaarlio/error.h:16-92 | every integer in 0..24 names its enumerator; anything else is ERROR_UNKNOWN |
| Errors.Name | library/private/error.c:4-62 | the name is "(unknown)" exactly for ERROR_UNKNOWN |
| Errors.NameOfCode | library/private/error.c:4-62 | an out-of-range integer code, and 24, are named "(unknown)", and no other code is |
| Errors.NamePrefix | library/private/error.c:4-62 | every other name carries the `EAARLIO_` prefix |
| Errors.MessageOfCode | library/private/error.c:64-165 | a code is described as "Unknown error" exactly when it is not one of the codes 0 to 23, so every valid code has its own description |
| Errors.Check | library/private/error.c:167-185 | `eaarlio_error_check` returns 0 exactly for success and 1 for every error |
| Memories.Memory.constructor | library/public/eaarlio/memory.h:41-103 | a handler with the given operations and allocation budget, nothing released yet |
| Memories.Memory.Malloc | library/public/eaarlio/memory.h:42-54 | a fresh buffer of the requested size, or NULL once the budget is spent |
| Memories.Memory.Calloc | library/public/eaarlio/memory.h:81-94 | a fresh zero-filled buffer, or NULL once the budget is spent |
| Memories.Memory.Realloc | library/public/eaarlio/memory.h:66-79 | a fresh buffer keeping the common prefix of the old one, or NULL once the budget is spent |
| Memories.Memory.Free | library/public/eaarlio/memory.h:55-64 | releasing a block counts one release and costs no budget |
| Memories.Memory.Reserve | library/public/eaarlio/memory.h:42-54 | an allocation whose contents the model keeps as a value: it succeeds exactly while budget is left |
| Memories.MemoryValid | library/private/memory_support.c:4-8 | `eaarlio_memory_valid`: NULL is never valid; a valid handler has all four operations |
| Streams.Zeros | library/public/eaarlio/stream.h:90-110 | the gap a write past the end leaves reads as zeros |
| Streams.Overwrite | library/public/eaarlio/stream.h:90-110 | a write replaces the bytes at the cursor, extends the file when needed, and touches nothing else |
| Streams.OverwriteAtEnd | library/public/eaarlio/stream.h:90-110 | writing at the end of a file appends |
| Streams.OverwriteTwice | library/public/eaarlio/stream.h:90-110 | two writes back to back equal one write of both blocks |
| Streams.ReadError | library/public/eaarlio/stream.h:67-88 | a read succeeds exactly when it asks for nothing, or for bytes that are all there and the stream does not fail |
| Streams.ReadBytes | library/public/eaarlio/stream.h:67-88 | a successful read delivers exactly the bytes at the cursor |
| Streams.ReadPos | library/public/eaarlio/stream.h:67-88 | a successful read moves the cursor past what it read |
| Streams.Stream.constructor | library/public/eaarlio/stream.h:47-173 | an open stream over the given bytes, at position 0, with all five operations |
| Streams.Stream.Empty | library/public/eaarlio/stream.h:175-184 | `eaarlio_stream_empty()`: no contents and none of the operations |
| Streams.Stream.Read | library/public/eaarlio/stream.h:67-88 | the error, cursor and bytes delivered are those of `ReadError`, `ReadPos` and `ReadBytes`; a short read delivers what is left and reports READ_SHORT |
| Streams.Stream.Write | library/public/eaarlio/stream.h:90-110 | a successful write is `Overwrite` at the cursor and moves the cursor past it; a failed one changes nothing |
| Streams.Stream.Seek | library/public/eaarlio/stream.h:112-147 | the cursor moves to the target, and a target before the start is refused |
| Streams.Stream.Tell | library/public/eaarlio/stream.h:149-164 | reports the cursor |
| Streams.Stream.Close | library/public/eaarlio/stream.h:48-65 | a successful close leaves a stream with no operations; the contents are kept |
| Streams.StreamValid | library/private/stream_support.c:4-8 | `eaarlio_stream_valid`: NULL is never valid; a valid stream has all five operations |
| Streams.SeekError | library/public/eaarlio/stream.h:112-147 | SEEK_INVALID exactly for a `whence` other than SEEK_SET, SEEK_CUR and SEEK_END; a successful seek never lands before the start of the file |
| Streams.SeekTarget | library/public/eaarlio/stream.h:115-124 | the offset counts from the start, from the cursor, or from the end, as `whence` says |
| EdbCodec.HeaderBytes | library/private/edb_encode.c:11-31 | the EDB header is 12 bytes |
| EdbCodec.RecordBytes | library/private/edb_encode.c:33-65 | an EDB record is 20 bytes |
| EdbCodec.HeaderRoundTrip | library/private/edb_decode.c:10-30 | decoding an encoded header gives it back |
| EdbCodec.HeaderBytesRoundTrip | library/private/edb_encode.c:11-31 | re-encoding any decoded 12 bytes gives them back |
| EdbCodec.RecordRoundTrip | library/private/edb_decode.c:32-64 | decoding an encoded record gives it back; file_index is signed both ways |
| EdbCodec.RecordBytesRoundTrip | library/private/edb_encode.c:33-65 | re-encoding any decoded 20 bytes gives them back |
| EdbCodec.HeaderSampleVector | library/tests/data_edb.c:94-103 | the library's sample header bytes decode to (112, 5, 3), and its unique-byte header to its expected fields |
| EdbCodec.EncodeHeader | library/private/edb_encode.c:11-31 | NULL, then a buffer shorter than 12, are refused and the buffer is left alone; otherwise the header bytes are stored at the offset |
| EdbCodec.EncodeRecord | library/private/edb_encode.c:33-65 | as `EncodeHeader`, for the 20 record bytes |
| EdbCodec.EncodeFilenameLength | library/private/edb_encode.c:67-77 | as `EncodeHeader`, for the two-byte length prefix |
| EdbCodec.FilenamePrefix | library/private/edb_write.c:104-106 | the stored prefix is the length cast to 16 bits: a length of at most 65535 is kept, and 65536 becomes 0 |
| EdbCodec.FilenameLengthPrefixExact | library/private/eaarlio/edb_internals.h:26-30 | among the lengths the library accepts (up to `1 << 16`), a length survives its 16-bit prefix exactly when it is at most 65535 |
| EdbCodec.EncodeFilename | library/private/edb_encode.c:79-93 | NULL buffer, then a name longer than 65536 bytes (measured over at most 65537), then a short buffer are refused; otherwise the name's characters, without terminator, are stored |
| EdbCodec.DecodeHeader | library/private/edb_decode.c:10-30 | NULL or a short buffer leaves the header as it was; otherwise it is the decoded bytes |
| EdbCodec.DecodeRecord | library/private/edb_decode.c:32-64 | as `DecodeHeader`, for a record |
| EdbCodec.DecodeFilenameLength | library/private/edb_decode.c:66-78 | as `DecodeHeader`, for the length prefix |
| EdbCodec.DecodeFilename | library/private/edb_decode.c:80-99 | a NULL buffer is refused first. A zero length then succeeds and copies nothing. A source shorter than the length, or a destination without room for the terminator, is refused. Otherwise the characters and a terminator are copied, and nothing else changes |
| EdbRead.Nulls | library/private/edb_read.c:94-95 | the name table starts with every slot NULL |
| EdbRead.ReadFront | library/private/edb_read.c:33 | a read into a buffer's front, stated through the stream's read outcome |
| EdbRead.HeaderError | library/private/edb_read.c:10-41 | reading the header succeeds exactly when the seek and the read succeed and the file holds 12 bytes |
| EdbRead.ReadHeader | library/private/edb_read.c:10-41 | an invalid stream is refused; the header is zeroed first and is the decoded file front on success |
| EdbRead.RecordsRead | library/private/edb_read.c:65-74 | the loop stops at the first record the file does not hold, or at the first failing read |
| EdbRead.RecordsOutcome | library/private/edb_read.c:43-77 | the record loop succeeds exactly when the seek works and every record is in the file; the cursor then ends past the last record |
| EdbRead.AllRecordsRead | library/private/edb_read.c:65-74 | the loop reads every record exactly when none is missing |
| EdbRead.ReadRecords | library/private/edb_read.c:43-77 | `eaarlio_edb_read_records` fills the array as `RecordsOutcome` says; records past the failure are left as they were |
| EdbRead.ReadRecordLoop | library/private/edb_read.c:65-74 | the loop decodes exactly the records `RecordsRead` counts |
| EdbRead.ReadRecordAt | library/private/edb_read.c:66-72 | one turn: record i decoded from its 20 bytes, or the slot kept when the read fails |
| EdbRead.Grown | library/private/edb_read.c:126-132 | the corrected growth doubles the scratch size until it holds the name, and no further |
| EdbRead.GrownAsWritten | library/private/edb_read.c:126-132 | the growth as written stops one byte short |
| EdbRead.ScratchOverrunAsWritten | library/private/edb_read.c:126-134 | as written, a 33-byte name leaves the 32-byte scratch buffer unchanged, and the read overruns it |
| EdbRead.GrowScratch | library/private/edb_read.c:126-132 | the corrected growth loop computes `Grown` |
| EdbRead.GrowthUsesHeadroom | library/private/edb_read.c:126-132 | each growth for a name the format can carry uses at least one doubling |
| EdbRead.InitialHeadroom | library/private/edb_read.c:109-112 | the 32-byte scratch buffer can double at most eleven times |
| EdbRead.NamesLoop | library/private/edb_read.c:118-151 | slots before the current name are untouched, and on success every counted slot holds a terminated name and the scratch buffer is released |
| EdbRead.NameOutcome | library/private/edb_read.c:119-150 | one name: prefix, growth, read, block allocation, copy; the same guarantees as `NamesLoop` |
| EdbRead.NameRead | library/private/edb_read.c:134-150 | the name read into a buffer that holds it, then copied into a length+1 block |
| EdbRead.FilenamesOutcome | library/private/edb_read.c:79-158 | `eaarlio_edb_read_filenames`: a table of file_count slots, all holding terminated names on success |
| EdbRead.ReadFilenames | library/private/edb_read.c:79-158 | the method ends in `FilenamesOutcome`'s state and leaves slots past the count alone |
| EdbRead.ReadNames | library/private/edb_read.c:118-157 | the loop and the release of the scratch buffer end where `NamesLoop` says |
| EdbRead.ReadNameNext | library/private/edb_read.c:119-124 | one turn of the name loop: on failure its outcome is the loop's outcome |
| EdbRead.ReadName | library/private/edb_read.c:126-150 | one name with the corrected growth, as `NameOutcome` says |
| EdbRead.ReadNameInto | library/private/edb_read.c:134-150 | one name into a scratch buffer that holds it, as `NameRead` says |
| EdbRead.CopyName | library/private/edb_read.c:138-150 | the name's block is its characters plus a terminator, or ALLOC_FAIL once the budget is spent |
| EdbWrite.Written | library/private/edb_write.c:114-116 | a write of nothing leaves the file alone; otherwise the bytes overwrite at the cursor |
| EdbWrite.WrittenTwice | library/private/edb_write.c:105-116 | writing the prefix and then the characters equals writing both at once |
| EdbWrite.HeaderWriteOutcome | library/private/edb_write.c:10-33 | writing the header succeeds exactly when the seek and write work; the file then starts with the header bytes |
| EdbWrite.WriteHeader | library/private/edb_write.c:10-33 | `eaarlio_edb_write_header` ends in that outcome; an invalid stream is refused untouched |
| EdbWrite.RecordsBytes | library/private/edb_write.c:57-68 | the record section is 20 bytes per record |
| EdbWrite.RecordsWriteOutcome | library/private/edb_write.c:35-71 | success exactly when the seek works and, if there are records, the writes do; the section follows the header |
| EdbWrite.WriteRecords | library/private/edb_write.c:35-71 | `eaarlio_edb_write_records` ends in `RecordsWriteOutcome` |
| EdbWrite.WriteRecordLoop | library/private/edb_write.c:57-68 | the loop writes every record in order after the header |
| EdbWrite.WriteRecordNext | library/private/edb_write.c:58-67 | one more record extends what is written by its bytes |
| EdbWrite.RecordsStopped | library/private/edb_write.c:64-67 | with the stream's write failing, only the first record's write can fail: nothing is in the file yet and the cursor is still at 12 |
| EdbWrite.RecordAppended | library/private/edb_write.c:57-68 | the section grows one record at a time |
| EdbWrite.WriteRecordAt | library/private/edb_write.c:58-67 | one record encoded and written at the cursor |
| EdbWrite.NameLength | library/private/edb_write.c:98-99 | the length is measured over at most 65537 bytes; up to 65536 it is the index of the terminator, and no earlier byte is NUL |
| EdbWrite.NameBytes | library/private/edb_write.c:105-116 | a stored name is its length cut to 16 bits in 2 bytes, then its characters |
| EdbWrite.FirstTooLong | library/private/edb_write.c:98-102 | the first name longer than 65536 bytes, the first one the writer refuses, if there is one |
| EdbWrite.StoredBeforeFirst | library/private/edb_write.c:98-102 | every name before the first refused one is stored |
| EdbWrite.FilenamesWriteOutcome | library/private/edb_write.c:73-120 | success exactly when the seek and writes work and no name is longer than 65536 bytes; the names then sit back to back at the files offset |
| EdbWrite.WriteFilenames | library/private/edb_write.c:73-120 | `eaarlio_edb_write_filenames` ends in `FilenamesWriteOutcome` |
| EdbWrite.WriteNames | library/private/edb_write.c:95-117 | the loop stops at the first name longer than 65536 bytes or the first failed write, with the earlier names written |
| EdbWrite.WriteNameAt | library/private/edb_write.c:96-117 | one more name extends the section by its bytes |
| EdbWrite.NameWritten | library/private/edb_write.c:104-116 | a stored name written after the earlier ones extends the section by its bytes |
| EdbWrite.NameStopped | library/private/edb_write.c:98-110 | a refused name, or a failed first write, ends the loop with the earlier names in the file |
| EdbWrite.NamesAllWritten | library/private/edb_write.c:96-119 | once every name is written the loop succeeds with the whole section in the file |
| EdbWrite.FirstTooLongStep | library/private/edb_write.c:98-102 | one step of the search for the first name longer than 65536 bytes |
| EdbWrite.NameAppended | library/private/edb_write.c:105-116 | the name section grows by one stored name at a time |
| EdbWrite.WriteName | library/private/edb_write.c:98-116 | a name longer than 65536 bytes is refused with nothing written; otherwise its 16-bit prefix and its characters are written |
| EdbWrite.WriteNameChars | library/private/edb_write.c:114-116 | the characters after the prefix complete `NameBytes` |
| EdbFile.Edb.constructor | library/public/eaarlio/edb.h:104-110 | `eaarlio_edb_empty()` |
| EdbFile.NamesHeld | library/private/edb.c:27-37 | the number of name slots holding a block |
| EdbFile.Freed | library/private/edb.c:8-40 | after a free the counts stay and both arrays are NULL |
| EdbFile.FreeTwiceReleasesNothing | library/private/edb.c:22-37 | a freed EDB holds nothing, and freeing again changes nothing |
| EdbFile.AllNamesHeld | library/private/edb.c:27-37 | a full table owns one block per name |
| EdbFile.FreeEdb | library/private/edb.c:8-40 | NULL and an invalid handler are refused; otherwise every held block is released and the EDB is `Freed` |
| EdbFile.FreeNames | library/private/edb.c:27-37 | each counted name is released and its slot set to NULL |
| EdbFile.Filled | library/private/edb.c:79-87 | after the record loop the first `read` records are the file's; the rest are unspecified in C, and the model zeroes them |
| EdbFile.ReadOutcome | library/private/edb.c:42-100 | `eaarlio_edb_read`: the array sizes match the counts; a failed header leaves the empty EDB |
| EdbFile.RecordsPart | library/private/edb.c:79-87 | the record array is allocated only when asked for and non-empty |
| EdbFile.FilesPart | library/private/edb.c:89-97 | the name table is present on success exactly when asked for and non-empty |
| EdbFile.ReadEdb | library/private/edb.c:42-100 | NULL, an invalid stream and an invalid handler are refused with an empty EDB; otherwise the EDB is `ReadOutcome`'s |
| EdbFile.ReadRecordsPart | library/private/edb.c:79-97 | the records and names as `RecordsPart` says |
| EdbFile.ReadFilesPart | library/private/edb.c:89-97 | the names as `FilesPart` says |
| EdbFile.FilesOffset | library/private/edb.c:120-123 | the names start at 12 + 20 × record_count, computed in 32 bits |
| EdbFile.FilesOffsetSample | library/tests/data_edb.c:94-96 | five records put the names at 112 |
| EdbFile.HeaderFor | library/private/edb.c:117-123 | the header written carries the EDB's counts and the computed offset |
| EdbFile.WriteOutcome | library/private/edb.c:102-143 | `eaarlio_edb_write`: header, records, then names (each up to 65536 bytes), each stopping at the first error |
| EdbFile.WriteEdb | library/private/edb.c:102-143 | NULL pointers and an invalid stream are refused untouched; otherwise the file is `WriteOutcome`'s |
| EdbLaws.FreeAfterRead | library/private/edb.c:8-100 | whatever a read leaves can be freed; after a successful read the EDB owns its arrays and one block per name |
| EdbLaws.WellFormedStored | library/private/edb_write.c:98-116 | a name as read back is stored as its length and characters |
| EdbLaws.CanonicalWritable | library/private/edb.c:108-115 | every well-formed EDB passes the writer's checks, and every name is accepted |
| EdbLaws.WriteLayout | library/private/edb.c:102-143 | writing a well-formed EDB puts the header at 0, the records after it, and the names at the files offset |
| EdbLaws.RecordsReadBack | library/private/edb_read.c:65-74 | the record loop reads back every record of a written records section |
| EdbLaws.NamesRoundTrip | library/private/edb_read.c:79-158 | a written name section reads back as the same names |
| EdbLaws.ReadsBack | library/private/edb.c:42-100 | a well-formed EDB laid out as the writer lays it out reads back whole |
| EdbLaws.FilesReadBack | library/private/edb.c:89-97 | once the records are in, the name table reads back |
| EdbLaws.WriteThenRead | library/private/edb.c:42-143 | a well-formed EDB (names of at most 65535 bytes) written to a healthy stream reads back equal, given enough allocations |
| EdbLaws.LongestStored | library/private/edb_write.c:98-116 | the writer accepts a 65536-byte name and stores it behind the prefix 0 |
| EdbLaws.LongestWritten | library/private/edb_write.c:73-120 | writing a single 65536-byte name succeeds and leaves 0 in its prefix |
| EdbLaws.ZeroPrefixReadsEmpty | library/private/edb_read.c:118-151 | a single name with prefix 0 reads back as the empty string, the cursor just past the prefix |
| EdbLaws.LongestNameLost | library/private/edb_write.c:98-116 | a written 65536-byte name reads back as the empty string |
| TldTypes.EmptyPulses | library/public/eaarlio/pulse.h:93-100 | n zeroed pulses |
| TldTypes.RxChannels | library/private/tld_size.c:39-42 | rx_count is capped at the four slots |
| TldCodec.RasterWordFields | library/private/tld_encode.c:32-65 | for in-range fields the packed word unpacks to pulse_count and digitizer |
| TldCodec.PulseWordFields | library/private/tld_encode.c:67-120 | for in-range fields the packed word unpacks to range and both threshold flags |
| TldCodec.PulseWordSplit | library/private/tld_decode.c:65-110 | every 16-bit word is the packed word of its own fields |
| TldCodec.RecordHeaderBytes | library/private/tld_encode.c:10-30 | a record header is 4 bytes |
| TldCodec.RecordHeaderOf | library/private/tld_decode.c:10-30 | a decoded record length fits 24 bits |
| TldCodec.RasterHeaderBytes | library/private/tld_encode.c:32-65 | a raster header is 14 bytes |
| TldCodec.RasterHeaderOf | library/private/tld_decode.c:32-63 | decoded fields are in range, and the pulse pointer is untouched |
| TldCodec.PulseHeaderBytes | library/private/tld_encode.c:67-120 | a pulse header is 13 bytes |
| TldCodec.PulseHeaderOf | library/private/tld_decode.c:65-110 | decoded fields are in range; lengths and waveforms are untouched |
| TldCodec.RecordHeaderRoundTrip | library/private/tld_decode.c:10-30 | an in-range record header round-trips |
| TldCodec.RecordHeaderBytesRoundTrip | library/private/tld_encode.c:10-30 | any 4 bytes round-trip |
| TldCodec.RasterHeaderRoundTrip | library/private/tld_decode.c:32-63 | an in-range raster header round-trips |
| TldCodec.RasterHeaderBytesRoundTrip | library/private/tld_encode.c:32-65 | any 14 bytes round-trip |
| TldCodec.PulseHeaderLayout | library/private/tld_encode.c:67-120 | where each pulse header field lies in its 13 bytes |
| TldCodec.PulseHeaderRoundTrip | library/private/tld_decode.c:65-110 | an in-range pulse header round-trips, except that time_offset keeps its low 24 bits |
| TldCodec.PulseHeaderBytesRoundTrip | library/private/tld_encode.c:67-120 | any 13 bytes round-trip |
| TldCodec.RasterWordVectors | library/tests/data_tld.c:181-219 | the test vectors `00 80` (digitizer 1) and `FF 7F` (32767 pulses) |
| TldCodec.EncodeRecordHeader | library/private/tld_encode.c:10-30 | NULL, a short buffer and out-of-range fields are refused with the buffer unchanged; otherwise the header bytes are stored |
| TldCodec.EncodeRasterHeader | library/private/tld_encode.c:32-65 | as for the record header, for the raster header |
| TldCodec.EncodePulseHeader | library/private/tld_encode.c:67-120 | as for the record header, for the pulse header; time_offset is cut to 24 bits |
| TldCodec.EncodeCountAndBiases | library/private/tld_encode.c:98-106 | the six single-byte fields in order |
| TldCodec.EncodeWfDataLength | library/private/tld_encode.c:122-132 | NULL, then a short buffer, is refused; otherwise the 2-byte length is stored |
| TldCodec.EncodeTxLength | library/private/tld_encode.c:134-144 | the same for the 1-byte length |
| TldCodec.EncodeRxLength | library/private/tld_encode.c:146-156 | the same for the 2-byte length |
| TldCodec.EncodeWaveform | library/private/tld_encode.c:158-173 | a NULL buffer or waveform, then a short buffer, is refused; otherwise exactly `length` samples are stored |
| TldCodec.DecodeRecordHeader | library/private/tld_decode.c:10-30 | NULL or a short buffer leaves the header; otherwise it is the decoded bytes |
| TldCodec.DecodeRasterHeader | library/private/tld_decode.c:32-63 | the same for the raster header; the pulse pointer is untouched |
| TldCodec.DecodePulseHeader | library/private/tld_decode.c:65-110 | the same for the pulse header; rx_count is taken as is |
| TldCodec.DecodeWfDataLength | library/private/tld_decode.c:112-124 | the same for the 2-byte length |
| TldCodec.DecodeTxLength | library/private/tld_decode.c:126-138 | the same for the 1-byte length |
| TldCodec.DecodeRxLength | library/private/tld_decode.c:140-152 | the same for the 2-byte length |
| TldCodec.DecodeWaveform | library/private/tld_decode.c:154-169 | exactly `length` bytes are copied, and the rest of the waveform is unchanged |
| TldSize.PulsesOf | library/private/tld_size.c:101-104 | a raster with a NULL pulse array has no pulses |
| TldSize.SizeRasterError | library/private/tld_size.c:123-144 | sizing succeeds exactly when every pulse fits and the total fits 24 bits |
| TldSize.RxSectionMonotone | library/private/tld_size.c:44-53 | more channels never take fewer bytes |
| TldSize.PulsesSizeMonotone | library/private/tld_size.c:106-116 | a prefix of the pulses never takes more bytes than all of them |
| TldSize.SizePulsesFails | library/private/tld_size.c:106-116 | one pulse that does not fit, or a running total that reaches the bound, fails the raster |
| TldSize.RxCountCapped | library/private/tld_size.c:39-42 | an rx_count above four counts only the four slots |
| TldSize.SizePulseWaveforms | library/private/tld_size.c:24-58 | fails with size 0 unless every running total stays below 65535; otherwise the waveform section's size |
| TldSize.SizePulse | library/private/tld_size.c:60-84 | 13 + 2 + the waveform section |
| TldSize.SizeRasterPulses | library/private/tld_size.c:86-121 | the sum of the pulse sizes, or the first failure |
| TldSize.SizeRaster | library/private/tld_size.c:123-144 | 14 + the pulses, or VALUE_OUT_OF_RANGE past 2^24 - 1 |
| TldPack.PulsesEncodeError | library/private/tld_pack.c:68-97 | the first pulse error in order: out of range or NULL |
| TldPack.PackErrorAsWritten | library/private/tld_pack.c:50-52 | as written, whenever allocation succeeds it agrees with the corrected error |
| TldPack.AllocationFailureMisreported | library/private/tld_pack.c:50-52 | as written, a failed allocation is reported as NULL rather than ALLOC_FAIL |
| TldPack.RasterBytesLength | library/private/tld_pack.c:46-48 | the packed raster is exactly as long as the size calculator says |
| TldPack.PulsesEncodeErrorFree | library/private/tld_pack.c:68-97 | no pulse fails exactly when the run does not fail |
| TldPack.FirstPulseError | library/private/tld_pack.c:68-97 | the first failing pulse decides the error of the whole run |
| TldPack.PackRxChannel | library/private/tld_pack.c:89-95 | one receive channel: length then samples, or NULL |
| TldPack.PackRxChannels | library/private/tld_pack.c:88-96 | the receive loop writes every channel in order, or stops at a NULL one |
| TldPack.PackPulseFixed | library/private/tld_pack.c:69-80 | the pulse header, waveform data length and tx length, or out of range |
| TldPack.PackPulse | library/private/tld_pack.c:68-97 | one pulse packs to `PulseBytes` at the cursor, or to its first error |
| TldPack.PackPulses | library/private/tld_pack.c:68-97 | every pulse in order after the raster header |
| TldPack.PackRaster | library/private/tld_pack.c:13-102 | the error is the corrected `PackError`; the buffer is allocated exactly when the checks pass, has the computed size, and on success holds `RasterBytes` |
| TldUnpack.RetrieveOutcome | library/private/tld_unpack.c:32-49 | a zero length keeps the slot; otherwise success needs budget and the bytes, and the slot then holds them |
| TldUnpack.TxOutcome | library/private/tld_unpack.c:53-82 | the tx length and samples take 1 + tx_len bytes; the receive fields are untouched |
| TldUnpack.RxOutcome | library/private/tld_unpack.c:86-116 | one channel takes 2 + rx_len bytes and changes only its own slot |
| TldUnpack.RxLoopOutcome | library/private/tld_unpack.c:152-156 | the channel loop changes only the receive fields |
| TldUnpack.RxLoopTurn | library/private/tld_unpack.c:152-156 | one turn either stops with the channel's failure or continues past it |
| TldUnpack.RxLoopReachesTurn | library/private/tld_unpack.c:152-156 | a channel loop reaching an outcome either stops there at this channel or reaches it from the next one |
| TldUnpack.WaveformsOutcome | library/private/tld_unpack.c:118-159 | the waveforms take at most the bytes given and keep rx_count |
| TldUnpack.PulseOutcome | library/private/tld_unpack.c:192-242 | a pulse consumes at least its 15 fixed bytes and at most what is there |
| TldUnpack.PulseWaveformsOutcome | library/private/tld_unpack.c:210-240 | the waveform part consumes no bytes of the outer buffer |
| TldUnpack.PulsesLoopOutcome | library/private/tld_unpack.c:192-242 | the pulse array always has `count` entries |
| TldUnpack.PulsesOutcome | library/private/tld_unpack.c:161-245 | zero pulses leave no array and allocate nothing; otherwise the array has pulse_count entries |
| TldUnpack.RasterOutcome | library/private/tld_unpack.c:247-284 | without pulses the result has no pulse array |
| TldUnpack.Advance | library/private/tld_unpack.c:18-28 | the cursor moves on and the end of the buffer stays put |
| TldUnpack.RetrieveWaveform | library/private/tld_unpack.c:32-49 | `_eaarlio_retrieve_wf` ends in `RetrieveOutcome` |
| TldUnpack.UnpackTx | library/private/tld_unpack.c:53-82 | `_eaarlio_unpack_tx` ends in `TxOutcome` |
| TldUnpack.UnpackRx | library/private/tld_unpack.c:86-116 | `_eaarlio_unpack_rx` ends in `RxOutcome` |
| TldUnpack.UnpackWaveforms | library/private/tld_unpack.c:118-159 | a NULL buffer NULLs the waveform pointers; an invalid handler is refused; otherwise `WaveformsOutcome` with the loop capped at four channels |
| TldUnpack.UnpackRxChannels | library/private/tld_unpack.c:152-156 | the channel loop ends in `RxLoopOutcome` |
| TldUnpack.UnpackPulse | library/private/tld_unpack.c:192-242 | one pulse ends in `PulseOutcome` |
| TldUnpack.ShortIsTolerated | library/private/tld_unpack.c:214-230 | a short waveform section is tolerated only on the last pulse, with every expected waveform present |
| TldUnpack.UnpackPulses | library/private/tld_unpack.c:161-245 | NULL buffer, zero pulses and an invalid handler are handled first; otherwise `PulsesOutcome` |
| TldUnpack.UnpackPulseArray | library/private/tld_unpack.c:192-242 | the loop fills the zeroed array in place as `PulsesLoopOutcome` says |
| TldUnpack.UnpackRaster | library/private/tld_unpack.c:247-284 | NULL and an invalid handler are refused; otherwise `RasterOutcome` |
| TldUnpackFindings.PulsesLoopAsWritten | library/private/tld_unpack.c:169-242 | the loop with its 8-bit index |
| TldUnpackFindings.WrappedIndexNeverFinishes | library/private/tld_unpack.c:169-192 | with more than 255 pulses the wrapped index never reaches the count, so the loop can only end in an error |
| TldUnpackFindings.PulsesLoopAsWrittenBelowWrap | library/private/tld_unpack.c:169-192 | up to 255 pulses the loop as written is the corrected loop |
| TldUnpackFindings.PulseIndexWrapLosesRaster | library/private/tld_unpack.c:169-192 | a packed raster of more than 255 pulses fails as written but unpacks when corrected |
| TldUnpackFindings.PulsesAsWrittenFails | library/private/tld_unpack.c:169-192 | above 255 pulses the code as written fails on every buffer |
| TldUnpackFindings.RxLoopAsWritten | library/private/tld_unpack.c:152-156 | the channel loop without the four-slot cap overruns only at slot index 4 or beyond |
| TldUnpackFindings.RxLoopAsWrittenWithinSlots | library/private/tld_unpack.c:152-156 | within four channels the loop as written is the capped loop |
| TldUnpackFindings.WaveformsAsWrittenWithinSlots | library/private/tld_unpack.c:118-159 | for rx_count ≤ 4 the waveforms as written are the corrected ones |
| TldUnpackFindings.RxLoopOverruns | library/private/tld_unpack.c:152-156 | when the data holds four channels and rx_count exceeds four, the loop reaches slot 4, which does not exist |
| TldUnpackFindings.RxCountFiveOverruns | library/private/tld_unpack.c:152-156 | a concrete pulse with rx_count 5 overruns |
| TldUnpackFindings.WaveformsCapped | library/private/tld_unpack.c:118-159 | the corrected unpacker reads four channels for any rx_count above four |
| TldUnpackFindings.RxLoopIgnoresCount | library/private/tld_unpack.c:152-156 | the channel loop never reads rx_count itself |
| TldRoundTrip.RxChannelRoundTrip | library/private/tld_unpack.c:86-116 | a packed receive channel reads back into its slot |
| TldRoundTrip.TxRoundTrip | library/private/tld_unpack.c:53-82 | a packed tx waveform reads back |
| TldRoundTrip.WaveformsRoundTrip | library/private/tld_unpack.c:118-159 | a packed waveform section reads back into a pulse with NULL slots |
| TldRoundTrip.RxRoundTrip | library/private/tld_unpack.c:152-156 | all packed receive channels read back |
| TldRoundTrip.PulseRoundTrip | library/private/tld_unpack.c:192-242 | a packed pulse followed by anything unpacks to the pulse as stored |
| TldRoundTrip.LoopWithPulses | library/private/tld_unpack.c:192-242 | the pulse loop is a loop over its own body |
| TldRoundTrip.LoopWithAllChunks | library/private/tld_unpack.c:192-242 | over chunks that each read back, the loop fills in exactly those pulses |
| TldRoundTrip.UnpackPacked | library/private/tld_unpack.c:247-284 | unpacking a packed raster gives the raster as stored and uses one allocation per non-empty waveform plus the array |
| TldRoundTrip.UnpackPackedPulses | library/private/tld_unpack.c:161-245 | the packed pulses unpack to the pulses as stored |
| TldRoundTrip.PulsesBytesUnpack | library/private/tld_unpack.c:161-245 | packed pulses unpack after the array's allocation |
| TldRoundTrip.UnpackPackedHeader | library/private/tld_unpack.c:247-284 | without pulses a packed raster unpacks to its header fields and allocates nothing |
| TldIo.SkipPos | library/private/tld_read.c:88-92 | a forward skip either moves the cursor by the offset or leaves it |
| TldIo.ReadRecordOutcome | library/private/tld_read.c:13-101 | success implies a record length of at least 4; a non-raster record leaves the pulses NULL |
| TldIo.HeaderedOutcome | library/private/tld_read.c:63-101 | after the record header: corrupt lengths, skipping non-rasters, then the payload |
| TldIo.PayloadOutcome | library/private/tld_read.c:77-101 | the payload is read whole, or only its 14-byte header when pulses are not asked for and the rest is skipped |
| TldIo.FilledOutcome | library/private/tld_read.c:84-100 | read, skip, unpack, release: the cursor ends past the record on success |
| TldIo.RecordBytes | library/private/tld_write.c:41-54 | a record is its 4-byte header, then the packed raster |
| TldIo.WriteRasterOutcome | library/private/tld_write.c:37-60 | `eaarlio_tld_write_raster` succeeds exactly when pack, encode and both writes do; the file then holds the record at the cursor; a failed buffer allocation is reported as ALLOC_FAIL, the corrected error (see Findings) |
| TldIo.HeaderOnlyUnpack | library/private/tld_unpack.c:247-284 | without pulses only the raster header matters to unpack |
| TldIo.WriteThenRead | library/private/tld_read.c:13-101 | a written raster record reads back, pulses and waveforms included, as the raster as stored |
| TldIo.WriteThenReadHeader | library/private/tld_read.c:13-101 | without pulses a written record reads back as its header fields, with the cursor past the record |
| TldIo.ReadRecord | library/private/tld_read.c:13-101 | an invalid stream or handler is refused with a reset raster; otherwise `ReadRecordOutcome` |
| TldIo.ReadValidRecord | library/private/tld_read.c:34-101 | on a valid stream and handler the method ends in `ReadRecordOutcome` |
| TldIo.ReadRaster | library/private/tld_read.c:103-121 | a record of another type is TYPE_UNKNOWN; an invalid stream or handler is refused with the raster reset and the cursor, budget and releases unchanged |
| TldIo.WriteRaster | library/private/tld_write.c:13-61 | an invalid stream or handler is refused; otherwise `WriteRasterOutcome`, with the buffer freed |
| TldIo.PackAndWrite | library/private/tld_write.c:37-58 | pack, write, free |
| TldIo.RecordOfPacked | library/private/tld_write.c:41-45 | the record written is the header for the packed length, then the packed bytes |
| TldIo.RecordLength | library/private/tld_write.c:42 | payload length + 4 in 32-bit arithmetic |
| TldIo.WriteRecord | library/private/tld_write.c:41-54 | the record header and payload are written back to back, or the first failure leaves the file alone |
| Ownership.PulseFree | library/private/pulse.c:4-31 | an invalid handler is refused; otherwise every non-NULL waveform is released and NULLed |
| Ownership.PulseFreeIdempotent | library/private/pulse.c:18-28 | a freed pulse holds nothing, and freeing it again changes nothing |
| Ownership.RasterFree | library/private/raster.c:5-33 | an invalid handler is refused; a NULL array is success; otherwise every pulse is freed, then the array |
| Ownership.FreeReleasesUnpacked | library/private/raster.c:20-30 | freeing an unpacked raster releases exactly what unpack allocated |
| Ownership.StoredPulsesHeld | library/private/pulse.c:18-28 | the pulses as stored hold one block per non-empty waveform |
| Flights.TldOpener.constructor | library/public/eaarlio/tld_opener.h:36-79 | an opener over a fixed map from names to file contents |
| Flights.TldOpener.OpenTld | library/public/eaarlio/tld_opener.h:36-79 | NULL is refused, an unknown name is STREAM_OPEN_ERROR, and a known one gives a fresh valid stream over its file |
| Flights.TldOpener.Close | library/public/eaarlio/tld_opener.h:36-79 | on success the opener is left without operations |
| Flights.FlightState.constructor | library/private/flight.c:9-16 | the internal state starts with an empty stream and file index 0 |
| Flights.Flight.constructor | library/public/eaarlio/flight.h:37-63 | a flight with an EDB and an opener, not yet initialised |
| Flights.Admission | library/private/flight.c:98-122 | the checks before the file switch, in the code's order, with the corrected check that also refuses raster number 0 |
| Flights.RasterZeroRefused | library/private/flight.c:116-122 | the corrected check refuses raster number 0 |
| Flights.RecordSlotAsWritten | library/private/flight.c:116-118 | `raster_number - 1` in 32-bit unsigned arithmetic |
| Flights.RasterZeroOverruns | library/private/flight.c:116-122 | as written, 0 passes the check and the slot read lies past every record |
| Flights.TimeOffset | library/private/flight.c:151-153 | the 32-bit difference reinterpreted as signed; exact when it fits |
| Flights.TimeOffsetSamples | library/tests/test_file_flight.c:150-164 | offsets -3 and 2 as in the flight tests, plus two wraps |
| Flights.SwitchTo | library/private/flight.c:124-140 | the file switch: reuse, close-then-open, with each failure's error and file index |
| Flights.SwitchAgainReuses | library/private/flight.c:124-140 | asking for the open file again opens and closes nothing |
| Flights.FailedOpenClears | library/private/flight.c:134-140 | a failed open leaves no file open |
| Flights.RecordOf | library/private/flight.c:116-122 | an admitted number's record names one of the EDB's files |
| Flights.Init | library/private/flight.c:18-45 | NULL, a second init and an invalid handler are refused; otherwise the internal state is allocated |
| Flights.SwitchFile | library/private/flight.c:124-140 | the method ends in `SwitchTo`'s state |
| Flights.ReadRaster | library/private/flight.c:81-156 | a refused request gives an empty raster and offset 0, and raster number 0 is refused by the corrected check; an admitted one switches files, seeks, reads and computes the offset; the flight's invariant is kept |
| Flights.ReadAdmitted | library/private/flight.c:124-153 | the switch, the seek and the read after the checks |
| Flights.SwitchRecordFile | library/private/flight.c:124-140 | the switch for an admitted number keeps the invariant |
| Flights.ReadAt | library/private/flight.c:142-153 | the seek to the record's offset and the read |
| Flights.CloseError | library/private/flight.c:59-69 | the closes succeed exactly when neither present close fails, and a stream close failure is reported first |
| Flights.FreeError | library/private/flight.c:47-79 | the first failing step of the free: stream close, opener close, EDB free |
| Flights.Free | library/private/flight.c:47-79 | NULL and an uninitialised flight are refused, and nothing changes. Otherwise the steps run in order: stream close, opener close, EDB free, release of the internal state. The first failure stops them and leaves the state set. After a success the EDB is `Freed`, and its blocks plus the state have been released |
| Flights.CloseBoth | library/private/flight.c:52-65 | the stream, then the opener, each only when it has a close |
| Flights.Release | library/private/flight.c:52-78 | the free once the internal state is set |
| Precheck.Kept | programs/eaarlio_yaml.c:221-256 | the kept numbers are never more than those asked, and each is addressable |
| Precheck.KeptAppend | programs/eaarlio_yaml.c:221-256 | filtering keeps relative order: the filter of a concatenation is the concatenation of the filters |
| Precheck.KeptCounts | programs/eaarlio_yaml.c:221-256 | each usable number is kept as often as asked, and an unusable one never is |
| Precheck.KeptIdempotent | programs/eaarlio_yaml.c:221-256 | filtering twice keeps what filtering once kept |
| Precheck.KeptAdmitted | programs/eaarlio_yaml.c:224-251 | every kept number passes the checks of `eaarlio_flight_read_raster` |
| Precheck.PrecheckRasters | programs/eaarlio_yaml.c:201-260 | compacts in place: the front holds `Kept` of the requested numbers, the rest is unchanged, and a negative count keeps nothing |

## Left out

- A NULL memory handler means the standard library's allocator. The model always passes an
  explicit handler. `memory_stdlib.c` is not part of this model.
- NULL struct pointers are modelled where a member's contract states them (buffers, waveforms,
  EDB and flight arguments, the stream of `eaarlio_edb_read`). A NULL pulse, raster, stream or
  record header argument to the TLD functions is not modelled.
- The file-backed stream (`file_stream.c`), `eaarlio_fopenb` and the file-backed TLD opener
  (`file_tld_opener.c`, with its path joining) are not part of this model. The opener is a fixed
  map from names to file contents.
- A NULL `time_offset` pointer to `eaarlio_flight_read_raster` is not modelled. The offset is
  always computed.
- The unit conversions of `units.c` are floating point and are not part of this model.
- The command-line programs are not part of this model, except for `precheck_rasters`. Its
  warnings on standard error are not modelled.
- The diagnostic output of `eaarlio_error_check` is not modelled. Only its return value is.
- Memory leaked on an error path is not modelled. Two examples are the scratch buffer when the
  seek of `eaarlio_edb_read_filenames` fails, and the old buffer when the reallocation of
  `eaarlio_tld_read_record` fails. The handler counts releases but not outstanding blocks.
- `SEEK_END` moves to the end of the file plus the offset. The mock stream of the tests refuses
  it, and the library only uses `SEEK_SET` and `SEEK_CUR`.
- TldPack.PackRaster: requires rx_count ≤ 4 for every pulse, the limit `pulse.h` documents. The
  packer as written reads `rx[4]` and beyond for larger counts.
- TldPack.PackRaster: reports a failed buffer allocation as ALLOC_FAIL, the corrected error (see
  Findings); the code as written returns NULL, which is `TldPack.PackErrorAsWritten`. The same
  holds for `TldIo.WriteRasterOutcome` and `TldIo.WriteRaster`, which pack through it.
- TldUnpack.UnpackWaveforms: caps the receive loop at four channels, the corrected loop (see
  Findings); the code as written runs to the decoded rx_count, which is
  `TldUnpackFindings.RxLoopAsWritten`. The cap carries over to `TldUnpack.WaveformsOutcome`,
  `TldUnpack.UnpackRaster`, `TldIo.ReadRecordOutcome` and `Flights.ReadRaster`.
- Flights.Admission: refuses raster number 0, the corrected check (see Findings); the code as
  written lets it through, which is `Flights.RasterZeroOverruns`. The refusal carries over to
  `Flights.ReadRaster`.
- EdbLaws.FreeAfterRead: after a failed read it states only that the EDB can be freed. In C the
  EDB then holds the names read so far, and the scratch buffer leaks on the seek and
  reallocation failures of `eaarlio_edb_read_filenames`; the model does not relate what a failed
  read leaves to the blocks it reserved.
- A NULL slot in the name table given to `eaarlio_edb_write_filenames` is not modelled: the code
  passes it to `eaarlio_strnlen`, whose `memchr` on NULL is undefined. The writer methods
  require every slot to hold a name.
- EdbFile.Filled: the records after the one whose read failed are zeroed; C leaves them as
  `malloc` returned them, uninitialised.
- A stream's failure flags are fixed when it is made, so a stream that succeeds and then fails
  is not modelled. One state this leaves out is a partial record: the header of
  `eaarlio_tld_write_raster` written and its payload write failing.
- Streams.Stream.Read: a failing read delivers no bytes, although a real stream may deliver part
  of them.
- EdbRead.ReadFilenames: models the corrected scratch growth (see Findings). The as-written
  growth is modelled only as `EdbRead.GrownAsWritten`.
- TldUnpack.UnpackPulses: models the corrected full-width pulse index (see Findings). The code as
  written is `TldUnpackFindings.PulsesLoopAsWritten`. The index carries over to
  `TldUnpack.PulsesLoopOutcome`, `TldUnpack.PulsesOutcome`, `TldUnpack.UnpackPulseArray`,
  `TldUnpack.RasterOutcome`, `TldUnpack.UnpackRaster`, `TldIo.ReadRecordOutcome` and
  `Flights.ReadRaster`.

## Findings

| source | as written | input that shows it | evidently intended | confidence | as-written member | corrected member |
|---|---|---|---|---|---|---|
| library/private/edb_encode.c:86-87 | names up to `1 << 16` bytes are accepted, but the length prefix is 16 bits | a 65536-byte name is written with prefix 0 and reads back as the empty string | refuse names longer than 65535 | high (not executed) | EdbLaws.LongestNameLost | EdbCodec.FilenameLengthPrefixExact |
| library/private/edb_read.c:126-134 | the scratch buffer grows only while `buf_len < length - 1` | a 33-byte name keeps the 32-byte buffer, and the read writes 33 bytes into it | grow while `buf_len < length` | high (not executed) | EdbRead.ScratchOverrunAsWritten | EdbRead.GrowScratch |
| library/private/tld_pack.c:50-52 | after the `calloc`, the NULL test looks at the output pointer, not at the new buffer | an allocation failure returns NULL instead of ALLOC_FAIL | test the new buffer and return ALLOC_FAIL | high (not executed) | TldPack.AllocationFailureMisreported | TldPack.PackRaster |
| library/private/tld_unpack.c:169-192 | the pulse index is `uint8_t` and pulse_count is 16 bits | a raster of 256 or more pulses never completes the loop and fails | a 16-bit index | high (not executed) | TldUnpackFindings.PulseIndexWrapLosesRaster | TldRoundTrip.UnpackPacked |
| library/private/tld_unpack.c:152-156 | the receive loop runs to the decoded rx_count, uncapped | rx_count 5 reaches `rx[4]`, past the four slots | cap at `EAARLIO_MAX_RX_COUNT`, as the size calculator does | high (not executed) | TldUnpackFindings.RxCountFiveOverruns | TldUnpack.UnpackWaveforms |
| library/private/flight.c:116-122 | only numbers above record_count are refused | raster number 0 reads `records[0 - 1]` | refuse numbers below 1 | high (not executed) | Flights.RasterZeroOverruns | Flights.Admission |
