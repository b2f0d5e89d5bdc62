/** The library's error codes (`eaarlio_error`) and the functions that describe them. */
module Errors {

  /** One constructor per enumerator, in declaration order. */
  datatype Error =
    | Success
    | Null
    | BufferShort
    | ValueOutOfRange
    | Corrupt
    | StringUnterminated
    | FlightInvalid
    | FlightRasterInvalid
    | EdbFilenameTooLong
    | TldTypeUnknown
    | TldOpenerInvalid
    | MemoryInvalid
    | MemoryAllocFail
    | StreamInvalid
    | StreamNotImpl
    | StreamOpenError
    | StreamCloseError
    | StreamReadError
    | StreamReadShort
    | StreamWriteError
    | StreamWriteShort
    | StreamSeekError
    | StreamSeekInvalid
    | StreamTellError
    | ErrorUnknown

  /** The integer value of each enumerator (SUCCESS is 0, ERROR_UNKNOWN is 24). */
  function Code(e: Error): (c: int)
    ensures 0 <= c <= 24
    ensures c == 0 <==> e == Success
    ensures c == 24 <==> e == ErrorUnknown
  {
    match e
    case Success => 0
    case Null => 1
    case BufferShort => 2
    case ValueOutOfRange => 3
    case Corrupt => 4
    case StringUnterminated => 5
    case FlightInvalid => 6
    case FlightRasterInvalid => 7
    case EdbFilenameTooLong => 8
    case TldTypeUnknown => 9
    case TldOpenerInvalid => 10
    case MemoryInvalid => 11
    case MemoryAllocFail => 12
    case StreamInvalid => 13
    case StreamNotImpl => 14
    case StreamOpenError => 15
    case StreamCloseError => 16
    case StreamReadError => 17
    case StreamReadShort => 18
    case StreamWriteError => 19
    case StreamWriteShort => 20
    case StreamSeekError => 21
    case StreamSeekInvalid => 22
    case StreamTellError => 23
    case ErrorUnknown => 24
  }

  /** An arbitrary integer seen as an `eaarlio_error`; anything outside the enum is ERROR_UNKNOWN. */
  function FromCode(c: int): (e: Error)
    ensures 0 <= c <= 24 ==> Code(e) == c
    ensures (c < 0 || 24 < c) ==> e == ErrorUnknown
  {
    if c == 0 then Success
    else if c == 1 then Null
    else if c == 2 then BufferShort
    else if c == 3 then ValueOutOfRange
    else if c == 4 then Corrupt
    else if c == 5 then StringUnterminated
    else if c == 6 then FlightInvalid
    else if c == 7 then FlightRasterInvalid
    else if c == 8 then EdbFilenameTooLong
    else if c == 9 then TldTypeUnknown
    else if c == 10 then TldOpenerInvalid
    else if c == 11 then MemoryInvalid
    else if c == 12 then MemoryAllocFail
    else if c == 13 then StreamInvalid
    else if c == 14 then StreamNotImpl
    else if c == 15 then StreamOpenError
    else if c == 16 then StreamCloseError
    else if c == 17 then StreamReadError
    else if c == 18 then StreamReadShort
    else if c == 19 then StreamWriteError
    else if c == 20 then StreamWriteShort
    else if c == 21 then StreamSeekError
    else if c == 22 then StreamSeekInvalid
    else if c == 23 then StreamTellError
    else ErrorUnknown
  }

  /** The symbolic name of an error: the enumerator's own identifier, or "(unknown)". */
  function Name(e: Error): (s: string)
    ensures s == "(unknown)" <==> e == ErrorUnknown
  {
    match e
    case Success => "EAARLIO_SUCCESS"
    case Null => "EAARLIO_NULL"
    case BufferShort => "EAARLIO_BUFFER_SHORT"
    case ValueOutOfRange => "EAARLIO_VALUE_OUT_OF_RANGE"
    case Corrupt => "EAARLIO_CORRUPT"
    case StringUnterminated => "EAARLIO_STRING_UNTERMINATED"
    case FlightInvalid => "EAARLIO_FLIGHT_INVALID"
    case FlightRasterInvalid => "EAARLIO_FLIGHT_RASTER_INVALID"
    case EdbFilenameTooLong => "EAARLIO_EDB_FILENAME_TOO_LONG"
    case TldTypeUnknown => "EAARLIO_TLD_TYPE_UNKNOWN"
    case TldOpenerInvalid => "EAARLIO_TLD_OPENER_INVALID"
    case MemoryInvalid => "EAARLIO_MEMORY_INVALID"
    case MemoryAllocFail => "EAARLIO_MEMORY_ALLOC_FAIL"
    case StreamInvalid => "EAARLIO_STREAM_INVALID"
    case StreamNotImpl => "EAARLIO_STREAM_NOT_IMPL"
    case StreamOpenError => "EAARLIO_STREAM_OPEN_ERROR"
    case StreamCloseError => "EAARLIO_STREAM_CLOSE_ERROR"
    case StreamReadError => "EAARLIO_STREAM_READ_ERROR"
    case StreamReadShort => "EAARLIO_STREAM_READ_SHORT"
    case StreamWriteError => "EAARLIO_STREAM_WRITE_ERROR"
    case StreamWriteShort => "EAARLIO_STREAM_WRITE_SHORT"
    case StreamSeekError => "EAARLIO_STREAM_SEEK_ERROR"
    case StreamSeekInvalid => "EAARLIO_STREAM_SEEK_INVALID"
    case StreamTellError => "EAARLIO_STREAM_TELL_ERROR"
    case ErrorUnknown => "(unknown)"
  }

  /** The name of an arbitrary integer code, as `eaarlio_error_name` sees it. */
  function NameOfCode(c: int): (s: string)
    ensures (c < 0 || 24 <= c) <==> s == "(unknown)"
  {
    Name(FromCode(c))
  }

  /** Every named error's name carries the library's `EAARLIO_` prefix. */
  lemma NamePrefix(e: Error)
    requires e != ErrorUnknown
    ensures |Name(e)| > 8 && Name(e)[..8] == "EAARLIO_"
  {
  }

  /** A human-readable description of an error. */
  function Message(e: Error): (s: string)
  {
    match e
    case Success => "Success (no error was encountered)"
    case Null => "An unexpected null pointer was encountered"
    case BufferShort => "A buffer's allocated size was too small"
    case ValueOutOfRange => "A value was encountered that was out of range for its type"
    case Corrupt => "Unable to complete an operation due to suspected corrupted data"
    case StringUnterminated => "Encountered a string that appeared unterminated"
    case FlightInvalid => "Invalid flight configuration"
    case FlightRasterInvalid => "An invalid raster number was specified"
    case EdbFilenameTooLong => "Encountered a filename whose length exceeds what EDB supports"
    case TldTypeUnknown => "Encountered an unknown TLD record type"
    case TldOpenerInvalid => "Invalid TLD opener"
    case MemoryInvalid => "Invalid memory handler"
    case MemoryAllocFail => "Unable to allocate memory"
    case StreamInvalid => "Invalid stream configuration"
    case StreamNotImpl => "Attempted to use a stream operation that was not implemented"
    case StreamOpenError => "Unable to open file"
    case StreamCloseError => "Unable to close file"
    case StreamReadError => "Attempt to read failed"
    case StreamReadShort => "Fewer bytes read than expected"
    case StreamWriteError => "Attempt to write failed"
    case StreamWriteShort => "Fewer bytes written than expected"
    case StreamSeekError => "Unable to seek to position in file"
    case StreamSeekInvalid => "Request to seek used invalid whence"
    case StreamTellError => "Unable to tell position in file"
    case ErrorUnknown => "Unknown error"
  }

  /** The message of an arbitrary integer code, as `eaarlio_error_message` sees it. */
  function MessageOfCode(c: int): (s: string)
    ensures (c < 0 || 24 <= c) <==> s == "Unknown error"
  {
    Message(FromCode(c))
  }

  /** The exit status `eaarlio_error_check` returns (its diagnostic output is not modelled). */
  function Check(e: Error): (r: int)
    ensures r == 0 || r == 1
    ensures r == 0 <==> e == Success
  {
    if e != Success then 1 else 0
  }
}
