/**
 * Field codecs of TLD records (tld_encode.c, tld_decode.c, tld_constants.h).
 *
 * Every encoder checks, in this order: NULL pointers, then a short buffer, then values
 * out of range; it writes only after every check has passed.  Every decoder leaves its
 * output as it was on failure.
 */
module TldCodec {
  import opened Bytes
  import opened Errors
  import opened IntCodec
  import opened TldTypes

  const RECORD_HEADER_SIZE: nat := 4
  const RASTER_HEADER_SIZE: nat := 14
  const PULSE_HEADER_SIZE: nat := 13
  const WF_DATA_LENGTH_SIZE: nat := 2
  const TX_LENGTH_SIZE: nat := 1
  const RX_LENGTH_SIZE: nat := 2

  // Range checks -------------------------------------------------------------

  predicate RecordHeaderInRange(h: TldHeader)
  {
    h.recordLength <= UINT24_MAX
  }

  /** pulse_count must fit 15 bits and digitizer one bit. */
  predicate RasterHeaderInRange(r: Raster)
  {
    r.pulseCount <= 0x7FFF && r.digitizer <= 1
  }

  /** range must fit 14 bits, each threshold flag one bit. */
  predicate PulseHeaderInRange(p: Pulse)
  {
    p.range <= 0x3FFF && p.threshTx <= 1 && p.threshRx <= 1
  }

  // Bit-packed words -----------------------------------------------------------

  /** `(pulse_count & 0x7fff) | (digitizer & 1) << 15` */
  function RasterWord(pulseCount: U16, digitizer: Byte): U16
  {
    pulseCount % 0x8000 + digitizer % 2 * 0x8000
  }

  /** `(range & 0x3fff) | (thresh_tx & 1) << 14 | (thresh_rx & 1) << 15` */
  function PulseWord(range: U16, threshTx: Byte, threshRx: Byte): U16
  {
    range % 0x4000 + threshTx % 2 * 0x4000 + threshRx % 2 * 0x8000
  }

  /** For in-range fields the masks drop nothing, and unpacking the word gives the fields back. */
  lemma RasterWordFields(pulseCount: U16, digitizer: Byte)
    requires pulseCount <= 0x7FFF && digitizer <= 1
    ensures RasterWord(pulseCount, digitizer) % 0x8000 == pulseCount
    ensures RasterWord(pulseCount, digitizer) / 0x8000 % 2 == digitizer
  {
  }

  lemma PulseWordFields(range: U16, threshTx: Byte, threshRx: Byte)
    requires range <= 0x3FFF && threshTx <= 1 && threshRx <= 1
    ensures PulseWord(range, threshTx, threshRx) % 0x4000 == range
    ensures PulseWord(range, threshTx, threshRx) / 0x4000 % 2 == threshTx
    ensures PulseWord(range, threshTx, threshRx) / 0x8000 % 2 == threshRx
  {
  }

  /** Every 16-bit word is the pulse word of its own range and threshold bits. */
  lemma PulseWordSplit(w: U16)
    ensures PulseWord(w % 0x4000, w / 0x4000 % 2, w / 0x8000 % 2) == w
  {
    if w < 0x4000 {
      assert w / 0x4000 == 0 && w / 0x8000 == 0;
    } else if w < 0x8000 {
      assert w / 0x4000 == 1 && w / 0x8000 == 0 && w % 0x4000 == w - 0x4000;
    } else if w < 0xC000 {
      assert w / 0x4000 == 2 && w / 0x8000 == 1 && w % 0x4000 == w - 0x8000;
    } else {
      assert w / 0x4000 == 3 && w / 0x8000 == 1 && w % 0x4000 == w - 0xC000;
    }
  }

  // Byte layouts -----------------------------------------------------------------

  /** A 24-bit record length followed by the record type. */
  function RecordHeaderBytes(h: TldHeader): (b: seq<Byte>)
    ensures |b| == RECORD_HEADER_SIZE
  {
    Uint24Bytes(h.recordLength) + [h.recordType]
  }

  function RecordHeaderOf(b: seq<Byte>): (h: TldHeader)
    requires |b| >= RECORD_HEADER_SIZE
    ensures RecordHeaderInRange(h)
  {
    TldHeader(DecodeUint24(b), DecodeUint8(b[3..]))
  }

  /** Three 32-bit words, then the packed pulse-count/digitizer word. */
  function RasterHeaderBytes(r: Raster): (b: seq<Byte>)
    ensures |b| == RASTER_HEADER_SIZE
  {
    Uint32Bytes(r.timeSeconds) + Uint32Bytes(r.timeFraction) + Uint32Bytes(r.sequenceNumber)
      + Uint16Bytes(RasterWord(r.pulseCount, r.digitizer))
  }

  /** The raster after its five header fields are read from `b`; the pulse array is kept. */
  function RasterHeaderOf(b: seq<Byte>, r: Raster): (r': Raster)
    requires |b| >= RASTER_HEADER_SIZE
    ensures RasterHeaderInRange(r') && r'.pulse == r.pulse
  {
    var w := DecodeUint16(b[12..]);
    r.(timeSeconds := DecodeUint32(b), timeFraction := DecodeUint32(b[4..]),
      sequenceNumber := DecodeUint32(b[8..]), pulseCount := w % 0x8000, digitizer := w / 0x8000 % 2)
  }

  /** time_offset (24 bits), rx_count, bias_tx, bias_rx[0..4], scan_angle_counts, then the packed range/threshold word. */
  function PulseHeaderBytes(p: Pulse): (b: seq<Byte>)
    ensures |b| == PULSE_HEADER_SIZE
  {
    Uint24Bytes(p.timeOffset) + [p.rxCount, p.biasTx] + p.biasRx + Int16Bytes(p.scanAngleCounts)
      + Uint16Bytes(PulseWord(p.range, p.threshTx, p.threshRx))
  }

  /** The pulse after its header fields are read from `b`; lengths and waveforms are kept. */
  function PulseHeaderOf(b: seq<Byte>, p: Pulse): (p': Pulse)
    requires |b| >= PULSE_HEADER_SIZE
    ensures PulseHeaderInRange(p') && p'.timeOffset <= UINT24_MAX
    ensures p'.txLen == p.txLen && p'.rxLen == p.rxLen && p'.tx == p.tx && p'.rx == p.rx
  {
    var w := DecodeUint16(b[11..]);
    p.(timeOffset := DecodeUint24(b), rxCount := DecodeUint8(b[3..]), biasTx := DecodeUint8(b[4..]),
      biasRx := b[5..9], scanAngleCounts := DecodeInt16(b[9..]),
      range := w % 0x4000, threshTx := w / 0x4000 % 2, threshRx := w / 0x8000 % 2)
  }

  // Round trips ----------------------------------------------------------------

  lemma RecordHeaderRoundTrip(h: TldHeader)
    requires RecordHeaderInRange(h)
    ensures RecordHeaderOf(RecordHeaderBytes(h)) == h
  {
    Uint24RoundTrip(h.recordLength);
  }

  lemma RecordHeaderBytesRoundTrip(b: seq<Byte>)
    requires |b| == RECORD_HEADER_SIZE
    ensures RecordHeaderBytes(RecordHeaderOf(b)) == b
  {
    Uint24BytesRoundTrip(b);
    assert b == b[..3] + [b[3]];
  }

  lemma RasterHeaderRoundTrip(r: Raster)
    requires RasterHeaderInRange(r)
    ensures RasterHeaderOf(RasterHeaderBytes(r), r) == r
  {
    var b := RasterHeaderBytes(r);
    assert b[4..][..4] == Uint32Bytes(r.timeFraction);
    assert b[8..][..4] == Uint32Bytes(r.sequenceNumber);
    assert b[12..][..2] == Uint16Bytes(RasterWord(r.pulseCount, r.digitizer));
    Uint32RoundTrip(r.timeSeconds);
    Uint32RoundTrip(r.timeFraction);
    Uint32RoundTrip(r.sequenceNumber);
    Uint16RoundTrip(RasterWord(r.pulseCount, r.digitizer));
    RasterWordFields(r.pulseCount, r.digitizer);
  }

  lemma RasterHeaderBytesRoundTrip(b: seq<Byte>, r: Raster)
    requires |b| == RASTER_HEADER_SIZE
    ensures RasterHeaderBytes(RasterHeaderOf(b, r)) == b
  {
    var w := DecodeUint16(b[12..]);
    assert RasterWord(w % 0x8000, w / 0x8000 % 2) == w;
    Uint32BytesRoundTrip(b);
    Uint32BytesRoundTrip(b[4..]);
    Uint32BytesRoundTrip(b[8..]);
    Uint16BytesRoundTrip(b[12..]);
    assert b == b[..4] + b[4..][..4] + b[8..][..4] + b[12..][..2];
  }

  /** Where each field of a pulse header lies in its bytes. */
  lemma PulseHeaderLayout(p: Pulse)
    requires PulseHeaderInRange(p)
    ensures var b := PulseHeaderBytes(p);
      b[..3] == Uint24Bytes(p.timeOffset) && b[3] == p.rxCount && b[4] == p.biasTx && b[5..9] == p.biasRx
      && b[9..][..2] == Int16Bytes(p.scanAngleCounts)
      && b[11..][..2] == Uint16Bytes(PulseWord(p.range, p.threshTx, p.threshRx))
  {
    var b := PulseHeaderBytes(p);
    assert b[..3] == Uint24Bytes(p.timeOffset);
    forall k | 0 <= k < 4
      ensures b[5..9][k] == p.biasRx[k]
    {
      assert b[5..9][k] == b[5 + k];
    }
    assert b[9..][..2] == Int16Bytes(p.scanAngleCounts);
  }

  /** An in-range pulse header reads back as written, except that time_offset keeps only its low 24 bits. */
  lemma PulseHeaderRoundTrip(p: Pulse)
    requires PulseHeaderInRange(p)
    ensures PulseHeaderOf(PulseHeaderBytes(p), p) == p.(timeOffset := p.timeOffset % 0x100_0000)
  {
    PulseHeaderLayout(p);
    Uint24Truncates(p.timeOffset);
    Int16RoundTrip(p.scanAngleCounts);
    Uint16RoundTrip(PulseWord(p.range, p.threshTx, p.threshRx));
    PulseWordFields(p.range, p.threshTx, p.threshRx);
  }

  lemma PulseHeaderBytesRoundTrip(b: seq<Byte>, p: Pulse)
    requires |b| == PULSE_HEADER_SIZE
    ensures PulseHeaderBytes(PulseHeaderOf(b, p)) == b
  {
    PulseWordSplit(DecodeUint16(b[11..]));
    Uint24BytesRoundTrip(b);
    Int16BytesRoundTrip(b[9..]);
    Uint16BytesRoundTrip(b[11..]);
    assert b == b[..3] + [b[3], b[4]] + b[5..9] + b[9..][..2] + b[11..][..2];
  }

  /** Known trailing words of a raster header: 02 00, 00 80 and FF 7F. */
  lemma RasterWordVectors(r: Raster)
    ensures var b := [0, 0, 0, 0, 0, 0, 0, 0, 0, 0, 0, 0, 0x02, 0x00];
      RasterHeaderOf(b, r).pulseCount == 2 && RasterHeaderOf(b, r).digitizer == 0
    ensures var b := [0, 0, 0, 0, 0, 0, 0, 0, 0, 0, 0, 0, 0x00, 0x80];
      RasterHeaderOf(b, r).pulseCount == 0 && RasterHeaderOf(b, r).digitizer == 1
    ensures var b := [0, 0, 0, 0, 0, 0, 0, 0, 0, 0, 0, 0, 0xFF, 0x7F];
      RasterHeaderOf(b, r).pulseCount == 32767 && RasterHeaderOf(b, r).digitizer == 0
  {
  }

  // Encoders ---------------------------------------------------------------------

  /** `eaarlio_tld_encode_record_header` */
  method EncodeRecordHeader(buffer: array?<Byte>, at: nat, bufferLen: nat, header: TldHeader) returns (err: Error)
    requires buffer != null ==> at + bufferLen <= buffer.Length
    modifies buffer
    ensures err == if buffer == null then Null
      else if bufferLen < RECORD_HEADER_SIZE then BufferShort
      else if !RecordHeaderInRange(header) then ValueOutOfRange
      else Success
    ensures err == Success ==> buffer[..] == old(buffer[..at]) + RecordHeaderBytes(header) + old(buffer[at + RECORD_HEADER_SIZE..])
    ensures err != Success && buffer != null ==> buffer[..] == old(buffer[..])
  {
    if buffer == null {
      return Null;
    }
    if bufferLen < RECORD_HEADER_SIZE {
      return BufferShort;
    }
    if header.recordLength > UINT24_MAX {
      return ValueOutOfRange;
    }
    ghost var s0 := buffer[..];
    EncodeUint24(buffer, at, header.recordLength);
    ghost var s1 := buffer[..];
    EncodeUint8(buffer, at + 3, header.recordType);
    Splice(s0, s1, buffer[..], at, Uint24Bytes(header.recordLength), [header.recordType]);
    err := Success;
  }

  /** `eaarlio_tld_encode_raster_header` */
  method EncodeRasterHeader(buffer: array?<Byte>, at: nat, bufferLen: nat, raster: Raster) returns (err: Error)
    requires buffer != null ==> at + bufferLen <= buffer.Length
    modifies buffer
    ensures err == if buffer == null then Null
      else if bufferLen < RASTER_HEADER_SIZE then BufferShort
      else if !RasterHeaderInRange(raster) then ValueOutOfRange
      else Success
    ensures err == Success ==> buffer[..] == old(buffer[..at]) + RasterHeaderBytes(raster) + old(buffer[at + RASTER_HEADER_SIZE..])
    ensures err != Success && buffer != null ==> buffer[..] == old(buffer[..])
  {
    if buffer == null {
      return Null;
    }
    if bufferLen < RASTER_HEADER_SIZE {
      return BufferShort;
    }
    if raster.pulseCount > 0x7FFF {
      return ValueOutOfRange;
    }
    if raster.digitizer > 1 {
      return ValueOutOfRange;
    }
    ghost var s0 := buffer[..];
    EncodeUint32(buffer, at, raster.timeSeconds);
    ghost var s1 := buffer[..];
    EncodeUint32(buffer, at + 4, raster.timeFraction);
    ghost var s2 := buffer[..];
    Splice(s0, s1, s2, at, Uint32Bytes(raster.timeSeconds), Uint32Bytes(raster.timeFraction));
    ghost var w := Uint32Bytes(raster.timeSeconds) + Uint32Bytes(raster.timeFraction);
    EncodeUint32(buffer, at + 8, raster.sequenceNumber);
    ghost var s3 := buffer[..];
    Splice(s0, s2, s3, at, w, Uint32Bytes(raster.sequenceNumber));
    w := w + Uint32Bytes(raster.sequenceNumber);
    var tmp := RasterWord(raster.pulseCount, raster.digitizer);
    EncodeUint16(buffer, at + 12, tmp);
    Splice(s0, s3, buffer[..], at, w, Uint16Bytes(tmp));
    err := Success;
  }

  /** `eaarlio_tld_encode_pulse_header`: time_offset is cut to 24 bits and rx_count is written as is. */
  method EncodePulseHeader(buffer: array?<Byte>, at: nat, bufferLen: nat, pulse: Pulse) returns (err: Error)
    requires buffer != null ==> at + bufferLen <= buffer.Length
    modifies buffer
    ensures err == if buffer == null then Null
      else if bufferLen < PULSE_HEADER_SIZE then BufferShort
      else if !PulseHeaderInRange(pulse) then ValueOutOfRange
      else Success
    ensures err == Success ==> buffer[..] == old(buffer[..at]) + PulseHeaderBytes(pulse) + old(buffer[at + PULSE_HEADER_SIZE..])
    ensures err != Success && buffer != null ==> buffer[..] == old(buffer[..])
  {
    if buffer == null {
      return Null;
    }
    if bufferLen < PULSE_HEADER_SIZE {
      return BufferShort;
    }
    if pulse.range > 0x3FFF {
      return ValueOutOfRange;
    }
    if pulse.threshTx > 1 {
      return ValueOutOfRange;
    }
    if pulse.threshRx > 1 {
      return ValueOutOfRange;
    }
    ghost var s0 := buffer[..];
    EncodeUint24(buffer, at, pulse.timeOffset);
    ghost var s1 := buffer[..];
    EncodeCountAndBiases(buffer, at + 3, pulse);
    ghost var s2 := buffer[..];
    Splice(s0, s1, s2, at, Uint24Bytes(pulse.timeOffset), [pulse.rxCount, pulse.biasTx] + pulse.biasRx);
    ghost var w := Uint24Bytes(pulse.timeOffset) + [pulse.rxCount, pulse.biasTx] + pulse.biasRx;
    assert w == Uint24Bytes(pulse.timeOffset) + ([pulse.rxCount, pulse.biasTx] + pulse.biasRx);
    EncodeInt16(buffer, at + 9, pulse.scanAngleCounts);
    ghost var s3 := buffer[..];
    Splice(s0, s2, s3, at, w, Int16Bytes(pulse.scanAngleCounts));
    w := w + Int16Bytes(pulse.scanAngleCounts);
    var tmp := PulseWord(pulse.range, pulse.threshTx, pulse.threshRx);
    EncodeUint16(buffer, at + 11, tmp);
    Splice(s0, s3, buffer[..], at, w, Uint16Bytes(tmp));
    err := Success;
  }

  /** The six single-byte fields of a pulse header: rx_count, bias_tx and bias_rx[0..4]. */
  method EncodeCountAndBiases(buffer: array<Byte>, at: nat, pulse: Pulse)
    requires at + 6 <= buffer.Length
    modifies buffer
    ensures buffer[..] == old(buffer[..at]) + ([pulse.rxCount, pulse.biasTx] + pulse.biasRx) + old(buffer[at + 6..])
  {
    buffer[at] := pulse.rxCount;
    buffer[at + 1] := pulse.biasTx;
    buffer[at + 2] := pulse.biasRx[0];
    buffer[at + 3] := pulse.biasRx[1];
    buffer[at + 4] := pulse.biasRx[2];
    buffer[at + 5] := pulse.biasRx[3];
    assert buffer[at..at + 6] == [pulse.rxCount, pulse.biasTx] + pulse.biasRx;
    assert buffer[..] == buffer[..at] + buffer[at..at + 6] + buffer[at + 6..];
  }

  /** `eaarlio_tld_encode_wf_data_length` */
  method EncodeWfDataLength(buffer: array?<Byte>, at: nat, bufferLen: nat, length: U16) returns (err: Error)
    requires buffer != null ==> at + bufferLen <= buffer.Length
    modifies buffer
    ensures err == if buffer == null then Null else if bufferLen < WF_DATA_LENGTH_SIZE then BufferShort else Success
    ensures err == Success ==> buffer[..] == old(buffer[..at]) + Uint16Bytes(length) + old(buffer[at + 2..])
    ensures err != Success && buffer != null ==> buffer[..] == old(buffer[..])
  {
    if buffer == null {
      return Null;
    }
    if bufferLen < WF_DATA_LENGTH_SIZE {
      return BufferShort;
    }
    EncodeUint16(buffer, at, length);
    err := Success;
  }

  /** `eaarlio_tld_encode_tx_length` */
  method EncodeTxLength(buffer: array?<Byte>, at: nat, bufferLen: nat, length: Byte) returns (err: Error)
    requires buffer != null ==> at + bufferLen <= buffer.Length
    modifies buffer
    ensures err == if buffer == null then Null else if bufferLen < TX_LENGTH_SIZE then BufferShort else Success
    ensures err == Success ==> buffer[..] == old(buffer[..at]) + [length] + old(buffer[at + 1..])
    ensures err != Success && buffer != null ==> buffer[..] == old(buffer[..])
  {
    if buffer == null {
      return Null;
    }
    if bufferLen < TX_LENGTH_SIZE {
      return BufferShort;
    }
    EncodeUint8(buffer, at, length);
    err := Success;
  }

  /** `eaarlio_tld_encode_rx_length` */
  method EncodeRxLength(buffer: array?<Byte>, at: nat, bufferLen: nat, length: U16) returns (err: Error)
    requires buffer != null ==> at + bufferLen <= buffer.Length
    modifies buffer
    ensures err == if buffer == null then Null else if bufferLen < RX_LENGTH_SIZE then BufferShort else Success
    ensures err == Success ==> buffer[..] == old(buffer[..at]) + Uint16Bytes(length) + old(buffer[at + 2..])
    ensures err != Success && buffer != null ==> buffer[..] == old(buffer[..])
  {
    if buffer == null {
      return Null;
    }
    if bufferLen < RX_LENGTH_SIZE {
      return BufferShort;
    }
    EncodeUint16(buffer, at, length);
    err := Success;
  }

  /**
   * `eaarlio_tld_encode_waveform`: a NULL waveform is refused even when its length is 0;
   * a zero length is otherwise a successful no-op.
   */
  method EncodeWaveform(buffer: array?<Byte>, at: nat, bufferLen: nat, waveform: Option<seq<Byte>>, waveformLen: U16)
    returns (err: Error)
    requires buffer != null ==> at + bufferLen <= buffer.Length
    requires waveform.Some? ==> waveformLen <= |waveform.value|
    modifies buffer
    ensures err == if buffer == null || waveform.None? then Null else if bufferLen < waveformLen then BufferShort else Success
    ensures err == Success ==> buffer[..] == old(buffer[..at]) + waveform.value[..waveformLen] + old(buffer[at + waveformLen..])
    ensures err != Success && buffer != null ==> buffer[..] == old(buffer[..])
  {
    if buffer == null || waveform.None? {
      return Null;
    }
    if bufferLen < waveformLen {
      return BufferShort;
    }
    if waveformLen == 0 {
      return Success;
    }
    forall i | 0 <= i < waveformLen {
      buffer[at + i] := waveform.value[i];
    }
    err := Success;
  }

  // Decoders ---------------------------------------------------------------------

  /** `eaarlio_tld_decode_record_header` */
  method DecodeRecordHeader(buffer: array?<Byte>, at: nat, bufferLen: nat, header: TldHeader) returns (err: Error, result: TldHeader)
    requires buffer != null ==> at + bufferLen <= buffer.Length
    ensures err == if buffer == null then Null else if bufferLen < RECORD_HEADER_SIZE then BufferShort else Success
    ensures result == if err == Success then RecordHeaderOf(buffer[at..at + RECORD_HEADER_SIZE]) else header
  {
    if buffer == null {
      return Null, header;
    }
    if bufferLen < RECORD_HEADER_SIZE {
      return BufferShort, header;
    }
    result := header.(recordLength := DecodeUint24(buffer[at..at + 3]));
    result := result.(recordType := DecodeUint8(buffer[at + 3..at + 4]));
    err := Success;
  }

  /** `eaarlio_tld_decode_raster_header`: only the five header fields change; `pulse` is left alone. */
  method DecodeRasterHeader(buffer: array?<Byte>, at: nat, bufferLen: nat, raster: Raster) returns (err: Error, result: Raster)
    requires buffer != null ==> at + bufferLen <= buffer.Length
    ensures err == if buffer == null then Null else if bufferLen < RASTER_HEADER_SIZE then BufferShort else Success
    ensures result == if err == Success then RasterHeaderOf(buffer[at..at + RASTER_HEADER_SIZE], raster) else raster
  {
    if buffer == null {
      return Null, raster;
    }
    if bufferLen < RASTER_HEADER_SIZE {
      return BufferShort, raster;
    }
    result := raster.(timeSeconds := DecodeUint32(buffer[at..at + 4]));
    result := result.(timeFraction := DecodeUint32(buffer[at + 4..at + 8]));
    result := result.(sequenceNumber := DecodeUint32(buffer[at + 8..at + 12]));
    var tmp := DecodeUint16(buffer[at + 12..at + 14]);
    result := result.(pulseCount := tmp % 0x8000, digitizer := tmp / 0x8000 % 2);
    err := Success;
  }

  /** `eaarlio_tld_decode_pulse_header`: rx_count is taken as is (up to 255); lengths and waveforms are left alone. */
  method DecodePulseHeader(buffer: array?<Byte>, at: nat, bufferLen: nat, pulse: Pulse) returns (err: Error, result: Pulse)
    requires buffer != null ==> at + bufferLen <= buffer.Length
    ensures err == if buffer == null then Null else if bufferLen < PULSE_HEADER_SIZE then BufferShort else Success
    ensures result == if err == Success then PulseHeaderOf(buffer[at..at + PULSE_HEADER_SIZE], pulse) else pulse
  {
    if buffer == null {
      return Null, pulse;
    }
    if bufferLen < PULSE_HEADER_SIZE {
      return BufferShort, pulse;
    }
    result := pulse.(timeOffset := DecodeUint24(buffer[at..at + 3]));
    result := result.(rxCount := DecodeUint8(buffer[at + 3..at + 4]));
    result := result.(biasTx := DecodeUint8(buffer[at + 4..at + 5]));
    result := result.(biasRx := buffer[at + 5..at + 9]);
    result := result.(scanAngleCounts := DecodeInt16(buffer[at + 9..at + 11]));
    var tmp := DecodeUint16(buffer[at + 11..at + 13]);
    result := result.(range := tmp % 0x4000, threshTx := tmp / 0x4000 % 2, threshRx := tmp / 0x8000 % 2);
    err := Success;
  }

  /** `eaarlio_tld_decode_wf_data_length` */
  method DecodeWfDataLength(buffer: array?<Byte>, at: nat, bufferLen: nat, length: U16) returns (err: Error, result: U16)
    requires buffer != null ==> at + bufferLen <= buffer.Length
    ensures err == if buffer == null then Null else if bufferLen < WF_DATA_LENGTH_SIZE then BufferShort else Success
    ensures result == if err == Success then DecodeUint16(buffer[at..at + 2]) else length
  {
    if buffer == null {
      return Null, length;
    }
    if bufferLen < WF_DATA_LENGTH_SIZE {
      return BufferShort, length;
    }
    return Success, DecodeUint16(buffer[at..at + 2]);
  }

  /** `eaarlio_tld_decode_tx_length` */
  method DecodeTxLength(buffer: array?<Byte>, at: nat, bufferLen: nat, length: Byte) returns (err: Error, result: Byte)
    requires buffer != null ==> at + bufferLen <= buffer.Length
    ensures err == if buffer == null then Null else if bufferLen < TX_LENGTH_SIZE then BufferShort else Success
    ensures result == if err == Success then buffer[at] else length
  {
    if buffer == null {
      return Null, length;
    }
    if bufferLen < TX_LENGTH_SIZE {
      return BufferShort, length;
    }
    return Success, DecodeUint8(buffer[at..at + 1]);
  }

  /** `eaarlio_tld_decode_rx_length` */
  method DecodeRxLength(buffer: array?<Byte>, at: nat, bufferLen: nat, length: U16) returns (err: Error, result: U16)
    requires buffer != null ==> at + bufferLen <= buffer.Length
    ensures err == if buffer == null then Null else if bufferLen < RX_LENGTH_SIZE then BufferShort else Success
    ensures result == if err == Success then DecodeUint16(buffer[at..at + 2]) else length
  {
    if buffer == null {
      return Null, length;
    }
    if bufferLen < RX_LENGTH_SIZE {
      return BufferShort, length;
    }
    return Success, DecodeUint16(buffer[at..at + 2]);
  }

  /** `eaarlio_tld_decode_waveform`: copies exactly `waveformLen` bytes; a zero length copies nothing. */
  method DecodeWaveform(buffer: array?<Byte>, at: nat, bufferLen: nat, waveform: array?<Byte>, waveformLen: U16)
    returns (err: Error)
    requires buffer != null ==> at + bufferLen <= buffer.Length
    requires waveform != null ==> waveformLen <= waveform.Length
    requires buffer == null || buffer != waveform
    modifies waveform
    ensures err == if buffer == null || waveform == null then Null else if bufferLen < waveformLen then BufferShort else Success
    ensures err == Success ==> waveform[..] == buffer[at..at + waveformLen] + old(waveform[waveformLen..])
    ensures err != Success && waveform != null ==> waveform[..] == old(waveform[..])
  {
    if buffer == null || waveform == null {
      return Null;
    }
    if bufferLen < waveformLen {
      return BufferShort;
    }
    if waveformLen == 0 {
      return Success;
    }
    forall i | 0 <= i < waveformLen {
      waveform[i] := buffer[at + i];
    }
    err := Success;
  }
}
