/**
 * In-memory TLD entities (pulse.h, raster.h, tld.h): a record header, a raster and its pulses.
 *
 * Pointer fields become `Option` values: a waveform pointer is `None` when NULL and otherwise
 * holds the bytes of its allocation; a raster's pulse array is `None` when NULL.
 */
module TldTypes {
  import opened Bytes

  /** Number of receive channel slots in a pulse. */
  const MAX_RX_COUNT: nat := 4

  /** The only record type this library understands. */
  const TLD_TYPE_RASTER: nat := 5

  type ByteQuad = s: seq<Byte> | |s| == 4 witness [0, 0, 0, 0]
  type LengthQuad = s: seq<U16> | |s| == 4 witness [0, 0, 0, 0]
  type WaveformQuad = s: seq<Option<seq<Byte>>> | |s| == 4 witness [None, None, None, None]

  datatype TldHeader = TldHeader(recordLength: U32, recordType: Byte)

  datatype Pulse = Pulse(
    timeOffset: U32,
    rxCount: Byte,
    scanAngleCounts: I16,
    range: U16,
    threshTx: Byte,
    threshRx: Byte,
    biasTx: Byte,
    biasRx: ByteQuad,
    txLen: Byte,
    rxLen: LengthQuad,
    tx: Option<seq<Byte>>,
    rx: WaveformQuad)

  datatype Raster = Raster(
    timeSeconds: U32,
    timeFraction: U32,
    sequenceNumber: U32,
    pulseCount: U16,
    digitizer: Byte,
    pulse: Option<seq<Pulse>>)

  const NoWaveforms: WaveformQuad := [None, None, None, None]

  /** `eaarlio_pulse_empty()`: every field zero, every pointer NULL. */
  const EmptyPulse := Pulse(0, 0, 0, 0, 0, 0, 0, [0, 0, 0, 0], 0, [0, 0, 0, 0], None, NoWaveforms)

  /** `n` zeroed pulses, as a fresh calloc'd pulse array holds. */
  function EmptyPulses(n: nat): (r: seq<Pulse>)
    ensures |r| == n
  {
    seq(n, _ => EmptyPulse)
  }

  /** `eaarlio_raster_empty()` */
  const EmptyRaster := Raster(0, 0, 0, 0, 0, None)

  /** `eaarlio_tld_header_empty()` */
  const EmptyHeader := TldHeader(0, 0)

  /** The receive channels that have slots: `rx_count` capped at four. */
  function RxChannels(p: Pulse): (n: nat)
    ensures n <= MAX_RX_COUNT && n <= p.rxCount
    ensures p.rxCount <= MAX_RX_COUNT ==> n == p.rxCount
  {
    if p.rxCount > MAX_RX_COUNT then MAX_RX_COUNT else p.rxCount
  }
}
