/**
 * Encoded sizes of pulses and rasters (tld_size.c).
 *
 * The waveform section of a pulse is its tx length byte and tx samples, then for each
 * of at most four receive channels a 2-byte length and the samples.  The section's size
 * is carried in a 16-bit field and a record's length in a 24-bit field, so the running
 * sums are checked against those ceilings.
 */
module TldSize {
  import opened Bytes
  import opened Errors
  import opened TldTypes
  import opened TldCodec

  // Specification --------------------------------------------------------------

  /** Bytes taken by receive channels `0..n`: a 2-byte length plus the samples, each. */
  function RxSectionSize(rxLen: LengthQuad, n: nat): nat
    requires n <= MAX_RX_COUNT
  {
    if n == 0 then 0 else RxSectionSize(rxLen, n - 1) + RX_LENGTH_SIZE + rxLen[n - 1]
  }

  /** The waveform section: tx length byte, tx samples and the first `min(rx_count, 4)` channels. */
  function WaveformsSize(p: Pulse): nat
  {
    TX_LENGTH_SIZE + p.txLen + RxSectionSize(p.rxLen, RxChannels(p))
  }

  /** A pulse's waveform section fits its 16-bit length field without reaching 65535. */
  predicate WaveformsFit(p: Pulse)
  {
    WaveformsSize(p) < UINT16_MAX
  }

  /** A whole pulse: header, the 2-byte waveform data length, and the waveform section. */
  function PulseSize(p: Pulse): nat
  {
    PULSE_HEADER_SIZE + WF_DATA_LENGTH_SIZE + WaveformsSize(p)
  }

  /** The sum of the sizes of a run of pulses. */
  function PulsesSize(ps: seq<Pulse>): nat
  {
    if ps == [] then 0 else PulsesSize(ps[..|ps| - 1]) + PulseSize(ps[|ps| - 1])
  }

  predicate AllWaveformsFit(ps: seq<Pulse>)
  {
    forall i | 0 <= i < |ps| :: WaveformsFit(ps[i])
  }

  /** The pulse array holds at least `pulse_count` pulses, as the library requires of a raster. */
  predicate PulsesAllocated(r: Raster)
  {
    r.pulse.Some? ==> |r.pulse.value| >= r.pulseCount
  }

  /** The pulses a raster declares: none when the array is NULL. */
  function PulsesOf(r: Raster): (ps: seq<Pulse>)
    requires PulsesAllocated(r)
    ensures |ps| == if r.pulse.None? then 0 else r.pulseCount
  {
    if r.pulse.None? then [] else r.pulse.value[..r.pulseCount]
  }

  /** A raster record's payload: the raster header and every pulse. */
  function RasterSize(r: Raster): nat
    requires PulsesAllocated(r)
  {
    RASTER_HEADER_SIZE + PulsesSize(PulsesOf(r))
  }

  /** The outcome of sizing a raster's pulses. */
  function SizePulsesError(r: Raster): Error
    requires PulsesAllocated(r)
  {
    if r.pulseCount == 0 then Success
    else if r.pulse.None? then Null
    else if AllWaveformsFit(PulsesOf(r)) && PulsesSize(PulsesOf(r)) < UINT24_MAX then Success
    else ValueOutOfRange
  }

  /** The outcome of sizing a raster: it succeeds exactly when the pulses fit and the total fits 24 bits. */
  function SizeRasterError(r: Raster): (e: Error)
    requires PulsesAllocated(r)
    ensures e == Success <==> (r.pulseCount == 0 || r.pulse.Some?) && AllWaveformsFit(PulsesOf(r)) && RasterSize(r) <= UINT24_MAX
  {
    if SizePulsesError(r) != Success then SizePulsesError(r)
    else if PulsesSize(PulsesOf(r)) > UINT24_MAX - RASTER_HEADER_SIZE then ValueOutOfRange
    else Success
  }

  // Lemmas -----------------------------------------------------------------------

  lemma {:induction false} RxSectionMonotone(rxLen: LengthQuad, a: nat, b: nat)
    requires a <= b <= MAX_RX_COUNT
    ensures RxSectionSize(rxLen, a) <= RxSectionSize(rxLen, b)
    decreases b - a
  {
    if a < b {
      RxSectionMonotone(rxLen, a, b - 1);
    }
  }

  lemma PulsesSizeStep(ps: seq<Pulse>, i: nat)
    requires i < |ps|
    ensures PulsesSize(ps[..i + 1]) == PulsesSize(ps[..i]) + PulseSize(ps[i])
  {
    assert ps[..i + 1][..i] == ps[..i];
  }

  lemma {:induction false} PulsesSizeMonotone(ps: seq<Pulse>, i: nat)
    requires i <= |ps|
    ensures PulsesSize(ps[..i]) <= PulsesSize(ps)
    decreases |ps| - i
  {
    if i < |ps| {
      PulsesSizeMonotone(ps, i + 1);
      PulsesSizeStep(ps, i);
    } else {
      assert ps[..i] == ps;
    }
  }

  /** A pulse that does not fit, or a running sum that reaches 2^24 - 1, fails the whole raster. */
  lemma SizePulsesFails(r: Raster, i: nat)
    requires PulsesAllocated(r) && r.pulse.Some? && i < r.pulseCount
    requires !WaveformsFit(PulsesOf(r)[i]) || PulsesSize(PulsesOf(r)[..i + 1]) >= UINT24_MAX
    ensures SizePulsesError(r) == ValueOutOfRange
  {
    var ps := PulsesOf(r);
    if WaveformsFit(ps[i]) {
      PulsesSizeMonotone(ps, i + 1);
      assert ps[..r.pulseCount] == ps;
    }
  }

  /** An rx_count above four counts only the four channel slots. */
  lemma RxCountCapped(p: Pulse)
    requires p.rxCount > MAX_RX_COUNT
    ensures WaveformsSize(p) == WaveformsSize(p.(rxCount := MAX_RX_COUNT))
  {
  }

  // Methods ------------------------------------------------------------------------

  /** `eaarlio_tld_size_pulse_waveforms`: fails, with size 0, unless every running total stays below 65535. */
  method SizePulseWaveforms(pulse: Pulse) returns (err: Error, size: U16)
    ensures err == (if WaveformsFit(pulse) then Success else ValueOutOfRange)
    ensures size == if err == Success then WaveformsSize(pulse) else 0
  {
    size := 0;
    var total: int := TX_LENGTH_SIZE + pulse.txLen;
    var rxCount := pulse.rxCount;
    if rxCount > MAX_RX_COUNT {
      rxCount := MAX_RX_COUNT;
    }
    var channel := 0;
    while channel < rxCount
      invariant channel <= rxCount == RxChannels(pulse)
      invariant total == TX_LENGTH_SIZE + pulse.txLen + RxSectionSize(pulse.rxLen, channel)
      invariant total < UINT16_MAX
    {
      if total >= UINT16_MAX - RX_LENGTH_SIZE {
        RxSectionMonotone(pulse.rxLen, channel + 1, rxCount);
        return ValueOutOfRange, size;
      }
      total := total + RX_LENGTH_SIZE;
      if total >= UINT16_MAX - pulse.rxLen[channel] {
        RxSectionMonotone(pulse.rxLen, channel + 1, rxCount);
        return ValueOutOfRange, size;
      }
      total := total + pulse.rxLen[channel];
      channel := channel + 1;
    }
    size := total;
    err := Success;
  }

  /** `eaarlio_tld_size_pulse`: 13 + 2 + the waveform section, with no separate bound check. */
  method SizePulse(pulse: Pulse) returns (err: Error, size: U32)
    ensures err == (if WaveformsFit(pulse) then Success else ValueOutOfRange)
    ensures size == if err == Success then PulseSize(pulse) else 0
  {
    size := 0;
    var sizeWaveforms;
    err, sizeWaveforms := SizePulseWaveforms(pulse);
    if err != Success {
      return err, size;
    }
    size := PULSE_HEADER_SIZE + WF_DATA_LENGTH_SIZE + sizeWaveforms;
  }

  /**
   * `eaarlio_tld_size_raster_pulses`: zero pulses succeed even with a NULL array; otherwise
   * every pulse must fit and the running sum must stay below 2^24 - 1.
   */
  method SizeRasterPulses(raster: Raster) returns (err: Error, size: U32)
    requires PulsesAllocated(raster)
    ensures err == SizePulsesError(raster)
    ensures size == if err == Success then PulsesSize(PulsesOf(raster)) else 0
  {
    size := 0;
    if raster.pulseCount == 0 {
      return Success, size;
    }
    if raster.pulse.None? {
      return Null, size;
    }
    ghost var ps := PulsesOf(raster);
    var pulses := raster.pulse.value;
    var total := 0;
    var i := 0;
    while i < raster.pulseCount
      invariant i <= raster.pulseCount
      invariant total == PulsesSize(ps[..i]) < UINT24_MAX
      invariant AllWaveformsFit(ps[..i])
    {
      var pulseSize;
      err, pulseSize := SizePulse(pulses[i]);
      if err != Success {
        SizePulsesFails(raster, i);
        return err, size;
      }
      PulsesSizeStep(ps, i);
      if total >= UINT24_MAX - pulseSize {
        SizePulsesFails(raster, i);
        return ValueOutOfRange, size;
      }
      total := total + pulseSize;
      i := i + 1;
    }
    assert ps[..i] == ps;
    size := total;
    err := Success;
  }

  /** `eaarlio_tld_size_raster`: 14 + the pulses, failing only when that would exceed 2^24 - 1. */
  method SizeRaster(raster: Raster) returns (err: Error, size: U32)
    requires PulsesAllocated(raster)
    ensures err == SizeRasterError(raster)
    ensures size == if err == Success then RasterSize(raster) else 0
  {
    size := 0;
    var pulsesSize;
    err, pulsesSize := SizeRasterPulses(raster);
    if err != Success {
      return err, size;
    }
    if pulsesSize > UINT24_MAX - RASTER_HEADER_SIZE {
      return ValueOutOfRange, size;
    }
    size := RASTER_HEADER_SIZE + pulsesSize;
  }
}
