/**
 * Serialising a raster into one buffer (tld_pack.c).
 *
 * The buffer is exactly `RasterSize` bytes: the raster header, then for each pulse its
 * header, the 16-bit waveform data length, the tx length byte and tx samples, and for
 * each receive channel a 16-bit length and the samples.
 */
module TldPack {
  import opened Bytes
  import opened Errors
  import opened IntCodec
  import opened TldTypes
  import opened TldCodec
  import opened TldSize
  import opened Memories

  // Preconditions the library places on its callers -------------------------

  /** Every non-NULL waveform points to at least as many bytes as its declared length. */
  predicate WaveformsAllocated(p: Pulse)
  {
    (p.tx.Some? ==> |p.tx.value| >= p.txLen)
    && forall j | 0 <= j < MAX_RX_COUNT :: p.rx[j].Some? ==> |p.rx[j].value| >= p.rxLen[j]
  }

  /** A pulse handed to the packer: rx_count within the four slots (pulse.h) and its waveforms allocated. */
  predicate PulseWellFormed(p: Pulse)
  {
    p.rxCount <= MAX_RX_COUNT && WaveformsAllocated(p)
  }

  predicate RasterWellFormed(r: Raster)
  {
    PulsesAllocated(r) && forall i | 0 <= i < |PulsesOf(r)| :: PulseWellFormed(PulsesOf(r)[i])
  }

  // Specification of the output ------------------------------------------------

  /** Every declared receive channel has a waveform pointer. */
  predicate RxPresent(p: Pulse)
  {
    forall j | 0 <= j < RxChannels(p) :: p.rx[j].Some?
  }

  /** tx and every declared rx channel have a waveform pointer. */
  predicate WaveformsPresent(p: Pulse)
  {
    p.tx.Some? && RxPresent(p)
  }

  /** The first error encoding a pulse meets: an out-of-range header field, then a NULL waveform. */
  function PulseEncodeError(p: Pulse): Error
  {
    if !PulseHeaderInRange(p) then ValueOutOfRange
    else if !WaveformsPresent(p) then Null
    else Success
  }

  /** The first error encoding a run of pulses meets, in order. */
  function PulsesEncodeError(ps: seq<Pulse>): (e: Error)
    ensures e == Success || e == ValueOutOfRange || e == Null
  {
    if ps == [] then Success
    else if PulsesEncodeError(ps[..|ps| - 1]) != Success then PulsesEncodeError(ps[..|ps| - 1])
    else PulseEncodeError(ps[|ps| - 1])
  }

  /** The first error encoding a raster meets once its buffer exists. */
  function EncodeError(r: Raster): Error
    requires PulsesAllocated(r)
  {
    if !RasterHeaderInRange(r) then ValueOutOfRange else PulsesEncodeError(PulsesOf(r))
  }

  /** Whether packing gets as far as allocating its buffer. */
  predicate PackAllocates(r: Raster, memoryValid: bool, budget: nat)
    requires PulsesAllocated(r)
  {
    !(r.pulse.None? && r.pulseCount > 0) && memoryValid && SizeRasterError(r) == Success && budget > 0
  }

  /** The error `eaarlio_tld_pack_raster` returns, for a handler of the given validity and allocation budget. */
  function PackError(r: Raster, memoryValid: bool, budget: nat): Error
    requires PulsesAllocated(r)
  {
    if r.pulse.None? && r.pulseCount > 0 then Null
    else if !memoryValid then MemoryInvalid
    else if SizeRasterError(r) != Success then SizeRasterError(r)
    else if budget == 0 then MemoryAllocFail
    else EncodeError(r)
  }

  /**
   * The allocation check as written tests the (never NULL) out-parameter instead of the
   * buffer it received, so a failed allocation goes on to encode into a NULL buffer,
   * whose encoder answers EAARLIO_NULL.
   */
  function PackErrorAsWritten(r: Raster, memoryValid: bool, budget: nat): (e: Error)
    requires PulsesAllocated(r)
    ensures budget > 0 ==> e == PackError(r, memoryValid, budget)
  {
    if r.pulse.None? && r.pulseCount > 0 then Null
    else if !memoryValid then MemoryInvalid
    else if SizeRasterError(r) != Success then SizeRasterError(r)
    else if budget == 0 then Null
    else EncodeError(r)
  }

  /** The two differ exactly when the allocation fails: as written the failure is misreported as NULL. */
  lemma AllocationFailureMisreported(r: Raster, memoryValid: bool, budget: nat)
    requires PulsesAllocated(r)
    ensures PackErrorAsWritten(r, memoryValid, budget) != PackError(r, memoryValid, budget)
      <==> PackError(r, memoryValid, budget) == MemoryAllocFail
    ensures PackError(r, memoryValid, budget) == MemoryAllocFail ==> PackErrorAsWritten(r, memoryValid, budget) == Null
  {
  }

  /** An encodable pulse: well formed, its waveform section fits, and it encodes without error. */
  predicate PulseEncodable(p: Pulse)
  {
    PulseWellFormed(p) && WaveformsFit(p) && PulseEncodeError(p) == Success
  }

  predicate PulsesEncodable(ps: seq<Pulse>)
  {
    forall i | 0 <= i < |ps| :: PulseEncodable(ps[i])
  }

  /** Receive channels `0..n`, each a 16-bit length followed by that many samples. */
  function RxBytes(p: Pulse, n: nat): (b: seq<Byte>)
    requires n <= RxChannels(p) && PulseWellFormed(p)
    requires forall j | 0 <= j < n :: p.rx[j].Some?
  {
    if n == 0 then []
    else RxBytes(p, n - 1) + Uint16Bytes(p.rxLen[n - 1]) + p.rx[n - 1].value[..p.rxLen[n - 1]]
  }

  /** The fixed part of a packed pulse: its header, the waveform data length and the tx length byte. */
  function PulseFixedBytes(p: Pulse): seq<Byte>
    requires WaveformsFit(p)
  {
    PulseHeaderBytes(p) + Uint16Bytes(WaveformsSize(p)) + [p.txLen]
  }

  /** One pulse as packed. */
  function PulseBytes(p: Pulse): seq<Byte>
    requires PulseEncodable(p)
  {
    PulseFixedBytes(p) + p.tx.value[..p.txLen] + RxBytes(p, p.rxCount)
  }

  function PulsesBytes(ps: seq<Pulse>): seq<Byte>
    requires PulsesEncodable(ps)
  {
    if ps == [] then [] else PulsesBytes(ps[..|ps| - 1]) + PulseBytes(ps[|ps| - 1])
  }

  /** A raster that packs without error. */
  predicate RasterEncodable(r: Raster)
  {
    RasterWellFormed(r) && SizeRasterError(r) == Success && EncodeError(r) == Success
  }

  /** The packed raster. */
  function RasterBytes(r: Raster): seq<Byte>
    requires RasterEncodable(r)
  {
    EncodedPulses(r);
    RasterHeaderBytes(r) + PulsesBytes(PulsesOf(r))
  }

  // Lemmas -------------------------------------------------------------------------

  lemma {:induction false} RxBytesLength(p: Pulse, n: nat)
    requires n <= RxChannels(p) && PulseWellFormed(p)
    requires forall j | 0 <= j < n :: p.rx[j].Some?
    ensures |RxBytes(p, n)| == RxSectionSize(p.rxLen, n)
  {
    if n > 0 {
      RxBytesLength(p, n - 1);
    }
  }

  lemma PulseBytesLength(p: Pulse)
    requires PulseEncodable(p)
    ensures |PulseBytes(p)| == PulseSize(p)
  {
    RxBytesLength(p, p.rxCount);
  }

  lemma {:induction false} PulsesBytesLength(ps: seq<Pulse>)
    requires PulsesEncodable(ps)
    ensures |PulsesBytes(ps)| == PulsesSize(ps)
    decreases |ps|
  {
    if ps != [] {
      PulsesBytesLength(ps[..|ps| - 1]);
      PulseBytesLength(ps[|ps| - 1]);
    }
  }

  /** Pack's output is exactly as long as the size calculator says. */
  lemma RasterBytesLength(r: Raster)
    requires RasterEncodable(r)
    ensures |RasterBytes(r)| == RasterSize(r)
  {
    EncodedPulses(r);
    PulsesBytesLength(PulsesOf(r));
  }

  /** When no pulse fails, every pulse encodes; and the other way round. */
  lemma {:induction false} PulsesEncodeErrorFree(ps: seq<Pulse>)
    ensures PulsesEncodeError(ps) == Success <==> forall i | 0 <= i < |ps| :: PulseEncodeError(ps[i]) == Success
    decreases |ps|
  {
    if ps != [] {
      var init := ps[..|ps| - 1];
      PulsesEncodeErrorFree(init);
      assert forall i | 0 <= i < |init| :: init[i] == ps[i];
    }
  }

  /** The first failing pulse decides the error of the whole run. */
  lemma {:induction false} FirstPulseErrorSticks(ps: seq<Pulse>, i: nat, k: nat)
    requires i < k <= |ps|
    requires PulsesEncodeError(ps[..i]) == Success && PulseEncodeError(ps[i]) != Success
    ensures PulsesEncodeError(ps[..k]) == PulseEncodeError(ps[i])
    decreases k
  {
    if k == i + 1 {
      assert ps[..k][..i] == ps[..i];
    } else {
      FirstPulseErrorSticks(ps, i, k - 1);
      assert ps[..k][..k - 1] == ps[..k - 1];
    }
  }

  /** The first failing pulse decides the error of the whole run. */
  lemma FirstPulseError(ps: seq<Pulse>, i: nat)
    requires i < |ps|
    requires PulsesEncodeError(ps[..i]) == Success && PulseEncodeError(ps[i]) != Success
    ensures PulsesEncodeError(ps) == PulseEncodeError(ps[i])
  {
    FirstPulseErrorSticks(ps, i, |ps|);
    assert ps[..|ps|] == ps;
  }

  /** The pulses of an encodable raster are all encodable. */
  lemma EncodedPulses(r: Raster)
    requires RasterEncodable(r)
    ensures PulsesEncodable(PulsesOf(r))
  {
    PulsesEncodeErrorFree(PulsesOf(r));
  }

  lemma EncodableExtend(ps: seq<Pulse>, i: nat)
    requires i < |ps| && PulsesEncodable(ps[..i]) && PulseEncodable(ps[i])
    ensures PulsesEncodable(ps[..i + 1])
  {
    assert forall k | 0 <= k < i :: ps[..i][k] == ps[k];
  }

  /** One more encodable pulse extends the packed run by its bytes and its size. */
  lemma PulsesStep(pulses: seq<Pulse>, i: nat)
    requires i < |pulses|
    requires PulsesEncodeError(pulses[..i]) == Success && PulsesEncodable(pulses[..i]) && PulseEncodable(pulses[i])
    ensures PulsesEncodeError(pulses[..i + 1]) == Success && PulsesEncodable(pulses[..i + 1])
    ensures PulsesBytes(pulses[..i + 1]) == PulsesBytes(pulses[..i]) + PulseBytes(pulses[i])
  {
    assert pulses[..i + 1][..i] == pulses[..i];
    EncodableExtend(pulses, i);
  }

  /** One more receive channel extends the section by its length field and samples. */
  lemma RxStep(p: Pulse, j: nat)
    requires j < RxChannels(p) && PulseWellFormed(p)
    requires forall k | 0 <= k <= j :: p.rx[k].Some?
    ensures RxBytes(p, j + 1) == RxBytes(p, j) + (Uint16Bytes(p.rxLen[j]) + p.rx[j].value[..p.rxLen[j]])
    ensures RxSectionSize(p.rxLen, j + 1) == RxSectionSize(p.rxLen, j) + RX_LENGTH_SIZE + p.rxLen[j]
  {
  }

  lemma ConcatAssoc(a: seq<Byte>, b: seq<Byte>, c: seq<Byte>)
    ensures (a + b) + c == a + (b + c)
  {
  }

  lemma PrefixAfterStore(s0: seq<Byte>, s1: seq<Byte>, at: nat, x: seq<Byte>)
    requires at + |x| <= |s0|
    requires s1 == s0[..at] + x + s0[at + |x|..]
    ensures s1[..at + |x|] == s0[..at] + x
    ensures |s1| == |s0|
  {
  }

  // Methods ------------------------------------------------------------------------

  /** One receive channel: its 16-bit length and its samples. */
  method PackRxChannel(buffer: array<Byte>, at: nat, length: U16, waveform: Option<seq<Byte>>) returns (err: Error, next: nat)
    requires waveform.Some? ==> length <= |waveform.value|
    requires at + RX_LENGTH_SIZE + length <= buffer.Length
    modifies buffer
    ensures err == (if waveform.Some? then Success else Null)
    ensures err == Success ==>
              next == at + RX_LENGTH_SIZE + length
              && buffer[..next] == old(buffer[..at]) + Uint16Bytes(length) + waveform.value[..length]
  {
    ghost var s0 := buffer[..];
    err := EncodeRxLength(buffer, at, buffer.Length - at, length);
    PrefixAfterStore(s0, buffer[..], at, Uint16Bytes(length));
    next := at + RX_LENGTH_SIZE;
    ghost var s1 := buffer[..];
    err := EncodeWaveform(buffer, next, buffer.Length - next, waveform, length);
    if err != Success {
      return err, next;
    }
    PrefixAfterStore(s1, buffer[..], next, waveform.value[..length]);
    next := next + length;
  }

  /** The receive-channel loop of one pulse. */
  method PackRxChannels(buffer: array<Byte>, at: nat, pulse: Pulse) returns (err: Error, next: nat)
    requires PulseWellFormed(pulse)
    requires at + RxSectionSize(pulse.rxLen, pulse.rxCount) <= buffer.Length
    modifies buffer
    ensures err == (if RxPresent(pulse) then Success else Null)
    ensures err == Success ==>
              next == at + RxSectionSize(pulse.rxLen, pulse.rxCount)
              && buffer[..next] == old(buffer[..at]) + RxBytes(pulse, pulse.rxCount)
  {
    ghost var start := old(buffer[..at]);
    next := at;
    var j := 0;
    while j < pulse.rxCount
      invariant j <= pulse.rxCount
      invariant forall k | 0 <= k < j :: pulse.rx[k].Some?
      invariant next == at + RxSectionSize(pulse.rxLen, j) <= buffer.Length
      invariant buffer[..next] == start + RxBytes(pulse, j)
    {
      RxSectionMonotone(pulse.rxLen, j + 1, pulse.rxCount);
      ghost var acc := RxBytes(pulse, j);
      ghost var before := buffer[..next];
      err, next := PackRxChannel(buffer, next, pulse.rxLen[j], pulse.rx[j]);
      if err != Success {
        return err, next;
      }
      ghost var channel := Uint16Bytes(pulse.rxLen[j]) + pulse.rx[j].value[..pulse.rxLen[j]];
      RxStep(pulse, j);
      ConcatAssoc(start, acc, channel);
      j := j + 1;
    }
    err := Success;
  }

  /** The fixed part of a pulse: its header, the waveform data length and the tx length byte. */
  method PackPulseFixed(buffer: array<Byte>, at: nat, pulse: Pulse) returns (err: Error, next: nat)
    requires PulseWellFormed(pulse) && WaveformsFit(pulse)
    requires at + PULSE_HEADER_SIZE + WF_DATA_LENGTH_SIZE + TX_LENGTH_SIZE <= buffer.Length
    modifies buffer
    ensures err == (if PulseHeaderInRange(pulse) then Success else ValueOutOfRange)
    ensures err == Success ==>
              next == at + PULSE_HEADER_SIZE + WF_DATA_LENGTH_SIZE + TX_LENGTH_SIZE
              && buffer[..next] == old(buffer[..at]) + PulseFixedBytes(pulse)
  {
    next := at;
    ghost var s0 := buffer[..];
    err := EncodePulseHeader(buffer, next, buffer.Length - next, pulse);
    if err != Success {
      return err, next;
    }
    PrefixAfterStore(s0, buffer[..], next, PulseHeaderBytes(pulse));
    next := next + PULSE_HEADER_SIZE;
    ghost var acc := old(buffer[..at]) + PulseHeaderBytes(pulse);
    assert buffer[..next] == acc;

    var wfDataLen;
    err, wfDataLen := SizePulseWaveforms(pulse);
    ghost var s1 := buffer[..];
    err := EncodeWfDataLength(buffer, next, buffer.Length - next, wfDataLen);
    PrefixAfterStore(s1, buffer[..], next, Uint16Bytes(wfDataLen));
    next := next + WF_DATA_LENGTH_SIZE;
    acc := acc + Uint16Bytes(WaveformsSize(pulse));
    assert buffer[..next] == acc;

    ghost var s2 := buffer[..];
    err := EncodeTxLength(buffer, next, buffer.Length - next, pulse.txLen);
    PrefixAfterStore(s2, buffer[..], next, [pulse.txLen]);
    next := next + TX_LENGTH_SIZE;
    acc := acc + [pulse.txLen];
    assert buffer[..next] == acc;
  }

  /** The body of the pulse loop: one pulse at `at`. */
  method PackPulse(buffer: array<Byte>, at: nat, pulse: Pulse) returns (err: Error, next: nat)
    requires PulseWellFormed(pulse) && WaveformsFit(pulse)
    requires at + PulseSize(pulse) <= buffer.Length
    modifies buffer
    ensures err == PulseEncodeError(pulse)
    ensures err == Success ==> next == at + PulseSize(pulse) && buffer[..next] == old(buffer[..at]) + PulseBytes(pulse)
  {
    RxSectionMonotone(pulse.rxLen, 0, pulse.rxCount);
    err, next := PackPulseFixed(buffer, at, pulse);
    if err != Success {
      return err, next;
    }
    ghost var acc := old(buffer[..at]) + PulseFixedBytes(pulse);

    ghost var s3 := buffer[..];
    err := EncodeWaveform(buffer, next, buffer.Length - next, pulse.tx, pulse.txLen);
    if err != Success {
      return err, next;
    }
    PrefixAfterStore(s3, buffer[..], next, pulse.tx.value[..pulse.txLen]);
    next := next + pulse.txLen;
    acc := acc + pulse.tx.value[..pulse.txLen];
    assert buffer[..next] == acc;

    err, next := PackRxChannels(buffer, next, pulse);
    if err != Success {
      return err, next;
    }
    ghost var rx := RxBytes(pulse, pulse.rxCount);
    assert buffer[..next] == acc + rx;
    ConcatAssoc(old(buffer[..at]), PulseFixedBytes(pulse) + pulse.tx.value[..pulse.txLen], rx);
    ConcatAssoc(old(buffer[..at]), PulseFixedBytes(pulse), pulse.tx.value[..pulse.txLen]);
  }

  /** The pulse loop: every pulse in order after the raster header. */
  method PackPulses(buffer: array<Byte>, start: nat, pulses: seq<Pulse>) returns (err: Error)
    requires forall i | 0 <= i < |pulses| :: PulseWellFormed(pulses[i])
    requires AllWaveformsFit(pulses)
    requires start + PulsesSize(pulses) == buffer.Length
    modifies buffer
    ensures err == PulsesEncodeError(pulses)
    ensures err == Success ==> PulsesEncodable(pulses) && buffer[..] == old(buffer[..start]) + PulsesBytes(pulses)
  {
    ghost var prefix := old(buffer[..start]);
    var at := start;
    var i := 0;
    while i < |pulses|
      invariant i <= |pulses|
      invariant PulsesEncodeError(pulses[..i]) == Success && PulsesEncodable(pulses[..i])
      invariant at == start + PulsesSize(pulses[..i]) <= buffer.Length
      invariant buffer[..at] == prefix + PulsesBytes(pulses[..i])
    {
      PulsesSizeStep(pulses, i);
      PulsesSizeMonotone(pulses, i + 1);
      ghost var acc := PulsesBytes(pulses[..i]);
      ghost var before := buffer[..at];
      var next;
      err, next := PackPulse(buffer, at, pulses[i]);
      if err != Success {
        FirstPulseError(pulses, i);
        return err;
      }
      PulsesStep(pulses, i);
      ghost var bytes := PulseBytes(pulses[i]);
      assert buffer[..next] == before + bytes;
      ConcatAssoc(prefix, acc, bytes);
      at := next;
      i := i + 1;
    }
    assert pulses[..i] == pulses;
    err := Success;
  }

  /**
   * `eaarlio_tld_pack_raster`, with the allocation check testing the buffer it allocated.
   * On success the buffer is fresh, exactly `RasterSize` bytes long and holds `RasterBytes`.
   * After an encoding failure the partly filled buffer is still handed back.
   */
  method PackRaster(raster: Raster, memory: Memory) returns (err: Error, buffer: array?<Byte>, bufferLen: U32)
    requires RasterWellFormed(raster)
    modifies memory`budget
    ensures memory.budget == if buffer != null then old(memory.budget) - 1 else old(memory.budget)
    ensures err == PackError(raster, MemoryValid(memory), old(memory.budget))
    ensures buffer != null <==> PackAllocates(raster, MemoryValid(memory), old(memory.budget))
    ensures buffer != null ==> fresh(buffer) && buffer.Length == bufferLen == RasterSize(raster)
    ensures err == Success ==> RasterEncodable(raster) && buffer[..] == RasterBytes(raster)
  {
    buffer := null;
    bufferLen := 0;
    if raster.pulse.None? && raster.pulseCount > 0 {
      return Null, buffer, bufferLen;
    }
    if !MemoryValid(memory) {
      return MemoryInvalid, buffer, bufferLen;
    }
    err, bufferLen := SizeRaster(raster);
    if err != Success {
      return err, buffer, bufferLen;
    }
    buffer := memory.Calloc(bufferLen);
    if buffer == null {
      return MemoryAllocFail, buffer, bufferLen;
    }

    var at := 0;
    ghost var s0 := buffer[..];
    err := EncodeRasterHeader(buffer, at, buffer.Length - at, raster);
    if err != Success {
      return err, buffer, bufferLen;
    }
    PrefixAfterStore(s0, buffer[..], at, RasterHeaderBytes(raster));
    at := at + RASTER_HEADER_SIZE;

    err := PackPulses(buffer, at, PulsesOf(raster));
    if err == Success {
      EncodedPulses(raster);
    }
  }
}
