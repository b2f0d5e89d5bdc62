/**
 * Deserialising a raster from one buffer (tld_unpack.c).
 *
 * A byte cursor walks through the raster header, the pulses and their waveforms.
 * Declared lengths longer than what remains are cut to what remains (and reported
 * as EAARLIO_BUFFER_SHORT); waveforms of length zero are not allocated.
 *
 * Each stage is specified by a function of the bytes still ahead of the cursor, the
 * pulse being filled and the allocation budget left; the methods are proved to
 * produce exactly what those functions describe.
 */
module TldUnpack {
  import opened Bytes
  import opened Errors
  import opened IntCodec
  import opened TldTypes
  import opened TldCodec
  import opened TldPack
  import opened Memories

  /** The outcome of retrieving one waveform: the error, the new slot value and the budget left. */
  datatype WaveStep = WaveStep(err: Error, waveform: Option<seq<Byte>>, budget: nat)

  /**
   * The outcome of a stage that fills a pulse. `consumed` is the span of the stage: its fixed-size
   * prefix and then the length it declares, cut to what remains. The cursor moves on by it only
   * when the stage succeeds; on a failure it is never used.
   */
  datatype PulseStep = PulseStep(err: Error, pulse: Pulse, budget: nat, consumed: nat)

  /** The outcome of unpacking a raster's pulses. */
  datatype PulsesStep = PulsesStep(err: Error, pulse: Option<seq<Pulse>>, budget: nat)

  /** The outcome of unpacking a raster. */
  datatype RasterStep = RasterStep(err: Error, raster: Raster, budget: nat)

  function ZeroBytes(n: nat): (z: seq<Byte>)
    ensures |z| == n && forall i | 0 <= i < n :: z[i] == 0
  {
    seq(n, _ => 0)
  }

  // Specification ------------------------------------------------------------------

  /**
   * `_eaarlio_retrieve_wf`: a length of zero leaves the slot alone; otherwise a zeroed
   * allocation of that length is made (none left: the slot becomes NULL) and filled.
   */
  function RetrieveOutcome(bytes: seq<Byte>, length: U16, slot: Option<seq<Byte>>, budget: nat): (s: WaveStep)
    ensures s.err == Success <==> length < 1 || (budget > 0 && length <= |bytes|)
    ensures s.budget == if length < 1 then budget else if budget == 0 then 0 else budget - 1
    ensures s.err == Success ==> s.waveform == if length < 1 then slot else Some(bytes[..length])
  {
    if length < 1 then WaveStep(Success, slot, budget)
    else if budget == 0 then WaveStep(MemoryAllocFail, None, 0)
    else if |bytes| < length then WaveStep(BufferShort, Some(ZeroBytes(length)), budget - 1)
    else WaveStep(Success, Some(bytes[..length]), budget - 1)
  }

  /** `_eaarlio_unpack_tx`: a one-byte length, cut to what remains, then the tx samples. */
  function TxOutcome(bytes: seq<Byte>, p: Pulse, budget: nat): (s: PulseStep)
    ensures s.err == Success ==> s.consumed == 1 + s.pulse.txLen <= |bytes|
    ensures s.pulse.rxCount == p.rxCount && s.pulse.rx == p.rx && s.pulse.rxLen == p.rxLen
  {
    if |bytes| < TX_LENGTH_SIZE then PulseStep(BufferShort, p, budget, TX_LENGTH_SIZE)
    else
      var declared := bytes[0];
      var rest := bytes[TX_LENGTH_SIZE..];
      var length: Byte := if declared > |rest| then |rest| else declared;
      var final := if declared > |rest| then BufferShort else Success;
      var w := RetrieveOutcome(rest, length, p.tx, budget);
      var q := p.(txLen := length, tx := w.waveform);
      PulseStep(if w.err != Success then w.err else final, q, w.budget, TX_LENGTH_SIZE + length)
  }

  /** `_eaarlio_unpack_rx` for one channel: a two-byte length, cut to what remains, then the samples. */
  function RxOutcome(bytes: seq<Byte>, p: Pulse, channel: nat, budget: nat): (s: PulseStep)
    requires channel < MAX_RX_COUNT
    ensures s.err == Success ==> s.consumed == RX_LENGTH_SIZE + s.pulse.rxLen[channel] <= |bytes|
    ensures s.pulse == p.(rxLen := s.pulse.rxLen, rx := s.pulse.rx)
    ensures forall k | 0 <= k < MAX_RX_COUNT && k != channel :: s.pulse.rxLen[k] == p.rxLen[k] && s.pulse.rx[k] == p.rx[k]
  {
    if |bytes| < RX_LENGTH_SIZE then PulseStep(BufferShort, p, budget, RX_LENGTH_SIZE)
    else
      var declared := DecodeUint16(bytes[..RX_LENGTH_SIZE]);
      var rest := bytes[RX_LENGTH_SIZE..];
      var length: U16 := if declared > |rest| then |rest| else declared;
      var final := if declared > |rest| then BufferShort else Success;
      var w := RetrieveOutcome(rest, length, p.rx[channel], budget);
      var q := p.(rxLen := p.rxLen[channel := length], rx := p.rx[channel := w.waveform]);
      PulseStep(if w.err != Success then w.err else final, q, w.budget, RX_LENGTH_SIZE + length)
  }

  /** The channel loop from `channel` up to `count`, stopping at the first error. */
  function RxLoopOutcome(bytes: seq<Byte>, p: Pulse, channel: nat, count: nat, budget: nat): (s: PulseStep)
    requires channel <= count <= MAX_RX_COUNT
    ensures s.err == Success ==> s.consumed <= |bytes|
    ensures s.pulse == p.(rxLen := s.pulse.rxLen, rx := s.pulse.rx)
    decreases count - channel
  {
    if channel == count then PulseStep(Success, p, budget, 0)
    else
      var s := RxOutcome(bytes, p, channel, budget);
      if s.err != Success then s
      else
        var t := RxLoopOutcome(bytes[s.consumed..], s.pulse, channel + 1, count, s.budget);
        PulseStep(t.err, t.pulse, t.budget, s.consumed + t.consumed)
  }

  /** One turn of the channel loop: it stops with the channel's failure, or goes on past that channel. */
  lemma RxLoopTurn(bytes: seq<Byte>, p: Pulse, channel: nat, count: nat, budget: nat)
    requires channel < count <= MAX_RX_COUNT
    ensures var s := RxOutcome(bytes, p, channel, budget);
      var r := RxLoopOutcome(bytes, p, channel, count, budget);
      (s.err != Success ==> r.err == s.err && r.pulse == s.pulse && r.budget == s.budget)
      && (s.err == Success ==>
            var t := RxLoopOutcome(bytes[s.consumed..], s.pulse, channel + 1, count, s.budget);
            r.err == t.err && r.pulse == t.pulse && r.budget == t.budget)
  {
  }

  /** A pulse with every waveform pointer NULL. */
  function NullWaveforms(p: Pulse): Pulse
  {
    p.(tx := None, rx := NoWaveforms)
  }

  /**
   * `eaarlio_tld_unpack_waveforms` on a non-NULL buffer and a valid handler: every pointer
   * NULL first, then tx, then the receive channels, capped at the four slots.
   */
  function WaveformsOutcome(bytes: seq<Byte>, p: Pulse, budget: nat): (s: PulseStep)
    ensures s.err == Success ==> s.consumed <= |bytes|
    ensures s.pulse.rxCount == p.rxCount
  {
    var t := TxOutcome(bytes, NullWaveforms(p), budget);
    if t.err != Success then t
    else
      var r := RxLoopOutcome(bytes[t.consumed..], t.pulse, 0, RxChannels(p), t.budget);
      PulseStep(r.err, r.pulse, r.budget, t.consumed + r.consumed)
  }

  /**
   * The body of the pulse loop of `eaarlio_tld_unpack_pulses`: the pulse header, the waveform
   * data length (cut to what remains) and, when asked for, the waveforms within that length.
   * A short waveform section is accepted only on the last pulse and only when every expected
   * waveform is present.
   */
  function PulseOutcome(bytes: seq<Byte>, p: Pulse, isLast: bool, includeWaveforms: bool, budget: nat): (s: PulseStep)
    ensures s.err == Success ==> PULSE_HEADER_SIZE + WF_DATA_LENGTH_SIZE <= s.consumed <= |bytes|
  {
    if |bytes| < PULSE_HEADER_SIZE then PulseStep(BufferShort, p, budget, PULSE_HEADER_SIZE + WF_DATA_LENGTH_SIZE)
    else
      var h := PulseHeaderOf(bytes[..PULSE_HEADER_SIZE], p);
      var afterHeader := bytes[PULSE_HEADER_SIZE..];
      if |afterHeader| < WF_DATA_LENGTH_SIZE then PulseStep(BufferShort, h, budget, PULSE_HEADER_SIZE + WF_DATA_LENGTH_SIZE)
      else
        var declared := DecodeUint16(afterHeader[..WF_DATA_LENGTH_SIZE]);
        var rest := afterHeader[WF_DATA_LENGTH_SIZE..];
        var dataLength := if declared > |rest| then |rest| else declared;
        var w := PulseWaveformsOutcome(rest[..dataLength], h, isLast, includeWaveforms, budget);
        PulseStep(w.err, w.pulse, w.budget, PULSE_HEADER_SIZE + WF_DATA_LENGTH_SIZE + dataLength)
  }

  /** Whether a short waveform section is tolerated: only on the last pulse, with every expected waveform present. */
  predicate ShortTolerated(p: Pulse, isLast: bool)
  {
    isLast && WaveformsPresent(p)
  }

  /** The waveform part of the pulse loop body, on the pulse's (possibly cut) waveform data. */
  function PulseWaveformsOutcome(data: seq<Byte>, h: Pulse, isLast: bool, includeWaveforms: bool, budget: nat): (s: PulseStep)
    ensures s.consumed == 0
  {
    if includeWaveforms then
      var w := WaveformsOutcome(data, h, budget);
      if w.err == Success || (w.err == BufferShort && ShortTolerated(w.pulse, isLast)) then
        PulseStep(Success, w.pulse, w.budget, 0)
      else PulseStep(w.err, w.pulse, w.budget, 0)
    else PulseStep(Success, NullWaveforms(h), budget, 0)
  }

  /** Pulses `index..count`, each starting from a zeroed pulse, after the already filled `done`. */
  function PulsesLoopOutcome(bytes: seq<Byte>, index: nat, count: nat, includeWaveforms: bool, budget: nat, done: seq<Pulse>)
    : (s: PulsesStep)
    requires |done| == index <= count
    ensures s.pulse.Some? && |s.pulse.value| == count
    decreases count - index
  {
    if index == count then PulsesStep(Success, Some(done), budget)
    else
      var s := PulseOutcome(bytes, EmptyPulse, index + 1 == count, includeWaveforms, budget);
      if s.err != Success then
        PulsesStep(s.err, Some(done + [s.pulse] + EmptyPulses(count - index - 1)), s.budget)
      else PulsesLoopOutcome(bytes[s.consumed..], index + 1, count, includeWaveforms, s.budget, done + [s.pulse])
  }

  /** `eaarlio_tld_unpack_pulses` on a non-NULL buffer and a valid handler. */
  function PulsesOutcome(bytes: seq<Byte>, pulseCount: U16, includeWaveforms: bool, budget: nat): (s: PulsesStep)
    ensures s.pulse.Some? ==> pulseCount > 0 && |s.pulse.value| == pulseCount
    ensures pulseCount < 1 ==> s == PulsesStep(Success, None, budget)
  {
    if pulseCount < 1 then PulsesStep(Success, None, budget)
    else if budget == 0 then PulsesStep(MemoryAllocFail, None, 0)
    else PulsesLoopOutcome(bytes, 0, pulseCount, includeWaveforms, budget - 1, [])
  }

  /** `eaarlio_tld_unpack_raster` on a non-NULL buffer and a valid handler. */
  function RasterOutcome(bytes: seq<Byte>, raster: Raster, includePulses: bool, includeWaveforms: bool, budget: nat)
    : (s: RasterStep)
    ensures s.err == Success && !includePulses ==> s.raster.pulse.None?
  {
    var r := raster.(pulse := None);
    if |bytes| < RASTER_HEADER_SIZE then RasterStep(BufferShort, r, budget)
    else
      var h := RasterHeaderOf(bytes[..RASTER_HEADER_SIZE], r);
      if !includePulses then RasterStep(Success, h, budget)
      else
        var s := PulsesOutcome(bytes[RASTER_HEADER_SIZE..], h.pulseCount, includeWaveforms, budget);
        RasterStep(s.err, h.(pulse := s.pulse), s.budget)
  }

  // Methods ------------------------------------------------------------------------

  /** `_eaarlio_advance_buffer`: the cursor moves on by `offset` and the end of the buffer stays put. */
  method Advance(at: nat, length: nat, offset: nat) returns (at': nat, length': nat)
    requires length >= offset
    ensures at' == at + offset && at' + length' == at + length
  {
    at' := at + offset;
    length' := length - offset;
  }

  /** `_eaarlio_retrieve_wf` */
  method RetrieveWaveform(buffer: array<Byte>, at: nat, bufferLen: nat, slot: Option<seq<Byte>>, length: U16, memory: Memory)
    returns (err: Error, waveform: Option<seq<Byte>>)
    requires at + bufferLen <= buffer.Length && memory.hasCalloc
    modifies memory`budget
    ensures WaveStep(err, waveform, memory.budget) == RetrieveOutcome(buffer[at..at + bufferLen], length, slot, old(memory.budget))
  {
    if length < 1 {
      return Success, slot;
    }
    var wf := memory.Calloc(length);
    if wf == null {
      return MemoryAllocFail, None;
    }
    err := DecodeWaveform(buffer, at, bufferLen, wf, length);
    waveform := Some(wf[..]);
    if err == Success {
      assert wf[..] == buffer[at..at + length];
      WindowPrefix(buffer, at, bufferLen, length);
    } else {
      assert wf[..] == ZeroBytes(length);
    }
  }

  /** `_eaarlio_unpack_tx` */
  method UnpackTx(buffer: array<Byte>, at: nat, bufferLen: nat, pulse: Pulse, memory: Memory)
    returns (err: Error, result: Pulse, next: nat, remaining: nat)
    requires at + bufferLen <= buffer.Length && memory.hasCalloc
    modifies memory`budget
    ensures var s := TxOutcome(buffer[at..at + bufferLen], pulse, old(memory.budget));
      err == s.err && result == s.pulse && memory.budget == s.budget
      && (err == Success ==> next == at + s.consumed && next + remaining == at + bufferLen)
  {
    ghost var bytes := buffer[at..at + bufferLen];
    result, next, remaining := pulse, at, bufferLen;
    var length;
    err, length := DecodeTxLength(buffer, next, remaining, pulse.txLen);
    if err != Success {
      return;
    }
    result := result.(txLen := length);
    next, remaining := Advance(next, remaining, TX_LENGTH_SIZE);
    assert buffer[next..next + remaining] == bytes[TX_LENGTH_SIZE..];
    var final := Success;
    if result.txLen > remaining {
      result := result.(txLen := remaining);
      final := BufferShort;
    }
    var tx;
    err, tx := RetrieveWaveform(buffer, next, remaining, result.tx, result.txLen, memory);
    result := result.(tx := tx);
    if err != Success {
      return;
    }
    next, remaining := Advance(next, remaining, result.txLen);
    err := final;
  }

  /** `_eaarlio_unpack_rx` */
  method UnpackRx(buffer: array<Byte>, at: nat, bufferLen: nat, channel: nat, pulse: Pulse, memory: Memory)
    returns (err: Error, result: Pulse, next: nat, remaining: nat)
    requires at + bufferLen <= buffer.Length && memory.hasCalloc
    requires channel < MAX_RX_COUNT
    modifies memory`budget
    ensures var s := RxOutcome(buffer[at..at + bufferLen], pulse, channel, old(memory.budget));
      err == s.err && result == s.pulse && memory.budget == s.budget
      && (err == Success ==> next == at + s.consumed && next + remaining == at + bufferLen)
  {
    ghost var bytes := buffer[at..at + bufferLen];
    result, next, remaining := pulse, at, bufferLen;
    var length;
    err, length := DecodeRxLength(buffer, next, remaining, pulse.rxLen[channel]);
    if err != Success {
      return;
    }
    assert buffer[next..next + RX_LENGTH_SIZE] == bytes[..RX_LENGTH_SIZE];
    result := result.(rxLen := result.rxLen[channel := length]);
    next, remaining := Advance(next, remaining, RX_LENGTH_SIZE);
    assert buffer[next..next + remaining] == bytes[RX_LENGTH_SIZE..];
    var final := Success;
    if result.rxLen[channel] > remaining {
      result := result.(rxLen := result.rxLen[channel := remaining]);
      final := BufferShort;
    }
    var rx;
    err, rx := RetrieveWaveform(buffer, next, remaining, result.rx[channel], result.rxLen[channel], memory);
    result := result.(rx := result.rx[channel := rx]);
    if err != Success {
      return;
    }
    next, remaining := Advance(next, remaining, result.rxLen[channel]);
    err := final;
  }

  /**
   * `eaarlio_tld_unpack_waveforms`, with the channel loop capped at the four slots.
   * Every waveform pointer is NULL before the buffer and the handler are examined.
   */
  method UnpackWaveforms(buffer: array?<Byte>, at: nat, bufferLen: nat, pulse: Pulse, memory: Memory)
    returns (err: Error, result: Pulse)
    requires buffer != null ==> at + bufferLen <= buffer.Length
    modifies memory`budget
    ensures buffer == null ==> err == Null && result == NullWaveforms(pulse) && memory.budget == old(memory.budget)
    ensures buffer != null && !MemoryValid(memory) ==>
              err == MemoryInvalid && result == NullWaveforms(pulse) && memory.budget == old(memory.budget)
    ensures buffer != null && MemoryValid(memory) ==>
              var s := WaveformsOutcome(buffer[at..at + bufferLen], pulse, old(memory.budget));
              err == s.err && result == s.pulse && memory.budget == s.budget
  {
    result := NullWaveforms(pulse);
    if buffer == null {
      return Null, result;
    }
    if !MemoryValid(memory) {
      return MemoryInvalid, result;
    }
    ghost var bytes := buffer[at..at + bufferLen];
    ghost var t := TxOutcome(bytes, result, memory.budget);
    var next, remaining;
    err, result, next, remaining := UnpackTx(buffer, at, bufferLen, result, memory);
    if err != Success {
      return;
    }
    assert buffer[next..next + remaining] == bytes[t.consumed..];
    err, result := UnpackRxChannels(buffer, next, remaining, result, RxChannels(pulse), memory);
  }

  /** The channel loop of `eaarlio_tld_unpack_waveforms`, over channels `0..count`. */
  method UnpackRxChannels(buffer: array<Byte>, at: nat, bufferLen: nat, pulse: Pulse, count: nat, memory: Memory)
    returns (err: Error, result: Pulse)
    requires at + bufferLen <= buffer.Length && memory.hasCalloc
    requires count <= MAX_RX_COUNT
    modifies memory`budget
    ensures var s := RxLoopOutcome(buffer[at..at + bufferLen], pulse, 0, count, old(memory.budget));
      err == s.err && result == s.pulse && memory.budget == s.budget
  {
    ghost var goal := RxLoopOutcome(buffer[at..at + bufferLen], pulse, 0, count, memory.budget);
    result := pulse;
    var next, remaining := at, bufferLen;
    var channel := 0;
    while channel < count
      invariant channel <= count && next + remaining == at + bufferLen
      invariant RxLoopReaches(buffer[next..next + remaining], result, channel, count, memory.budget, goal)
      decreases count - channel
    {
      err, result, next, remaining := UnpackRxNext(buffer, next, remaining, channel, count, result, memory, goal);
      if err != Success {
        return;
      }
      channel := channel + 1;
    }
    err := Success;
  }

  /** The channel loop from `channel` ends where `goal` says. */
  ghost predicate RxLoopReaches(bytes: seq<Byte>, p: Pulse, channel: nat, count: nat, budget: nat, goal: PulseStep)
    requires channel <= count <= MAX_RX_COUNT
  {
    var s := RxLoopOutcome(bytes, p, channel, count, budget);
    s.err == goal.err && s.pulse == goal.pulse && s.budget == goal.budget
  }

  /** One pass of the channel loop: it stops with the loop's result, or moves past the channel. */
  method UnpackRxNext(buffer: array<Byte>, at: nat, bufferLen: nat, channel: nat, count: nat, pulse: Pulse, memory: Memory,
                      ghost goal: PulseStep)
    returns (err: Error, result: Pulse, next: nat, remaining: nat)
    requires at + bufferLen <= buffer.Length && memory.hasCalloc
    requires channel < count <= MAX_RX_COUNT
    requires RxLoopReaches(buffer[at..at + bufferLen], pulse, channel, count, memory.budget, goal)
    modifies memory`budget
    ensures err != Success ==> err == goal.err && result == goal.pulse && memory.budget == goal.budget
    ensures err == Success ==> next + remaining == at + bufferLen
    ensures err == Success ==> RxLoopReaches(buffer[next..next + remaining], result, channel + 1, count, memory.budget, goal)
  {
    ghost var here, budget := buffer[at..at + bufferLen], memory.budget;
    err, result, next, remaining := UnpackRx(buffer, at, bufferLen, channel, pulse, memory);
    RxLoopReachesTurn(here, pulse, channel, count, budget, goal);
    if err == Success {
      assert buffer[next..next + remaining] == here[next - at..];
    }
  }

  /** A channel loop that reaches `goal` either stops there at this channel, or reaches it from the next one. */
  lemma RxLoopReachesTurn(bytes: seq<Byte>, p: Pulse, channel: nat, count: nat, budget: nat, goal: PulseStep)
    requires channel < count <= MAX_RX_COUNT
    requires RxLoopReaches(bytes, p, channel, count, budget, goal)
    ensures var s := RxOutcome(bytes, p, channel, budget);
      (s.err != Success ==> s.err == goal.err && s.pulse == goal.pulse && s.budget == goal.budget)
      && (s.err == Success ==>
            s.consumed <= |bytes| && RxLoopReaches(bytes[s.consumed..], s.pulse, channel + 1, count, s.budget, goal))
  {
    RxLoopTurn(bytes, p, channel, count, budget);
  }

  /**
   * The body of the pulse loop of `eaarlio_tld_unpack_pulses` for the pulse starting at `at`.
   * The cursor moves past the declared waveform data length (cut to what remains),
   * whatever the waveforms themselves took.
   */
  method UnpackPulse(buffer: array<Byte>, at: nat, bufferLen: nat, pulse: Pulse, isLast: bool, includeWaveforms: bool, memory: Memory)
    returns (err: Error, result: Pulse, next: nat, remaining: nat)
    requires at + bufferLen <= buffer.Length && MemoryValid(memory)
    modifies memory`budget
    ensures var s := PulseOutcome(buffer[at..at + bufferLen], pulse, isLast, includeWaveforms, old(memory.budget));
      err == s.err && result == s.pulse && memory.budget == s.budget
      && (err == Success ==> next == at + s.consumed && next + remaining == at + bufferLen)
  {
    next, remaining := at, bufferLen;
    var dataLength;
    err, result, dataLength := UnpackPulseHead(buffer, at, bufferLen, pulse);
    if err != Success {
      return;
    }
    next, remaining := Advance(at, bufferLen, PULSE_HEADER_SIZE + WF_DATA_LENGTH_SIZE);
    ghost var bytes := buffer[at..at + bufferLen];
    assert bytes[PULSE_HEADER_SIZE..][..WF_DATA_LENGTH_SIZE] == bytes[PULSE_HEADER_SIZE..PULSE_HEADER_SIZE + WF_DATA_LENGTH_SIZE];
    assert bytes[PULSE_HEADER_SIZE..][WF_DATA_LENGTH_SIZE..] == buffer[next..next + remaining];
    assert buffer[next..next + dataLength] == buffer[next..next + remaining][..dataLength];
    err, result := UnpackPulseWaveforms(buffer, next, dataLength, result, isLast, includeWaveforms, memory);
    if err != Success {
      return;
    }
    next, remaining := Advance(next, remaining, dataLength);
    err := Success;
  }

  /** A slice of the window `at..at + len` of a buffer is the matching slice of the buffer. */
  lemma WithinWindow(buffer: array<Byte>, at: nat, len: nat, i: nat, j: nat)
    requires at + len <= buffer.Length && i <= j <= len
    ensures buffer[at..at + len][i..j] == buffer[at + i..at + j]
  {
    var window, inner, direct := buffer[at..at + len], buffer[at..at + len][i..j], buffer[at + i..at + j];
    forall k | 0 <= k < |inner|
      ensures inner[k] == direct[k]
    {
      assert inner[k] == window[i + k];
    }
  }

  /** A prefix of the window `at..at + len` of a buffer is the window of that length. */
  lemma WindowPrefix(buffer: array<Byte>, at: nat, len: nat, j: nat)
    requires at + len <= buffer.Length && j <= len
    ensures buffer[at..at + len][..j] == buffer[at..at + j]
  {
    var window, inner, direct := buffer[at..at + len], buffer[at..at + len][..j], buffer[at..at + j];
    forall k | 0 <= k < |inner|
      ensures inner[k] == direct[k]
    {
      assert inner[k] == window[k];
    }
  }

  /** The fixed part of the pulse loop body: the pulse header and the waveform data length, cut to what remains. */
  method UnpackPulseHead(buffer: array<Byte>, at: nat, bufferLen: nat, pulse: Pulse)
    returns (err: Error, result: Pulse, dataLength: nat)
    requires at + bufferLen <= buffer.Length
    ensures var bytes := buffer[at..at + bufferLen];
      err == (if |bytes| < PULSE_HEADER_SIZE + WF_DATA_LENGTH_SIZE then BufferShort else Success)
      && result == (if |bytes| < PULSE_HEADER_SIZE then pulse else PulseHeaderOf(bytes[..PULSE_HEADER_SIZE], pulse))
      && (err == Success ==>
            var rest := bytes[PULSE_HEADER_SIZE + WF_DATA_LENGTH_SIZE..];
            var declared := DecodeUint16(bytes[PULSE_HEADER_SIZE..PULSE_HEADER_SIZE + WF_DATA_LENGTH_SIZE]);
            dataLength == (if declared > |rest| then |rest| else declared)
            && dataLength <= |rest|)
  {
    ghost var bytes := buffer[at..at + bufferLen];
    var next, remaining := at, bufferLen;
    err, result := DecodePulseHeader(buffer, next, remaining, pulse);
    dataLength := 0;
    if err != Success {
      return;
    }
    assert buffer[at..at + PULSE_HEADER_SIZE] == bytes[..PULSE_HEADER_SIZE];
    next, remaining := Advance(next, remaining, PULSE_HEADER_SIZE);
    var declared;
    err, declared := DecodeWfDataLength(buffer, next, remaining, 0);
    if err != Success {
      return;
    }
    WithinWindow(buffer, at, bufferLen, PULSE_HEADER_SIZE, PULSE_HEADER_SIZE + WF_DATA_LENGTH_SIZE);
    assert buffer[next..next + WF_DATA_LENGTH_SIZE] == bytes[PULSE_HEADER_SIZE..PULSE_HEADER_SIZE + WF_DATA_LENGTH_SIZE];
    next, remaining := Advance(next, remaining, WF_DATA_LENGTH_SIZE);
    dataLength := declared;
    if dataLength > remaining {
      dataLength := remaining;
    }
  }

  /** The waveform part of the pulse loop body. */
  method UnpackPulseWaveforms(buffer: array<Byte>, at: nat, dataLength: nat, pulse: Pulse, isLast: bool, includeWaveforms: bool,
                              memory: Memory)
    returns (err: Error, result: Pulse)
    requires at + dataLength <= buffer.Length && MemoryValid(memory)
    modifies memory`budget
    ensures var s := PulseWaveformsOutcome(buffer[at..at + dataLength], pulse, isLast, includeWaveforms, old(memory.budget));
      err == s.err && result == s.pulse && memory.budget == s.budget
  {
    if !includeWaveforms {
      return Success, NullWaveforms(pulse);
    }
    err, result := UnpackWaveforms(buffer, at, dataLength, pulse, memory);
    if err == BufferShort {
      // The hardware shortens the last waveform of the last pulse: tolerate that when
      // every expected waveform made it.
      var tolerated := ShortIsTolerated(result, isLast);
      if tolerated {
        err := Success;
      }
    }
  }

  /** The tolerance test of the pulse loop: the last pulse, tx present, and rx present on every capped channel. */
  method ShortIsTolerated(pulse: Pulse, isLast: bool) returns (tolerated: bool)
    ensures tolerated == ShortTolerated(pulse, isLast)
  {
    if !isLast || pulse.tx.None? {
      return false;
    }
    var j: nat := RxChannels(pulse);
    while j > 0
      invariant j <= RxChannels(pulse) <= |pulse.rx|
      invariant forall k | j <= k < RxChannels(pulse) :: pulse.rx[k].Some?
    {
      j := j - 1;
      if pulse.rx[j].None? {
        return false;
      }
    }
    return true;
  }

  /**
   * `eaarlio_tld_unpack_pulses`, with a pulse index as wide as `pulse_count`.
   * On an error the pulse array filled so far is handed back.
   */
  method UnpackPulses(buffer: array?<Byte>, at: nat, bufferLen: nat, raster: Raster, memory: Memory, includeWaveforms: bool)
    returns (err: Error, result: Raster)
    requires buffer != null ==> at + bufferLen <= buffer.Length
    modifies memory`budget
    ensures buffer == null ==> err == Null && result == raster && memory.budget == old(memory.budget)
    ensures buffer != null && raster.pulseCount < 1 ==>
              err == Success && result == raster.(pulse := None) && memory.budget == old(memory.budget)
    ensures buffer != null && raster.pulseCount >= 1 && !MemoryValid(memory) ==>
              err == MemoryInvalid && result == raster && memory.budget == old(memory.budget)
    ensures buffer != null && raster.pulseCount >= 1 && MemoryValid(memory) ==>
              var s := PulsesOutcome(buffer[at..at + bufferLen], raster.pulseCount, includeWaveforms, old(memory.budget));
              err == s.err && result == raster.(pulse := s.pulse) && memory.budget == s.budget
  {
    result := raster;
    if buffer == null {
      return Null, result;
    }
    if raster.pulseCount < 1 {
      return Success, raster.(pulse := None);
    }
    if !MemoryValid(memory) {
      return MemoryInvalid, result;
    }
    ghost var goal := PulsesOutcome(buffer[at..at + bufferLen], raster.pulseCount, includeWaveforms, memory.budget);
    var ok := memory.Reserve();
    if !ok {
      return MemoryAllocFail, raster.(pulse := None);
    }
    var pulses := new Pulse[raster.pulseCount](_ => EmptyPulse);
    err := UnpackPulseArray(buffer, at, bufferLen, pulses, includeWaveforms, memory);
    result := raster.(pulse := Some(pulses[..]));
  }

  /** Filling the first empty slot after `done`. */
  lemma FillNext(done: seq<Pulse>, p: Pulse, n: nat)
    ensures (done + EmptyPulses(n + 1))[|done| := p] == done + [p] + EmptyPulses(n)
  {
  }

  /** A pulse that unpacks moves the pulse loop on to the next pulse, past the bytes it took. */
  lemma PulsesLoopAdvance(bytes: seq<Byte>, index: nat, count: nat, includeWaveforms: bool, budget: nat, done: seq<Pulse>)
    requires |done| == index < count
    requires PulseOutcome(bytes, EmptyPulse, index + 1 == count, includeWaveforms, budget).err == Success
    ensures var s := PulseOutcome(bytes, EmptyPulse, index + 1 == count, includeWaveforms, budget);
      PulsesLoopOutcome(bytes, index, count, includeWaveforms, budget, done)
      == PulsesLoopOutcome(bytes[s.consumed..], index + 1, count, includeWaveforms, s.budget, done + [s.pulse])
  {
  }

  /** One turn of the pulse loop: it either stops at the pulse in front with the loop's result, or moves past that pulse. */
  lemma PulsesLoopTurn(bytes: seq<Byte>, index: nat, count: nat, includeWaveforms: bool, budget: nat, done: seq<Pulse>,
                       goal: PulsesStep)
    requires |done| == index < count
    requires PulsesLoopOutcome(bytes, index, count, includeWaveforms, budget, done) == goal
    ensures var s := PulseOutcome(bytes, EmptyPulse, index + 1 == count, includeWaveforms, budget);
      (s.err != Success ==> PulsesStep(s.err, Some(done + [s.pulse] + EmptyPulses(count - index - 1)), s.budget) == goal)
      && (s.err == Success ==> PulsesLoopOutcome(bytes[s.consumed..], index + 1, count, includeWaveforms, s.budget, done + [s.pulse]) == goal)
  {
    var s := PulseOutcome(bytes, EmptyPulse, index + 1 == count, includeWaveforms, budget);
    if s.err != Success {
      PulsesLoopStops(bytes, index, count, includeWaveforms, budget, done);
    } else {
      PulsesLoopAdvance(bytes, index, count, includeWaveforms, budget, done);
    }
  }

  /** A pulse that fails to unpack ends the pulse loop, the slots after it left zeroed. */
  lemma PulsesLoopStops(bytes: seq<Byte>, index: nat, count: nat, includeWaveforms: bool, budget: nat, done: seq<Pulse>)
    requires |done| == index < count
    requires PulseOutcome(bytes, EmptyPulse, index + 1 == count, includeWaveforms, budget).err != Success
    ensures var s := PulseOutcome(bytes, EmptyPulse, index + 1 == count, includeWaveforms, budget);
      PulsesLoopOutcome(bytes, index, count, includeWaveforms, budget, done)
      == PulsesStep(s.err, Some(done + [s.pulse] + EmptyPulses(count - index - 1)), s.budget)
  {
  }

  /** The pulse loop of `eaarlio_tld_unpack_pulses`, filling a freshly zeroed pulse array in place. */
  method UnpackPulseArray(buffer: array<Byte>, at: nat, bufferLen: nat, pulses: array<Pulse>, includeWaveforms: bool,
                          memory: Memory)
    returns (err: Error)
    requires at + bufferLen <= buffer.Length && MemoryValid(memory)
    requires forall k | 0 <= k < pulses.Length :: pulses[k] == EmptyPulse
    modifies memory`budget, pulses
    ensures PulsesStep(err, Some(pulses[..]), memory.budget)
            == PulsesLoopOutcome(buffer[at..at + bufferLen], 0, pulses.Length, includeWaveforms, old(memory.budget), [])
  {
    ghost var goal := PulsesLoopOutcome(buffer[at..at + bufferLen], 0, pulses.Length, includeWaveforms, memory.budget, []);
    var count := pulses.Length;
    var next: nat, remaining: nat := at, bufferLen;
    ghost var done: seq<Pulse> := [];
    assert pulses[..] == done + EmptyPulses(count);
    var i := 0;
    while i < count
      invariant i <= count && |done| == i && next + remaining == at + bufferLen
      invariant pulses[..] == done + EmptyPulses(count - i)
      invariant PulsesLoopOutcome(buffer[next..next + remaining], i, count, includeWaveforms, memory.budget, done) == goal
    {
      var next', remaining';
      ghost var pulse;
      err, next', remaining', pulse := UnpackPulseNext(buffer, next, remaining, pulses, i, done, goal, includeWaveforms, memory);
      if err != Success {
        return;
      }
      done := done + [pulse];
      next, remaining := next', remaining';
      i := i + 1;
    }
    assert pulses[..] == done;
    err := Success;
  }

  /**
   * One turn of the pulse loop of `eaarlio_tld_unpack_pulses`, stated against the loop's outcome `goal`:
   * either the loop goes on past pulse `i`, or it stops here with `goal` as its result.
   */
  method UnpackPulseNext(buffer: array<Byte>, at: nat, bufferLen: nat, pulses: array<Pulse>, i: nat, ghost done: seq<Pulse>,
                         ghost goal: PulsesStep, includeWaveforms: bool, memory: Memory)
    returns (err: Error, next: nat, remaining: nat, ghost pulse: Pulse)
    requires at + bufferLen <= buffer.Length && MemoryValid(memory)
    requires |done| == i < pulses.Length && pulses[..] == done + EmptyPulses(pulses.Length - i)
    requires PulsesLoopOutcome(buffer[at..at + bufferLen], i, pulses.Length, includeWaveforms, memory.budget, done) == goal
    modifies memory`budget, pulses
    ensures err != Success ==> PulsesStep(err, Some(pulses[..]), memory.budget) == goal
    ensures err == Success ==> next + remaining == at + bufferLen
    ensures err == Success ==> pulses[..] == done + [pulse] + EmptyPulses(pulses.Length - i - 1)
    ensures err == Success ==>
      PulsesLoopOutcome(buffer[next..next + remaining], i + 1, pulses.Length, includeWaveforms, memory.budget, done + [pulse]) == goal
  {
    ghost var here := buffer[at..at + bufferLen];
    ghost var s := PulseOutcome(here, EmptyPulse, i + 1 == pulses.Length, includeWaveforms, memory.budget);
    PulsesLoopTurn(here, i, pulses.Length, includeWaveforms, memory.budget, done, goal);
    err, next, remaining := UnpackPulseAt(buffer, at, bufferLen, here, pulses, i, done, includeWaveforms, memory);
    pulse := s.pulse;
    if err == Success {
      assert buffer[next..next + remaining] == here[next - at..];
    }
  }

  /** One turn of the pulse loop of `eaarlio_tld_unpack_pulses`: pulse `i` unpacked into its zeroed slot. */
  method UnpackPulseAt(buffer: array<Byte>, at: nat, bufferLen: nat, ghost bytes: seq<Byte>, pulses: array<Pulse>, i: nat,
                       ghost done: seq<Pulse>, includeWaveforms: bool, memory: Memory)
    returns (err: Error, next: nat, remaining: nat)
    requires at + bufferLen <= buffer.Length && MemoryValid(memory) && buffer[at..at + bufferLen] == bytes
    requires |done| == i < pulses.Length && pulses[..] == done + EmptyPulses(pulses.Length - i)
    modifies memory`budget, pulses
    ensures var s := PulseOutcome(bytes, EmptyPulse, i + 1 == pulses.Length, includeWaveforms, old(memory.budget));
      err == s.err && memory.budget == s.budget
      && pulses[..] == done + [s.pulse] + EmptyPulses(pulses.Length - i - 1)
      && (err == Success ==> next == at + s.consumed && next + remaining == at + bufferLen)
  {
    var count := pulses.Length;
    assert pulses[i] == (done + EmptyPulses(count - i))[i];
    var pulse;
    err, pulse, next, remaining := UnpackPulse(buffer, at, bufferLen, pulses[i], i + 1 == count, includeWaveforms, memory);
    pulses[i] := pulse;
    FillNext(done, pulse, count - i - 1);
  }

  /**
   * `eaarlio_tld_unpack_raster`: the pulse array is NULL before the header is decoded; the
   * pulses follow only when asked for.
   */
  method UnpackRaster(buffer: array?<Byte>, at: nat, bufferLen: nat, raster: Raster, memory: Memory,
                      includePulses: bool, includeWaveforms: bool)
    returns (err: Error, result: Raster)
    requires buffer != null ==> at + bufferLen <= buffer.Length
    modifies memory`budget
    ensures buffer == null || !MemoryValid(memory) ==>
              err == (if buffer == null then Null else MemoryInvalid) && result == raster && memory.budget == old(memory.budget)
    ensures buffer != null && MemoryValid(memory) ==>
              RasterStep(err, result, memory.budget)
              == RasterOutcome(buffer[at..at + bufferLen], raster, includePulses, includeWaveforms, old(memory.budget))
  {
    result := raster;
    if buffer == null {
      return Null, result;
    }
    if !MemoryValid(memory) {
      return MemoryInvalid, result;
    }
    ghost var bytes := buffer[at..at + bufferLen];
    result := result.(pulse := None);
    err, result := DecodeRasterHeader(buffer, at, bufferLen, result);
    if err != Success {
      return;
    }
    assert buffer[at..at + RASTER_HEADER_SIZE] == bytes[..RASTER_HEADER_SIZE];
    if !includePulses {
      return Success, result;
    }
    var next, remaining := Advance(at, bufferLen, RASTER_HEADER_SIZE);
    assert buffer[next..next + remaining] == bytes[RASTER_HEADER_SIZE..];
    err, result := UnpackPulses(buffer, next, remaining, result, memory, includeWaveforms);
  }
}
