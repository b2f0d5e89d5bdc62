/**
 * Two width hazards of tld_unpack.c, modelled as written beside the corrected loops that
 * the rest of the model uses (`TldUnpack.PulsesLoopOutcome` and `TldUnpack.WaveformsOutcome`).
 *
 * - The pulse index of `eaarlio_tld_unpack_pulses` is an 8-bit counter, while a raster may
 *   declare up to 32767 pulses: past 255 the index wraps to 0, the loop never reaches
 *   `pulse_count`, and the raster cannot be unpacked.
 * - The channel loop of `eaarlio_tld_unpack_waveforms` runs to the decoded `rx_count`, which
 *   the data may set as high as 255, while a pulse has four receive slots.
 */
module TldUnpackFindings {
  import opened Bytes
  import opened Errors
  import opened TldTypes
  import opened TldCodec
  import opened TldSize
  import opened TldPack
  import opened TldUnpack
  import opened TldRoundTrip

  // The 8-bit pulse index --------------------------------------------------------------

  /**
   * The pulse loop as written: the index is kept modulo 256, each pass refills the pulse at
   * that index, and a pulse is the last one when the index plus one reaches `pulse_count`.
   * Every successful pass consumes at least a pulse header, so the loop ends with the bytes.
   */
  function PulsesLoopAsWritten(bytes: seq<Byte>, i: Byte, count: U16, includeWaveforms: bool, budget: nat, pulses: seq<Pulse>)
    : (s: PulsesStep)
    requires |pulses| == count
    ensures s.pulse.Some? && |s.pulse.value| == count
    decreases |bytes|
  {
    if i >= count then PulsesStep(Success, Some(pulses), budget)
    else
      var s := PulseOutcome(bytes, pulses[i], i + 1 >= count, includeWaveforms, budget);
      if s.err != Success then PulsesStep(s.err, Some(pulses[i := s.pulse]), s.budget)
      else PulsesLoopAsWritten(bytes[s.consumed..], (i + 1) % 0x100, count, includeWaveforms, s.budget, pulses[i := s.pulse])
  }

  /** `eaarlio_tld_unpack_pulses` as written, on a non-NULL buffer and a valid handler. */
  function PulsesOutcomeAsWritten(bytes: seq<Byte>, pulseCount: U16, includeWaveforms: bool, budget: nat): (s: PulsesStep)
    ensures pulseCount < 1 ==> s == PulsesStep(Success, None, budget)
  {
    if pulseCount < 1 then PulsesStep(Success, None, budget)
    else if budget == 0 then PulsesStep(MemoryAllocFail, None, 0)
    else PulsesLoopAsWritten(bytes, 0, pulseCount, includeWaveforms, budget - 1, EmptyPulses(pulseCount))
  }

  /** With more than 255 pulses the wrapped index never reaches the count: the loop can only end in an error. */
  lemma {:induction false} WrappedIndexNeverFinishes(bytes: seq<Byte>, i: Byte, count: U16, includeWaveforms: bool, budget: nat,
                                                     pulses: seq<Pulse>)
    requires |pulses| == count && count > 0xFF
    ensures PulsesLoopAsWritten(bytes, i, count, includeWaveforms, budget, pulses).err != Success
    ensures i == 0 && includeWaveforms && pulses == EmptyPulses(count) ==> PulsesOutcomeAsWritten(bytes, count, true, budget + 1).err != Success
    decreases |bytes|
  {
    var s := PulseOutcome(bytes, pulses[i], i + 1 >= count, includeWaveforms, budget);
    if s.err == Success {
      WrappedIndexNeverFinishes(bytes[s.consumed..], (i + 1) % 0x100, count, includeWaveforms, s.budget, pulses[i := s.pulse]);
    }
  }

  /** Up to 255 pulses the index does not wrap, and the loop as written is the corrected loop. */
  lemma {:induction false} PulsesLoopAsWrittenBelowWrap(bytes: seq<Byte>, i: nat, count: U16, includeWaveforms: bool, budget: nat,
                                                        done: seq<Pulse>)
    requires count <= 0xFF && |done| == i <= count
    ensures PulsesLoopAsWritten(bytes, i, count, includeWaveforms, budget, done + EmptyPulses(count - i))
            == PulsesLoopOutcome(bytes, i, count, includeWaveforms, budget, done)
    decreases count - i
  {
    var pulses := done + EmptyPulses(count - i);
    if i < count {
      assert pulses[i] == EmptyPulse;
      var s := PulseOutcome(bytes, EmptyPulse, i + 1 == count, includeWaveforms, budget);
      var rest := EmptyPulses(count - i - 1);
      assert pulses[i := s.pulse] == done + [s.pulse] + rest;
      if s.err == Success {
        assert (i + 1) % 0x100 == i + 1;
        PulsesLoopAsWrittenBelowWrap(bytes[s.consumed..], i + 1, count, includeWaveforms, s.budget, done + [s.pulse]);
      }
    } else {
      assert pulses == done;
    }
  }

  /**
   * A packed raster of more than 255 pulses, with enough allocations, unpacks with the corrected
   * loop but not with the loop as written.
   */
  lemma PulseIndexWrapLosesRaster(r: Raster, budget: nat)
    requires RasterEncodable(r) && r.pulseCount > 0xFF && budget >= RasterAllocations(r)
    ensures PulsesEncodable(PulsesOf(r))
    ensures PulsesOutcomeAsWritten(PulsesBytes(PulsesOf(r)), r.pulseCount, true, budget).err != Success
    ensures PulsesOutcome(PulsesBytes(PulsesOf(r)), r.pulseCount, true, budget).err == Success
  {
    UnpackPackedPulses(r, budget);
    PulsesAsWrittenFails(PulsesBytes(PulsesOf(r)), r.pulseCount, budget);
  }

  /** Above 255 pulses, `eaarlio_tld_unpack_pulses` as written fails on every buffer. */
  lemma PulsesAsWrittenFails(bytes: seq<Byte>, count: U16, budget: nat)
    requires count > 0xFF
    ensures PulsesOutcomeAsWritten(bytes, count, true, budget).err != Success
  {
    if budget > 0 {
      WrappedIndexNeverFinishes(bytes, 0, count, true, budget - 1, EmptyPulses(count));
    }
  }

  // The uncapped channel loop ----------------------------------------------------------

  /** How the channel loop as written ends: normally, or by indexing a receive slot that does not exist. */
  datatype RxRun = Finished(step: PulseStep) | SlotOverrun(channel: nat)

  /** The channel loop as written, from `channel` up to the decoded `rx_count`, without the four-slot cap. */
  function RxLoopAsWritten(bytes: seq<Byte>, p: Pulse, channel: nat, count: Byte, budget: nat): (r: RxRun)
    requires channel <= count
    ensures r.SlotOverrun? ==> MAX_RX_COUNT <= r.channel < count
    decreases count - channel
  {
    if channel == count then Finished(PulseStep(Success, p, budget, 0))
    else if channel >= MAX_RX_COUNT then SlotOverrun(channel)
    else
      var s := RxOutcome(bytes, p, channel, budget);
      if s.err != Success then Finished(s)
      else
        match RxLoopAsWritten(bytes[s.consumed..], s.pulse, channel + 1, count, s.budget)
        case Finished(t) => Finished(PulseStep(t.err, t.pulse, t.budget, s.consumed + t.consumed))
        case SlotOverrun(c) => SlotOverrun(c)
  }

  /** `eaarlio_tld_unpack_waveforms` as written, on a non-NULL buffer and a valid handler. */
  function WaveformsAsWritten(bytes: seq<Byte>, p: Pulse, budget: nat): RxRun
  {
    var t := TxOutcome(bytes, NullWaveforms(p), budget);
    if t.err != Success then Finished(t)
    else
      match RxLoopAsWritten(bytes[t.consumed..], t.pulse, 0, p.rxCount, t.budget)
      case Finished(r) => Finished(PulseStep(r.err, r.pulse, r.budget, t.consumed + r.consumed))
      case SlotOverrun(c) => SlotOverrun(c)
  }

  /** Within the four slots the loop as written is the capped loop. */
  lemma {:induction false} RxLoopAsWrittenWithinSlots(bytes: seq<Byte>, p: Pulse, channel: nat, count: Byte, budget: nat)
    requires channel <= count <= MAX_RX_COUNT
    ensures RxLoopAsWritten(bytes, p, channel, count, budget) == Finished(RxLoopOutcome(bytes, p, channel, count, budget))
    decreases count - channel
  {
    if channel < count {
      var s := RxOutcome(bytes, p, channel, budget);
      if s.err == Success {
        RxLoopAsWrittenWithinSlots(bytes[s.consumed..], s.pulse, channel + 1, count, s.budget);
      }
    }
  }

  /** For a pulse declaring at most four channels, the waveforms as written are the corrected ones. */
  lemma WaveformsAsWrittenWithinSlots(bytes: seq<Byte>, p: Pulse, budget: nat)
    requires p.rxCount <= MAX_RX_COUNT
    ensures WaveformsAsWritten(bytes, p, budget) == Finished(WaveformsOutcome(bytes, p, budget))
  {
    var t := TxOutcome(bytes, NullWaveforms(p), budget);
    if t.err == Success {
      RxLoopAsWrittenWithinSlots(bytes[t.consumed..], t.pulse, 0, p.rxCount, t.budget);
    }
  }

  /**
   * With more than four declared channels, the loop as written reaches a fifth slot whenever the
   * four real channels were read without error.
   */
  lemma {:induction false} RxLoopOverruns(bytes: seq<Byte>, p: Pulse, channel: nat, count: Byte, budget: nat)
    requires channel <= MAX_RX_COUNT < count
    requires RxLoopOutcome(bytes, p, channel, MAX_RX_COUNT, budget).err == Success
    ensures RxLoopAsWritten(bytes, p, channel, count, budget) == SlotOverrun(MAX_RX_COUNT)
    decreases MAX_RX_COUNT - channel
  {
    if channel < MAX_RX_COUNT {
      var s := RxOutcome(bytes, p, channel, budget);
      RxLoopOverruns(bytes[s.consumed..], s.pulse, channel + 1, count, s.budget);
    }
  }

  /**
   * A pulse declaring five channels, with a zero tx length and five zero rx lengths: the loop as
   * written goes on to index slot 4 of the four, while the capped loop reads four channels and succeeds.
   */
  lemma RxCountFiveOverruns()
    ensures var p := EmptyPulse.(rxCount := 5);
      var bytes := [0, 0, 0, 0, 0, 0, 0, 0, 0, 0, 0];
      WaveformsAsWritten(bytes, p, 0) == SlotOverrun(4) && WaveformsOutcome(bytes, p, 0).err == Success
  {
    var p := EmptyPulse.(rxCount := 5);
    var bytes: seq<Byte> := [0, 0, 0, 0, 0, 0, 0, 0, 0, 0, 0];
    var t := TxOutcome(bytes, NullWaveforms(p), 0);
    assert t == PulseStep(Success, NullWaveforms(p), 0, 1);
    var q := NullWaveforms(p);
    var tail := bytes[1..];
    ZeroChannels(tail, q, 0);
    RxLoopOverruns(tail, q, 0, 5, 0);
  }

  /** Channels `channel..4` each of length zero read without error, two bytes apiece, allocating nothing. */
  lemma {:induction false} ZeroChannels(bytes: seq<Byte>, p: Pulse, channel: nat)
    requires channel <= MAX_RX_COUNT && |bytes| >= 2 * (MAX_RX_COUNT - channel)
    requires forall k | 0 <= k < |bytes| :: bytes[k] == 0
    ensures RxLoopOutcome(bytes, p, channel, MAX_RX_COUNT, 0).err == Success
    decreases MAX_RX_COUNT - channel
  {
    if channel < MAX_RX_COUNT {
      var s := RxOutcome(bytes, p, channel, 0);
      assert bytes[..RX_LENGTH_SIZE] == [0, 0];
      assert s.err == Success && s.consumed == 2;
      ZeroChannels(bytes[s.consumed..], s.pulse, channel + 1);
    }
  }

  /**
   * The corrected loop reads a pulse declaring more than four channels exactly as it reads the
   * same pulse declaring four: the extra channels are ignored and only `rx_count` differs.
   */
  lemma WaveformsCapped(bytes: seq<Byte>, p: Pulse, budget: nat)
    requires p.rxCount > MAX_RX_COUNT
    ensures var s := WaveformsOutcome(bytes, p.(rxCount := MAX_RX_COUNT), budget);
      WaveformsOutcome(bytes, p, budget) == s.(pulse := s.pulse.(rxCount := p.rxCount))
  {
    var q := p.(rxCount := MAX_RX_COUNT);
    var t := TxOutcome(bytes, NullWaveforms(q), budget);
    assert NullWaveforms(p) == NullWaveforms(q).(rxCount := p.rxCount);
    if t.err == Success {
      RxLoopIgnoresCount(bytes[t.consumed..], t.pulse, p.rxCount, 0, MAX_RX_COUNT, t.budget);
    }
  }

  /** The channel loop never looks at `rx_count` itself: changing it changes only that field of the result. */
  lemma {:induction false} RxLoopIgnoresCount(bytes: seq<Byte>, p: Pulse, c: Byte, channel: nat, count: nat, budget: nat)
    requires channel <= count <= MAX_RX_COUNT
    ensures var s := RxLoopOutcome(bytes, p, channel, count, budget);
      RxLoopOutcome(bytes, p.(rxCount := c), channel, count, budget) == s.(pulse := s.pulse.(rxCount := c))
    decreases count - channel
  {
    if channel < count {
      var s := RxOutcome(bytes, p, channel, budget);
      if s.err == Success {
        RxLoopIgnoresCount(bytes[s.consumed..], s.pulse, c, channel + 1, count, s.budget);
      }
    }
  }
}
