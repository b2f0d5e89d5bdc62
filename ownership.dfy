/**
 * Releasing what a pulse and a raster own (pulse.c, raster.c).
 *
 * A pulse owns its tx waveform and the four rx waveform slots; a raster owns its pulse array
 * and, through it, the waveforms of its first `pulse_count` pulses. Freeing hands each non-NULL
 * block to the handler's `free` and leaves the pointer NULL, so a second call frees nothing.
 */
module Ownership {
  import opened Bytes
  import opened Errors
  import opened TldTypes
  import opened TldSize
  import opened TldPack
  import opened TldUnpack
  import opened TldRoundTrip
  import opened Memories

  /** 1 for a non-NULL waveform pointer. */
  function Held(w: Option<seq<Byte>>): nat
  {
    if w.Some? then 1 else 0
  }

  /** The non-NULL rx slots from `j` on. */
  function RxHeld(p: Pulse, j: nat): nat
    requires j <= MAX_RX_COUNT
    decreases MAX_RX_COUNT - j
  {
    if j == MAX_RX_COUNT then 0 else Held(p.rx[j]) + RxHeld(p, j + 1)
  }

  /** The waveform blocks a pulse holds: tx and every non-NULL rx slot, whatever `rx_count` says. */
  function PulseHeld(p: Pulse): nat
  {
    Held(p.tx) + RxHeld(p, 0)
  }

  /** The waveform blocks a run of pulses holds. */
  function PulsesHeld(ps: seq<Pulse>): nat
  {
    if ps == [] then 0 else PulseHeld(ps[0]) + PulsesHeld(ps[1..])
  }

  /**
   * `eaarlio_pulse_free`: with a complete handler, tx and all four rx slots are freed when
   * non-NULL and become NULL; nothing else in the pulse changes. An incomplete handler frees nothing.
   */
  method PulseFree(pulse: Pulse, memory: Memory) returns (err: Error, result: Pulse)
    modifies memory`released
    ensures memory.budget == old(memory.budget)
    ensures !MemoryValid(memory) ==> err == MemoryInvalid && result == pulse && memory.released == old(memory.released)
    ensures MemoryValid(memory) ==>
              err == Success && result == NullWaveforms(pulse) && memory.released == old(memory.released) + PulseHeld(pulse)
  {
    if !MemoryValid(memory) {
      return MemoryInvalid, pulse;
    }
    result := pulse;
    if result.tx.Some? {
      memory.Free();
      result := result.(tx := None);
    }
    var i := 0;
    while i < MAX_RX_COUNT
      invariant i <= MAX_RX_COUNT && memory.budget == old(memory.budget)
      invariant result == pulse.(tx := None, rx := result.rx)
      invariant forall k | 0 <= k < MAX_RX_COUNT :: result.rx[k] == if k < i then None else pulse.rx[k]
      invariant memory.released + RxHeld(pulse, i) == old(memory.released) + PulseHeld(pulse)
    {
      if result.rx[i].Some? {
        memory.Free();
        result := result.(rx := result.rx[i := None]);
      }
      i := i + 1;
    }
    assert result.rx == NoWaveforms;
    err := Success;
  }

  /** Freeing a pulse a second time finds every pointer NULL: it frees nothing and changes nothing. */
  lemma PulseFreeIdempotent(p: Pulse)
    ensures NullWaveforms(NullWaveforms(p)) == NullWaveforms(p)
    ensures PulseHeld(NullWaveforms(p)) == 0
  {
    assert RxHeld(NullWaveforms(p), 3) == 0;
    assert RxHeld(NullWaveforms(p), 1) == 0;
  }

  /**
   * `eaarlio_raster_free`: with a complete handler and a pulse array, the waveforms of pulses
   * `0..pulse_count` are freed, then the array itself, and the pointer becomes NULL;
   * `pulse_count` is unchanged. A NULL array is a successful no-op.
   */
  method RasterFree(raster: Raster, memory: Memory) returns (err: Error, result: Raster)
    requires raster.pulse.Some? ==> raster.pulseCount <= |raster.pulse.value|
    modifies memory`released
    ensures memory.budget == old(memory.budget)
    ensures !MemoryValid(memory) ==> err == MemoryInvalid && result == raster && memory.released == old(memory.released)
    ensures MemoryValid(memory) && raster.pulse.None? ==>
              err == Success && result == raster && memory.released == old(memory.released)
    ensures MemoryValid(memory) && raster.pulse.Some? ==>
              err == Success && result == raster.(pulse := None)
              && memory.released == old(memory.released) + PulsesHeld(raster.pulse.value[..raster.pulseCount]) + 1
  {
    if !MemoryValid(memory) {
      return MemoryInvalid, raster;
    }
    if raster.pulse.None? {
      return Success, raster;
    }
    var pulses := raster.pulse.value;
    ghost var owned := pulses[..raster.pulseCount];
    var i := 0;
    while i < raster.pulseCount
      invariant i <= raster.pulseCount && |pulses| == |raster.pulse.value|
      invariant pulses[i..raster.pulseCount] == owned[i..]
      invariant memory.budget == old(memory.budget)
      invariant memory.released + PulsesHeld(owned[i..]) == old(memory.released) + PulsesHeld(owned)
    {
      assert owned[i..] == [owned[i]] + owned[i + 1..];
      var freed;
      err, freed := PulseFree(pulses[i], memory);
      pulses := pulses[i := freed];
      i := i + 1;
    }
    memory.Free();
    result := raster.(pulse := None);
    err := Success;
  }

  /**
   * What unpacking a packed raster allocates is exactly what freeing the result releases: the
   * pulse array and one block per non-empty waveform.
   */
  lemma FreeReleasesUnpacked(r: Raster)
    requires RasterEncodable(r) && r.pulseCount >= 1
    ensures var s := StoredRaster(r);
      s.pulse.Some? && r.pulseCount == |s.pulse.value|
      && PulsesHeld(s.pulse.value[..r.pulseCount]) + 1 == RasterAllocations(r)
  {
    PackedPulses(r);
    var ps := PulsesOf(r);
    StoredPulsesHeld(ps);
    assert StoredPulses(ps)[..r.pulseCount] == StoredPulses(ps);
  }

  lemma {:induction false} StoredPulsesHeld(ps: seq<Pulse>)
    requires PulsesEncodable(ps)
    ensures PulsesHeld(StoredPulses(ps)) == PulsesAllocations(ps)
  {
    if ps != [] {
      assert PulsesEncodable(ps[1..]) by {
        forall i | 0 <= i < |ps[1..]| ensures PulseEncodable(ps[1..][i]) {
          assert ps[1..][i] == ps[i + 1];
        }
      }
      StoredPulseHeld(ps[0]);
      StoredPulsesHeld(ps[1..]);
      assert StoredPulses(ps)[1..] == StoredPulses(ps[1..]);
      assert PulseAllocs(ps)[1..] == PulseAllocs(ps[1..]);
    }
  }

  /** A pulse as unpack stores it holds one block per non-empty waveform. */
  lemma StoredPulseHeld(p: Pulse)
    requires PulseEncodable(p)
    ensures PulseHeld(StoredPulse(p)) == PulseAllocations(p)
  {
    StoredRxHeld(p, 0);
  }

  lemma {:induction false} StoredRxHeld(p: Pulse, j: nat)
    requires PulseEncodable(p) && j <= p.rxCount
    ensures RxHeld(StoredPulse(p), j) == RxAllocations(p, j, p.rxCount)
    decreases MAX_RX_COUNT - j
  {
    var q := StoredPulse(p);
    if j < p.rxCount {
      StoredRxHeld(p, j + 1);
    } else {
      EmptySlotsHeld(q, j);
    }
  }

  lemma {:induction false} EmptySlotsHeld(q: Pulse, j: nat)
    requires j <= MAX_RX_COUNT
    requires forall k | j <= k < MAX_RX_COUNT :: q.rx[k].None?
    ensures RxHeld(q, j) == 0
    decreases MAX_RX_COUNT - j
  {
    if j < MAX_RX_COUNT {
      EmptySlotsHeld(q, j + 1);
    }
  }
}
