/**
 * Packing then unpacking a raster gives it back (tld_pack.c, tld_unpack.c).
 *
 * What comes back is the raster as unpack stores it: the pulse time offset keeps its low
 * 24 bits, a waveform of length zero comes back as NULL and any other waveform as exactly its
 * declared bytes, and the slots past `rx_count` come back empty. Unpacking allocates the pulse
 * array and one block per non-empty waveform; with that many allocations available it succeeds.
 */
module TldRoundTrip {
  import opened Bytes
  import opened Errors
  import opened IntCodec
  import opened TldTypes
  import opened TldCodec
  import opened TldSize
  import opened TldPack
  import opened TldUnpack

  /** A waveform as unpack hands it back: NULL when its length is zero, otherwise exactly its first `length` bytes. */
  function StoredWave(w: Option<seq<Byte>>, length: nat): Option<seq<Byte>>
    requires length > 0 ==> w.Some? && length <= |w.value|
  {
    if length == 0 then None else Some(w.value[..length])
  }

  /** Allocations unpack makes for a waveform of this length. */
  function Allocation(length: nat): nat
  {
    if length > 0 then 1 else 0
  }

  /** A packed pulse as unpack stores it. */
  function StoredPulse(p: Pulse): Pulse
    requires PulseEncodable(p)
  {
    p.(timeOffset := p.timeOffset % 0x100_0000,
       rxLen := seq(MAX_RX_COUNT, k requires 0 <= k < MAX_RX_COUNT => if k < p.rxCount then p.rxLen[k] else 0),
       tx := StoredWave(p.tx, p.txLen),
       rx := seq(MAX_RX_COUNT, k requires 0 <= k < MAX_RX_COUNT =>
               if k < p.rxCount then StoredWave(p.rx[k], p.rxLen[k]) else None))
  }

  function StoredPulses(ps: seq<Pulse>): (qs: seq<Pulse>)
    requires PulsesEncodable(ps)
    ensures |qs| == |ps|
  {
    if ps == [] then [] else [StoredPulse(ps[0])] + StoredPulses(ps[1..])
  }

  /** A packed raster as unpack stores it. */
  function StoredRaster(r: Raster): Raster
    requires RasterEncodable(r)
  {
    EncodedPulses(r);
    r.(pulse := if r.pulseCount < 1 then None else Some(StoredPulses(PulsesOf(r))))
  }

  function RxAllocations(p: Pulse, j: nat, n: nat): nat
    requires j <= n <= MAX_RX_COUNT
    decreases n - j
  {
    if j == n then 0 else Allocation(p.rxLen[j]) + RxAllocations(p, j + 1, n)
  }

  function PulseAllocations(p: Pulse): nat
    requires PulseWellFormed(p)
  {
    Allocation(p.txLen) + RxAllocations(p, 0, p.rxCount)
  }

  /** Allocations each pulse's waveforms take, in order. */
  function PulseAllocs(ps: seq<Pulse>): (a: seq<nat>)
    requires PulsesEncodable(ps)
    ensures |a| == |ps|
  {
    if ps == [] then [] else [PulseAllocations(ps[0])] + PulseAllocs(ps[1..])
  }

  function Total(a: seq<nat>): nat
  {
    if a == [] then 0 else a[0] + Total(a[1..])
  }

  function PulsesAllocations(ps: seq<Pulse>): nat
    requires PulsesEncodable(ps)
  {
    Total(PulseAllocs(ps))
  }

  /** The allocations unpacking a packed raster makes: the pulse array and every non-empty waveform. */
  function RasterAllocations(r: Raster): nat
    requires RasterEncodable(r)
  {
    EncodedPulses(r);
    if r.pulseCount < 1 then 0 else 1 + PulsesAllocations(PulsesOf(r))
  }

  // Front-to-back views of the packed bytes ----------------------------------------

  /** Receive channels `j..n` as unpack reads them, front to back. */
  function RxTail(p: Pulse, j: nat, n: nat): seq<Byte>
    requires j <= n <= RxChannels(p) && PulseWellFormed(p)
    requires forall k | 0 <= k < n :: p.rx[k].Some?
    decreases n - j
  {
    if j == n then [] else Uint16Bytes(p.rxLen[j]) + p.rx[j].value[..p.rxLen[j]] + RxTail(p, j + 1, n)
  }

  function PulsesTail(ps: seq<Pulse>): seq<Byte>
    requires PulsesEncodable(ps)
  {
    if ps == [] then [] else PulseBytes(ps[0]) + PulsesTail(ps[1..])
  }

  lemma {:induction false} RxTailSnoc(p: Pulse, j: nat, n: nat)
    requires j <= n < RxChannels(p) && PulseWellFormed(p)
    requires forall k | 0 <= k <= n :: p.rx[k].Some?
    ensures RxTail(p, j, n + 1) == RxTail(p, j, n) + Uint16Bytes(p.rxLen[n]) + p.rx[n].value[..p.rxLen[n]]
    decreases n - j
  {
    if j < n {
      RxTailSnoc(p, j + 1, n);
    }
  }

  /** Pack writes the channels in the order unpack reads them. */
  lemma {:induction false} RxBytesIsTail(p: Pulse, n: nat)
    requires n <= RxChannels(p) && PulseWellFormed(p)
    requires forall k | 0 <= k < n :: p.rx[k].Some?
    ensures RxBytes(p, n) == RxTail(p, 0, n)
  {
    if n > 0 {
      RxBytesIsTail(p, n - 1);
      RxTailSnoc(p, 0, n - 1);
    }
  }

  lemma {:induction false} PulsesTailSnoc(ps: seq<Pulse>, p: Pulse)
    requires PulsesEncodable(ps) && PulseEncodable(p)
    ensures PulsesEncodable(ps + [p]) && PulsesTail(ps + [p]) == PulsesTail(ps) + PulseBytes(p)
    decreases |ps|
  {
    if ps != [] {
      assert (ps + [p])[1..] == ps[1..] + [p];
      PulsesTailSnoc(ps[1..], p);
    }
  }

  /** Pack writes the pulses in the order unpack reads them. */
  lemma {:induction false} PulsesBytesIsTail(ps: seq<Pulse>)
    requires PulsesEncodable(ps)
    ensures PulsesBytes(ps) == PulsesTail(ps)
    decreases |ps|
  {
    if ps != [] {
      var init := ps[..|ps| - 1];
      PulsesBytesIsTail(init);
      PulsesTailSnoc(init, ps[|ps| - 1]);
      assert init + [ps[|ps| - 1]] == ps;
    }
  }

  // One stage at a time -------------------------------------------------------------

  /** A receive channel reads back into its slot, given a NULL slot and an allocation for non-empty samples. */
  lemma RxChannelRoundTrip(p: Pulse, q: Pulse, j: nat, tail: seq<Byte>, budget: nat)
    requires j < RxChannels(p) && PulseWellFormed(p) && p.rx[j].Some?
    requires q.rx[j] == None && budget >= Allocation(p.rxLen[j])
    ensures var bytes := Uint16Bytes(p.rxLen[j]) + p.rx[j].value[..p.rxLen[j]] + tail;
      RxOutcome(bytes, q, j, budget)
      == PulseStep(Success, q.(rxLen := q.rxLen[j := p.rxLen[j]], rx := q.rx[j := StoredWave(p.rx[j], p.rxLen[j])]),
                   budget - Allocation(p.rxLen[j]), RX_LENGTH_SIZE + p.rxLen[j])
  {
    var bytes := Uint16Bytes(p.rxLen[j]) + p.rx[j].value[..p.rxLen[j]] + tail;
    assert bytes[..RX_LENGTH_SIZE] == Uint16Bytes(p.rxLen[j]);
    Uint16RoundTrip(p.rxLen[j]);
    assert bytes[RX_LENGTH_SIZE..] == p.rx[j].value[..p.rxLen[j]] + tail;
    assert (p.rx[j].value[..p.rxLen[j]] + tail)[..p.rxLen[j]] == p.rx[j].value[..p.rxLen[j]];
  }

  /** The pulse `q` with channels `j..n` read back from `p`, one channel after the other. */
  function WithRx(q: Pulse, p: Pulse, j: nat, n: nat): (r: Pulse)
    requires j <= n <= RxChannels(p) && PulseWellFormed(p)
    requires forall k | 0 <= k < n :: p.rx[k].Some?
    ensures r == q.(rxLen := r.rxLen, rx := r.rx)
    ensures forall k | 0 <= k < MAX_RX_COUNT ::
      r.rxLen[k] == (if j <= k < n then p.rxLen[k] else q.rxLen[k])
      && r.rx[k] == (if j <= k < n then StoredWave(p.rx[k], p.rxLen[k]) else q.rx[k])
    decreases n - j
  {
    if j == n then q
    else WithRx(q.(rxLen := q.rxLen[j := p.rxLen[j]], rx := q.rx[j := StoredWave(p.rx[j], p.rxLen[j])]), p, j + 1, n)
  }

  lemma {:induction false} RxLoopRoundTrip(p: Pulse, q: Pulse, j: nat, n: nat, tail: seq<Byte>, budget: nat)
    requires j <= n <= RxChannels(p) && PulseWellFormed(p)
    requires forall k | 0 <= k < n :: p.rx[k].Some?
    requires forall k | j <= k < n :: q.rx[k] == None
    requires budget >= RxAllocations(p, j, n)
    ensures RxLoopOutcome(RxTail(p, j, n) + tail, q, j, n, budget)
            == PulseStep(Success, WithRx(q, p, j, n), budget - RxAllocations(p, j, n), |RxTail(p, j, n)|)
    decreases n - j, 1
  {
    if j < n {
      RxLoopRoundTripStep(p, q, j, n, tail, budget);
    }
  }

  lemma {:induction false} RxLoopRoundTripStep(p: Pulse, q: Pulse, j: nat, n: nat, tail: seq<Byte>, budget: nat)
    requires j < n <= RxChannels(p) && PulseWellFormed(p)
    requires forall k | 0 <= k < n :: p.rx[k].Some?
    requires forall k | j <= k < n :: q.rx[k] == None
    requires budget >= RxAllocations(p, j, n)
    ensures RxLoopOutcome(RxTail(p, j, n) + tail, q, j, n, budget)
            == PulseStep(Success, WithRx(q, p, j, n), budget - RxAllocations(p, j, n), |RxTail(p, j, n)|)
    decreases n - j, 0
  {
    var channel := Uint16Bytes(p.rxLen[j]) + p.rx[j].value[..p.rxLen[j]];
    var rest := RxTail(p, j + 1, n) + tail;
    var next := q.(rxLen := q.rxLen[j := p.rxLen[j]], rx := q.rx[j := StoredWave(p.rx[j], p.rxLen[j])]);
    var left := budget - Allocation(p.rxLen[j]);
    RxTailSplit(p, j, n, tail);
    RxChannelRoundTrip(p, q, j, rest, budget);
    RxLoopRoundTrip(p, next, j + 1, n, tail, left);
    RxStepGlue(RxTail(p, j, n) + tail, channel, rest, q, j, n, budget, next, left,
               RxLoopOutcome(rest, next, j + 1, n, left));
    assert WithRx(q, p, j, n) == WithRx(next, p, j + 1, n);
  }

  /** The receive section from channel `j` is channel `j`'s bytes, then the section from `j + 1`. */
  lemma RxTailSplit(p: Pulse, j: nat, n: nat, tail: seq<Byte>)
    requires j < n <= RxChannels(p) && PulseWellFormed(p)
    requires forall k | 0 <= k < n :: p.rx[k].Some?
    ensures RxTail(p, j, n) + tail
            == (Uint16Bytes(p.rxLen[j]) + p.rx[j].value[..p.rxLen[j]]) + (RxTail(p, j + 1, n) + tail)
    ensures |RxTail(p, j, n)| == RX_LENGTH_SIZE + p.rxLen[j] + |RxTail(p, j + 1, n)|
  {
  }

  /** A channel read from the front of `bytes`, then the rest of the loop on what follows it, is the whole loop. */
  lemma RxStepGlue(bytes: seq<Byte>, channel: seq<Byte>, rest: seq<Byte>, q: Pulse, j: nat, n: nat, budget: nat,
                   next: Pulse, left: nat, t: PulseStep)
    requires j < n <= MAX_RX_COUNT && bytes == channel + rest
    requires RxOutcome(bytes, q, j, budget) == PulseStep(Success, next, left, |channel|)
    requires t == RxLoopOutcome(rest, next, j + 1, n, left)
    ensures RxLoopOutcome(bytes, q, j, n, budget) == PulseStep(t.err, t.pulse, t.budget, |channel| + t.consumed)
  {
    assert bytes[|channel|..] == rest;
    RxLoopCompose(bytes, q, j, n, budget);
  }

  /** A channel read successfully is followed by the rest of the channel loop on the bytes after it. */
  lemma RxLoopCompose(bytes: seq<Byte>, p: Pulse, channel: nat, count: nat, budget: nat)
    requires channel < count <= MAX_RX_COUNT && RxOutcome(bytes, p, channel, budget).err == Success
    ensures var s := RxOutcome(bytes, p, channel, budget);
      var t := RxLoopOutcome(bytes[s.consumed..], s.pulse, channel + 1, count, s.budget);
      RxLoopOutcome(bytes, p, channel, count, budget) == PulseStep(t.err, t.pulse, t.budget, s.consumed + t.consumed)
  {
  }

  lemma TxRoundTrip(p: Pulse, q: Pulse, tail: seq<Byte>, budget: nat)
    requires PulseWellFormed(p) && p.tx.Some?
    requires q.tx == None && budget >= Allocation(p.txLen)
    ensures TxOutcome([p.txLen] + p.tx.value[..p.txLen] + tail, q, budget)
            == PulseStep(Success, q.(txLen := p.txLen, tx := StoredWave(p.tx, p.txLen)),
                         budget - Allocation(p.txLen), TX_LENGTH_SIZE + p.txLen)
  {
    var bytes := [p.txLen] + p.tx.value[..p.txLen] + tail;
    assert bytes[TX_LENGTH_SIZE..] == p.tx.value[..p.txLen] + tail;
    assert (p.tx.value[..p.txLen] + tail)[..p.txLen] == p.tx.value[..p.txLen];
  }

  /** The waveform section of a packed pulse: tx length byte, tx samples, then the receive channels. */
  function WaveformBytes(p: Pulse): seq<Byte>
    requires PulseEncodable(p)
  {
    [p.txLen] + p.tx.value[..p.txLen] + RxBytes(p, p.rxCount)
  }

  lemma WaveformBytesLength(p: Pulse)
    requires PulseEncodable(p)
    ensures |WaveformBytes(p)| == WaveformsSize(p)
    ensures PulseBytes(p) == PulseHeaderBytes(p) + Uint16Bytes(WaveformsSize(p)) + WaveformBytes(p)
  {
    RxBytesLength(p, p.rxCount);
  }

  lemma WaveformsRoundTrip(p: Pulse, h: Pulse, budget: nat)
    requires PulseEncodable(p) && h.rxCount == p.rxCount
    requires budget >= PulseAllocations(p)
    ensures WaveformsOutcome(WaveformBytes(p), h, budget)
            == PulseStep(Success, WithRx(NullWaveforms(h).(txLen := p.txLen, tx := StoredWave(p.tx, p.txLen)), p, 0, p.rxCount),
                         budget - PulseAllocations(p), |WaveformBytes(p)|)
  {
    var tx, rx := [p.txLen] + p.tx.value[..p.txLen], RxBytes(p, p.rxCount);
    var q := NullWaveforms(h).(txLen := p.txLen, tx := StoredWave(p.tx, p.txLen));
    var left := budget - Allocation(p.txLen);
    TxRoundTrip(p, NullWaveforms(h), rx, budget);
    RxRoundTrip(p, q, left);
    var r := PulseStep(Success, WithRx(q, p, 0, p.rxCount), left - RxAllocations(p, 0, p.rxCount), |rx|);
    assert |tx| == TX_LENGTH_SIZE + p.txLen && RxChannels(h) == p.rxCount;
    WaveformsCompose(tx, rx, h, budget, q, left, r);
  }

  /** The waveform section is tx then the receive channels, each read from where the last stopped. */
  lemma WaveformsCompose(tx: seq<Byte>, rx: seq<Byte>, h: Pulse, budget: nat, q: Pulse, left: nat, r: PulseStep)
    requires TxOutcome(tx + rx, NullWaveforms(h), budget) == PulseStep(Success, q, left, |tx|)
    requires RxLoopOutcome(rx, q, 0, RxChannels(h), left) == r
    ensures WaveformsOutcome(tx + rx, h, budget) == PulseStep(r.err, r.pulse, r.budget, |tx| + r.consumed)
  {
    assert (tx + rx)[|tx|..] == rx;
  }

  /** The receive channels as packed read back into a pulse whose slots are NULL. */
  lemma RxRoundTrip(p: Pulse, q: Pulse, budget: nat)
    requires PulseWellFormed(p) && RxPresent(p)
    requires q.rx == NoWaveforms && budget >= RxAllocations(p, 0, p.rxCount)
    ensures RxLoopOutcome(RxBytes(p, p.rxCount), q, 0, p.rxCount, budget)
            == PulseStep(Success, WithRx(q, p, 0, p.rxCount), budget - RxAllocations(p, 0, p.rxCount), |RxBytes(p, p.rxCount)|)
  {
    RxBytesIsTail(p, p.rxCount);
    assert RxBytes(p, p.rxCount) + [] == RxBytes(p, p.rxCount);
    RxLoopRoundTrip(p, q, 0, p.rxCount, [], budget);
  }

  /**
   * How the pulse loop body frames a pulse: a 13-byte header, a 16-bit length and exactly
   * that many bytes of waveform data, whatever follows.
   */
  lemma PulseFraming(header: seq<Byte>, data: seq<Byte>, tail: seq<Byte>, p: Pulse, isLast: bool, budget: nat)
    requires |header| == PULSE_HEADER_SIZE && |data| <= UINT16_MAX
    ensures var w := PulseWaveformsOutcome(data, PulseHeaderOf(header, p), isLast, true, budget);
      PulseOutcome(header + Uint16Bytes(|data|) + data + tail, p, isLast, true, budget)
      == PulseStep(w.err, w.pulse, w.budget, PULSE_HEADER_SIZE + WF_DATA_LENGTH_SIZE + |data|)
  {
    var bytes := header + Uint16Bytes(|data|) + data + tail;
    assert bytes[..PULSE_HEADER_SIZE] == header;
    var afterHeader := bytes[PULSE_HEADER_SIZE..];
    assert afterHeader == Uint16Bytes(|data|) + (data + tail);
    assert afterHeader[..WF_DATA_LENGTH_SIZE] == Uint16Bytes(|data|);
    Uint16RoundTrip(|data|);
    assert afterHeader[WF_DATA_LENGTH_SIZE..][..|data|] == data;
  }

  /** The header read back, with the waveforms read back into it, is the pulse as stored. */
  lemma StoredPulseAssembled(p: Pulse)
    requires PulseEncodable(p)
    ensures var h := PulseHeaderOf(PulseHeaderBytes(p), EmptyPulse);
      h.rxCount == p.rxCount
      && WithRx(NullWaveforms(h).(txLen := p.txLen, tx := StoredWave(p.tx, p.txLen)), p, 0, p.rxCount) == StoredPulse(p)
  {
    var h := PulseHeaderOf(PulseHeaderBytes(p), EmptyPulse);
    PulseHeaderRoundTrip(p);
    assert PulseHeaderOf(PulseHeaderBytes(p), p).rxCount == h.rxCount;
    var q := WithRx(NullWaveforms(h).(txLen := p.txLen, tx := StoredWave(p.tx, p.txLen)), p, 0, p.rxCount);
    assert q.rxLen == StoredPulse(p).rxLen;
    assert q.rx == StoredPulse(p).rx;
  }

  /** A packed pulse, followed by anything, unpacks with its waveforms to the pulse as stored. */
  lemma PulseRoundTrip(p: Pulse, tail: seq<Byte>, isLast: bool, budget: nat)
    requires PulseEncodable(p) && budget >= PulseAllocations(p)
    ensures PulseOutcome(PulseBytes(p) + tail, EmptyPulse, isLast, true, budget)
            == PulseStep(Success, StoredPulse(p), budget - PulseAllocations(p), |PulseBytes(p)|)
  {
    WaveformBytesLength(p);
    PulseFraming(PulseHeaderBytes(p), WaveformBytes(p), tail, EmptyPulse, isLast, budget);
    StoredPulseAssembled(p);
    WaveformsRoundTrip(p, PulseHeaderOf(PulseHeaderBytes(p), EmptyPulse), budget);
  }

  /** The bytes of the chunks one after the other. */
  function Concat(chunks: seq<seq<Byte>>): (b: seq<Byte>)
    decreases |chunks|
  {
    if chunks == [] then [] else chunks[0] + Concat(chunks[1..])
  }

  /** The packed bytes of each pulse, pulse by pulse. */
  function PulseChunks(ps: seq<Pulse>): (c: seq<seq<Byte>>)
    requires PulsesEncodable(ps)
    ensures |c| == |ps|
  {
    seq(|ps|, k requires 0 <= k < |ps| => PulseBytes(ps[k]))
  }

  /** One pulse of the pulse loop, read from the front of the bytes: which pulse it is tells whether it is the last. */
  type PulseReader = (seq<Byte>, nat, nat) -> PulseStep

  /** The body of the pulse loop of `eaarlio_tld_unpack_pulses` over `count` pulses, with waveforms. */
  function PulsesReader(count: nat): PulseReader
  {
    (bytes: seq<Byte>, index: nat, budget: nat) => PulseOutcome(bytes, EmptyPulse, index + 1 == count, true, budget)
  }

  /** The pulse loop with its body left as a parameter; a reader that claims more than is there stops at the end. */
  function LoopWith(read: PulseReader, bytes: seq<Byte>, index: nat, count: nat, budget: nat, done: seq<Pulse>): (s: PulsesStep)
    requires |done| == index <= count
    decreases count - index
  {
    if index == count then PulsesStep(Success, Some(done), budget)
    else
      var s := read(bytes, index, budget);
      if s.err != Success then PulsesStep(s.err, Some(done + [s.pulse] + EmptyPulses(count - index - 1)), s.budget)
      else LoopWith(read, bytes[if s.consumed <= |bytes| then s.consumed else |bytes|..], index + 1, count, s.budget, done + [s.pulse])
  }

  /** The pulse loop is the loop over its own body. */
  lemma {:induction false} LoopWithPulses(bytes: seq<Byte>, index: nat, count: nat, budget: nat, done: seq<Pulse>)
    requires |done| == index <= count
    ensures PulsesLoopOutcome(bytes, index, count, true, budget, done) == LoopWith(PulsesReader(count), bytes, index, count, budget, done)
    decreases count - index
  {
    if index < count {
      var s := PulseOutcome(bytes, EmptyPulse, index + 1 == count, true, budget);
      assert PulsesReader(count)(bytes, index, budget) == s;
      if s.err == Success {
        LoopWithPulses(bytes[s.consumed..], index + 1, count, s.budget, done + [s.pulse]);
      }
    }
  }

  /**
   * Each chunk, followed by anything, is read by `read` as one pulse of `qs`, using the matching number of
   * allocations in `allocs`.
   */
  ghost predicate ChunksRead(read: PulseReader, chunks: seq<seq<Byte>>, qs: seq<Pulse>, allocs: seq<nat>)
  {
    |chunks| == |qs| == |allocs|
    && forall k, tail: seq<Byte>, budget: nat | 0 <= k < |chunks| && budget >= allocs[k] ::
         read(chunks[k] + tail, k, budget) == PulseStep(Success, qs[k], budget - allocs[k], |chunks[k]|)
  }

  /** The loop, from chunk `i` on, over chunks that read back as `qs`, fills in the rest of `qs` in turn. */
  lemma {:induction false} LoopWithChunks(read: PulseReader, chunks: seq<seq<Byte>>, qs: seq<Pulse>, allocs: seq<nat>,
                                          i: nat, budget: nat, done: seq<Pulse>)
    requires ChunksRead(read, chunks, qs, allocs) && i <= |chunks| && |done| == i && budget >= Total(allocs[i..])
    ensures LoopWith(read, Concat(chunks[i..]), i, |chunks|, budget, done)
            == PulsesStep(Success, Some(done + qs[i..]), budget - Total(allocs[i..]))
    decreases |chunks| - i
  {
    if i == |chunks| {
      assert done + qs[i..] == done;
    } else {
      assert chunks[i..][1..] == chunks[i + 1..] && allocs[i..][1..] == allocs[i + 1..];
      var rest := Concat(chunks[i + 1..]);
      assert Concat(chunks[i..]) == chunks[i] + rest;
      assert read(chunks[i] + rest, i, budget) == PulseStep(Success, qs[i], budget - allocs[i], |chunks[i]|);
      assert (chunks[i] + rest)[|chunks[i]|..] == rest;
      LoopWithChunks(read, chunks, qs, allocs, i + 1, budget - allocs[i], done + [qs[i]]);
      assert done + [qs[i]] + qs[i + 1..] == done + qs[i..];
    }
  }

  /** The loop over chunks that read back as `qs` fills in exactly `qs`. */
  lemma LoopWithAllChunks(read: PulseReader, chunks: seq<seq<Byte>>, qs: seq<Pulse>, allocs: seq<nat>, budget: nat)
    requires ChunksRead(read, chunks, qs, allocs) && budget >= Total(allocs)
    ensures LoopWith(read, Concat(chunks), 0, |chunks|, budget, []) == PulsesStep(Success, Some(qs), budget - Total(allocs))
  {
    assert chunks[0..] == chunks && qs[0..] == qs && allocs[0..] == allocs && [] + qs == qs;
    LoopWithChunks(read, chunks, qs, allocs, 0, budget, []);
  }

  /** The k-th pulse as stored, and its allocations, are those of the k-th pulse. */
  lemma {:induction false} StoredPulseAt(ps: seq<Pulse>, k: nat)
    requires PulsesEncodable(ps) && k < |ps|
    ensures StoredPulses(ps)[k] == StoredPulse(ps[k]) && PulseAllocs(ps)[k] == PulseAllocations(ps[k])
    decreases k
  {
    if k > 0 {
      StoredPulseAt(ps[1..], k - 1);
    }
  }

  /** Packed pulses read back chunk by chunk as the pulses as stored. */
  lemma PulseChunksRead(ps: seq<Pulse>)
    requires PulsesEncodable(ps)
    ensures ChunksRead(PulsesReader(|ps|), PulseChunks(ps), StoredPulses(ps), PulseAllocs(ps))
  {
    forall k, tail: seq<Byte>, budget: nat | 0 <= k < |ps| && budget >= PulseAllocs(ps)[k] {
      PulseChunkRead(ps, k, tail, budget);
    }
  }

  /** The k-th packed pulse, followed by anything, reads back as the k-th pulse as stored. */
  lemma PulseChunkRead(ps: seq<Pulse>, k: nat, tail: seq<Byte>, budget: nat)
    requires PulsesEncodable(ps) && k < |ps| && budget >= PulseAllocs(ps)[k]
    ensures PulsesReader(|ps|)(PulseChunks(ps)[k] + tail, k, budget)
            == PulseStep(Success, StoredPulses(ps)[k], budget - PulseAllocs(ps)[k], |PulseChunks(ps)[k]|)
  {
    StoredPulseAt(ps, k);
    PulseRoundTrip(ps[k], tail, k + 1 == |ps|, budget);
  }

  /** The chunks of packed pulses, one after the other, are the packed pulses. */
  lemma {:induction false} PulseChunksConcat(ps: seq<Pulse>)
    requires PulsesEncodable(ps)
    ensures Concat(PulseChunks(ps)) == PulsesTail(ps)
    decreases |ps|
  {
    if ps != [] {
      PulseChunksConcat(ps[1..]);
      assert PulseChunks(ps)[1..] == PulseChunks(ps[1..]);
    }
  }

  /** How a raster record frames its pulses: a 14-byte header, then the pulses. */
  lemma RasterFraming(header: seq<Byte>, rest: seq<Byte>, start: Raster, budget: nat)
    requires |header| == RASTER_HEADER_SIZE
    ensures var h := RasterHeaderOf(header, start.(pulse := None));
      var s := PulsesOutcome(rest, h.pulseCount, true, budget);
      RasterOutcome(header + rest, start, true, true, budget) == RasterStep(s.err, h.(pulse := s.pulse), s.budget)
  {
    assert (header + rest)[..RASTER_HEADER_SIZE] == header;
    assert (header + rest)[RASTER_HEADER_SIZE..] == rest;
  }

  /**
   * Unpacking what `eaarlio_tld_pack_raster` produced, pulses and waveforms included, succeeds
   * with the raster as stored, whatever raster it starts from, given an allocation for the
   * pulse array and for each non-empty waveform.
   */
  lemma UnpackPacked(r: Raster, start: Raster, budget: nat)
    requires RasterEncodable(r) && budget >= RasterAllocations(r)
    ensures RasterOutcome(RasterBytes(r), start, true, true, budget)
            == RasterStep(Success, StoredRaster(r), budget - RasterAllocations(r))
  {
    EncodedPulses(r);
    RasterFraming(RasterHeaderBytes(r), PulsesBytes(PulsesOf(r)), start, budget);
    RasterHeaderRoundTrip(r);
    assert RasterHeaderOf(RasterHeaderBytes(r), start.(pulse := None)) == r.(pulse := None);
    if r.pulseCount >= 1 {
      UnpackPackedPulses(r, budget);
    }
  }

  /** The pulses of a packed raster with at least one pulse unpack to the pulses as stored. */
  lemma UnpackPackedPulses(r: Raster, budget: nat)
    requires RasterEncodable(r) && budget >= RasterAllocations(r) && r.pulseCount >= 1
    ensures PulsesEncodable(PulsesOf(r))
    ensures PulsesOutcome(PulsesBytes(PulsesOf(r)), r.pulseCount, true, budget)
            == PulsesStep(Success, StoredRaster(r).pulse, budget - RasterAllocations(r))
  {
    PackedPulses(r);
    PulsesBytesUnpack(PulsesOf(r), r.pulseCount, budget);
  }

  /** Packed pulses unpack, after the pulse array's allocation, to the pulses as stored. */
  lemma PulsesBytesUnpack(ps: seq<Pulse>, count: U16, budget: nat)
    requires PulsesEncodable(ps) && |ps| == count >= 1 && budget >= 1 + PulsesAllocations(ps)
    ensures PulsesOutcome(PulsesBytes(ps), count, true, budget)
            == PulsesStep(Success, Some(StoredPulses(ps)), budget - 1 - PulsesAllocations(ps))
  {
    PulseChunksRead(ps);
    PulseChunksConcat(ps);
    PulsesBytesIsTail(ps);
    PulsesOutcomeChunks(PulsesBytes(ps), PulseChunks(ps), StoredPulses(ps), PulseAllocs(ps), count, budget);
  }

  /** Chunks that read back as `qs`, one after the other, unpack after the pulse array's allocation to `qs`. */
  lemma PulsesOutcomeChunks(bytes: seq<Byte>, chunks: seq<seq<Byte>>, qs: seq<Pulse>, allocs: seq<nat>, count: U16, budget: nat)
    requires ChunksRead(PulsesReader(count), chunks, qs, allocs) && bytes == Concat(chunks)
    requires |chunks| == count >= 1 && budget >= 1 + Total(allocs)
    ensures PulsesOutcome(bytes, count, true, budget) == PulsesStep(Success, Some(qs), budget - 1 - Total(allocs))
  {
    LoopWithAllChunks(PulsesReader(count), chunks, qs, allocs, budget - 1);
    PulsesOutcomeIsLoop(bytes, count, budget);
  }

  /** Unpacking pulses, after the pulse array's allocation, is the loop over the pulse loop's body. */
  lemma PulsesOutcomeIsLoop(bytes: seq<Byte>, count: U16, budget: nat)
    requires count >= 1 && budget >= 1
    ensures PulsesOutcome(bytes, count, true, budget) == LoopWith(PulsesReader(count), bytes, 0, count, budget - 1, [])
  {
    LoopWithPulses(bytes, 0, count, budget - 1, []);
  }

  lemma PackedPulses(r: Raster)
    requires RasterEncodable(r) && r.pulseCount >= 1
    ensures PulsesEncodable(PulsesOf(r)) && |PulsesOf(r)| == r.pulseCount
    ensures RasterAllocations(r) == 1 + PulsesAllocations(PulsesOf(r))
    ensures StoredRaster(r).pulse == Some(StoredPulses(PulsesOf(r)))
  {
    EncodedPulses(r);
  }

  /** Without pulses, unpacking a packed raster gives its header fields back and allocates nothing. */
  lemma UnpackPackedHeader(r: Raster, start: Raster, includeWaveforms: bool, budget: nat)
    requires RasterEncodable(r)
    ensures RasterOutcome(RasterBytes(r), start, false, includeWaveforms, budget) == RasterStep(Success, r.(pulse := None), budget)
  {
    EncodedPulses(r);
    var header, rest := RasterHeaderBytes(r), PulsesBytes(PulsesOf(r));
    assert (header + rest)[..RASTER_HEADER_SIZE] == header;
    RasterHeaderRoundTrip(r);
    assert RasterHeaderOf(header, start.(pulse := None)) == r.(pulse := None);
  }
}
