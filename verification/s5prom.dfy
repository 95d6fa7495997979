/** A sample read from a PROM through the ADPCM decoder: the object behind rh_asmp_itf. */
module S5Prom {
  import opened Pcm
  import opened Adpcm
  import opened Events
  import Chunks

  /** The decoder's struct frame.  It is part of the sample object by value. */
  datatype Frame = Frame(
    buffer: seq<byte>,     // the packet in hand
    nbsamples: nat,        // how many outputs it holds
    processed: nat,        // how many of them have been put out
    signal: int32,
    step: int32,
    isReset: bool,
    s0: int16,
    s1: int16,
    phase: nat)

  /** The codec part of the frame stands where `q` outputs leave it, `d` bytes having been decoded.
      When resampling, the byte in progress counts as decoded. */
  ghost predicate Tracks(score: Score, f: Frame, d: nat, q: int) {
    && score.Genuine()
    && d <= |score.data|
    && -0x8000 <= f.signal < 0x8000
    && 0x7f <= f.step <= 0x6000
    && Codec(f.signal, f.step) == score.codecs[d]
    && (if score.resample && f.phase != 0
        then
          && f.phase < 3 && 0 < d
          && q == 6 * (d - 1) + 2 * f.phase
          && (f.s0, f.s1) == score.pairs[d - 1]
        else
          && f.phase == 0
          && q == Outputs(score.resample, d))
  }

  /** The two samples put out at the current phase. */
  function PhasePair(resample: bool, f: Frame): (int16, int16) {
    if !resample || f.phase == 1 then (f.s0, f.s1)
    else if f.phase == 0 then (f.s0, f.s0)
    else (f.s1, f.s1)
  }

  method DecodeNibbleInFrame(f0: Frame, n: nibble) returns (f: Frame)
    requires -0x8000 <= f0.signal < 0x8000 && 0x7f <= f0.step <= 0x6000
    ensures -0x8000 <= f.signal < 0x8000 && 0x7f <= f.step <= 0x6000
    ensures Codec(f.signal, f.step) == DecodeNibble(Codec(f0.signal, f0.step), n)
    ensures f == f0.(signal := f.signal, step := f.step)
  {
    f := f0;
    DecodeNibbleFitsInt32(Codec(f.signal, f.step), n);
    var product: int32 := f.step * DIFF_LOOKUP[n];
    f := f.(signal := f.signal + Quotient(product, 8));
    if f.signal > 32767 {
      f := f.(signal := 32767);
    } else if f.signal < -32768 {
      f := f.(signal := -32768);
    }
    product := f.step * INDEX_SCALE[n % 8];
    f := f.(step := product / 0x100);
    if f.step > 0x6000 {
      f := f.(step := 0x6000);
    } else if f.step < 0x7f {
      f := f.(step := 0x7f);
    }
  }

  /** Decode one byte of the packet into s0 and s1, through the bytes of the union. */
  method DecodeByteInFrame(f0: Frame, b: byte) returns (f: Frame)
    requires -0x8000 <= f0.signal < 0x8000 && 0x7f <= f0.step <= 0x6000
    ensures -0x8000 <= f.signal < 0x8000 && 0x7f <= f.step <= 0x6000
    ensures Codec(f.signal, f.step) == DecodeByte(Codec(f0.signal, f0.step), b)
    ensures (f.s0, f.s1) == BytePair(Codec(f0.signal, f0.step), b)
    ensures f == f0.(signal := f.signal, step := f.step, s0 := f.s0, s1 := f.s1)
  {
    f := DecodeNibbleInFrame(f0, b / 16);
    var upper, lower := f.signal / 0x100 % 0x100, f.signal % 0x100;
    SplitJoin(f.signal);
    f := f.(s0 := Signed(0x100 * upper + lower));
    f := DecodeNibbleInFrame(f, b % 16);
    upper, lower := f.signal / 0x100 % 0x100, f.signal % 0x100;
    SplitJoin(f.signal);
    f := f.(s1 := Signed(0x100 * upper + lower));
    f := f.(s0 := Quotient(f.s0, VOLUME), s1 := Quotient(f.s1, VOLUME));
  }

  /** DecodeByteInFrame on byte `d` of the sample. */
  method DecodeByteOf(ghost score: Score, f0: Frame, b: byte, ghost d: nat) returns (f: Frame)
    requires score.Genuine() && d < |score.data| && b == score.data[d]
    requires -0x8000 <= f0.signal < 0x8000 && 0x7f <= f0.step <= 0x6000
    requires Codec(f0.signal, f0.step) == score.codecs[d]
    ensures -0x8000 <= f.signal < 0x8000 && 0x7f <= f.step <= 0x6000
    ensures Codec(f.signal, f.step) == score.codecs[d + 1]
    ensures (f.s0, f.s1) == score.pairs[d]
    ensures f == f0.(signal := f.signal, step := f.step, s0 := f.s0, s1 := f.s1)
  {
    f := DecodeByteInFrame(f0, b);
  }

  /** The packet in hand holds, from index `src` on, the bytes of the sample from `d` to `end`. */
  ghost predicate PacketFrom(score: Score, f: Frame, src: nat, d: nat, end: nat) {
    && src <= |f.buffer|
    && end == d + (|f.buffer| - src) <= |score.data|
    && f.buffer[src..] == score.data[d..end]
  }

  /** Everything but the codec part of the frame is as it was. */
  ghost predicate OnlyCodecMoved(f0: Frame, f: Frame) {
    f == f0.(signal := f.signal, step := f.step, s0 := f.s0, s1 := f.s1, phase := f.phase)
  }

  /** At a phase where a new byte is due and two more outputs are to come, there is one. */
  lemma ByteDue(score: Score, f: Frame, src: nat, d: nat, end: nat, q: int)
    requires Tracks(score, f, d, q) && PacketFrom(score, f, src, d, end)
    requires f.phase == 0 && q + 2 <= Outputs(score.resample, end)
    ensures src < |f.buffer| && f.buffer[src] == score.data[d]
    ensures f.buffer[src + 1..] == score.data[d + 1..end]
  {
    assert d < end;
    assert f.buffer[src] == f.buffer[src..][0] && score.data[d] == score.data[d..end][0];
    assert f.buffer[src + 1..] == f.buffer[src..][1..] && score.data[d + 1..end] == score.data[d..end][1..];
  }

  /** The start of a turn of the decoding loop: at phase 0 a new byte is decoded.  Afterwards the
      two samples due are the outputs `q` and `q + 1` of the whole stream. */
  method NextPair(ghost score: Score, resample: bool, f0: Frame, src0: nat, ghost d0: nat, ghost end: nat, ghost q: nat)
    returns (f: Frame, src: nat, ghost d: nat)
    requires resample == score.resample
    requires Tracks(score, f0, d0, q) && PacketFrom(score, f0, src0, d0, end)
    requires q + 2 <= Outputs(resample, end)
    ensures OnlyCodecMoved(f0, f) && OnlyCodecMoved(f0, NextPhase(resample, f))
    ensures PacketFrom(score, f, src, d, end)
    ensures q + 2 <= |score.full|
    ensures PhasePair(resample, f) == (score.full[q], score.full[q + 1])
    ensures Tracks(score, NextPhase(resample, f), d, q + 2)
  {
    f, src, d := f0, src0, d0;
    if f.phase == 0 {
      ByteDue(score, f, src, d, end, q);
      f := DecodeByteOf(score, f, f.buffer[src], d);
      src, d := src + 1, d + 1;
    }
    PairInStream(score, f, d, q);
  }

  /** The end of a turn of the decoding loop. */
  function NextPhase(resample: bool, f: Frame): Frame {
    if !resample then f else if f.phase + 1 >= 3 then f.(phase := 0) else f.(phase := f.phase + 1)
  }

  lemma PairInStream(score: Score, f: Frame, d: nat, q: nat)
    requires score.Genuine() && 0 < d <= |score.data|
    requires (f.s0, f.s1) == score.pairs[d - 1]
    requires f.phase < 3 && (!score.resample ==> f.phase == 0)
    requires q == Outputs(score.resample, d - 1) + 2 * f.phase
    ensures q + 2 <= |score.full|
    ensures PhasePair(score.resample, f) == (score.full[q], score.full[q + 1])
  {
    var part := score.full[Outputs(score.resample, d - 1)..Outputs(score.resample, d)];
    assert part == Spread(score.resample, score.pairs[d - 1]);
    assert part[2 * f.phase] == score.full[q] && part[2 * f.phase + 1] == score.full[q + 1];
  }

  /** Store two samples in the period from slot `at` on, over or on top of what is there. */
  method PutPair(host: HostOrder, v: (int16, int16), dst: array<Slot>, at: nat, mix: bool)
    requires at + 2 <= dst.Length
    modifies dst
    ensures dst[at].Word() == Wrap(if mix then old(dst[at].Word()) else 0, v.0)
    ensures dst[at + 1].Word() == Wrap(if mix then old(dst[at + 1].Word()) else 0, v.1)
    ensures forall w | 0 <= w < dst.Length && w != at && w != at + 1 :: dst[w] == old(dst[w])
  {
    if mix {
      MixSlotAddsBigEndian(host, dst[at], v.0);
      MixSlotAddsBigEndian(host, dst[at + 1], v.1);
      dst[at] := MixSlot(host, dst[at], v.0);
      dst[at + 1] := MixSlot(host, dst[at + 1], v.1);
    } else {
      WriteSlotIsBigEndian(host, v.0);
      WriteSlotIsBigEndian(host, v.1);
      dst[at], dst[at + 1] := WriteSlot(host, v.0), WriteSlot(host, v.1);
    }
  }

  /** What a read or a mix makes of a period: from slot `at` on, the outputs `q` to `q + n` of the
      stream, added to what was there when mixing; the other slots keep their bytes. */
  ghost predicate PeriodAfter(before: seq<Slot>, after: seq<Slot>, at: int, full: seq<int16>, q: int, n: int, mix: bool)
    requires 0 <= q && q + n <= |full|
  {
    && |after| == |before|
    && forall w | 0 <= w < |before| ::
         if at <= w < at + n
         then after[w].Word() == Wrap(if mix then before[w].Word() else 0, full[q + w - at])
         else after[w] == before[w]
  }

  lemma PeriodAfterJoins(p0: seq<Slot>, p1: seq<Slot>, p2: seq<Slot>, at: int, full: seq<int16>,
                         q: int, n: int, m: int, mix: bool)
    requires 0 <= q && 0 <= n && 0 <= m && q + n + m <= |full|
    requires PeriodAfter(p0, p1, at, full, q, n, mix)
    requires PeriodAfter(p1, p2, at + n, full, q + n, m, mix)
    ensures PeriodAfter(p0, p2, at, full, q, n + m, mix)
  {
  }

  /** One turn of the decoding loop, which started at output `q` and at slot `start` and has put out
      `done` outputs. */
  method DecodeTurn(host: HostOrder, ghost score: Score, resample: bool, f0: Frame, src0: nat,
                    dst: array<Slot>, at: nat, mix: bool, ghost d0: nat, ghost end: nat,
                    ghost before: seq<Slot>, ghost start: nat, ghost q: nat, ghost done: nat)
    returns (f: Frame, src: nat, ghost d: nat)
    requires resample == score.resample
    requires Tracks(score, f0, d0, q + done) && PacketFrom(score, f0, src0, d0, end)
    requires q + done + 2 <= Outputs(resample, end)
    requires at == start + done && at + 2 <= dst.Length
    requires q + done <= |score.full|
    requires PeriodAfter(before, dst[..], start, score.full, q, done, mix)
    modifies dst
    ensures Tracks(score, f, d, q + (done + 2)) && PacketFrom(score, f, src, d, end)
    ensures OnlyCodecMoved(f0, f)
    ensures q + (done + 2) <= |score.full|
    ensures PeriodAfter(before, dst[..], start, score.full, q, done + 2, mix)
  {
    ghost var mid := dst[..];
    f, src, d := NextPair(score, resample, f0, src0, d0, end, q + done);
    PutPair(host, PhasePair(resample, f), dst, at, mix);
    f := NextPhase(resample, f);
    PeriodAfterJoins(before, mid, dst[..], start, score.full, q, done, 2, mix);
  }

  /** The decoding loop, for `n` outputs that the packet in hand still holds. */
  method DecodeLoop(host: HostOrder, ghost score: Score, resample: bool, f0: Frame, src0: nat,
                    n: nat, dst: array<Slot>, at: nat, mix: bool, ghost half: nat,
                    ghost d0: nat, ghost end: nat, ghost q: nat)
    returns (f: Frame, ghost d: nat)
    requires resample == score.resample
    requires Tracks(score, f0, d0, q) && PacketFrom(score, f0, src0, d0, end)
    requires q + n <= Outputs(resample, end)
    requires n == 2 * half
    requires at + n <= dst.Length
    modifies dst
    ensures Tracks(score, f, d, q + n)
    ensures OnlyCodecMoved(f0, f)
    ensures q + n <= |score.full|
    ensures PeriodAfter(old(dst[..]), dst[..], at, score.full, q, n, mix)
  {
    f, d := f0, d0;
    var src, samplesRemaining, outBuffer := src0, n, at;
    ghost var pairs, done, before := half, 0, dst[..];
    while samplesRemaining >= 2
      invariant samplesRemaining == 2 * pairs == n - done
      invariant outBuffer == at + done
      invariant Tracks(score, f, d, q + done)
      invariant PacketFrom(score, f, src, d, end)
      invariant OnlyCodecMoved(f0, f)
      invariant q + done <= |score.full|
      invariant PeriodAfter(before, dst[..], at, score.full, q, done, mix)
    {
      f, src, d := DecodeTurn(host, score, resample, f, src, dst, outBuffer, mix, d, end, before, at, q, done);
      outBuffer := outBuffer + 2;
      samplesRemaining := samplesRemaining - 2;
      pairs, done := pairs - 1, done + 2;
    }
    assert pairs == 0 && done == n;
  }

  /** Where the next byte to decode is in the packet in hand: past the bytes already put out, and
      past the byte in progress when resampling has stopped inside its six outputs. */
  function SourceIndex(resample: bool, processed: nat): nat {
    if resample then processed / 6 + (if processed % 6 != 0 then 1 else 0) else processed / 2
  }

  /** When the packet in hand ends at byte `end` of the sample and `q` outputs have been put out,
      the source index points at the first byte not yet decoded. */
  lemma SourceIndexIsDecoded(score: Score, f: Frame, d: nat, end: nat, q: int)
    requires Tracks(score, f, d, q)
    requires end <= |score.data| && |f.buffer| <= end
    requires f.buffer == score.data[end - |f.buffer|..end]
    requires f.processed <= f.nbsamples == Outputs(score.resample, |f.buffer|)
    requires q == Outputs(score.resample, end) - f.nbsamples + f.processed
    ensures PacketFrom(score, f, SourceIndex(score.resample, f.processed), d, end)
  {
    var src := d - (end - |f.buffer|);
    assert SourceIndex(score.resample, f.processed) == src;
    assert f.buffer[src..] == score.data[d..end];
  }

  /** Outputs put out when the PROM library has handed out `cursor` bytes. */
  ghost function Position(resample: bool, f: Frame, cursor: nat): int {
    Outputs(resample, cursor) - f.nbsamples + f.processed
  }

  /** The packet in hand ends at the cursor and part of it has been put out; the codec has followed. */
  ghost predicate Stands(score: Score, f: Frame, cursor: nat, d: nat) {
    && cursor <= |score.data|
    && f.processed <= f.nbsamples
    && (f.nbsamples != 0 ==>
          && f.nbsamples == Outputs(score.resample, |f.buffer|)
          && |f.buffer| <= cursor
          && f.buffer == score.data[cursor - |f.buffer|..cursor])
    && Tracks(score, f, d, Position(score.resample, f, cursor))
  }

  /** When resampling, the phase can be told from how much of the packet has been put out. */
  lemma PhaseFromProcessed(score: Score, f: Frame, cursor: nat, d: nat)
    requires Stands(score, f, cursor, d) && score.resample
    ensures f.phase == f.processed / 2 % 3
  {
    var k := WholeBytes(score, f, cursor, d);
    ThirdOf(f.processed, k, f.phase);
  }

  /** Of the outputs put out, all but those of the current phase belong to whole bytes. */
  lemma WholeBytes(score: Score, f: Frame, cursor: nat, d: nat) returns (k: int)
    requires Stands(score, f, cursor, d) && score.resample
    ensures f.phase < 3 && f.processed == 6 * k + 2 * f.phase
  {
    var start := if f.nbsamples == 0 then cursor else cursor - |f.buffer|;
    k := if f.phase != 0 then d - 1 - start else d - start;
  }

  lemma ThirdOf(processed: nat, k: int, phase: nat)
    requires phase < 3 && processed == 6 * k + 2 * phase
    ensures processed / 2 % 3 == phase
  {
    assert processed / 2 == 3 * k + phase;
  }

  lemma StandsAfterServing(score: Score, f0: Frame, f1: Frame, cursor: nat, d0: nat, d1: nat, n: nat,
                           f: Frame)
    requires Stands(score, f0, cursor, d0)
    requires OnlyCodecMoved(f0, f1) && f0.processed + n <= f0.nbsamples
    requires Tracks(score, f1, d1, Position(score.resample, f0, cursor) + n)
    requires f == f1.(processed := f0.processed + n, isReset := f.isReset)
    ensures Stands(score, f, cursor, d1)
    ensures 0 <= Position(score.resample, f, cursor) == Position(score.resample, f0, cursor) + n <= |score.full|
  {
  }

  /** Decode `n` outputs, at least two, out of the packet in hand, which the decoder stands in. */
  method ServePacket(host: HostOrder, ghost score: Score, resample: bool, f0: Frame, n: nat,
                     dst: array<Slot>, at: nat, mix: bool, ghost half: nat,
                     ghost cursor: nat, ghost d0: nat, ghost q: nat)
    returns (f: Frame, ghost d: nat)
    requires resample == score.resample
    requires Stands(score, f0, cursor, d0) && q == Position(resample, f0, cursor)
    requires 0 < n == 2 * half <= f0.nbsamples - f0.processed
    requires at + n <= dst.Length
    modifies dst
    ensures Stands(score, f, cursor, d)
    ensures Position(resample, f, cursor) == q + n <= |score.full|
    ensures PeriodAfter(old(dst[..]), dst[..], at, score.full, q, n, mix)
    ensures !f.isReset
  {
    SourceIndexIsDecoded(score, f0, d0, cursor, q);
    var src := SourceIndex(resample, f0.processed);
    var f1;
    f1, d := DecodeLoop(host, score, resample, f0, src, n, dst, at, mix, half, d0, cursor, q);
    f := f1.(processed := f1.processed + n, isReset := false);
    StandsAfterServing(score, f0, f1, cursor, d0, d, n, f);
  }

  /** A rewound decoder is the initial one, with all of the sample ahead of it: in the packet in hand and in
      what the PROM library has not handed out.  Rewinding it again would change nothing. */
  lemma RewoundIsInitial(score: Score, f: Frame, cursor: nat, d: nat)
    requires Stands(score, f, cursor, d) && Position(score.resample, f, cursor) == 0
    ensures f.signal == 0 && f.step == 0x7f && f.phase == 0 && f.processed == 0 && d == 0
    ensures cursor != 0 ==> f.buffer + score.data[cursor..] == score.data
  {
    assert f.nbsamples == Outputs(score.resample, cursor);
  }

  lemma EvenPosition(score: Score, f: Frame, cursor: nat, d: nat)
    requires Stands(score, f, cursor, d)
    ensures Position(score.resample, f, cursor) % 2 == 0
    ensures |score.full| % 2 == 0
  {
    var k := HalfPosition(score, f, cursor, d);
    TwiceIsEven(Position(score.resample, f, cursor), k);
    TwiceIsEven(|score.full|, if score.resample then 3 * |score.data| else |score.data|);
  }

  lemma HalfPosition(score: Score, f: Frame, cursor: nat, d: nat) returns (k: int)
    requires Stands(score, f, cursor, d)
    ensures Position(score.resample, f, cursor) == 2 * k
  {
    k := if score.resample && f.phase != 0 then 3 * (d - 1) + f.phase
         else if score.resample then 3 * d else d;
  }

  /** What is left of a packet is an even number of outputs; with nothing left of it, and nothing more to be
      handed out, the stream has been put out, and only then. */
  lemma PacketLeft(score: Score, f: Frame, cursor: nat, d: nat)
    requires Stands(score, f, cursor, d)
    ensures (f.nbsamples - f.processed) % 2 == 0
    ensures Outputs(score.resample, cursor) <= |score.full|
    ensures Position(score.resample, f, cursor) == |score.full| <==>
              f.processed == f.nbsamples && cursor == |score.data|
  {
    var k := HalfPosition(score, f, cursor, d);
    TwiceIsEven(f.nbsamples - f.processed, (if score.resample then 3 * cursor else cursor) - k);
  }

  lemma TwiceIsEven(x: int, k: int)
    requires x == 2 * k
    ensures x % 2 == 0
  {
  }

  /** struct asmp_instance.  A sample whose `ref` is zero has been freed. */
  class Sample {
    const host: HostOrder
    const resample: bool
    const data: seq<byte>        // the sample's bytes in the PROM
    ghost const score: Score     // what they decode to

    var cursor: nat              // how far the PROM library has handed them out
    var frame: Frame
    var ate: bool
    var ref: int
    var events: seq<Event>       // what on_output_event has delivered, oldest first

    ghost var decoded: nat       // bytes decoded since the last rewind

    /** Outputs put out since the last rewind. */
    ghost function Emitted(): int
      reads this`cursor, this`frame
    {
      Position(resample, frame, cursor)
    }

    /** Where the packet in hand ends in the stream. */
    ghost function Handed(): int
      reads this`cursor
    {
      Outputs(resample, cursor)
    }

    /** The decoder is in order.  What that means for the frame is stated for every `c` equal to the
        cursor, so that it comes into a proof only where Stands is mentioned. */
    ghost predicate Ready()
      reads this`cursor, this`frame, this`ate, this`decoded
    {
      && score.resample == resample && score.data == data
      && (forall c: nat {:trigger Stands(score, frame, c, decoded)} | c == cursor :: Stands(score, frame, c, decoded))
      && 0 <= Emitted() <= |score.full|
      && (ate ==> Emitted() == |score.full|)
      && (frame.isReset ==> Emitted() == 0)
    }

    ghost predicate Valid()
      reads this
    {
      0 < ref && Ready()
    }

    method OnOutputEvent(ev: Event)
      modifies this`events
      ensures events == old(events) + [ev]
    {
      events := events + [ev];
    }

    method AddRef()
      requires 0 < ref
      modifies this`ref
      ensures ref == old(ref) + 1
    {
      ref := ref + 1;
    }

    /** Give up a reference; the last one frees the sample. */
    method Close()
      requires 0 < ref
      modifies this`ref
      ensures ref == old(ref) - 1
    {
      ref := ref - 1;
    }

    /** Creation followed by a successful open. */
    constructor (host: HostOrder, resample: bool, data: seq<byte>)
      ensures Valid() && frame.isReset && !ate && Emitted() == 0
      ensures this.host == host && this.resample == resample && this.data == data
      ensures score == ScoreOf(resample, data)
      ensures ref == 1 && events == []
    {
      this.host, this.resample, this.data := host, resample, data;
      score := ScoreOf(resample, data);
      ScoreIsGenuine(resample, data);
      cursor, ate, ref, events, decoded := 0, false, 1, [], 0;
      frame := Frame([], 0, 0, 0, 0x7f, false, 0, 0, 0);
      new;
      Reset();
    }

    /** esprom_sample_getbuffer: the library cuts the sample into packets as it likes, and at the
        end reports an error or an empty packet. */
    method GetBuffer() returns (err: int)
      requires cursor <= |data|
      modifies this`cursor, this`frame
      ensures frame == old(frame).(buffer := frame.buffer)
      ensures old(cursor) == |data| ==> cursor == |data| && (err < 0 || frame.buffer == [])
      ensures old(cursor) < |data| ==>
                && 0 <= err
                && 0 < |frame.buffer| && cursor == old(cursor) + |frame.buffer| <= |data|
                && frame.buffer == data[old(cursor)..cursor]
    {
      if cursor == |data| {
        if * {
          return -1;
        }
        frame := frame.(buffer := []);
        return 0;
      }
      var len: nat :| 0 < len <= |data| - cursor;
      frame := frame.(buffer := data[cursor..cursor + len]);
      cursor := cursor + len;
      return 0;
    }

    method ReadPacket()
      requires cursor <= |data|
      modifies this`cursor, this`frame, this`ate
      ensures cursor <= |data|
      ensures frame.nbsamples != 0 ==>
                && frame.nbsamples == Outputs(resample, |frame.buffer|)
                && |frame.buffer| <= cursor
                && frame.buffer == data[cursor - |frame.buffer|..cursor]
      ensures cursor <= |data|
      ensures Emitted() == Outputs(resample, old(cursor))
      ensures frame == old(frame).(buffer := frame.buffer, nbsamples := frame.nbsamples, processed := 0)
      ensures old(cursor) == |data| ==> ate && frame.nbsamples == 0
      ensures old(cursor) < |data| ==> ate == old(ate) && 2 <= frame.nbsamples
    {
      frame := frame.(nbsamples := 0, processed := 0);
      var err := GetBuffer();
      if err < 0 || |frame.buffer| == 0 {
        ate := true;
        return;
      }
      frame := frame.(nbsamples := if resample then |frame.buffer| * 6 else |frame.buffer| * 2);
    }

    /** Rewind, or nothing when the sample is already rewound.  In both cases the stream starts
        over; the only thing the early return does not do is clear the at-end flag. */
    method Reset()
      requires 0 < ref && score.Genuine() && score.resample == resample && score.data == data
      requires frame.isReset ==> Valid()
      modifies this
      ensures Valid() && frame.isReset && Emitted() == 0
      ensures ate <==> old(frame.isReset && ate)
      ensures ref == old(ref) && events == old(events)
    {
      if frame.isReset {
        return;
      }
      cursor := 0;
      frame := frame.(signal := 0, step := 0x7f, phase := 0, processed := 0);
      decoded := 0;
      ReadPacket();
      frame := frame.(isReset := true);
      ate := false;
    }

    /** Fetch a packet when the one in hand has been put out. */
    method Refill()
      requires Valid()
      modifies this`cursor, this`frame, this`ate
      ensures Valid()
      ensures Emitted() == old(Emitted()) && frame.isReset == old(frame.isReset)
      ensures ate == (frame.processed == frame.nbsamples) == (Emitted() == |score.full|)
      ensures old(ate) ==> ate
      ensures old(frame.processed < frame.nbsamples) ==> cursor == old(cursor)
    {
      assert Stands(score, frame, cursor, decoded);
      PacketLeft(score, frame, cursor, decoded);
      if frame.processed >= frame.nbsamples {
        ReadPacket();
      }
    }

    /** How much of the packet in hand is left. */
    lemma InHand()
      requires Valid()
      ensures Handed() - Emitted() == frame.nbsamples - frame.processed
      ensures (frame.nbsamples - frame.processed) % 2 == 0 && 0 <= frame.nbsamples - frame.processed
      ensures Handed() <= |score.full|
    {
      assert Stands(score, frame, cursor, decoded);
      PacketLeft(score, frame, cursor, decoded);
    }

    /** Decode `n` outputs out of the packet in hand, at least two. */
    method Serve(n: nat, dst: array<Slot>, at: nat, mix: bool, ghost half: nat)
      requires Valid()
      requires 0 < n == 2 * half <= frame.nbsamples - frame.processed
      requires at + n <= dst.Length
      modifies this`frame, this`decoded, dst
      ensures Valid()
      ensures Emitted() == old(Emitted()) + n <= |score.full|
      ensures PeriodAfter(old(dst[..]), dst[..], at, score.full, old(Emitted()), n, mix)
      ensures !frame.isReset
    {
      ghost var q := Emitted();
      assert Stands(score, frame, cursor, decoded);
      frame, decoded := ServePacket(host, score, resample, frame, n, dst, at, mix, half, cursor, decoded, q);
    }

    /** Decode into `dst` from slot `at` on: read when `mix` is false, mix when it is true. */
    method DeAdpcm(samples: nat, dst: array<Slot>, at: nat, mix: bool) returns (n: nat)
      requires Valid()
      requires at + samples <= dst.Length
      modifies this, dst
      ensures Valid()
      ensures n <= samples && n % 2 == 0
      ensures Emitted() == old(Emitted()) + n <= |score.full|
      ensures PeriodAfter(old(dst[..]), dst[..], at, score.full, old(Emitted()), n, mix)
      ensures Chunks.Answers(score.full, old(Emitted()), old(Handed()),
                             Chunks.Read(samples, score.full[old(Emitted())..Emitted()], Handed(), ate))
      ensures n == 0 ==> frame.isReset == old(frame.isReset)
      ensures n == 0 ==> ate || (samples < 2 && Emitted() < |score.full|)
      ensures n != 0 ==> ate == old(ate) && !frame.isReset
      ensures ref == old(ref) && events == old(events)
    {
      InHand();
      Refill();
      InHand();
      var samplesRemainingInFrame: nat := frame.nbsamples - frame.processed;
      n := if samples > samplesRemainingInFrame then samplesRemainingInFrame else samples;
      n := n - n % 2;
      Chunks.ServedAnswers(score.full, old(Emitted()), old(Handed()), Handed(), samples, n, ate);
      if n != 0 {
        Serve(n, dst, at, mix, n / 2);
      }
    }
  }
}
