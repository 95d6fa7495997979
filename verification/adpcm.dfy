/** The 4-bit ADPCM code: one nibble moves a clamped signal by a multiple of a clamped, adaptive
    step.  This module is the specification; the decoder object that walks through packets is in
    s5prom.dfy.
 */
module Adpcm {
  import opened Pcm

  type nibble = x: int | 0 <= x < 16

  type stepsize = x: int | 0x7f <= x <= 0x6000 witness 0x7f

  const VOLUME := 10

  const DIFF_LOOKUP: seq<int> :=
    [1, 3, 5, 7, 9, 11, 13, 15, -1, -3, -5, -7, -9, -11, -13, -15]

  const INDEX_SCALE: seq<int> :=
    [0x0e6, 0x0e6, 0x0e6, 0x0e6, 0x133, 0x199, 0x200, 0x266,
     0x0e6, 0x0e6, 0x0e6, 0x0e6, 0x133, 0x199, 0x200, 0x266]

  datatype Codec = Codec(signal: int16, step: stepsize)

  const INITIAL := Codec(0, 0x7f)

  /** Division of C: the quotient is truncated toward zero. */
  function Quotient(a: int, d: int): int
    requires 0 < d
  {
    if 0 <= a then a / d else -((-a) / d)
  }

  function Clamp(x: int, lo: int, hi: int): (r: int)
    requires lo <= hi
    ensures lo <= r <= hi
    ensures lo <= x <= hi ==> r == x
  {
    if hi < x then hi else if x < lo then lo else x
  }

  function DecodeNibble(c: Codec, n: nibble): Codec {
    Codec(
      Clamp(c.signal + Quotient(c.step * DIFF_LOOKUP[n], 8), -0x8000, 0x7fff),
      Clamp(c.step * INDEX_SCALE[n % 8] / 0x100, 0x7f, 0x6000))
  }

  /** The state after both nibbles of a byte, the upper one first. */
  function DecodeByte(c: Codec, b: byte): Codec {
    DecodeNibble(DecodeNibble(c, b / 16), b % 16)
  }

  /** The sample put out for a signal: the volume control divides it. */
  function Output(signal: int16): int16 {
    Quotient(signal, VOLUME)
  }

  /** The two samples of a byte. */
  function BytePair(c: Codec, b: byte): (int16, int16) {
    var c1 := DecodeNibble(c, b / 16);
    (Output(c1.signal), Output(DecodeNibble(c1, b % 16).signal))
  }

  // ---- the output stream of a whole sample ---------------------------------------------------

  /** The codec before each byte, and after the last. */
  function Codecs(c: Codec, data: seq<byte>): (r: seq<Codec>)
    ensures |r| == |data| + 1 && r[0] == c
    ensures forall n | 0 <= n < |data| :: r[n + 1] == DecodeByte(r[n], data[n])
    decreases |data|
  {
    if data == [] then [c] else [c] + Codecs(DecodeByte(c, data[0]), data[1..])
  }

  /** The two samples of each byte. */
  function Pairs(c: Codec, data: seq<byte>): (r: seq<(int16, int16)>)
    ensures |r| == |data|
    decreases |data|
  {
    if data == [] then [] else [BytePair(c, data[0])] + Pairs(DecodeByte(c, data[0]), data[1..])
  }

  lemma {:induction false} PairsFollowCodecs(c: Codec, data: seq<byte>, n: nat)
    requires n < |data|
    ensures Pairs(c, data)[n] == BytePair(Codecs(c, data)[n], data[n])
    decreases |data|
  {
    if n > 0 {
      PairsFollowCodecs(DecodeByte(c, data[0]), data[1..], n - 1);
      assert Codecs(c, data)[n] == Codecs(DecodeByte(c, data[0]), data[1..])[n - 1];
    }
  }

  /** Number of outputs of `n` bytes: two a byte at 16 kHz, six when resampling to 48 kHz. */
  function Outputs(resample: bool, n: nat): nat {
    if resample then 6 * n else 2 * n
  }

  /** What one byte puts out. */
  function Spread(resample: bool, pair: (int16, int16)): seq<int16> {
    if resample then [pair.0, pair.0, pair.0, pair.1, pair.1, pair.1] else [pair.0, pair.1]
  }

  function SpreadAll(resample: bool, pairs: seq<(int16, int16)>): (r: seq<int16>)
    ensures |r| == Outputs(resample, |pairs|)
  {
    if pairs == [] then [] else Spread(resample, pairs[0]) + SpreadAll(resample, pairs[1..])
  }

  /** The whole sample decoded in one go. */
  function Stream(resample: bool, data: seq<byte>): (r: seq<int16>)
    ensures |r| == Outputs(resample, |data|)
  {
    SpreadAll(resample, Pairs(INITIAL, data))
  }

  lemma {:induction false} SpreadAt(resample: bool, pairs: seq<(int16, int16)>, n: nat)
    requires n < |pairs|
    ensures SpreadAll(resample, pairs)[Outputs(resample, n)..Outputs(resample, n + 1)] == Spread(resample, pairs[n])
  {
    var first, rest := Spread(resample, pairs[0]), SpreadAll(resample, pairs[1..]);
    if n == 0 {
      assert (first + rest)[..|first|] == first;
    } else {
      SpreadAt(resample, pairs[1..], n - 1);
      SliceBehind(first, rest, Outputs(resample, n - 1), Outputs(resample, n));
    }
  }

  lemma SliceBehind(a: seq<int16>, b: seq<int16>, from: nat, to: nat)
    requires from <= to <= |b|
    ensures (a + b)[|a| + from..|a| + to] == b[from..to]
  {
  }

  /** The 48 kHz stream is the 16 kHz stream with every sample three times. */
  lemma ResampledRepeatsThrice(data: seq<byte>, p: nat)
    requires p < |Stream(true, data)|
    ensures |Stream(true, data)| == 3 * |Stream(false, data)|
    ensures Stream(true, data)[p] == Stream(false, data)[p / 3]
  {
    SpreadThrice(Pairs(INITIAL, data), p);
  }

  lemma {:induction false} SpreadThrice(pairs: seq<(int16, int16)>, p: nat)
    requires p < 6 * |pairs|
    ensures SpreadAll(true, pairs)[p] == SpreadAll(false, pairs)[p / 3]
  {
    if p >= 6 {
      SpreadThrice(pairs[1..], p - 6);
    }
  }

  // ---- a sample decoded in advance -----------------------------------------------------------

  /** Everything a sample decodes to.  Proofs about the decoder object refer to these values by
      position, which keeps the code tables out of them. */
  datatype Score = Score(
    resample: bool,
    data: seq<byte>,
    codecs: seq<Codec>,            // the codec before each byte, and after the last
    pairs: seq<(int16, int16)>,    // the two samples of each byte
    full: seq<int16>)              // the output stream
  {
    ghost predicate Genuine() {
      && |codecs| == |data| + 1
      && |pairs| == |data|
      && |full| == Outputs(resample, |data|)
      && codecs[0] == INITIAL
      && (forall n {:trigger DecodeByte(codecs[n], data[n])} | 0 <= n < |data| ::
            codecs[n + 1] == DecodeByte(codecs[n], data[n]))
      && (forall n {:trigger BytePair(codecs[n], data[n])} | 0 <= n < |data| ::
            pairs[n] == BytePair(codecs[n], data[n]))
      && (forall n {:trigger Spread(resample, pairs[n])} | 0 <= n < |data| ::
            full[Outputs(resample, n)..Outputs(resample, n + 1)] == Spread(resample, pairs[n]))
    }
  }

  function ScoreOf(resample: bool, data: seq<byte>): Score {
    Score(resample, data, Codecs(INITIAL, data), Pairs(INITIAL, data), Stream(resample, data))
  }

  lemma ScoreIsGenuine(resample: bool, data: seq<byte>)
    ensures ScoreOf(resample, data).Genuine()
  {
    var pairs := Pairs(INITIAL, data);
    forall n | 0 <= n < |data|
      ensures pairs[n] == BytePair(Codecs(INITIAL, data)[n], data[n])
    {
      PairsFollowCodecs(INITIAL, data, n);
    }
    forall n | 0 <= n < |data|
      ensures Stream(resample, data)[Outputs(resample, n)..Outputs(resample, n + 1)] == Spread(resample, pairs[n])
    {
      SpreadAt(resample, pairs, n);
    }
  }

  /** A genuine score holds nothing but the one-shot decode. */
  lemma GenuineIsStream(score: Score)
    requires score.Genuine()
    ensures score == ScoreOf(score.resample, score.data)
  {
    var data, codecs := score.data, Codecs(INITIAL, score.data);
    CodecsUnique(data, score.codecs, codecs);
    forall n | 0 <= n < |data|
      ensures score.pairs[n] == Pairs(INITIAL, data)[n]
    {
      PairsFollowCodecs(INITIAL, data, n);
      assert score.pairs[n] == BytePair(score.codecs[n], data[n]);
    }
    assert score.pairs == Pairs(INITIAL, data);
    SpreadUnique(score.resample, score.pairs, score.full);
  }

  lemma {:induction false} CodecsUnique(data: seq<byte>, a: seq<Codec>, b: seq<Codec>)
    requires |a| == |b| == |data| + 1 && a[0] == b[0]
    requires forall n {:trigger DecodeByte(a[n], data[n])} | 0 <= n < |data| :: a[n + 1] == DecodeByte(a[n], data[n])
    requires forall n {:trigger DecodeByte(b[n], data[n])} | 0 <= n < |data| :: b[n + 1] == DecodeByte(b[n], data[n])
    ensures a == b
  {
    for n := 0 to |data|
      invariant forall m | 0 <= m <= n :: a[m] == b[m]
    {
      assert a[n + 1] == DecodeByte(a[n], data[n]) == b[n + 1];
    }
  }

  lemma SpreadUnique(resample: bool, pairs: seq<(int16, int16)>, full: seq<int16>)
    requires |full| == Outputs(resample, |pairs|)
    requires forall n {:trigger Spread(resample, pairs[n])} | 0 <= n < |pairs| ::
               full[Outputs(resample, n)..Outputs(resample, n + 1)] == Spread(resample, pairs[n])
    ensures full == SpreadAll(resample, pairs)
  {
    var all := SpreadAll(resample, pairs);
    forall p | 0 <= p < |full|
      ensures full[p] == all[p]
    {
      var n := if resample then p / 6 else p / 2;
      SpreadAt(resample, pairs, n);
      assert full[Outputs(resample, n)..Outputs(resample, n + 1)] == Spread(resample, pairs[n]);
      SamePiece(full, all, Outputs(resample, n), Outputs(resample, n + 1), p);
    }
  }

  lemma SamePiece(a: seq<int16>, b: seq<int16>, from: nat, to: nat, p: nat)
    requires from <= p < to <= |a| == |b| && a[from..to] == b[from..to]
    ensures a[p] == b[p]
  {
    assert a[p] == a[from..to][p - from] && b[p] == b[from..to][p - from];
  }

  // ---- arithmetic bounds ---------------------------------------------------------------------

  lemma TableBounds(n: nibble)
    ensures -15 <= DIFF_LOOKUP[n] <= 15
    ensures 0 < INDEX_SCALE[n % 8] <= 0x266
  {
  }

  /** No intermediate of a decoding step leaves 32 bits, whatever the state and the nibble. */
  lemma DecodeNibbleFitsInt32(c: Codec, n: nibble)
    ensures -0x5_a000 <= c.step * DIFF_LOOKUP[n] <= 0x5_a000
    ensures -0x8000 - 0xb400 <= c.signal + Quotient(c.step * DIFF_LOOKUP[n], 8) <= 0x7fff + 0xb400
    ensures 0 < c.step * INDEX_SCALE[n % 8] < 0x8000_0000
  {
    TableBounds(n);
    var d := DIFF_LOOKUP[n];
    assert -0x6000 * 15 <= c.step * d <= 0x6000 * 15;
  }

  /** Every output of every sample lies within a tenth of full scale. */
  lemma OutputBounds(resample: bool, data: seq<byte>)
    ensures forall v | v in Stream(resample, data) :: -3276 <= v <= 3276
  {
    PairBounds(INITIAL, data);
    SpreadBounds(resample, Pairs(INITIAL, data));
  }

  lemma {:induction false} PairBounds(c: Codec, data: seq<byte>)
    ensures forall pair | pair in Pairs(c, data) :: -3276 <= pair.0 <= 3276 && -3276 <= pair.1 <= 3276
    decreases |data|
  {
    if data != [] {
      PairBounds(DecodeByte(c, data[0]), data[1..]);
    }
  }

  lemma {:induction false} SpreadBounds(resample: bool, pairs: seq<(int16, int16)>)
    requires forall pair | pair in pairs :: -3276 <= pair.0 <= 3276 && -3276 <= pair.1 <= 3276
    ensures forall v | v in SpreadAll(resample, pairs) :: -3276 <= v <= 3276
  {
    if pairs != [] {
      assert pairs[0] in pairs;
      SpreadBounds(resample, pairs[1..]);
    }
  }

  /** Splitting a signal in two bytes and joining them in the union gives the signal back. */
  lemma SplitJoin(signal: int16)
    ensures Signed(0x100 * (signal / 0x100 % 0x100) + signal % 0x100) == signal
  {
    var u := if signal < 0 then signal + 0x1_0000 else signal;
    assert signal % 0x100 == u % 0x100 && signal / 0x100 % 0x100 == u / 0x100;
  }
}
