/** What the ADPCM code is, without its tables: each nibble moves the signal up or down by an odd number of
    eighths of the step, and scales the step; the stream holds a tenth of the signal after each nibble.
 */
module Nibbles {
  import opened Pcm
  import opened Adpcm

  /** How far a nibble moves the signal: an odd number of eighths of the step. */
  function Distance(step: stepsize, n: nibble): int {
    match n % 8
    case 0 => step / 8
    case 1 => 3 * step / 8
    case 2 => 5 * step / 8
    case 3 => 7 * step / 8
    case 4 => 9 * step / 8
    case 5 => 11 * step / 8
    case 6 => 13 * step / 8
    case _ => 15 * step / 8
  }

  /** The signal after a nibble, whose highest bit says which way it moves. */
  function Moved(signal: int16, step: stepsize, n: nibble): int16 {
    var x := if n < 8 then signal + Distance(step, n) else signal - Distance(step, n);
    if x > 32767 then 32767 else if x < -32768 then -32768 else x
  }

  /** The step after a nibble: a short move makes it smaller, a long one larger. */
  function Scaled(step: stepsize, n: nibble): stepsize {
    var x := match n % 8
      case 4 => 307 * step / 256
      case 5 => 409 * step / 256
      case 6 => 512 * step / 256
      case 7 => 614 * step / 256
      case _ => 230 * step / 256;
    if x > 24576 then 24576 else if x < 127 then 127 else x
  }

  function Nibbled(c: Codec, n: nibble): Codec {
    Codec(Moved(c.signal, c.step, n), Scaled(c.step, n))
  }

  lemma QuotientOfNegative(p: int)
    requires 0 <= p
    ensures Quotient(p, 8) == p / 8 && Quotient(-p, 8) == -(p / 8)
  {
  }

  lemma DistanceIsQuotient(step: stepsize, n: nibble)
    ensures Quotient(step * DIFF_LOOKUP[n], 8) == if n < 8 then Distance(step, n) else -Distance(step, n)
  {
    var odd := 2 * (n % 8) + 1;
    assert DIFF_LOOKUP[n] == if n < 8 then odd else -odd;
    assert step * DIFF_LOOKUP[n] == if n < 8 then step * odd else -(step * odd);
    QuotientOfNegative(step * odd);
  }

  lemma NibbleMoves(c: Codec, n: nibble)
    ensures DecodeNibble(c, n) == Nibbled(c, n)
  {
    DistanceIsQuotient(c.step, n);
    assert INDEX_SCALE[n % 8] == match n % 8 case 4 => 307 case 5 => 409 case 6 => 512 case 7 => 614 case _ => 230;
  }

  /** Nibble `k` of a sample, the upper one of each byte first. */
  function NibbleAt(data: seq<byte>, k: nat): nibble
    requires k < 2 * |data|
  {
    if k % 2 == 0 then data[k / 2] / 16 else data[k / 2] % 16
  }

  /** A codec after the first `k` nibbles, each taken on by `next`. */
  function Fold(next: (Codec, nibble) -> Codec, data: seq<byte>, k: nat): Codec
    requires k <= 2 * |data|
  {
    if k == 0 then Codec(0, 127) else next(Fold(next, data, k - 1), NibbleAt(data, k - 1))
  }

  lemma FoldByte(next: (Codec, nibble) -> Codec, data: seq<byte>, n: nat)
    requires n < |data|
    ensures Fold(next, data, 2 * n + 1) == next(Fold(next, data, 2 * n), data[n] / 16)
    ensures Fold(next, data, 2 * n + 2) == next(Fold(next, data, 2 * n + 1), data[n] % 16)
  {
    assert NibbleAt(data, 2 * n) == data[n] / 16 && NibbleAt(data, 2 * n + 1) == data[n] % 16;
  }

  /** Taking whole bytes on is taking on their nibbles. */
  lemma {:induction false} FoldBytes(next: (Codec, nibble) -> Codec, both: (Codec, byte) -> Codec,
                                     data: seq<byte>, codecs: seq<Codec>, n: nat)
    requires n <= |data| && |codecs| == |data| + 1 && codecs[0] == Codec(0, 127)
    requires forall m {:trigger both(codecs[m], data[m])} | 0 <= m < |data| :: codecs[m + 1] == both(codecs[m], data[m])
    requires forall c, b: byte {:trigger both(c, b)} :: both(c, b) == next(next(c, b / 16), b % 16)
    ensures codecs[n] == Fold(next, data, 2 * n)
  {
    if n > 0 {
      FoldBytes(next, both, data, codecs, n - 1);
      FoldByte(next, data, n - 1);
      assert codecs[n] == both(codecs[n - 1], data[n - 1]);
    }
  }

  lemma ByteIsTwoNibbles(c: Codec, b: byte)
    ensures DecodeByte(c, b) == Nibbled(Nibbled(c, b / 16), b % 16)
    ensures BytePair(c, b) == (Output(Nibbled(c, b / 16).signal), Output(Nibbled(Nibbled(c, b / 16), b % 16).signal))
  {
    NibbleMoves(c, b / 16);
    NibbleMoves(Nibbled(c, b / 16), b % 16);
  }

  /** The signal and the step after the first `k` nibbles. */
  function After(data: seq<byte>, k: nat): Codec
    requires k <= 2 * |data|
  {
    Fold(Nibbled, data, k)
  }

  lemma CodecsAfter(data: seq<byte>, n: nat)
    requires n <= |data|
    ensures Codecs(INITIAL, data)[n] == After(data, 2 * n)
  {
    forall c: Codec, b: byte
      ensures DecodeByte(c, b) == Nibbled(Nibbled(c, b / 16), b % 16)
    {
      ByteIsTwoNibbles(c, b);
    }
    FoldBytes(Nibbled, DecodeByte, data, Codecs(INITIAL, data), n);
  }

  lemma PairAfter(data: seq<byte>, n: nat)
    requires n < |data|
    ensures Pairs(INITIAL, data)[n]
         == (Output(After(data, 2 * n + 1).signal), Output(After(data, 2 * n + 2).signal))
  {
    PairsFollowCodecs(INITIAL, data, n);
    CodecsAfter(data, n);
    ByteIsTwoNibbles(Codecs(INITIAL, data)[n], data[n]);
    FoldByte(Nibbled, data, n);
  }

  /** Without resampling the two outputs of a pair follow those of the pairs before. */
  lemma {:induction false} PairsInOrder(pairs: seq<(int16, int16)>, n: nat)
    requires n < |pairs|
    ensures SpreadAll(false, pairs)[2 * n] == pairs[n].0 && SpreadAll(false, pairs)[2 * n + 1] == pairs[n].1
  {
    if n > 0 {
      PairsInOrder(pairs[1..], n - 1);
    }
  }

  lemma OutputsOfByte(data: seq<byte>, n: nat)
    requires n < |data|
    ensures Stream(false, data)[2 * n] == Output(After(data, 2 * n + 1).signal)
    ensures Stream(false, data)[2 * n + 1] == Output(After(data, 2 * n + 2).signal)
  {
    PairAfter(data, n);
    PairsInOrder(Pairs(INITIAL, data), n);
  }

  lemma StreamAfter(data: seq<byte>, k: nat)
    requires k < 2 * |data|
    ensures Stream(false, data)[k] == Output(After(data, k + 1).signal)
  {
    OutputsOfByte(data, k / 2);
    assert k == 2 * (k / 2) || k == 2 * (k / 2) + 1;
  }

  /** `o` is a tenth of `x`, rounded toward zero. */
  predicate Tenth(o: int, x: int) {
    if 0 <= x then 0 <= o && 0 <= x - 10 * o < 10 else o <= 0 && 0 <= 10 * o - x < 10
  }

  lemma OutputIsTenth(x: int16)
    ensures Tenth(Output(x), x)
  {
  }

  /** Output `k` of the 16 kHz stream is a tenth of the signal after nibble `k`. */
  lemma StreamIsTenths(data: seq<byte>, k: nat)
    requires k < 2 * |data|
    ensures Tenth(Stream(false, data)[k], After(data, k + 1).signal)
  {
    StreamAfter(data, k);
    OutputIsTenth(After(data, k + 1).signal);
  }

  /** ... and output `p` of the 48 kHz stream of the signal after nibble `p / 3`. */
  lemma ResampledIsTenths(data: seq<byte>, p: nat)
    requires p < 6 * |data|
    ensures Tenth(Stream(true, data)[p], After(data, p / 3 + 1).signal)
  {
    ResampledRepeatsThrice(data, p);
    StreamIsTenths(data, p / 3);
  }
}
