/** Reading a sample from beginning to end by requests of any size. */
module Reading {
  import opened Pcm
  import opened Adpcm
  import opened S5Prom
  import opened Chunks

  /** The words that stand for a piece of the stream in the audio device's memory. */
  function Words(piece: seq<int16>): (r: seq<uint16>)
    ensures |r| == |piece|
    ensures forall k | 0 <= k < |piece| :: r[k] == Wrap(0, piece[k])
  {
    seq(|piece|, k requires 0 <= k < |piece| => Wrap(0, piece[k]))
  }

  lemma WordsJoin(a: seq<int16>, b: seq<int16>)
    ensures Words(a + b) == Words(a) + Words(b)
  {
  }

  /** The words in the first `n` slots of a period. */
  function Heard(period: seq<Slot>, n: nat): (r: seq<uint16>)
    requires n <= |period|
    ensures |r| == n
    ensures forall k | 0 <= k < n :: r[k] == period[k].Word()
  {
    seq(n, k requires 0 <= k < n => period[k].Word())
  }

  /** The reads so far answer as they should, and what they put in memory joins up. */
  ghost predicate Reads(full: seq<int16>, handed: int, q: int, calls: seq<Read>, words: seq<uint16>) {
    && AllAnswer(full, 0, handed, calls)
    && q == |Joined(calls)|
    && words == Words(Joined(calls))
  }

  lemma ReadsOn(full: seq<int16>, handed: int, q: int, calls: seq<Read>, words: seq<uint16>, call: Read)
    requires Reads(full, handed, q, calls, words) && Answers(full, q, Handed(handed, calls), call)
    ensures Reads(full, handed, q + |call.out|, calls + [call], words + Words(call.out))
  {
    AnswerAppend(full, 0, handed, calls, q, Handed(handed, calls), call);
    JoinedAppend(calls, call);
    WordsJoin(Joined(calls), call.out);
  }

  lemma ReadsArePrefix(full: seq<int16>, handed: int, q: int, calls: seq<Read>, words: seq<uint16>)
    requires Reads(full, handed, q, calls, words)
    ensures q <= |full| && words == Words(full)[..q]
  {
    ChunkIndependence(full, 0, handed, calls);
    assert full == Joined(calls) + full[q..];
    WordsJoin(Joined(calls), full[q..]);
  }

  /** One read. */
  method ReadOnce(s: Sample, request: nat, dst: array<Slot>) returns (words: seq<uint16>, ghost call: Read)
    requires s.Valid() && request <= dst.Length
    modifies s, dst
    ensures s.Valid()
    ensures call.request == request && call.handed == s.Handed() && call.atEnd == s.ate
    ensures Answers(s.score.full, old(s.Emitted()), old(s.Handed()), call)
    ensures s.Emitted() == old(s.Emitted()) + |call.out|
    ensures words == Words(call.out)
  {
    ghost var q := s.Emitted();
    var n := s.DeAdpcm(request, dst, 0, false);
    call := Read(request, s.score.full[q..s.Emitted()], s.Handed(), s.ate);
    words := Heard(dst[..], n);
    assert words == Words(call.out);
  }

  method ReadRequests(s: Sample, requests: seq<nat>, dst: array<Slot>)
    returns (words: seq<uint16>, ghost calls: seq<Read>)
    requires s.Valid() && s.Emitted() == 0
    requires forall k | 0 <= k < |requests| :: requests[k] <= dst.Length
    modifies s, dst
    ensures s.Valid()
    ensures |calls| == |requests| && forall k | 0 <= k < |calls| :: calls[k].request == requests[k]
    ensures Reads(s.score.full, old(s.Handed()), s.Emitted(), calls, words)
  {
    words, calls := [], [];
    for i := 0 to |requests|
      invariant s.Valid()
      invariant |calls| == i && forall k | 0 <= k < i :: calls[k].request == requests[k]
      invariant Handed(old(s.Handed()), calls) == s.Handed()
      invariant Reads(s.score.full, old(s.Handed()), s.Emitted(), calls, words)
    {
      ghost var q := s.Emitted();
      var more, call := ReadOnce(s, requests[i], dst);
      ReadsOn(s.score.full, old(s.Handed()), q, calls, words, call);
      words, calls := words + more, calls + [call];
    }
  }

  /** Read a rewound sample by requests of any sizes.  However the library cuts it into packets, the reads
      together give a prefix of the sample decoded in one go, and all of it once the end is flagged. */
  method ReadAll(s: Sample, requests: seq<nat>, dst: array<Slot>) returns (words: seq<uint16>, ghost calls: seq<Read>)
    requires s.Valid() && s.Emitted() == 0
    requires forall k | 0 <= k < |requests| :: requests[k] <= dst.Length
    modifies s, dst
    ensures s.Valid()
    ensures |calls| == |requests| && forall k | 0 <= k < |calls| :: calls[k].request == requests[k]
    ensures AllAnswer(Stream(s.resample, s.data), 0, old(s.Handed()), calls)
    ensures words == Words(Joined(calls)) <= Words(Stream(s.resample, s.data))
    ensures s.ate ==> words == Words(Stream(s.resample, s.data))
    ensures (forall k | 0 <= k < |requests| :: 2 <= requests[k]) && |Stream(s.resample, s.data)| < 2 * |requests| ==>
              words == Words(Stream(s.resample, s.data))
  {
    words, calls := ReadRequests(s, requests, dst);
    if forall k | 0 <= k < |requests| :: 2 <= requests[k] {
      ReadsReachEnd(s.score.full, 0, old(s.Handed()), calls);
      ChunkIndependence(s.score.full, 0, old(s.Handed()), calls);
    }
    ReadsArePrefix(s.score.full, old(s.Handed()), s.Emitted(), calls, words);
    GenuineOfValid(s);
  }

  /** The stream an open sample goes by is its data decoded in one go. */
  lemma GenuineOfValid(s: Sample)
    requires s.Valid()
    ensures s.score.full == Stream(s.resample, s.data)
  {
    assert Stands(s.score, s.frame, s.cursor, s.decoded);
    GenuineIsStream(s.score);
  }

  /** Two samples with the same data, read to their ends by different requests and cut into packets
      differently, on hosts of any byte order, put the same words in memory. */
  method ReadTwice(a: Sample, requestsOfA: seq<nat>, b: Sample, requestsOfB: seq<nat>, dst: array<Slot>)
    returns (wordsOfA: seq<uint16>, wordsOfB: seq<uint16>)
    requires a != b && a.Valid() && a.Emitted() == 0 && b.Valid() && b.Emitted() == 0
    requires a.data == b.data && a.resample == b.resample
    requires forall k | 0 <= k < |requestsOfA| :: requestsOfA[k] <= dst.Length
    requires forall k | 0 <= k < |requestsOfB| :: requestsOfB[k] <= dst.Length
    modifies a, b, dst
    ensures wordsOfA <= wordsOfB || wordsOfB <= wordsOfA
    ensures a.ate && b.ate ==> wordsOfA == wordsOfB
  {
    ghost var calls;
    wordsOfA, calls := ReadAll(a, requestsOfA, dst);
    wordsOfB, calls := ReadAll(b, requestsOfB, dst);
  }
}
