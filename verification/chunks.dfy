/** A sample read in pieces: whatever the sizes asked for, and whatever the packets the sample comes in, the
    pieces join up to the stream decoded in one go.
 */
module Chunks {
  import opened Pcm

  /** One read: what was asked for, what came, where in the stream the packet in hand ends afterwards, and
      whether the end has been flagged. */
  datatype Read = Read(request: nat, out: seq<int16>, handed: int, atEnd: bool)

  /** Outputs come in pairs. */
  function Even(n: nat): (r: nat)
    ensures r <= n < r + 2 && r % 2 == 0
  {
    n - n % 2
  }

  /** What the decoder promises of a read that starts at position `q` of the stream, with a packet in hand
      that ends at `handed`.  The read gives all that was asked for, save an odd one, unless the packet is
      used up first; a new packet is fetched when nothing is left of the last one, and only then; and the end
      is flagged when there was nothing left to give, and only then. */
  ghost predicate Answers(full: seq<int16>, q: nat, handed: int, r: Read) {
    && q + |r.out| <= |full| && r.out == full[q..q + |r.out|]
    && q <= r.handed <= |full| && (r.handed - q) % 2 == 0
    && |r.out| == (if Even(r.request) <= r.handed - q then Even(r.request) else r.handed - q)
    && (q < handed ==> r.handed == handed)
    && (q == r.handed ==> q == |full|)
    && (r.atEnd <==> q == |full|)
  }

  /** A sequence of reads, one after the other. */
  ghost predicate AllAnswer(full: seq<int16>, q: nat, handed: int, calls: seq<Read>)
    decreases |calls|
  {
    calls != [] ==>
      Answers(full, q, handed, calls[0]) && AllAnswer(full, q + |calls[0].out|, calls[0].handed, calls[1..])
  }

  function Joined(calls: seq<Read>): seq<int16> {
    if calls == [] then [] else calls[0].out + Joined(calls[1..])
  }

  /** Where the packet in hand ends after the reads. */
  function Handed(handed: int, calls: seq<Read>): int {
    if calls == [] then handed else calls[|calls| - 1].handed
  }

  lemma {:induction false} JoinedAppend(calls: seq<Read>, r: Read)
    ensures Joined(calls + [r]) == Joined(calls) + r.out
    decreases |calls|
  {
    if calls == [] {
      assert calls + [r] == [r];
    } else {
      assert (calls + [r])[1..] == calls[1..] + [r];
      JoinedAppend(calls[1..], r);
    }
  }

  /** One read more, from where the reads before have got to. */
  lemma {:induction false} AnswerAppend(full: seq<int16>, q: nat, handed: int, calls: seq<Read>,
                                        q': nat, handed': int, r: Read)
    requires AllAnswer(full, q, handed, calls)
    requires q' == q + |Joined(calls)| && handed' == Handed(handed, calls)
    requires Answers(full, q', handed', r)
    ensures AllAnswer(full, q, handed, calls + [r])
    decreases |calls|
  {
    if calls == [] {
      AnswerFirst(full, q, handed, r, []);
      assert calls + [r] == [r] + [];
    } else {
      var first, rest := calls[0], calls[1..];
      AnswerAppend(full, q + |first.out|, first.handed, rest, q', handed', r);
      AnswerFirst(full, q, handed, first, rest + [r]);
      assert calls + [r] == [first] + (rest + [r]);
    }
  }

  lemma AnswerFirst(full: seq<int16>, q: nat, handed: int, r: Read, rest: seq<Read>)
    requires Answers(full, q, handed, r) && AllAnswer(full, q + |r.out|, r.handed, rest)
    ensures AllAnswer(full, q, handed, [r] + rest)
  {
    assert ([r] + rest)[1..] == rest;
  }

  /** A read that starts at `q` and serves `n` outputs from the packet in hand. */
  lemma ServedAnswers(full: seq<int16>, q: nat, handed: int, handed': int, request: nat, n: nat, atEnd: bool)
    requires q <= handed' <= |full| && (handed' - q) % 2 == 0
    requires n == Even(if handed' - q < request then handed' - q else request)
    requires q < handed ==> handed' == handed
    requires (atEnd <==> q == |full|) && (q == handed' ==> atEnd)
    ensures q + n <= |full| && Answers(full, q, handed, Read(request, full[q..q + n], handed', atEnd))
  {
  }

  /** The pieces are a prefix of what was left of the stream, and all of it once the end is flagged. */
  lemma {:induction false} ChunkIndependence(full: seq<int16>, q: nat, handed: int, calls: seq<Read>)
    requires q <= |full| && AllAnswer(full, q, handed, calls)
    ensures q + |Joined(calls)| <= |full| && Joined(calls) == full[q..q + |Joined(calls)|]
    ensures (exists r | r in calls :: r.atEnd) ==> Joined(calls) == full[q..]
    decreases |calls|
  {
    if calls != [] {
      var r, rest := calls[0], calls[1..];
      ChunkIndependence(full, q + |r.out|, r.handed, rest);
      assert full[q..q + |Joined(calls)|] == r.out + full[q + |r.out|..q + |Joined(calls)|];
      if r.atEnd {
        assert Joined(rest) == [];
      } else if exists x | x in calls :: x.atEnd {
        var x :| x in calls && x.atEnd;
        assert x in rest;
        assert full[q..] == r.out + full[q + |r.out|..];
      }
    }
  }

  /** Requests of two outputs or more get to the end: each gives at least two as long as there are any. */
  lemma {:induction false} ReadsReachEnd(full: seq<int16>, q: nat, handed: int, calls: seq<Read>)
    requires q <= |full| && AllAnswer(full, q, handed, calls)
    requires forall k | 0 <= k < |calls| :: 2 <= calls[k].request
    ensures |full| - q < 2 * |calls| ==> exists r | r in calls :: r.atEnd
    decreases |calls|
  {
    if calls != [] && !calls[0].atEnd && |full| - q < 2 * |calls| {
      assert 2 <= |calls[0].out|;
      ReadsReachEnd(full, q + |calls[0].out|, calls[0].handed, calls[1..]);
      var r :| r in calls[1..] && r.atEnd;
      assert r in calls;
    }
  }

  /** Two ways of reading a stream to its end give the same. */
  lemma SameHoweverCut(full: seq<int16>, q: nat, handedA: int, a: seq<Read>, handedB: int, b: seq<Read>)
    requires q <= |full| && AllAnswer(full, q, handedA, a) && AllAnswer(full, q, handedB, b)
    requires (exists r | r in a :: r.atEnd) && (exists r | r in b :: r.atEnd)
    ensures Joined(a) == Joined(b)
  {
    ChunkIndependence(full, q, handedA, a);
    ChunkIndependence(full, q, handedB, b);
  }

  /** The packets and the requests decide what each read gives. */
  lemma {:induction false} PacketsDecide(full: seq<int16>, q: nat, handedA: int, a: seq<Read>,
                                         handedB: int, b: seq<Read>)
    requires q <= |full| && AllAnswer(full, q, handedA, a) && AllAnswer(full, q, handedB, b)
    requires |a| == |b| && forall k | 0 <= k < |a| :: a[k].request == b[k].request && a[k].handed == b[k].handed
    ensures a == b
    decreases |a|
  {
    if a != [] {
      assert a[0].out == b[0].out;
      PacketsDecide(full, q + |a[0].out|, a[0].handed, a[1..], b[0].handed, b[1..]);
      assert a == [a[0]] + a[1..] && b == [b[0]] + b[1..];
    }
  }

  /** A read gives less than it was asked for, save an odd one. */
  predicate Short(r: Read) {
    |r.out| < Even(r.request)
  }

  lemma {:induction false} HandedBeyond(full: seq<int16>, q: nat, handed: int, calls: seq<Read>, k: nat)
    requires AllAnswer(full, q, handed, calls) && k < |calls| && !calls[k].atEnd
    ensures q < calls[k].handed
    decreases |calls|
  {
    if k > 0 {
      HandedBeyond(full, q + |calls[0].out|, calls[0].handed, calls[1..], k - 1);
    }
  }

  /** Before the end, no packet cuts more than one read short. */
  lemma {:induction false} ShortOncePerPacket(full: seq<int16>, q: nat, handed: int, calls: seq<Read>, j: nat, k: nat)
    requires AllAnswer(full, q, handed, calls) && j < k < |calls|
    requires Short(calls[j]) && !calls[k].atEnd
    ensures calls[j].handed < calls[k].handed
    decreases |calls|
  {
    var q', handed', rest := q + |calls[0].out|, calls[0].handed, calls[1..];
    if j == 0 {
      HandedBeyond(full, q', handed', rest, k - 1);
    } else {
      ShortOncePerPacket(full, q', handed', rest, j - 1, k - 1);
    }
  }
}
