/** The loop that moves one channel's samples into a DMA period: what it puts in the period, and
    exactly when it comes to an end.
 */
module Transfer {
  import opened Pcm
  import opened S5Prom
  import opened ChannelTable

  // ---- what a channel is to contribute --------------------------------------------------------

  /** Position `p` of a stream of length `m` repeated for ever, as a position in the stream; an empty
      stream has only position 0. */
  function Repeated(p: nat, m: nat): (r: nat)
    ensures 0 < m ==> r < m
  {
    if m == 0 then 0 else if p < m then p else Repeated(p - m, m)
  }

  /** A channel about to play: its sample's whole stream, where in it playback stands, and whether
      it starts over at the end. */
  datatype Voice = Voice(full: seq<int16>, start: nat, looping: bool) {
    ghost predicate Valid() {
      start <= |full|
    }

    /** The sample due `k` frames from now: cyclic when looping, followed by silence otherwise. */
    ghost function At(k: nat): int16
      requires Valid()
    {
      if looping && full != [] then full[Repeated(start + k, |full|)]
      else if start + k < |full| then full[start + k]
      else 0
    }

    /** Where a looping channel stands in its stream `k` frames from now, the end of the stream
        being kept apart from its beginning until more is asked for. */
    function After(k: nat): nat
      requires Valid() && looping
    {
      if k == 0 || full == [] then start else Repeated(start + k - 1, |full|) + 1
    }
  }

  /** The first `n` slots of a period carry a voice, on top of what was there when mixing. */
  ghost predicate Carries(before: seq<Slot>, after: seq<Slot>, n: int, v: Voice, mix: bool)
    requires v.Valid()
  {
    && |after| == |before|
    && forall w | 0 <= w < |before| ::
         if w < n
         then after[w].Word() == Wrap(if mix then before[w].Word() else 0, v.At(w))
         else after[w] == before[w]
  }

  // ---- positions in a repeated stream ----------------------------------------------------------

  lemma {:induction false} RepeatedShift(a: nat, j: nat, m: nat)
    ensures Repeated(a + j, m) == Repeated(Repeated(a, m) + j, m)
  {
    if a >= m > 0 {
      RepeatedShift(a - m, j, m);
    }
  }

  // ---- putting pieces together -------------------------------------------------------------------

  /** Where a voice may stand in its stream once `done` frames have been taken from it. */
  ghost predicate StandsAt(v: Voice, done: nat, position: nat)
    requires v.Valid()
  {
    && position <= |v.full|
    && if v.looping
       then
         && Repeated(position, |v.full|) == Repeated(v.start + done, |v.full|)
         && (0 < position ==> position == v.After(done))
       else position == v.start + done
  }

  lemma SamePosition(v: Voice, done: nat, position: nat, j: nat)
    requires v.Valid() && v.looping && StandsAt(v, done, position)
    ensures Repeated(v.start + (done + j), |v.full|) == Repeated(position + j, |v.full|)
  {
    RepeatedShift(v.start + done, j, |v.full|);
    RepeatedShift(position, j, |v.full|);
    assert v.start + (done + j) == v.start + done + j;
  }

  /** A piece read at the position a voice stands at is the piece the voice is due. */
  lemma PieceIsDue(v: Voice, done: nat, position: nat, n: nat)
    requires v.Valid() && StandsAt(v, done, position)
    requires 0 < n && position + n <= |v.full|
    ensures StandsAt(v, done + n, position + n)
    ensures forall w | done <= w < done + n :: v.At(w) == v.full[position + (w - done)]
  {
    if v.looping {
      forall w | done <= w < done + n
        ensures v.At(w) == v.full[position + (w - done)]
      {
        SamePosition(v, done, position, w - done);
      }
      SamePosition(v, done, position, n);
      SamePosition(v, done, position, n - 1);
      assert v.start + (done + (n - 1)) == v.start + (done + n) - 1;
      assert v.After(done + n) == Repeated(position + (n - 1), |v.full|) + 1;
    }
  }

  lemma PieceTaken(before: seq<Slot>, mid: seq<Slot>, after: seq<Slot>, v: Voice, done: nat,
                    position: nat, n: nat, mix: bool)
    requires v.Valid() && StandsAt(v, done, position)
    requires position + n <= |v.full| && done + n <= |before|
    requires Carries(before, mid, done, v, mix)
    requires PeriodAfter(mid, after, done, v.full, position, n, mix)
    ensures StandsAt(v, done + n, position + n)
    ensures Carries(before, after, done + n, v, mix)
  {
    if 0 < n {
      PieceIsDue(v, done, position, n);
    }
  }

  /** Past the end of a one-shot voice, silence completes the period. */
  lemma CarriesSilence(before: seq<Slot>, mid: seq<Slot>, after: seq<Slot>, v: Voice, done: nat, mix: bool)
    requires v.Valid() && !v.looping && v.start + done == |v.full| && done <= |before|
    requires Carries(before, mid, done, v, mix)
    requires |after| == |mid|
    requires forall w | 0 <= w < |mid| :: after[w] == if w < done || mix then mid[w] else SILENCE
    ensures Carries(before, after, |before|, v, mix)
  {
  }

  // ---- many voices ---------------------------------------------------------------------------------

  ghost predicate AllValid(voices: seq<Option<Voice>>) {
    forall i | 0 <= i < |voices| && voices[i].Some? :: voices[i].value.Valid()
  }

  /** The sum of what the voices are due `k` frames from now; a channel that is silent has none. */
  ghost function Sum(voices: seq<Option<Voice>>, k: nat): int
    requires AllValid(voices)
  {
    if voices == [] then 0
    else
      var last := voices[|voices| - 1];
      Sum(voices[..|voices| - 1], k) + (if last.Some? then last.value.At(k) else 0)
  }

  function CountSounding(voices: seq<Option<Voice>>): nat {
    if voices == [] then 0
    else CountSounding(voices[..|voices| - 1]) + (if voices[|voices| - 1].Some? then 1 else 0)
  }

  /** The period holds the sum of the voices modulo 2^16, once one of them sounds. */
  ghost predicate CarriesAll(period: seq<Slot>, voices: seq<Option<Voice>>)
    requires AllValid(voices)
  {
    0 < CountSounding(voices) ==> forall w | 0 <= w < |period| :: period[w].Word() == Wrap(0, Sum(voices, w))
  }

  lemma NoneSounding(voices: seq<Option<Voice>>, k: nat)
    requires AllValid(voices)
    requires CountSounding(voices) == 0
    ensures Sum(voices, k) == 0
  {
    if voices != [] {
      NoneSounding(voices[..|voices| - 1], k);
    }
  }

  lemma NoneSoundingAnywhere(voices: seq<Option<Voice>>)
    requires AllValid(voices)
    requires CountSounding(voices) == 0
    ensures forall k: nat :: Sum(voices, k) == 0
  {
    forall k: nat
      ensures Sum(voices, k) == 0
    {
      NoneSounding(voices, k);
    }
  }

  /** What voice `i` makes of a slot: the first voice overwrites it, the others are mixed into it. */
  lemma SlotAfterVoice(voices: seq<Option<Voice>>, i: nat, w: nat)
    requires AllValid(voices) && i < |voices| && voices[i].Some?
    ensures var mixed := if 0 < CountSounding(voices[..i]) then Wrap(0, Sum(voices[..i], w)) else 0;
            Wrap(mixed, voices[i].value.At(w)) == Wrap(0, Sum(voices[..i + 1], w))
  {
    assert voices[..i + 1][..i] == voices[..i];
    if CountSounding(voices[..i]) == 0 {
      NoneSounding(voices[..i], w);
    } else {
      WrapTwice(0, Sum(voices[..i], w), voices[i].value.At(w));
    }
  }

  /** The turn of voice `i`; a silent channel adds nothing. */
  lemma TurnOfVoice(before: seq<Slot>, after: seq<Slot>, voices: seq<Option<Voice>>, i: nat)
    requires AllValid(voices) && i < |voices|
    requires CarriesAll(before, voices[..i])
    requires if voices[i].Some?
             then Carries(before, after, |before|, voices[i].value, 0 < CountSounding(voices[..i]))
             else after == before
    ensures CarriesAll(after, voices[..i + 1])
    ensures CountSounding(voices[..i + 1]) == CountSounding(voices[..i]) + (if voices[i].Some? then 1 else 0)
  {
    assert voices[..i + 1][..i] == voices[..i];
    forall w | 0 <= w < |after| && voices[i].Some?
      ensures after[w].Word() == Wrap(0, Sum(voices[..i + 1], w))
    {
      SlotAfterVoice(voices, i, w);
    }
  }

  /** Headroom: up to ten voices whose samples keep to a tenth of full scale never wrap, so that
      the signed word in a slot is the exact sum. */
  lemma TenVoicesFit(voices: seq<Option<Voice>>, k: nat)
    requires AllValid(voices)
    requires forall i, x | 0 <= i < |voices| && voices[i].Some? && x in voices[i].value.full :: -3276 <= x <= 3276
    requires CountSounding(voices) <= 10
    ensures Signed(Wrap(0, Sum(voices, k))) == Sum(voices, k)
  {
    SumBounds(voices, k);
  }

  lemma {:induction false} SumBounds(voices: seq<Option<Voice>>, k: nat)
    requires AllValid(voices)
    requires forall i, x | 0 <= i < |voices| && voices[i].Some? && x in voices[i].value.full :: -3276 <= x <= 3276
    ensures -3276 * CountSounding(voices) <= Sum(voices, k) <= 3276 * CountSounding(voices)
  {
    if voices != [] {
      var last := voices[|voices| - 1];
      SumBounds(voices[..|voices| - 1], k);
      if last.Some? {
        assert last.value.At(k) == 0 || last.value.At(k) in last.value.full;
      }
    }
  }

  // ---- once a period has been filled -----------------------------------------------------------------

  /** A one-shot voice comes to its end within `n` frames. */
  predicate Ended(v: Voice, n: nat) {
    !v.looping && |v.full| < v.start + n
  }

  /** Where a voice that has not ended stands `n` frames on. */
  function Onward(v: Voice, n: nat): nat
    requires v.Valid()
  {
    if v.looping then v.After(n) else v.start + n
  }

  /** A voice `n` frames on. */
  ghost function Later(v: Option<Voice>, n: nat): Option<Voice> {
    if v.None? || !v.value.Valid() || Ended(v.value, n) then None
    else Some(v.value.(start := Onward(v.value, n)))
  }

  /** The table once a period has been filled: the channels whose samples have ended are stopped. */
  function Onwards<S>(t: seq<Entry<S>>, voices: seq<Option<Voice>>, n: nat): (r: seq<Entry<S>>)
    requires |voices| <= |t|
    ensures |r| == |t|
  {
    if voices == [] then t
    else
      var i := |voices| - 1;
      var before := Onwards(t, voices[..i], n);
      if voices[i].Some? && Ended(voices[i].value, n) then End(before, i) else before
  }

  lemma OnwardsStep<S>(t: seq<Entry<S>>, voices: seq<Option<Voice>>, i: nat, n: nat)
    requires i < |voices| <= |t|
    ensures var before := Onwards(t, voices[..i], n);
            Onwards(t, voices[..i + 1], n)
            == if voices[i].Some? && Ended(voices[i].value, n) then End(before, i) else before
  {
    assert voices[..i + 1][..i] == voices[..i];
  }

  /** Only entries of channels whose voices end are different. */
  lemma {:induction false} OnwardsAt<S>(t: seq<Entry<S>>, voices: seq<Option<Voice>>, n: nat, k: nat)
    requires |voices| <= |t| && k < |t|
    ensures var e := Onwards(t, voices, n)[k];
            e == if k < |voices| && voices[k].Some? && Ended(voices[k].value, n) then t[k].(status := Stopped) else t[k]
    decreases |voices|
  {
    if voices != [] {
      OnwardsAt(t, voices[..|voices| - 1], n, k);
    }
  }

  // ---- when the loop ends ------------------------------------------------------------------------

  /** What the transfer loop goes by: the frames still wanted, the position in the stream, and the
      sample's at-end and is-reset flags. */
  datatype Loop = Loop(remaining: nat, position: nat, atEnd: bool, isReset: bool)

  /** One turn of the loop on a stream of length `m`: at the end of the stream it rewinds a looping
      sample or stops; elsewhere it reads, and how much a read gives depends on the packets. */
  ghost predicate Turn(m: nat, looping: bool, l: Loop, l': Loop) {
    && 0 < l.remaining
    && if l.atEnd then
         if looping then l' == Loop(l.remaining, 0, l.isReset, true)
         else l'.remaining == 0
       else
         var n := l.remaining - l'.remaining;
         && 0 <= n && n % 2 == 0
         && l'.position == l.position + n <= m
         && (l'.atEnd ==> l'.position == m)
         && (if n == 0
             then l'.isReset == l.isReset && (l'.atEnd || (l.remaining < 2 && l.position < m))
             else !l'.atEnd && !l'.isReset)
  }

  ghost predicate LoopValid(m: nat, l: Loop) {
    && m % 2 == 0 && l.position % 2 == 0 && l.position <= m
    && (l.atEnd ==> l.position == m)
    && (l.isReset ==> l.position == 0)
  }

  /** The loop comes to an end.  What matters is that reads give even numbers of frames: a period
      of odd length is completed only by the silence after a one-shot sample's end, and a looping
      sample must have something to play. */
  predicate Ends(m: nat, looping: bool, l: Loop) {
    || l.remaining == 0
    || (if looping then 0 < m && l.remaining % 2 == 0
        else l.remaining % 2 == 0 || m < l.position + l.remaining)
  }

  /** The loop comes to an end for a voice that is to fill `n` frames. */
  predicate Fits(v: Voice, n: nat) {
    Ends(|v.full|, v.looping, Loop(n, v.start, false, false))
  }

  ghost predicate AllFit(voices: seq<Option<Voice>>, n: nat) {
    forall i | 0 <= i < |voices| && voices[i].Some? :: Fits(voices[i].value, n)
  }

  /** Bounds the number of turns left. */
  function Measure(m: nat, l: Loop): nat {
    if l.remaining == 0 then 0
    else 3 * l.remaining + (if l.atEnd then 1 else if l.position == m then 2 else 0)
  }

  lemma TurnEnds(m: nat, looping: bool, l: Loop, l': Loop)
    requires LoopValid(m, l) && Ends(m, looping, l) && Turn(m, looping, l, l')
    ensures Ends(m, looping, l') && Measure(m, l') < Measure(m, l)
    ensures l'.remaining != 0 ==> LoopValid(m, l')
  {
  }

  lemma TurnSpins(m: nat, looping: bool, l: Loop, l': Loop)
    requires LoopValid(m, l) && !Ends(m, looping, l) && Turn(m, looping, l, l')
    ensures LoopValid(m, l') && !Ends(m, looping, l')
  {
  }

  /** No turn leads from a state where the loop ends to one where it does not, or back. */
  lemma TurnKeepsFate(m: nat, looping: bool, l: Loop, l': Loop)
    requires LoopValid(m, l) && Turn(m, looping, l, l')
    ensures Ends(m, looping, l') <==> Ends(m, looping, l)
    ensures Ends(m, looping, l) ==> Measure(m, l') < Measure(m, l)
  {
    if Ends(m, looping, l) {
      TurnEnds(m, looping, l, l');
    } else {
      TurnSpins(m, looping, l, l');
    }
  }

  ghost predicate Run(m: nat, looping: bool, run: seq<Loop>) {
    && run != []
    && forall i | 0 <= i < |run| - 1 :: Turn(m, looping, run[i], run[i + 1])
  }

  /** From a state where the loop ends, every run ends, however the sample is cut into packets. */
  lemma {:induction false} RunsEnd(m: nat, looping: bool, run: seq<Loop>)
    requires Run(m, looping, run) && LoopValid(m, run[0]) && Ends(m, looping, run[0])
    ensures |run| <= Measure(m, run[0]) + 1
    decreases |run|
  {
    if |run| > 1 {
      assert Turn(m, looping, run[0], run[0 + 1]);
      TurnEnds(m, looping, run[0], run[1]);
      if |run| > 2 {
        assert Turn(m, looping, run[1], run[1 + 1]);
        forall i | 0 <= i < |run[1..]| - 1
          ensures Turn(m, looping, run[1..][i], run[1..][i + 1])
        {
          assert Turn(m, looping, run[i + 1], run[i + 1 + 1]);
        }
        RunsEnd(m, looping, run[1..]);
      }
    }
  }

  /** From any other state every run goes on for ever: there are always frames left. */
  lemma {:induction false} RunsSpin(m: nat, looping: bool, run: seq<Loop>)
    requires Run(m, looping, run) && LoopValid(m, run[0]) && !Ends(m, looping, run[0])
    ensures forall i | 0 <= i < |run| :: 0 < run[i].remaining
  {
    for n := 0 to |run|
      invariant n < |run| ==> LoopValid(m, run[n]) && !Ends(m, looping, run[n])
      invariant forall i | 0 <= i < n :: 0 < run[i].remaining
    {
      if n + 1 < |run| {
        assert Turn(m, looping, run[n], run[n + 1]);
        TurnSpins(m, looping, run[n], run[n + 1]);
      }
    }
  }

  /** As long as frames are left the loop takes another turn. */
  lemma AlwaysATurn(m: nat, looping: bool, l: Loop) returns (l': Loop)
    requires LoopValid(m, l) && 0 < l.remaining
    ensures Turn(m, looping, l, l')
  {
    l' :=
      if l.atEnd then if looping then Loop(l.remaining, 0, l.isReset, true) else Loop(0, 0, false, true)
      else if l.position == m then l.(atEnd := true)
      else if l.remaining < 2 then l
      else Loop(l.remaining - 2, l.position + 2, false, false);
  }

  lemma {:induction false} SpinningRun(m: nat, looping: bool, l: Loop, length: nat) returns (run: seq<Loop>)
    requires LoopValid(m, l) && !Ends(m, looping, l) && 0 < length
    ensures Run(m, looping, run) && run[0] == l && |run| == length
  {
    run := [l];
    while |run| < length
      invariant 0 < |run| <= length && run[0] == l && Run(m, looping, run)
      invariant LoopValid(m, run[|run| - 1]) && !Ends(m, looping, run[|run| - 1])
    {
      var last := run[|run| - 1];
      var next := AlwaysATurn(m, looping, last);
      TurnSpins(m, looping, last, next);
      run := run + [next];
    }
  }

  /** The runs from `l` are no longer than `bound`. */
  ghost predicate Bounded(m: nat, looping: bool, l: Loop, bound: nat) {
    forall run | Run(m, looping, run) && run[0] == l :: |run| <= bound
  }

  /** The loop is sure to come to an end exactly from the states that Ends describes. */
  lemma EndsExactly(m: nat, looping: bool, l: Loop)
    requires LoopValid(m, l)
    ensures Ends(m, looping, l) <==> exists bound :: Bounded(m, looping, l, bound)
  {
    if Ends(m, looping, l) {
      var bound := Measure(m, l) + 1;
      forall run | Run(m, looping, run) && run[0] == l
        ensures |run| <= bound
      {
        RunsEnd(m, looping, run);
      }
      assert Bounded(m, looping, l, bound);
    } else {
      forall bound: nat
        ensures !Bounded(m, looping, l, bound)
      {
        var run := SpinningRun(m, looping, l, bound + 1);
      }
    }
  }
}
