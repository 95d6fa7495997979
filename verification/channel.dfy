/** One channel of the embedded output, and the transfer of its samples into a DMA period. */
module Channels {
  import opened Pcm
  import opened Events
  import opened S5Prom
  import opened ChannelTable
  import opened Transfer

  /** struct aout_instance. */
  class Channel {
    var sample: Option<Sample>
    var status: Status

    ghost const index: nat    // its place among the channels

    constructor (ghost index: nat)
      ensures sample == None && status == Status.Stopped && this.index == index
    {
      sample, status, this.index := None, Status.Stopped, index;
    }

    function Held(): set<Sample>
      reads this
    {
      if sample.Some? then {sample.value} else {}
    }

    /** aout_embedded_play and aout_embedded_loop. */
    method Start(asked: Status)
      requires asked != Status.Stopped
      modifies this`status, Held()`events
      ensures status == asked
      ensures sample.Some? ==>
                sample.value.events
                == if old(status) == Status.Stopped then old(sample.value.events) + [Started]
                   else old(sample.value.events)
    {
      if status != asked {
        if sample.Some? && status == Status.Stopped {
          sample.value.OnOutputEvent(Started);
        }
        status := asked;
      }
    }

    /** aout_embedded_stop. */
    method Stop()
      requires sample.Some? ==> sample.value.Valid()
      modifies this`status, Held()
      ensures status == Status.Stopped
      ensures old(status) == Status.Stopped && sample.Some? ==> unchanged(sample.value)
      ensures old(status) != Status.Stopped && sample.Some? ==>
                var s := sample.value;
                && s.Valid() && s.frame.isReset && s.ref == old(s.ref)
                && s.events == old(s.events) + [Event.Stopped]
    {
      if status != Status.Stopped {
        status := Status.Stopped;
        if sample.Some? {
          var s := sample.value;
          assert Stands(s.score, s.frame, s.cursor, s.decoded);
          s.OnOutputEvent(Event.Stopped);
          s.Reset();
        }
      }
    }

    /** aout_embedded_set_sample: the old sample's reference is given up before the new one's is
        taken.  A sample set again must not be kept alive by the channel alone. */
    method SetSample(s: Option<Sample>)
      requires sample.Some? ==> 0 < sample.value.ref
      requires s.Some? ==> 0 < s.value.ref && (s == sample ==> 1 < s.value.ref)
      modifies this`sample, Held()`ref, (if s.Some? then {s.value} else {})`ref
      ensures sample == s
      ensures old(sample).Some? && old(sample) != s ==> old(sample).value.ref == old(sample.value.ref) - 1
      ensures s.Some? ==> s.value.ref == old(s.value.ref) + (if old(sample) == s then 0 else 1)
    {
      if sample.Some? {
        sample.value.Close();
      }
      sample := s;
      if sample.Some? {
        sample.value.AddRef();
      }
    }

    /** A channel plays or loops the sample it holds. */
    method Resume(s: Sample, asked: Status)
      requires sample == Some(s) && asked != Status.Stopped
      modifies this`status, s`events
      ensures status == asked
      ensures s.events == if old(status) == Status.Stopped then old(s.events) + [Started] else old(s.events)
    {
      Start(asked);
    }

    /** A channel stops and gives up the sample it holds. */
    method Release(s: Sample)
      requires sample == Some(s) && s.Valid() && 1 < s.ref
      modifies this, s
      ensures sample == None && status == Status.Stopped
      ensures s.Valid() && s.ref == old(s.ref) - 1
      ensures old(status) == Status.Stopped ==>
                s.events == old(s.events) && s.frame.isReset == old(s.frame.isReset)
      ensures old(status) != Status.Stopped ==>
                s.events == old(s.events) + [Event.Stopped] && s.frame.isReset
    {
      Stop();
      SetSample(None);
    }

    /** aout_embedded_close: the channel is done with, and gives its sample's reference up. */
    method Close()
      requires sample.Some? ==> 0 < sample.value.ref
      modifies this`sample, Held()`ref
      ensures sample == None
      ensures old(sample).Some? ==> old(sample).value.ref == old(sample.value.ref) - 1
    {
      if sample.Some? {
        sample.value.Close();
        sample := None;
      }
    }

    /** A free channel takes a sample on and starts it.  (Opening the channel has no effect here.) */
    method Assign(s: Sample, asked: Status)
      requires sample == None && status == Status.Stopped && asked != Status.Stopped
      requires 0 < s.ref
      modifies this, s`ref, s`events
      ensures sample == Some(s) && status == asked
      ensures s.ref == old(s.ref) + 1
      ensures s.events == old(s.events) + [Started]
    {
      SetSample(Some(s));
      Start(asked);
    }
  }

  // ---- moving one channel into a period -----------------------------------------------------------

  /** What the transfer loop goes by. */
  ghost function LoopOf(s: Sample, remaining: nat): Loop
    requires s.Valid()
    reads s
  {
    Loop(remaining, s.Emitted(), s.ate, s.frame.isReset)
  }

  lemma LoopOfIsValid(s: Sample, remaining: nat)
    requires s.Valid()
    ensures LoopValid(|s.score.full|, LoopOf(s, remaining))
  {
    assert Stands(s.score, s.frame, s.cursor, s.decoded);
    EvenPosition(s.score, s.frame, s.cursor, s.decoded);
  }

  /** memset of the period from slot `at` on. */
  method Silence(dst: array<Slot>, at: nat)
    requires at <= dst.Length
    modifies dst
    ensures forall w | 0 <= w < dst.Length :: dst[w] == if w < at then old(dst[w]) else SILENCE
  {
    for i := at to dst.Length
      invariant forall w | 0 <= w < dst.Length :: dst[w] == if at <= w < i then SILENCE else old(dst[w])
    {
      dst[i] := SILENCE;
    }
  }

  /** One turn of the transfer loop on a sample at its end: rewind it, or stop and fill up. */
  method TurnAtEnd(dst: array<Slot>, remaining: nat, c: Channel, s: Sample, mix: bool,
                   ghost v: Voice, ghost before: seq<Slot>)
    returns (remaining': nat)
    requires s.Valid() && c.sample == Some(s) && c.status != Status.Stopped
    requires v.Valid() && v.full == s.score.full && v.looping == (c.status == Looping)
    requires s.ate && 0 < remaining <= dst.Length
    requires StandsAt(v, dst.Length - remaining, s.Emitted())
    requires Carries(before, dst[..], dst.Length - remaining, v, mix)
    modifies dst, s, c`status
    ensures s.Valid() && s.ref == old(s.ref)
    ensures v.looping ==>
              && remaining' == remaining && c.status == old(c.status) && s.events == old(s.events)
              && dst[..] == old(dst[..])
              && StandsAt(v, dst.Length - remaining, s.Emitted())
    ensures !v.looping ==>
              && remaining' == 0 && c.status == Status.Stopped && s.events == old(s.events) + [Event.Stopped]
              && s.frame.isReset
              && v.start + (dst.Length - remaining) == |v.full|
              && Carries(before, dst[..], dst.Length, v, mix)
    ensures Turn(|v.full|, v.looping, old(LoopOf(s, remaining)), LoopOf(s, remaining'))
  {
    if c.status == Looping {
      assert Stands(s.score, s.frame, s.cursor, s.decoded);
      s.Reset();
      return remaining;
    }
    ghost var done, mid := dst.Length - remaining, dst[..];
    c.Stop();
    if !mix {
      Silence(dst, dst.Length - remaining);
    }
    CarriesSilence(before, mid, dst[..], v, done, mix);
    return 0;
  }

  /** One turn of the transfer loop elsewhere: read or mix what the sample has to give. */
  method TurnReading(dst: array<Slot>, remaining: nat, s: Sample, mix: bool,
                     ghost v: Voice, ghost before: seq<Slot>)
    returns (remaining': nat)
    requires s.Valid() && !s.ate
    requires v.Valid() && v.full == s.score.full
    requires 0 < remaining <= dst.Length
    requires StandsAt(v, dst.Length - remaining, s.Emitted())
    requires Carries(before, dst[..], dst.Length - remaining, v, mix)
    modifies dst, s
    ensures s.Valid() && s.ref == old(s.ref) && s.events == old(s.events)
    ensures remaining' <= remaining
    ensures StandsAt(v, dst.Length - remaining', s.Emitted())
    ensures remaining' < remaining ==> 0 < s.Emitted()
    ensures Carries(before, dst[..], dst.Length - remaining', v, mix)
    ensures Turn(|v.full|, v.looping, old(LoopOf(s, remaining)), LoopOf(s, remaining'))
  {
    ghost var done, position, mid := dst.Length - remaining, s.Emitted(), dst[..];
    var n := s.DeAdpcm(remaining, dst, dst.Length - remaining, mix);
    // The code also guards against more frames than asked for; DeAdpcm never gives them.
    remaining' := remaining - n;
    PieceTaken(before, mid, dst[..], v, done, position, n, mix);
  }

  /** The voice a sounding channel is about to contribute; a stopped one has none. */
  ghost function VoiceOf(c: Channel): Option<Voice>
    reads c, c.Held()
  {
    if c.status == Status.Stopped || c.sample.None? then None
    else
      var s := c.sample.value;
      Some(Voice(s.score.full, if s.Emitted() < 0 then 0 else s.Emitted(), c.status == Looping))
  }

  /** The transfer loop under way: either the channel still sounds and stands where the voice has
      got to, or its sample has come to its end and the period is complete. */
  ghost predicate UnderWay(size: nat, remaining: nat, c: Channel, s: Sample, v: Voice, events: seq<Event>)
    reads c, s
  {
    && s.Valid() && c.sample == Some(s)
    && v.Valid() && v.full == s.score.full
    && remaining <= size
    && if c.status != Status.Stopped
       then
         && v.looping == (c.status == Looping) && s.events == events
         && StandsAt(v, size - remaining, s.Emitted())
         && (v.looping && remaining == 0 ==> s.Emitted() == v.After(size))
       else
         && !v.looping && remaining == 0 && s.events == events + [Event.Stopped]
         && s.frame.isReset
         && |v.full| < v.start + size
  }

  /** One turn of the transfer loop. */
  method TransferTurn(dst: array<Slot>, remaining: nat, c: Channel, s: Sample, mix: bool,
                      ghost v: Voice, ghost before: seq<Slot>, ghost events: seq<Event>)
    returns (remaining': nat)
    requires 0 < remaining && UnderWay(dst.Length, remaining, c, s, v, events)
    requires Carries(before, dst[..], dst.Length - remaining, v, mix)
    modifies dst, s, c`status
    ensures s.ref == old(s.ref)
    ensures UnderWay(dst.Length, remaining', c, s, v, events)
    ensures Carries(before, dst[..], dst.Length - remaining', v, mix)
    ensures Turn(|v.full|, v.looping, old(LoopOf(s, remaining)), LoopOf(s, remaining'))
  {
    if s.ate {
      remaining' := TurnAtEnd(dst, remaining, c, s, mix, v, before);
    } else {
      remaining' := TurnReading(dst, remaining, s, mix, v, before);
    }
  }

  /** Move a sounding channel into a period.  The frames asked for must be such that the loop ends. */
  method TransferChannel(dst: array<Slot>, c: Channel, s: Sample, mix: bool)
    requires c.sample == Some(s) && s.Valid() && c.status != Status.Stopped
    requires Fits(VoiceOf(c).value, dst.Length)
    modifies dst, s, c`status
    ensures s.Valid() && s.ref == old(s.ref)
    ensures old(VoiceOf(c)).Some? && old(VoiceOf(c)).value.Valid()
    ensures Carries(old(dst[..]), dst[..], dst.Length, old(VoiceOf(c)).value, mix)
    ensures old(c.status) == Looping ==>
              && c.status == Looping && s.events == old(s.events)
              && s.Emitted() == old(VoiceOf(c)).value.After(dst.Length)
    ensures old(c.status) == Playing ==>
              if dst.Length <= |s.score.full| - old(s.Emitted())
              then
                && c.status == Playing && s.events == old(s.events)
                && s.Emitted() == old(s.Emitted()) + dst.Length
              else
                && c.status == Status.Stopped && s.events == old(s.events) + [Event.Stopped]
                && s.frame.isReset
  {
    ghost var v, before := VoiceOf(c).value, dst[..];
    var remaining: nat := dst.Length;
    while remaining != 0
      invariant s.ref == old(s.ref)
      invariant UnderWay(dst.Length, remaining, c, s, v, old(s.events))
      invariant Ends(|v.full|, v.looping, LoopOf(s, remaining))
      invariant Carries(before, dst[..], dst.Length - remaining, v, mix)
      decreases Measure(|v.full|, LoopOf(s, remaining))
    {
      LoopOfIsValid(s, remaining);
      ghost var l := LoopOf(s, remaining);
      remaining := TransferTurn(dst, remaining, c, s, mix, v, before, old(s.events));
      TurnEnds(|v.full|, v.looping, l, LoopOf(s, remaining));
    }
  }

  /** The transfer loop cut off after a number of turns.  It makes the conditions of TransferChannel exact:
      where the voice fits, enough turns complete the period; where it does not, frames are missing after
      any number of turns. */
  method TransferTurns(dst: array<Slot>, c: Channel, s: Sample, mix: bool, turns: nat) returns (remaining: nat)
    requires c.sample == Some(s) && s.Valid() && c.status != Status.Stopped
    modifies dst, s, c`status
    ensures old(Fits(VoiceOf(c).value, dst.Length) && Measure(|s.score.full|, LoopOf(s, dst.Length)) <= turns) ==>
              remaining == 0
    ensures old(!Fits(VoiceOf(c).value, dst.Length)) ==> 0 < remaining
  {
    ghost var v, before, fits := VoiceOf(c).value, dst[..], Fits(VoiceOf(c).value, dst.Length);
    remaining := dst.Length;
    var left := turns;
    while remaining != 0 && 0 < left
      invariant UnderWay(dst.Length, remaining, c, s, v, old(s.events))
      invariant Carries(before, dst[..], dst.Length - remaining, v, mix)
      invariant Ends(|v.full|, v.looping, LoopOf(s, remaining)) <==> fits
      invariant fits ==>
                  Measure(|v.full|, LoopOf(s, remaining)) + turns
                  <= old(Measure(|s.score.full|, LoopOf(s, dst.Length))) + left
      decreases left
    {
      LoopOfIsValid(s, remaining);
      ghost var l := LoopOf(s, remaining);
      remaining := TransferTurn(dst, remaining, c, s, mix, v, before, old(s.events));
      TurnKeepsFate(|v.full|, v.looping, l, LoopOf(s, remaining));
      left := left - 1;
    }
  }

  /** Looping a sample without data is the state the loop cannot leave. */
  lemma EmptyLoopNeverEnds(s: Sample, remaining: nat)
    requires s.Valid() && s.data == [] && 0 < remaining
    ensures LoopValid(|s.score.full|, LoopOf(s, remaining))
    ensures !Ends(|s.score.full|, true, LoopOf(s, remaining))
  {
    LoopOfIsValid(s, remaining);
    assert Stands(s.score, s.frame, s.cursor, s.decoded);
  }

  /** It can be reached: open a sample without data, put it on a channel and loop it.  No number of turns
      completes a period. */
  method LoopEmptySample(host: HostOrder, resample: bool, dst: array<Slot>, turns: nat) returns (remaining: nat)
    requires 0 < dst.Length
    modifies dst
    ensures 0 < remaining
  {
    var s := new Sample(host, resample, []);
    var c := new Channel(0);
    c.Assign(s, Looping);
    EmptyLoopNeverEnds(s, dst.Length);
    remaining := TransferTurns(dst, c, s, false, turns);
  }
}
