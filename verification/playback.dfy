/** What is heard of a sample over a whole run: from one start to the next stop, its stream from the first
    output on, without a gap, round and round when it loops, and silence once it has come to its end.
 */
module Playback {
  import opened Pcm
  import opened Events
  import opened ChannelTable
  import opened Transfer
  import opened Commands
  import opened Protocol
  import opened Guarantees
  import opened Turns

  // ---- what a sample is to contribute -----------------------------------------------------------------

  /** The first `n` frames of a stream repeated for ever. */
  ghost function Played(full: seq<int16>, n: nat): (r: seq<int16>)
    ensures |r| == n
    ensures forall j | 0 <= j < n :: r[j] == Voice(full, 0, true).At(j)
  {
    seq(n, j requires 0 <= j < n => Voice(full, 0, true).At(j))
  }

  function Silent(n: nat): (r: seq<int16>)
    ensures |r| == n && forall j | 0 <= j < n :: r[j] == 0
  {
    seq(n, _ => 0)
  }

  /** What a voice contributes to a period of `n` frames. */
  ghost function Contribution(v: Voice, n: nat): (r: seq<int16>)
    requires v.Valid()
    ensures |r| == n && forall j | 0 <= j < n :: r[j] == v.At(j)
  {
    seq(n, j requires 0 <= j < n => v.At(j))
  }

  /** What has been heard of a sample since its last start, and where it stands.  While it sounds that is its
      stream, repeated, from the first output up to where it stands.  Afterwards it is that much of it, and if
      it came to its end and was not stopped, the stream was complete and silence filled the period. */
  ghost predicate Unbroken(full: seq<int16>, heard: seq<int16>, place: nat, status: Status) {
    if status != Status.Stopped
    then heard == Played(full, |heard|) && StandsAt(Voice(full, 0, true), |heard|, place)
    else place == 0 && exists k :: HeardOut(full, heard, k)
  }

  ghost predicate HeardOut(full: seq<int16>, heard: seq<int16>, k: nat) {
    && k <= |heard| && heard == Played(full, k) + Silent(|heard| - k)
    && (k == |heard| || Repeated(k, |full|) == 0)
  }

  // ---- one period -----------------------------------------------------------------------------------------

  lemma PlayedOn(full: seq<int16>, heard: seq<int16>, piece: seq<int16>)
    requires heard == Played(full, |heard|)
    requires forall j | 0 <= j < |piece| :: piece[j] == Voice(full, 0, true).At(|heard| + j)
    ensures heard + piece == Played(full, |heard| + |piece|)
  {
  }

  /** Frames that the voice has are the next ones of its stream. */
  lemma NextFrame(full: seq<int16>, heard: nat, v: Voice, j: nat)
    requires StandsAt(Voice(full, 0, true), heard, v.start) && v.full == full && v.Valid()
    requires v.looping || v.start + j < |full|
    ensures v.At(j) == Voice(full, 0, true).At(heard + j)
  {
    SamePosition(Voice(full, 0, true), heard, v.start, j);
  }

  /** Where a looping voice has got to is the position of the frame it will play next, or the stream's end. */
  lemma LoopOnward(v: Voice, n: nat)
    requires v.Valid() && v.looping && 0 < n && v.full != []
    ensures Onward(v, n) <= |v.full|
    ensures Repeated(Onward(v, n), |v.full|) == Repeated(v.start + n, |v.full|)
  {
    RepeatedShift(v.start + n - 1, 1, |v.full|);
  }

  /** A voice that does not end in a period goes on from where it has got to. */
  lemma GoesOn(full: seq<int16>, heard: nat, v: Voice, n: nat)
    requires StandsAt(Voice(full, 0, true), heard, v.start) && v.full == full && v.Valid()
    requires !Ended(v, n)
    ensures StandsAt(Voice(full, 0, true), heard + n, Onward(v, n))
  {
    if n > 0 && full != [] {
      SamePosition(Voice(full, 0, true), heard, v.start, n);
      if v.looping {
        LoopOnward(v, n);
      }
      AfterOnward(full, heard, v, n);
    }
  }

  /** Where it then stands is just behind the last frame it has played. */
  lemma AfterOnward(full: seq<int16>, heard: nat, v: Voice, n: nat)
    requires StandsAt(Voice(full, 0, true), heard, v.start) && v.full == full && v.Valid()
    requires !Ended(v, n) && n > 0 && full != []
    ensures Onward(v, n) == Voice(full, 0, true).After(heard + n)
  {
    SamePosition(Voice(full, 0, true), heard, v.start, n - 1);
    assert heard + (n - 1) == heard + n - 1 && v.start + (n - 1) == v.start + n - 1;
  }

  lemma SoundsOn(full: seq<int16>, heard: seq<int16>, v: Voice, n: nat)
    requires v.Valid() && v.full == full && !Ended(v, n)
    requires heard == Played(full, |heard|) && StandsAt(Voice(full, 0, true), |heard|, v.start)
    ensures var heard' := heard + Contribution(v, n);
            heard' == Played(full, |heard'|) && StandsAt(Voice(full, 0, true), |heard'|, Onward(v, n))
  {
    forall j | 0 <= j < n
      ensures v.At(j) == Voice(full, 0, true).At(|heard| + j)
    {
      NextFrame(full, |heard|, v, j);
    }
    PlayedOn(full, heard, Contribution(v, n));
    GoesOn(full, |heard|, v, n);
  }

  lemma EndsComplete(full: seq<int16>, heard: seq<int16>, v: Voice, n: nat)
    requires v.Valid() && v.full == full && Ended(v, n)
    requires heard == Played(full, |heard|) && StandsAt(Voice(full, 0, true), |heard|, v.start)
    ensures HeardOut(full, heard + Contribution(v, n), |heard| + (|full| - v.start))
  {
    var left := |full| - v.start;
    var piece := Contribution(v, n)[..left];
    forall j | 0 <= j < left
      ensures piece[j] == Voice(full, 0, true).At(|heard| + j)
    {
      NextFrame(full, |heard|, v, j);
    }
    PlayedOn(full, heard, piece);
    SamePosition(Voice(full, 0, true), |heard|, v.start, left);
    assert Contribution(v, n) == piece + Silent(n - left);
    assert heard + Contribution(v, n) == Played(full, |heard| + left) + Silent(n - left);
  }

  /** What an instance's sample contributes to a period, and what has been heard of it then. */
  ghost function HeardMixed(heard: seq<int16>, t: seq<Entry<nat>>, voices: seq<Option<Voice>>, n: nat, id: nat)
    : seq<int16>
    requires |voices| == |t| && AllValid(voices)
  {
    var k := Find(t, Some(id));
    if k == |t| || voices[k].None? then heard else heard + Contribution(voices[k].value, n)
  }

  lemma PeriodKeeps(t: seq<Entry<nat>>, streams: seq<seq<int16>>, places: seq<nat>, n: nat, heard: seq<int16>, id: nat)
    requires |streams| == |places| && InRange(t, |places|) && id < |places|
    requires var voices := VoicesFor(t, streams, places);
             AllValid(voices) && WellFormed(t) && WellFormed(Onwards(t, voices, n))
    requires Unbroken(streams[id], heard, places[id], StatusOf(t, id))
    ensures var voices := VoicesFor(t, streams, places);
            Unbroken(streams[id], HeardMixed(heard, t, voices, n, id), PlaceMixed(places[id], t, voices, n, id),
                     StatusOf(Onwards(t, voices, n), id))
  {
    var k, voices := Find(t, Some(id)), VoicesFor(t, streams, places);
    StatusOnwards(t, voices, n, id);
    if k < |t| && voices[k].Some? {
      if Ended(voices[k].value, n) {
        EndsComplete(streams[id], heard, voices[k].value, n);
      } else {
        SoundsOn(streams[id], heard, voices[k].value, n);
      }
    }
  }

  lemma StatusOnwards(t: seq<Entry<nat>>, voices: seq<Option<Voice>>, n: nat, id: nat)
    requires |voices| == |t| && WellFormed(t) && WellFormed(Onwards(t, voices, n))
    ensures var k := Find(t, Some(id));
            StatusOf(Onwards(t, voices, n), id)
            == if k < |t| && voices[k].Some? && Ended(voices[k].value, n) then Status.Stopped else StatusOf(t, id)
  {
    var k, t' := Find(t, Some(id)), Onwards(t, voices, n);
    forall j | 0 <= j < |t|
      ensures t'[j].sample == t[j].sample
    {
      OnwardsAt(t, voices, n, j);
    }
    FindFirst(t', Some(id), k);
    if k < |t| {
      OnwardsAt(t, voices, n, k);
    }
  }

  // ---- the messages on the pipe ------------------------------------------------------------------------------

  /** A start begins the sample afresh. */
  ghost function HeardAfter(heard: seq<int16>, t: seq<Entry<nat>>, m: Message, id: nat): seq<int16> {
    if EventsFor(t, m, id) == [Started] then [] else heard
  }

  ghost function HeardFrom(heard: seq<int16>, t: seq<Entry<nat>>, pipe: seq<Message>, from: nat, id: nat): seq<int16>
    decreases |pipe| - from
  {
    if |pipe| <= from || pipe[from].command == Exit then heard
    else
      HeardFrom(HeardAfter(heard, t, pipe[from], id), Effect(t, pipe[from].command, pipe[from].id), pipe, from + 1, id)
  }

  lemma MessageKeeps(t: seq<Entry<nat>>, m: Message, places: seq<nat>, full: seq<int16>, heard: seq<int16>, id: nat)
    requires WellFormed(t) && id < |places| && m.command != Exit
    requires Unbroken(full, heard, places[id], StatusOf(t, id))
    ensures Unbroken(full, HeardAfter(heard, t, m, id), PlacesAfter(places, m)[id],
                     StatusOf(Effect(t, m.command, m.id), id))
  {
    StatusTells(t, id);
    StatusOfEffect(t, m.command, m.id, id);
    if m.id == id && StatusOf(t, id) != Status.Stopped && m.command == Stop {
      assert HeardOut(full, heard, |heard|);
    }
  }

  lemma {:induction false} MessagesKeep(t: seq<Entry<nat>>, pipe: seq<Message>, from: nat, places: seq<nat>,
                                        full: seq<int16>, heard: seq<int16>, id: nat)
    requires WellFormed(t) && id < |places|
    requires Unbroken(full, heard, places[id], StatusOf(t, id))
    ensures Unbroken(full, HeardFrom(heard, t, pipe, from, id), PlacesFrom(places, pipe, from)[id],
                     StatusOf(EffectFrom(t, pipe, from), id))
    decreases |pipe| - from
  {
    if from < |pipe| && pipe[from].command != Exit {
      var m := pipe[from];
      MessageKeeps(t, m, places, full, heard, id);
      EffectKeeps(t, m.command, m.id);
      MessagesKeep(Effect(t, m.command, m.id), pipe, from + 1, PlacesAfter(places, m), full,
                   HeardAfter(heard, t, m, id), id);
    }
  }

  // ---- runs ----------------------------------------------------------------------------------------------------

  /** The protocol's state, where the samples stand, their streams, and what has been heard of each since it was
      last started. */
  datatype Scene = Scene(w: World, streams: seq<seq<int16>>, heard: seq<seq<int16>>)

  /** An instance opens a sample with the given stream, a client takes a step, or the io thread a turn of its
      main loop for a period of `n` frames. */
  datatype Doing = Opens(full: seq<int16>) | Client(a: Action) | Turn(n: nat)

  ghost predicate Right(x: Scene) {
    && Protocol.Valid(x.w.s)
    && |x.streams| == |x.heard| == |x.w.places| == |x.w.s.insts|
    && forall id {:trigger x.heard[id]} | 0 <= id < |x.heard| ::
         Unbroken(x.streams[id], x.heard[id], x.w.places[id], StatusOf(x.w.s.channels, id))
  }

  predicate ClientStep(a: Action) {
    a.Begin? || a.Write? || a.Raise? || a.BeginSync? || a.WriteSync? || a.CloseInstance? || a.Shutdown?
  }

  /** What the channels contribute to the period of a turn: what they are due once the pipe is empty. */
  ghost function DueIn(w: World, streams: seq<seq<int16>>): seq<Option<Voice>>
    requires Protocol.Valid(w.s) && |streams| == |w.places| == |w.s.insts|
  {
    VoicesFor(DrainedWorld(w).s.channels, streams, DrainedWorld(w).places)
  }

  ghost predicate Allowed(x: Scene, d: Doing)
    requires Right(x)
  {
    match d
    case Opens(_) => true
    case Client(a) => ClientStep(a) && Enabled(x.w.s, a)
    case Turn(n) => IoFree(x.w.s) && (!DrainedWorld(x.w).s.exited ==> AllFit(DueIn(x.w, x.streams), n))
  }

  /** The voices of samples that stand in their streams are proper. */
  lemma VoicesAreValid(t: seq<Entry<nat>>, streams: seq<seq<int16>>, places: seq<nat>)
    requires |streams| == |places| && InRange(t, |places|)
    requires WellFormed(t)
    requires forall id | 0 <= id < |places| :: StatusOf(t, id) != Status.Stopped ==> places[id] <= |streams[id]|
    ensures AllValid(VoicesFor(t, streams, places))
  {
    forall k | 0 <= k < |t| && t[k].status != Status.Stopped && t[k].sample.Some?
      ensures places[t[k].sample.value] <= |streams[t[k].sample.value]|
    {
      FindUnique(t, t[k].sample.value, k);
    }
  }

  lemma RightVoices(x: Scene)
    requires Right(x)
    ensures AllValid(VoicesFor(x.w.s.channels, x.streams, x.w.places))
  {
    forall id | 0 <= id < |x.w.places| && StatusOf(x.w.s.channels, id) != Status.Stopped
      ensures x.w.places[id] <= |x.streams[id]|
    {
      assert Unbroken(x.streams[id], x.heard[id], x.w.places[id], StatusOf(x.w.s.channels, id));
    }
    VoicesAreValid(x.w.s.channels, x.streams, x.w.places);
  }

  ghost function HeardDrained(x: Scene): (r: seq<seq<int16>>)
    ensures |r| == |x.heard|
    ensures forall id | 0 <= id < |r| :: r[id] == HeardFrom(x.heard[id], x.w.s.channels, x.w.s.pipe, x.w.s.taken, id)
  {
    seq(|x.heard|, id requires 0 <= id < |x.heard| =>
      HeardFrom(x.heard[id], x.w.s.channels, x.w.s.pipe, x.w.s.taken, id))
  }

  ghost function HeardFilled(x: Scene, voices: seq<Option<Voice>>, n: nat): (r: seq<seq<int16>>)
    requires |voices| == |x.w.s.channels| && AllValid(voices)
    ensures |r| == |x.heard|
    ensures forall id | 0 <= id < |r| :: r[id] == HeardMixed(x.heard[id], x.w.s.channels, voices, n, id)
  {
    seq(|x.heard|, id requires 0 <= id < |x.heard| => HeardMixed(x.heard[id], x.w.s.channels, voices, n, id))
  }

  /** The pipe has been emptied, ... */
  ghost function Emptied(x: Scene): Scene
    requires Right(x) && IoFree(x.w.s)
  {
    x.(w := DrainedWorld(x.w), heard := HeardDrained(x))
  }

  lemma EmptiedRight(x: Scene)
    requires Right(x) && IoFree(x.w.s)
    ensures Right(Emptied(x))
  {
    var s := x.w.s;
    DrainedWorldIs(x.w);
    forall id | 0 <= id < |x.heard|
      ensures Unbroken(x.streams[id], HeardDrained(x)[id], DrainedWorld(x.w).places[id],
                       StatusOf(Drained(s).channels, id))
    {
      assert Unbroken(x.streams[id], x.heard[id], x.w.places[id], StatusOf(s.channels, id));
      MessagesKeep(s.channels, s.pipe, s.taken, x.w.places, x.streams[id], x.heard[id], id);
      DrainedIsFold(s, id);
    }
  }

  /** ... and a period filled. */
  ghost function Filled(x: Scene, n: nat): Scene
    requires Right(x) && IoFree(x.w.s)
  {
    RightVoices(x);
    var voices := VoicesFor(x.w.s.channels, x.streams, x.w.places);
    x.(w := MixedWorld(x.w, voices, n), heard := HeardFilled(x, voices, n))
  }

  lemma FilledRight(x: Scene, n: nat)
    requires Right(x) && IoFree(x.w.s)
    ensures Right(Filled(x, n))
  {
    RightVoices(x);
    var t, voices := x.w.s.channels, VoicesFor(x.w.s.channels, x.streams, x.w.places);
    MixedTable(x.w.s, EndedOf(voices, n), voices, n);
    forall id | 0 <= id < |x.heard|
      ensures Unbroken(x.streams[id], HeardFilled(x, voices, n)[id], PlaceMixed(x.w.places[id], t, voices, n, id),
                       StatusOf(Onwards(t, voices, n), id))
    {
      assert Unbroken(x.streams[id], x.heard[id], x.w.places[id], StatusOf(t, id));
      PeriodKeeps(t, x.streams, x.w.places, n, x.heard[id], id);
    }
  }

  ghost function Did(x: Scene, d: Doing): Scene
    requires Right(x) && Allowed(x, d)
  {
    match d
    case Opens(full) => Scene(World(Apply(x.w.s, Open), x.w.places + [0]), x.streams + [full], x.heard + [[]])
    case Client(a) => x.(w := x.w.(s := Apply(x.w.s, a)))
    case Turn(n) =>
      EmptiedRight(x);
      if Emptied(x).w.s.exited then Emptied(x) else Filled(Emptied(x), n)
  }

  lemma DidRight(x: Scene, d: Doing)
    requires Right(x) && Allowed(x, d)
    ensures Right(Did(x, d))
  {
    match d
    case Opens(full) => OpensRight(x, full);
    case Client(a) => ClientRight(x, a);
    case Turn(n) =>
      EmptiedRight(x);
      if !Emptied(x).w.s.exited {
        FilledRight(Emptied(x), n);
      }
  }

  lemma OpensRight(x: Scene, full: seq<int16>)
    requires Right(x)
    ensures Right(Did(x, Opens(full)))
  {
    ValidKept(x.w.s, Open);
    var id := |x.heard|;
    FindHolds(x.w.s.channels, id);
    assert HeardOut(full, [], 0);
    forall j | 0 <= j < |x.heard|
      ensures Unbroken(x.streams[j], x.heard[j], x.w.places[j], StatusOf(x.w.s.channels, j))
    {
      assert x.heard[j] == x.heard[j];
    }
  }

  lemma ClientRight(x: Scene, a: Action)
    requires Right(x) && Allowed(x, Client(a))
    ensures Right(Did(x, Client(a)))
  {
    ValidKept(x.w.s, a);
  }

  /** The periods put out: each holds the sum, modulo 2^16, of what is heard of the samples in it. */
  ghost function OutputOf(x: Scene, d: Doing): seq<seq<uint16>>
    requires Right(x) && Allowed(x, d)
  {
    match d
    case Turn(n) =>
      EmptiedRight(x);
      RightVoices(Emptied(x));
      if Emptied(x).w.s.exited then [] else [Sums(DueIn(x.w, x.streams), n)]
    case _ => []
  }

  ghost function Sums(voices: seq<Option<Voice>>, n: nat): (r: seq<uint16>)
    requires AllValid(voices)
    ensures |r| == n && forall k | 0 <= k < n :: r[k] == Wrap(0, Sum(voices, k))
  {
    seq(n, k requires 0 <= k < n => Wrap(0, Sum(voices, k)))
  }

  // ---- a period holds the sum of what is heard in it ---------------------------------------------------------

  /** What instance `id` is due `k` frames into a period, if one of the first `i` channels plays its sample. */
  ghost function DueTo(t: seq<Entry<nat>>, voices: seq<Option<Voice>>, i: nat, id: nat, k: nat): int
    requires |voices| == |t| && AllValid(voices) && i <= |t|
  {
    var j := Find(t, Some(id));
    if j < i && voices[j].Some? then voices[j].value.At(k) else 0
  }

  /** ... and all instances up to `n` together. */
  ghost function DueToAll(t: seq<Entry<nat>>, voices: seq<Option<Voice>>, i: nat, n: nat, k: nat): int
    requires |voices| == |t| && AllValid(voices) && i <= |t|
  {
    if n == 0 then 0 else DueToAll(t, voices, i, n - 1, k) + DueTo(t, voices, i, n - 1, k)
  }

  ghost predicate VoicesHaveSamples(t: seq<Entry<nat>>, voices: seq<Option<Voice>>) {
    && |voices| == |t| && AllValid(voices) && WellFormed(t)
    && forall j | 0 <= j < |t| && voices[j].Some? :: t[j].sample.Some?
  }

  lemma {:induction false} NoChannelsDue(t: seq<Entry<nat>>, voices: seq<Option<Voice>>, n: nat, k: nat)
    requires |voices| == |t| && AllValid(voices)
    ensures DueToAll(t, voices, 0, n, k) == 0
  {
    if n > 0 {
      NoChannelsDue(t, voices, n - 1, k);
    }
  }

  /** One channel more is one instance more, namely the one whose sample the channel holds. */
  lemma {:induction false} OneChannelMore(t: seq<Entry<nat>>, voices: seq<Option<Voice>>, i: nat, n: nat, k: nat)
    requires VoicesHaveSamples(t, voices) && i < |t|
    ensures DueToAll(t, voices, i + 1, n, k)
         == DueToAll(t, voices, i, n, k)
            + (if voices[i].Some? && t[i].sample.value < n then voices[i].value.At(k) else 0)
  {
    if n > 0 {
      OneChannelMore(t, voices, i, n - 1, k);
      if t[i].sample == Some(n - 1) {
        FindUnique(t, n - 1, i);
      }
    }
  }

  /** Instance by instance it comes to the same as channel by channel. */
  lemma {:induction false} SumByInstance(t: seq<Entry<nat>>, voices: seq<Option<Voice>>, i: nat, n: nat, k: nat)
    requires VoicesHaveSamples(t, voices) && InRange(t, n) && i <= |t|
    ensures DueToAll(t, voices, i, n, k) == Sum(voices[..i], k)
  {
    if i == 0 {
      NoChannelsDue(t, voices, n, k);
    } else {
      SumByInstance(t, voices, i - 1, n, k);
      OneChannelMore(t, voices, i - 1, n, k);
      assert voices[..i][..i - 1] == voices[..i - 1];
    }
  }

  /** What has been heard more of a sample, `k` frames on. */
  function Gained(before: seq<int16>, after: seq<int16>, k: nat): int {
    if |before| + k < |after| then after[|before| + k] else 0
  }

  /** ... and of the first `n` samples together. */
  function AllGained(before: seq<seq<int16>>, after: seq<seq<int16>>, n: nat, k: nat): int
    requires n <= |before| == |after|
  {
    if n == 0 then 0 else AllGained(before, after, n - 1, k) + Gained(before[n - 1], after[n - 1], k)
  }

  lemma GainIsDue(heard: seq<int16>, t: seq<Entry<nat>>, voices: seq<Option<Voice>>, frames: nat, id: nat, k: nat)
    requires |voices| == |t| && AllValid(voices) && k < frames
    ensures var after := HeardMixed(heard, t, voices, frames, id);
            && Gained(heard, after, k) == DueTo(t, voices, |t|, id, k)
            && heard <= after && |after| - |heard| in {0, frames}
  {
  }

  lemma {:induction false} GainedIsDue(before: seq<seq<int16>>, after: seq<seq<int16>>, t: seq<Entry<nat>>,
                                       voices: seq<Option<Voice>>, n: nat, k: nat)
    requires |voices| == |t| && AllValid(voices) && n <= |before| == |after|
    requires forall id | 0 <= id < n :: Gained(before[id], after[id], k) == DueTo(t, voices, |t|, id, k)
    ensures AllGained(before, after, n, k) == DueToAll(t, voices, |t|, n, k)
  {
    if n > 0 {
      GainedIsDue(before, after, t, voices, n - 1, k);
    }
  }

  lemma FilledIsHeard(x: Scene, n: nat, k: nat)
    requires Right(x) && k < n
    ensures var voices := VoicesFor(x.w.s.channels, x.streams, x.w.places);
            && AllValid(voices)
            && var after := HeardFilled(x, voices, n);
               && Wrap(0, AllGained(x.heard, after, |x.heard|, k)) == Wrap(0, Sum(voices, k))
               && forall id | 0 <= id < |x.heard| ::
                    x.heard[id] <= after[id] && |after[id]| - |x.heard[id]| in {0, n}
  {
    RightVoices(x);
    var t, voices := x.w.s.channels, VoicesFor(x.w.s.channels, x.streams, x.w.places);
    var after := HeardFilled(x, voices, n);
    forall id | 0 <= id < |x.heard|
      ensures Gained(x.heard[id], after[id], k) == DueTo(t, voices, |t|, id, k)
      ensures x.heard[id] <= after[id] && |after[id]| - |x.heard[id]| in {0, n}
    {
      GainIsDue(x.heard[id], t, voices, n, id, k);
    }
    GainedIsDue(x.heard, after, t, voices, |x.heard|, k);
    SumByInstance(t, voices, |t|, |x.heard|, k);
    assert voices[..|t|] == voices;
  }

  /** Each period put out is, frame by frame, the sum modulo 2^16 of what has been heard more of all samples once
      the messages have been dealt with; a sample is heard for the whole period or not at all. */
  lemma PeriodIsHeard(x: Scene, n: nat, k: nat)
    requires Right(x) && Allowed(x, Turn(n)) && !DrainedWorld(x.w).s.exited && k < n
    ensures var before, after, output := HeardDrained(x), Did(x, Turn(n)).heard, OutputOf(x, Turn(n));
            && |output| == 1 && |output[0]| == n && |after| == |before|
            && output[0][k] == Wrap(0, AllGained(before, after, |before|, k))
            && forall id | 0 <= id < |before| :: before[id] <= after[id] && |after[id]| - |before[id]| in {0, n}
  {
    EmptiedRight(x);
    FilledIsHeard(Emptied(x), n, k);
  }

  /** The doings, in order, lead from one scene to the other. */
  ghost predicate Goes(x: Scene, doings: seq<Doing>, x': Scene)
    decreases |doings|
  {
    if doings == [] then x' == x
    else Right(x) && Allowed(x, doings[0]) && Goes(Did(x, doings[0]), doings[1..], x')
  }

  ghost function Opening(threads: nat): (x: Scene)
    ensures Right(x)
  {
    InitInv(threads);
    Scene(World(Init(threads), []), [], [])
  }

  lemma {:induction false} GoesRight(x: Scene, doings: seq<Doing>, x': Scene)
    requires Right(x) && Goes(x, doings, x')
    ensures Right(x')
    decreases |doings|
  {
    if doings != [] {
      DidRight(x, doings[0]);
      GoesRight(Did(x, doings[0]), doings[1..], x');
    }
  }

  /** In every run, with any clients, commands and turns of the main loop: what has been heard of a sample since
      it was last started is its stream from the first output, without a gap, repeated if it loops, up to where
      it stands; once it is silent it has either been stopped or played to its end and on with silence. */
  lemma GaplessPlayback(threads: nat, doings: seq<Doing>, x: Scene, id: nat)
    requires Goes(Opening(threads), doings, x) && id < |x.heard|
    ensures Right(x)
    ensures Unbroken(x.streams[id], x.heard[id], x.w.places[id], StatusOf(x.w.s.channels, id))
  {
    GoesRight(Opening(threads), doings, x);
    assert x.heard[id] == x.heard[id];
  }
}
