/** What turns of the main loop make of the protocol's state, and of where each sample stands in its
    stream: the messages on the pipe are dealt with, and a period is filled.
 */
module Turns {
  import opened Pcm
  import opened Events
  import opened ChannelTable
  import opened Transfer
  import opened Commands
  import opened Counting
  import opened Protocol
  import opened Guarantees

  // ---- the command pipe ----------------------------------------------------------------------------------

  /** Execute a message and give its reference up. */
  ghost function Handled(s: State): (s': State)
    requires Valid(s) && Enabled(s, Execute) && s.pipe[s.executed].command != Exit
    ensures Valid(s') && |s'.insts| == |s.insts|
  {
    ValidKept(s, Execute);
    ValidKept(Apply(s, Execute), Release);
    Apply(Apply(s, Execute), Release)
  }

  lemma HandledTells(s: State)
    requires Valid(s) && Enabled(s, Execute) && s.pipe[s.executed].command != Exit
    ensures var s', m := Handled(s), s.pipe[s.executed];
            && s'.channels == Effect(s.channels, m.command, m.id)
            && (forall j | 0 <= j < |s.insts| && j != m.id :: s'.insts[j] == s.insts[j])
            && s'.insts[m.id].events == s.insts[m.id].events + EventsOf(m.command, Sounds(s.channels, m.id))
            && s'.insts[m.id].ref
               == s.insts[m.id].ref - 1
                  + (if Holds(s'.channels, m.id) then 1 else 0) - (if Holds(s.channels, m.id) then 1 else 0)
  {
    var m := s.pipe[s.executed];
    var evs := EventsOf(m.command, Sounds(s.channels, m.id));
    HandleDelivers(s.insts[m.id], m.command, s.channels, m.id);
    DeliverOne(s.insts[m.id], evs);
    AppendOne(s.insts[m.id].events, evs);
    DeliveredRefs(s.insts[m.id], evs);
  }

  /** The io thread takes the next message and deals with it. */
  ghost function NextMessage(s: State): (s': State)
    requires Valid(s) && IoFree(s) && s.taken < |s.pipe|
    ensures Valid(s') && |s'.insts| == |s.insts|
    ensures s'.pipe == s.pipe && s'.taken == s.taken + 1
    ensures if s.pipe[s.taken].command == Exit then s'.exited else IoFree(s')
  {
    ValidKept(s, Take);
    var s1 := Apply(s, Take);
    if s.pipe[s.taken].command == Exit then
      ValidKept(s1, Execute);
      Apply(s1, Execute)
    else Handled(s1)
  }

  /** ... and so on until there is none left, or an EXIT has been dealt with. */
  ghost function Drained(s: State): (s': State)
    requires Valid(s)
    ensures Valid(s') && |s'.insts| == |s.insts|
    ensures IoFree(s) ==> s'.exited || (IoFree(s') && s'.taken == |s'.pipe|)
    ensures s'.pipe == s.pipe
    decreases |s.pipe| - s.taken
  {
    if IoFree(s) && s.taken < |s.pipe| then Drained(NextMessage(s)) else s
  }

  lemma NextMessageLeads(s: State)
    requires Inv(s) && IoFree(s) && s.taken < |s.pipe|
    ensures Inv(NextMessage(s)) && Reaches(s, NextMessage(s))
  {
    InvKept(s, Take);
    var s1 := Apply(s, Take);
    InvKept(s1, Execute);
    var s2 := Apply(s1, Execute);
    ReachesItself(s);
    ReachesOneMore(s, s, Take);
    ReachesOneMore(s, s1, Execute);
    if s.pipe[s.taken].command != Exit {
      InvKept(s2, Release);
      ReachesOneMore(s, s2, Release);
    }
  }

  /** Emptying the pipe is a run of the protocol. */
  lemma {:induction false} DrainedLeads(s: State)
    requires Inv(s)
    ensures Inv(Drained(s)) && Reaches(s, Drained(s))
    decreases |s.pipe| - s.taken
  {
    if IoFree(s) && s.taken < |s.pipe| {
      NextMessageLeads(s);
      DrainedLeads(NextMessage(s));
      ReachesOn(s, NextMessage(s), Drained(s));
    } else {
      ReachesItself(s);
    }
  }

  /** The messages from some point on, up to an EXIT, one after the other: what they make of the table, ... */
  function EffectFrom(t: seq<Entry<nat>>, pipe: seq<Message>, from: nat): seq<Entry<nat>>
    decreases |pipe| - from
  {
    if |pipe| <= from || pipe[from].command == Exit then t
    else EffectFrom(Effect(t, pipe[from].command, pipe[from].id), pipe, from + 1)
  }

  /** ... what they send an instance, ... */
  ghost function EventsFrom(t: seq<Entry<nat>>, pipe: seq<Message>, from: nat, id: nat): seq<Event>
    decreases |pipe| - from
  {
    if |pipe| <= from || pipe[from].command == Exit then []
    else EventsFor(t, pipe[from], id) + EventsFrom(Effect(t, pipe[from].command, pipe[from].id), pipe, from + 1, id)
  }

  ghost function EventsFor(t: seq<Entry<nat>>, m: Message, id: nat): seq<Event> {
    if m.id == id then EventsOf(m.command, Sounds(t, id)) else []
  }

  /** ... and how many name it. */
  function NamedFrom(pipe: seq<Message>, from: nat, id: nat): nat
    decreases |pipe| - from
  {
    if |pipe| <= from || pipe[from].command == Exit then 0
    else (if pipe[from].id == id then 1 else 0) + NamedFrom(pipe, from + 1, id)
  }

  /** Emptying the pipe has the effects of its messages, in order, and sends each instance the events of
      its own; each message gives up its reference, and the channel that takes a sample on or gives it up
      takes or gives up one. */
  lemma {:induction false} DrainedIsFold(s: State, id: nat)
    requires Valid(s) && IoFree(s) && id < |s.insts|
    ensures FoldedTo(s, Drained(s), id)
    decreases |s.pipe| - s.taken
  {
    if s.taken < |s.pipe| {
      if s.pipe[s.taken].command == Exit {
        ExitTells(s, id);
      } else {
        NextTells(s, id);
        DrainedIsFold(NextMessage(s), id);
        FoldStep(s, NextMessage(s), Drained(s), id);
      }
    }
  }

  ghost predicate FoldedTo(s: State, s': State, id: nat)
    requires id < |s.insts|
  {
    && id < |s'.insts|
    && s'.channels == EffectFrom(s.channels, s.pipe, s.taken)
    && s'.insts[id].events == s.insts[id].events + EventsFrom(s.channels, s.pipe, s.taken, id)
    && s'.insts[id].ref
       == s.insts[id].ref - NamedFrom(s.pipe, s.taken, id)
          + (if Holds(s'.channels, id) then 1 else 0) - (if Holds(s.channels, id) then 1 else 0)
  }

  ghost predicate SteppedTo(s: State, s': State, m: Message, id: nat)
    requires id < |s.insts|
  {
    && id < |s'.insts|
    && s'.channels == Effect(s.channels, m.command, m.id)
    && s'.insts[id].events == s.insts[id].events + EventsFor(s.channels, m, id)
    && s'.insts[id].ref
       == s.insts[id].ref - (if m.id == id then 1 else 0)
          + (if Holds(s'.channels, id) then 1 else 0) - (if Holds(s.channels, id) then 1 else 0)
  }

  lemma FoldStep(s: State, s1: State, s': State, id: nat)
    requires s.taken < |s.pipe| && s.pipe[s.taken].command != Exit && id < |s.insts|
    requires s1.pipe == s.pipe && s1.taken == s.taken + 1 && SteppedTo(s, s1, s.pipe[s.taken], id)
    requires FoldedTo(s1, s', id)
    ensures FoldedTo(s, s', id)
  {
    EventsOnAndOn(s.insts[id].events, EventsFor(s.channels, s.pipe[s.taken], id),
                  EventsFrom(s1.channels, s.pipe, s.taken + 1, id));
  }

  lemma ExitTells(s: State, id: nat)
    requires Valid(s) && IoFree(s) && s.taken < |s.pipe| && s.pipe[s.taken].command == Exit
    requires id < |s.insts|
    ensures var s' := Drained(s);
            && s'.channels == s.channels
            && s'.insts[id].events == s.insts[id].events && s'.insts[id].ref == s.insts[id].ref
  {
    assert Drained(s) == NextMessage(s);
  }

  lemma EventsOnAndOn(a: seq<Event>, b: seq<Event>, c: seq<Event>)
    ensures a + b + c == a + (b + c)
  {
  }

  lemma NextTells(s: State, id: nat)
    requires Valid(s) && IoFree(s) && s.taken < |s.pipe| && s.pipe[s.taken].command != Exit
    requires id < |s.insts|
    ensures SteppedTo(s, NextMessage(s), s.pipe[s.taken], id)
  {
    ValidKept(s, Take);
    HandledStep(Apply(s, Take), id);
  }

  lemma HandledStep(s: State, id: nat)
    requires Valid(s) && Enabled(s, Execute) && s.pipe[s.executed].command != Exit && id < |s.insts|
    ensures SteppedTo(s, Handled(s), s.pipe[s.executed], id)
  {
    HandledTells(s);
    EffectKeeps(s.channels, s.pipe[s.executed].command, s.pipe[s.executed].id);
  }

  // ---- a period ------------------------------------------------------------------------------------------

  /** The samples on the channels marked come to their ends, one after the other. */
  ghost function Mixed(s: State, ended: seq<bool>): (s': State)
    requires Valid(s) && IoFree(s) && |ended| <= |s.channels|
    ensures Valid(s') && IoFree(s')
    ensures |s'.insts| == |s.insts| && |s'.channels| == |s.channels|
    ensures s'.pipe == s.pipe && s'.taken == s.taken
    ensures forall k | |ended| <= k < |s.channels| :: s'.channels[k] == s.channels[k]
  {
    if ended == [] then s
    else
      var k := |ended| - 1;
      var s1 := Mixed(s, ended[..k]);
      if ended[k] && s1.channels[k].status == Playing then
        ValidKept(s1, SampleEnds(k));
        Apply(s1, SampleEnds(k))
      else s1
  }

  lemma {:induction false} MixedReaches(s: State, ended: seq<bool>)
    requires Inv(s) && IoFree(s) && |ended| <= |s.channels|
    ensures Inv(Mixed(s, ended)) && Reaches(s, Mixed(s, ended))
    decreases |ended|
  {
    if ended == [] {
      ReachesItself(s);
    } else {
      var k := |ended| - 1;
      MixedReaches(s, ended[..k]);
      var s1 := Mixed(s, ended[..k]);
      if ended[k] && s1.channels[k].status == Playing {
        InvKept(s1, SampleEnds(k));
        ReachesOneMore(s, s1, SampleEnds(k));
      }
    }
  }

  /** An instance whose sample has come to its end has been told, and nothing else has happened to any. */
  ghost predicate ToldOf(s: State, s': State, id: nat)
    requires id < |s.insts|
  {
    && id < |s'.insts|
    && s'.insts[id].ref == s.insts[id].ref
    && (Sounds(s'.channels, id) ==> Sounds(s.channels, id))
    && s'.insts[id].events
       == if Sounds(s.channels, id) && !Sounds(s'.channels, id) then s.insts[id].events + [Event.Stopped]
          else s.insts[id].events
  }

  lemma {:induction false} MixedTells(s: State, ended: seq<bool>, id: nat)
    requires Valid(s) && IoFree(s) && |ended| <= |s.channels| && id < |s.insts|
    ensures ToldOf(s, Mixed(s, ended), id)
    decreases |ended|
  {
    if ended != [] {
      var k := |ended| - 1;
      MixedTells(s, ended[..k], id);
      var s1 := Mixed(s, ended[..k]);
      if ended[k] && s1.channels[k].status == Playing {
        EndTells(s1, k, id);
      }
    }
  }

  lemma EndTells(s: State, k: nat, id: nat)
    requires Valid(s) && Enabled(s, SampleEnds(k)) && id < |s.insts|
    ensures ToldOf(s, Apply(s, SampleEnds(k)), id)
  {
    EndKeeps(s.channels, k);
    FindUnique(s.channels, s.channels[k].sample.value, k);
  }

  /** The channels whose voices end within `n` frames. */
  ghost function EndedOf(voices: seq<Option<Voice>>, n: nat): (r: seq<bool>)
    ensures |r| == |voices|
    ensures forall k | 0 <= k < |voices| :: r[k] == (voices[k].Some? && Ended(voices[k].value, n))
  {
    seq(|voices|, k requires 0 <= k < |voices| => voices[k].Some? && Ended(voices[k].value, n))
  }

  lemma MixedStep(s: State, ended: seq<bool>, s1: State)
    requires Valid(s) && IoFree(s) && 0 < |ended| <= |s.channels|
    requires s1 == Mixed(s, ended[..|ended| - 1])
    requires ended[|ended| - 1] ==> s.channels[|ended| - 1].status == Playing
    ensures Mixed(s, ended).channels == if ended[|ended| - 1] then End(s1.channels, |ended| - 1) else s1.channels
  {
    var k := |ended| - 1;
    assert s1.channels[k] == s.channels[k];
    if ended[k] {
      EndsChannel(s1, k);
      assert Mixed(s, ended) == Apply(s1, SampleEnds(k));
    } else {
      assert Mixed(s, ended) == s1;
    }
  }

  lemma EndsChannel(s: State, k: nat)
    requires Valid(s) && IoFree(s) && k < |s.channels| && s.channels[k].status == Playing
    ensures Apply(s, SampleEnds(k)).channels == End(s.channels, k)
  {
  }

  /** Voices of channels, whose ends are those of samples being played. */
  ghost predicate EndPlaying(t: seq<Entry<nat>>, voices: seq<Option<Voice>>, n: nat) {
    && |voices| <= |t|
    && forall k | 0 <= k < |voices| && voices[k].Some? && Ended(voices[k].value, n) :: t[k].status == Playing
  }

  lemma {:induction false} MixedTable(s: State, ended: seq<bool>, voices: seq<Option<Voice>>, n: nat)
    requires Valid(s) && IoFree(s) && |ended| == |voices| <= |s.channels| && EndPlaying(s.channels, voices, n)
    requires forall k | 0 <= k < |voices| :: ended[k] == (voices[k].Some? && Ended(voices[k].value, n))
    ensures Mixed(s, ended).channels == Onwards(s.channels, voices, n)
    decreases |voices|
  {
    if voices != [] {
      var k := |voices| - 1;
      MixedTable(s, ended[..k], voices[..k], n);
      MixedStep(s, ended, Mixed(s, ended[..k]));
      assert voices[..k + 1] == voices;
      OnwardsStep(s.channels, voices, k, n);
    }
  }

  // ---- where the samples stand ------------------------------------------------------------------------------

  /** A state of the protocol, and for every instance where its sample stands in its stream. */
  datatype World = World(s: State, places: seq<nat>)

  predicate InRange(t: seq<Entry<nat>>, n: nat) {
    forall i | 0 <= i < |t| && t[i].sample.Some? :: t[i].sample.value < n
  }

  /** What the channels are about to contribute. */
  function VoicesFor(t: seq<Entry<nat>>, streams: seq<seq<int16>>, places: seq<nat>): (r: seq<Option<Voice>>)
    requires |streams| == |places| && InRange(t, |places|)
    ensures |r| == |t|
    ensures forall k | 0 <= k < |t| ::
              r[k] == if t[k].status == Status.Stopped || t[k].sample.None? then None
                      else Some(Voice(streams[t[k].sample.value], places[t[k].sample.value], t[k].status == Looping))
  {
    seq(|t|, k requires 0 <= k < |t| =>
      if t[k].status == Status.Stopped || t[k].sample.None? then None
      else Some(Voice(streams[t[k].sample.value], places[t[k].sample.value], t[k].status == Looping)))
  }

  /** A stop rewinds the sample; the other commands leave it where it stands. */
  function PlacesAfter(places: seq<nat>, m: Message): (r: seq<nat>)
    ensures |r| == |places|
  {
    if m.command == Stop && m.id < |places| then places[m.id := 0] else places
  }

  /** The messages from some point on, up to an EXIT. */
  function PlacesFrom(places: seq<nat>, pipe: seq<Message>, from: nat): (r: seq<nat>)
    ensures |r| == |places|
    decreases |pipe| - from
  {
    if |pipe| <= from || pipe[from].command == Exit then places
    else PlacesFrom(PlacesAfter(places, pipe[from]), pipe, from + 1)
  }

  /** Filling a period of `n` frames moves the samples that sound on; those that end in it are rewound. */
  function PlaceMixed(place: nat, t: seq<Entry<nat>>, voices: seq<Option<Voice>>, n: nat, id: nat): nat
    requires |voices| == |t| && AllValid(voices)
  {
    var k := Find(t, Some(id));
    if k == |t| || voices[k].None? then place
    else if Ended(voices[k].value, n) then 0
    else Onward(voices[k].value, n)
  }

  function PlacesMixed(places: seq<nat>, t: seq<Entry<nat>>, voices: seq<Option<Voice>>, n: nat): (r: seq<nat>)
    requires |voices| == |t| && AllValid(voices)
    ensures |r| == |places|
    ensures forall id | 0 <= id < |places| :: r[id] == PlaceMixed(places[id], t, voices, n, id)
  {
    seq(|places|, id requires 0 <= id < |places| => PlaceMixed(places[id], t, voices, n, id))
  }

  ghost function NextWorld(w: World): (w': World)
    requires Valid(w.s) && IoFree(w.s) && w.s.taken < |w.s.pipe|
    ensures |w'.places| == |w.places|
  {
    World(NextMessage(w.s), PlacesAfter(w.places, w.s.pipe[w.s.taken]))
  }

  /** The pipe has been emptied. */
  ghost function DrainedWorld(w: World): (w': World)
    requires Valid(w.s)
    ensures Valid(w'.s) && |w'.s.insts| == |w.s.insts| && |w'.places| == |w.places|
    ensures IoFree(w.s) ==> w'.s.exited || (IoFree(w'.s) && w'.s.taken == |w'.s.pipe|)
    ensures w'.s.pipe == w.s.pipe
    decreases |w.s.pipe| - w.s.taken
  {
    if IoFree(w.s) && w.s.taken < |w.s.pipe| then DrainedWorld(NextWorld(w)) else w
  }

  lemma DrainedWorldIs(w: World)
    requires Valid(w.s) && IoFree(w.s)
    ensures DrainedWorld(w) == World(Drained(w.s), PlacesFrom(w.places, w.s.pipe, w.s.taken))
  {
    DrainedState(w);
    DrainedPlaces(w);
  }

  lemma {:induction false} DrainedState(w: World)
    requires Valid(w.s) && IoFree(w.s)
    ensures DrainedWorld(w).s == Drained(w.s)
    decreases |w.s.pipe| - w.s.taken
  {
    if w.s.taken < |w.s.pipe| {
      DrainedOn(w);
      if w.s.pipe[w.s.taken].command == Exit {
        DrainedAtExit(w);
      } else {
        DrainedState(NextWorld(w));
      }
    }
  }

  lemma {:induction false} DrainedPlaces(w: World)
    requires Valid(w.s) && IoFree(w.s)
    ensures DrainedWorld(w).places == PlacesFrom(w.places, w.s.pipe, w.s.taken)
    decreases |w.s.pipe| - w.s.taken
  {
    if w.s.taken < |w.s.pipe| {
      if w.s.pipe[w.s.taken].command == Exit {
        DrainedAtExit(w);
      } else {
        DrainedOn(w);
        DrainedPlaces(NextWorld(w));
        PlacesStep(w, NextWorld(w), DrainedWorld(w).places);
      }
    }
  }

  lemma DrainedOn(w: World)
    requires Valid(w.s) && IoFree(w.s) && w.s.taken < |w.s.pipe|
    ensures DrainedWorld(w) == DrainedWorld(NextWorld(w)) && Drained(w.s) == Drained(NextWorld(w).s)
  {
  }

  lemma DrainedAtExit(w: World)
    requires Valid(w.s) && IoFree(w.s) && w.s.taken < |w.s.pipe| && w.s.pipe[w.s.taken].command == Exit
    ensures DrainedWorld(w) == NextWorld(w) == World(Drained(w.s), w.places)
  {
    assert Drained(w.s) == NextMessage(w.s);
  }

  lemma PlacesStep(w: World, w1: World, places: seq<nat>)
    requires w.s.taken < |w.s.pipe| && w.s.pipe[w.s.taken].command != Exit
    requires w1.s.pipe == w.s.pipe && w1.s.taken == w.s.taken + 1
    requires w1.places == PlacesAfter(w.places, w.s.pipe[w.s.taken])
    requires places == PlacesFrom(w1.places, w1.s.pipe, w1.s.taken)
    ensures places == PlacesFrom(w.places, w.s.pipe, w.s.taken)
  {
  }

  /** A period has been filled. */
  ghost function MixedWorld(w: World, voices: seq<Option<Voice>>, n: nat): (w': World)
    requires Valid(w.s) && IoFree(w.s) && |voices| == |w.s.channels| && AllValid(voices)
    ensures Valid(w'.s) && IoFree(w'.s) && |w'.s.insts| == |w.s.insts| && |w'.places| == |w.places|
    ensures w'.s.pipe == w.s.pipe && w'.s.taken == w.s.taken
  {
    World(Mixed(w.s, EndedOf(voices, n)), PlacesMixed(w.places, w.s.channels, voices, n))
  }
}
