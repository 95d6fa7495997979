/** The objects of the embedded output do what the protocol says: every step of the io thread, and every
    client step that touches a sample, takes objects that mirror a state of the protocol to objects that
    mirror the next.  What is proved of the protocol's runs holds of the objects'.  Where each sample
    stands in its stream is followed as well.
 */
module Refinement {
  import opened Pcm
  import opened Adpcm
  import opened Events
  import opened S5Prom
  import opened ChannelTable
  import opened Transfer
  import opened Channels
  import opened EmbeddedApi
  import opened Commands
  import opened Counting
  import opened Protocol
  import opened Guarantees
  import opened Turns

  // ---- tables by name --------------------------------------------------------------------------------

  predicate Distinct<S(==)>(names: seq<S>) {
    forall i, j | 0 <= i < j < |names| :: names[i] != names[j]
  }

  function NamedEntry<S>(e: Entry<nat>, names: seq<S>): Entry<S>
    requires e.sample.Some? ==> e.sample.value < |names|
  {
    Entry(if e.sample.None? then None else Some(names[e.sample.value]), e.status)
  }

  /** The protocol's table, with the instances' samples in place of their numbers. */
  function Named<S>(t: seq<Entry<nat>>, names: seq<S>): (r: seq<Entry<S>>)
    requires InRange(t, |names|)
    ensures |r| == |t|
    ensures forall i | 0 <= i < |t| :: r[i] == NamedEntry(t[i], names)
  {
    seq(|t|, i requires 0 <= i < |t| => NamedEntry(t[i], names))
  }

  lemma FindNamed<S>(t: seq<Entry<nat>>, names: seq<S>, id: nat)
    requires InRange(t, |names|) && Distinct(names) && id < |names|
    ensures Find(Named(t, names), Some(names[id])) == Find(t, Some(id))
    ensures Find(Named(t, names), None) == Find(t, None)
  {
    FindFirst(Named(t, names), Some(names[id]), Find(t, Some(id)));
    FindFirst(Named(t, names), None, Find(t, None));
  }

  lemma HoldsNamed<S>(t: seq<Entry<nat>>, names: seq<S>, id: nat)
    requires InRange(t, |names|) && Distinct(names) && id < |names|
    ensures Holds(Named(t, names), names[id]) <==> Holds(t, id)
  {
    FindNamed(t, names, id);
    FindHolds(t, id);
    FindHolds(Named(t, names), names[id]);
  }

  lemma SoundsNamed<S>(t: seq<Entry<nat>>, names: seq<S>, id: nat)
    requires WellFormed(t) && InRange(t, |names|) && Distinct(names) && id < |names|
    ensures Sounds(Named(t, names), names[id]) <==> Sounds(t, id)
  {
    var r := Named(t, names);
    if i :| 0 <= i < |t| && t[i].sample == Some(id) && t[i].status != Status.Stopped {
      assert r[i].sample == Some(names[id]);
    }
    if i :| 0 <= i < |r| && r[i].sample == Some(names[id]) && r[i].status != Status.Stopped {
      assert t[i].sample == Some(id);
    }
  }

  lemma PlayNamed<S>(t: seq<Entry<nat>>, names: seq<S>, id: nat, status: Status)
    requires InRange(t, |names|) && Distinct(names) && id < |names|
    ensures InRange(ChannelTable.Play(t, id, status), |names|)
    ensures Named(ChannelTable.Play(t, id, status), names) == ChannelTable.Play(Named(t, names), names[id], status)
  {
    FindNamed(t, names, id);
  }

  lemma StopNamed<S>(t: seq<Entry<nat>>, names: seq<S>, id: nat)
    requires InRange(t, |names|) && Distinct(names) && id < |names|
    ensures InRange(ChannelTable.Stop(t, id), |names|)
    ensures Named(ChannelTable.Stop(t, id), names) == ChannelTable.Stop(Named(t, names), names[id])
  {
    FindNamed(t, names, id);
  }

  /** A command makes of the named table what it makes of the protocol's. */
  lemma EffectNamed<S>(t: seq<Entry<nat>>, names: seq<S>, c: Command, id: nat)
    requires InRange(t, |names|) && Distinct(names) && id < |names|
    ensures InRange(Effect(t, c, id), |names|)
    ensures Named(Effect(t, c, id), names) == Effect(Named(t, names), c, names[id])
  {
    match c
    case Play => PlayNamed(t, names, id, Playing);
    case Loop => PlayNamed(t, names, id, Looping);
    case Stop => StopNamed(t, names, id);
    case _ =>
  }

  /** More instances change nothing for a table that does not name them. */
  lemma NamedMore<S>(t: seq<Entry<nat>>, names: seq<S>, x: S)
    requires InRange(t, |names|)
    ensures Named(t, names + [x]) == Named(t, names)
  {
  }

  lemma {:induction false} OnwardsNamed<S>(t: seq<Entry<nat>>, names: seq<S>, voices: seq<Option<Voice>>, n: nat)
    requires InRange(t, |names|) && |voices| <= |t|
    ensures InRange(Onwards(t, voices, n), |names|)
    ensures Named(Onwards(t, voices, n), names) == Onwards(Named(t, names), voices, n)
    decreases |voices|
  {
    if voices != [] {
      var k := |voices| - 1;
      OnwardsNamed(t, names, voices[..k], n);
      EndNamed(Onwards(t, voices[..k], n), names, k);
    }
  }

  lemma EndNamed<S>(t: seq<Entry<nat>>, names: seq<S>, k: nat)
    requires InRange(t, |names|) && k < |t|
    ensures InRange(End(t, k), |names|) && Named(End(t, k), names) == End(Named(t, names), k)
  {
  }

  // ---- the relation ----------------------------------------------------------------------------------

  /** A sample object is as the protocol has it: alive or freed, with its references and the events it has
      delivered; and alive, it stands where it should. */
  ghost predicate Matches(api: Api, x: Sample, i: Instance, place: nat)
    reads api`samples, x
  {
    && (x in api.samples <==> i.ref != 0)
    && x.ref == i.ref
    && x.events == i.events
    && (x in api.samples ==> x.Emitted() == place)
  }

  /** The objects mirror a state of the protocol; `names` are the samples of its instances. */
  ghost predicate Mirrors(api: Api, names: seq<Sample>, w: World)
    reads api, api.bucket`locked, api.bucket`items, api.bucket`nOutputs, api.bucket`nOutputsFree,
          api.bucket`nOutputsUsed, api.bucket.items, api.owned, api.samples, names
  {
    && Protocol.Valid(w.s) && |names| == |w.s.insts| == |w.places| && Distinct(names)
    && api.Valid() && api.bucket.locked == 0
    && api.table == Named(w.s.channels, names)
    && (forall x | x in api.samples :: x in names)
    && forall id {:trigger Matches(api, names[id], w.s.insts[id], w.places[id])} | 0 <= id < |names| ::
         Matches(api, names[id], w.s.insts[id], w.places[id])
  }

  /** ... and the protocol's invariant holds of it, stated so that the two come into a proof only where
      Mirrors is mentioned. */
  ghost predicate InStep(api: Api, names: seq<Sample>, w: World)
    reads api, api.bucket`locked, api.bucket`items, api.bucket`nOutputs, api.bucket`nOutputsFree,
          api.bucket`nOutputsUsed, api.bucket.items, api.owned, api.samples, names
  {
    forall u {:trigger Mirrors(api, names, u)} | u == w :: Mirrors(api, names, u) && Inv(u.s)
  }

  /** The streams of the instances' samples. */
  function StreamsOf(names: seq<Sample>): (r: seq<seq<int16>>)
    ensures |r| == |names|
    ensures forall id | 0 <= id < |names| :: r[id] == Stream(names[id].resample, names[id].data)
  {
    seq(|names|, id requires 0 <= id < |names| => Stream(names[id].resample, names[id].data))
  }

  // ---- setup and the clients' steps --------------------------------------------------------------------

  /** A new output mirrors the state a run begins in. */
  method Setup(ghost threads: nat) returns (api: Api)
    ensures Mirrors(api, [], World(Init(threads), [])) && Inv(Init(threads))
    ensures fresh(api) && fresh(api.bucket) && fresh(api.bucket.items) && fresh(api.owned)
  {
    api := new Api();
    InitInv(threads);
    assert api.table == Named(Init(threads).channels, []);
  }

  /** An instance opens a sample. */
  method OpenNext(api: Api, ghost names: seq<Sample>, ghost w: World, host: HostOrder, resample: bool, data: seq<byte>)
    returns (x: Sample)
    requires Mirrors(api, names, w)
    modifies api`samples
    ensures fresh(x) && x.resample == resample && x.data == data
    ensures Mirrors(api, names + [x], World(Apply(w.s, Open), w.places + [0]))
  {
    x := api.OpenSample(host, resample, data);
    ghost var w' := World(Apply(w.s, Open), w.places + [0]);
    ValidKept(w.s, Open);
    NamedMore(w.s.channels, names, x);
    forall id | 0 <= id < |names|
      ensures Matches(api, (names + [x])[id], w'.s.insts[id], w'.places[id])
    {
      assert old(Matches(api, names[id], w.s.insts[id], w.places[id]));
    }
    assert Matches(api, x, w'.s.insts[|names|], w'.places[|names|]);
  }

  /** A client takes a reference, for a command or for a SYNC. */
  method TakeRefNext(api: Api, ghost names: seq<Sample>, ghost w: World, x: Sample, ghost a: Action, ghost id: nat)
    requires Mirrors(api, names, w) && Inv(w.s) && Enabled(w.s, a)
    requires (a.Begin? && id == a.id) || (a.BeginSync? && id == w.s.threads[a.t].id)
    requires id < |names| && x == names[id]
    modifies x`ref
    ensures Mirrors(api, names, w.(s := Apply(w.s, a)))
  {
    OpenIsAlive(w.s, id);
    assert Matches(api, x, w.s.insts[id], w.places[id]);
    api.TakeRef(x);
    ValidKept(w.s, a);
    forall j | 0 <= j < |names|
      ensures Matches(api, names[j], Apply(w.s, a).insts[j], w.places[j])
    {
      assert old(Matches(api, names[j], w.s.insts[j], w.places[j]));
    }
  }

  lemma OpenIsAlive(s: State, id: nat)
    requires Inv(s) && id < |s.insts| && s.insts[id].open
    ensures s.insts[id].ref == Refs(s, id) && (if Holds(s.channels, id) then 1 else 0) < s.insts[id].ref
  {
    assert InstanceRight(s, id);
    CountHeld(s.channels, id);
  }

  /** A client closes an instance. */
  method CloseNext(api: Api, ghost names: seq<Sample>, ghost w: World, x: Sample, ghost id: nat)
    requires Mirrors(api, names, w) && Inv(w.s) && Enabled(w.s, CloseInstance(id))
    requires id < |names| && x == names[id]
    modifies api`samples, x`ref
    ensures Mirrors(api, names, w.(s := Apply(w.s, CloseInstance(id))))
  {
    OpenIsAlive(w.s, id);
    HoldsNamed(w.s.channels, names, id);
    assert Matches(api, x, w.s.insts[id], w.places[id]);
    api.Discard(x);
    ValidKept(w.s, CloseInstance(id));
    forall j | 0 <= j < |names|
      ensures Matches(api, names[j], Apply(w.s, CloseInstance(id)).insts[j], w.places[j])
    {
      assert old(Matches(api, names[j], w.s.insts[j], w.places[j]));
    }
  }

  /** The steps that touch no object: writing a message, raising the counter, taking a message. */
  lemma ElsewhereNext(api: Api, names: seq<Sample>, w: World, a: Action)
    requires Mirrors(api, names, w) && Enabled(w.s, a)
    requires a.Write? || a.Raise? || a.WriteSync? || a.Shutdown? || a.Take?
    ensures Mirrors(api, names, w.(s := Apply(w.s, a)))
  {
    ValidKept(w.s, a);
    forall id | 0 <= id < |names|
      ensures Matches(api, names[id], Apply(w.s, a).insts[id], w.places[id])
    {
      assert Matches(api, names[id], w.s.insts[id], w.places[id]);
    }
  }

  // ---- a command ---------------------------------------------------------------------------------------

  /** The message in hand has its reference besides the channel's. */
  lemma InHandIsAlive(s: State)
    requires Inv(s) && Enabled(s, Execute) && s.pipe[s.executed].command != Exit
    ensures var id := s.pipe[s.executed].id;
            id < |s.insts| && (if Holds(s.channels, id) then 1 else 0) < s.insts[id].ref
  {
    var id := s.pipe[s.executed].id;
    assert InstanceRight(s, id);
    CountHeld(s.channels, id);
    CountTaken(s.pipe, s.released, Names(id));
  }

  /** The same, told by the named table: `c` has been executed for instance `id` and its reference given
      up. */
  ghost predicate ExecutedFor<S>(s: State, s': State, names: seq<S>, c: Command, id: nat)
    requires Protocol.Valid(s) && Protocol.Valid(s') && |names| == |s.insts| == |s'.insts| && id < |names|
  {
    var t, x, i, i' := Named(s.channels, names), names[id], s.insts[id], s'.insts[id];
    && Named(s'.channels, names) == Effect(t, c, x)
    && (forall j | 0 <= j < |names| && j != id :: s'.insts[j] == s.insts[j])
    && (if Holds(t, x) then 1 else 0) < i.ref
    && i'.events == i.events + EventsOf(c, Sounds(t, x))
    && i'.ref == i.ref - 1 + (if Holds(Effect(t, c, x), x) then 1 else 0) - (if Holds(t, x) then 1 else 0)
  }

  lemma HandledNamed<S>(s: State, names: seq<S>)
    requires Inv(s) && Enabled(s, Execute) && s.pipe[s.executed].command != Exit
    requires |names| == |s.insts| && Distinct(names)
    ensures ExecutedFor(s, Handled(s), names, s.pipe[s.executed].command, s.pipe[s.executed].id)
  {
    var m := s.pipe[s.executed];
    InHandIsAlive(s);
    HandledTells(s);
    HoldsNamed(s.channels, names, m.id);
    SoundsNamed(s.channels, names, m.id);
    EffectNamed(s.channels, names, m.command, m.id);
    HoldsNamed(Handled(s).channels, names, m.id);
  }

  method ExecuteFor(api: Api, ghost names: seq<Sample>, ghost w: World, ghost s': State, command: Command, x: Sample,
                    ghost id: nat)
    requires Mirrors(api, names, w) && command != Exit
    requires Protocol.Valid(s') && |s'.insts| == |w.s.insts| && id < |names| && x == names[id]
    requires ExecutedFor(w.s, s', names, command, id)
    modifies api.bucket, api.bucket.items, api, api.owned, x
    ensures Mirrors(api, names, World(s', if command == Stop then w.places[id := 0] else w.places))
    ensures fresh(api.owned - old(api.owned))
    ensures api.bucket.items == old(api.bucket.items) || fresh(api.bucket.items)
  {
    ghost var places := if command == Stop then w.places[id := 0] else w.places;
    assert Matches(api, x, w.s.insts[id], w.places[id]);
    api.Execute(command, x);
    forall j | 0 <= j < |names|
      ensures Matches(api, names[j], s'.insts[j], places[j])
    {
      assert old(Matches(api, names[j], w.s.insts[j], w.places[j]));
    }
  }

  /** The output executes a message as the protocol's io thread does. */
  method ExecuteNext(api: Api, ghost names: seq<Sample>, ghost w: World, command: Command, x: Sample)
    requires Mirrors(api, names, w) && Inv(w.s) && Enabled(w.s, Execute)
    requires var m := w.s.pipe[w.s.executed]; command == m.command != Exit && x == names[m.id]
    modifies api.bucket, api.bucket.items, api, api.owned, x
    ensures Mirrors(api, names, World(Handled(w.s), PlacesAfter(w.places, w.s.pipe[w.s.executed])))
    ensures fresh(api.owned - old(api.owned))
    ensures api.bucket.items == old(api.bucket.items) || fresh(api.bucket.items)
  {
    HandledNamed(w.s, names);
    ExecuteFor(api, names, w, Handled(w.s), command, x, w.s.pipe[w.s.executed].id);
  }

  // ---- the command pipe ----------------------------------------------------------------------------------

  /** What comes out of the pipe stands for a message: the command and the sample it names; an EXIT names
      none. */
  predicate StandsFor(message: (Command, Option<Sample>), m: Message, names: seq<Sample>) {
    && message.0 == m.command
    && (m.command != Exit ==> m.id < |names| && message.1 == Some(names[m.id]))
  }

  /** The messages that wait on the pipe. */
  predicate QueueFor(queue: seq<(Command, Option<Sample>)>, s: State, names: seq<Sample>)
  {
    && s.taken <= |s.pipe| && |queue| == |s.pipe| - s.taken
    && forall k | 0 <= k < |queue| :: StandsFor(queue[k], s.pipe[s.taken + k], names)
  }

  /** One turn of the loop over the pipe. */
  method HandleNext(api: Api, ghost names: seq<Sample>, ghost w: World, message: (Command, Option<Sample>))
    requires Mirrors(api, names, w) && Inv(w.s) && IoFree(w.s) && w.s.taken < |w.s.pipe|
    requires StandsFor(message, w.s.pipe[w.s.taken], names)
    modifies api.bucket, api.bucket.items, api, api.owned, names
    ensures Mirrors(api, names, NextWorld(w))
    ensures fresh(api.owned - old(api.owned))
    ensures api.bucket.items == old(api.bucket.items) || fresh(api.bucket.items)
  {
    InvKept(w.s, Take);
    ghost var w1 := w.(s := Apply(w.s, Take));
    ElsewhereNext(api, names, w, Take);
    if message.0 == Exit {
      ExitNext(api, names, w);
    } else {
      ExecuteNext(api, names, w1, message.0, message.1.value);
    }
  }

  lemma ExitNext(api: Api, names: seq<Sample>, w: World)
    requires Mirrors(api, names, w) && IoFree(w.s) && w.s.taken < |w.s.pipe| && w.s.pipe[w.s.taken].command == Exit
    ensures Mirrors(api, names, NextWorld(w))
  {
    forall id | 0 <= id < |names|
      ensures Matches(api, names[id], NextMessage(w.s).insts[id], w.places[id])
    {
      assert Matches(api, names[id], w.s.insts[id], w.places[id]);
    }
  }

  /** Emptying the pipe from `w` on has got to `v`. */
  ghost predicate Draining(w: World, v: World) {
    && Protocol.Valid(w.s) && Protocol.Valid(v.s) && v.s.pipe == w.s.pipe && (v.s.exited || IoFree(v.s))
    && DrainedWorld(v) == DrainedWorld(w)
  }

  /** ... and so have the objects, stated so that what it means comes into a proof only where Draining is
      mentioned. */
  ghost predicate DrainUnderWay(api: Api, names: seq<Sample>, w: World, v: World)
    reads api, api.bucket`locked, api.bucket`items, api.bucket`nOutputs, api.bucket`nOutputsFree,
          api.bucket`nOutputsUsed, api.bucket.items, api.owned, api.samples, names
  {
    forall u {:trigger Draining(w, u)} | u == v :: Draining(w, u) && InStep(api, names, u)
  }

  method DrainTurn(api: Api, ghost names: seq<Sample>, ghost w: World, ghost v: World,
                   message: (Command, Option<Sample>))
    returns (exits: bool, ghost v': World)
    requires DrainUnderWay(api, names, w, v)
    requires !v.s.exited && v.s.taken < |w.s.pipe| && StandsFor(message, w.s.pipe[v.s.taken], names)
    modifies api.bucket, api.bucket.items, api, api.owned, names
    ensures DrainUnderWay(api, names, w, v')
    ensures v'.s.taken == v.s.taken + 1 && exits == v'.s.exited
    ensures fresh(api.owned - old(api.owned))
    ensures api.bucket.items == old(api.bucket.items) || fresh(api.bucket.items)
  {
    assert Draining(w, v) && Mirrors(api, names, v);
    NextMessageLeads(v.s);
    HandleNext(api, names, v, message);
    exits, v' := message.0 == Exit, NextWorld(v);
    assert Draining(w, v');
  }

  /** The loop of process_cmd_pipe. */
  method DrainPipe(api: Api, ghost names: seq<Sample>, ghost w: World, messages: seq<(Command, Option<Sample>)>)
    returns (exits: bool, ghost v: World)
    requires !w.s.exited && DrainUnderWay(api, names, w, w)
    requires QueueFor(messages, w.s, names)
    modifies api.bucket, api.bucket.items, api, api.owned, names
    ensures DrainUnderWay(api, names, w, v) && exits == v.s.exited && (exits || v.s.taken == |w.s.pipe|)
    ensures fresh(api.owned - old(api.owned))
    ensures api.bucket.items == old(api.bucket.items) || fresh(api.bucket.items)
  {
    exits, v := false, w;
    var i := 0;
    while i < |messages| && !exits
      invariant i <= |messages| && v.s.taken == w.s.taken + i
      invariant DrainUnderWay(api, names, w, v) && exits == v.s.exited
      invariant fresh(api.owned - old(api.owned))
      invariant api.bucket.items == old(api.bucket.items) || fresh(api.bucket.items)
    {
      assert StandsFor(messages[i], w.s.pipe[w.s.taken + i], names);
      exits, v := DrainTurn(api, names, w, v, messages[i]);
      i := i + 1;
    }
  }

  lemma DrainEnds(api: Api, names: seq<Sample>, w: World, v: World)
    requires DrainUnderWay(api, names, w, v) && (v.s.exited || v.s.taken == |w.s.pipe|)
    ensures Protocol.Valid(w.s) && v == DrainedWorld(w) && InStep(api, names, v)
  {
    assert Draining(w, v);
  }

  /** process_cmd_pipe, when a pipe holding `messages` is emptied.  `exits` is an EXIT, at which the io
      thread ends. */
  method ProcessCmdPipe(api: Api, ghost names: seq<Sample>, ghost w: World, messages: seq<(Command, Option<Sample>)>)
    returns (exits: bool)
    requires Protocol.Valid(w.s) && IoFree(w.s) && InStep(api, names, w)
    requires QueueFor(messages, w.s, names)
    modifies api.bucket, api.bucket.items, api, api.owned, names
    ensures InStep(api, names, DrainedWorld(w)) && exits == DrainedWorld(w).s.exited
    ensures fresh(api.owned - old(api.owned))
    ensures api.bucket.items == old(api.bucket.items) || fresh(api.bucket.items)
  {
    ghost var v;
    exits, v := DrainPipe(api, names, w, messages);
    DrainEnds(api, names, w, v);
  }

  // ---- a period ------------------------------------------------------------------------------------------

  /** What the samples had been delivered and what referred to them is what the protocol has of their
      instances. */
  ghost predicate Recorded(names: seq<Sample>, s: State, was: map<Sample, (seq<Event>, int)>)
    requires |names| == |s.insts|
  {
    && (forall id | 0 <= id < |names| :: names[id] in was <==> s.insts[id].ref != 0)
    && (forall id | 0 <= id < |names| && names[id] in was :: was[names[id]] == (s.insts[id].events, s.insts[id].ref))
  }

  /** Freed samples are as the protocol has them, and are on no channel. */
  ghost predicate FreedMatch(names: seq<Sample>, s: State)
    requires Protocol.Valid(s) && |names| == |s.insts|
    reads names
  {
    forall id | 0 <= id < |names| && s.insts[id].ref == 0 ::
      && names[id].ref == 0 && names[id].events == s.insts[id].events
      && !Sounds(Named(s.channels, names), names[id])
  }

  lemma BeforeMixing(api: Api, names: seq<Sample>, w: World) returns (was: map<Sample, (seq<Event>, int)>)
    requires Mirrors(api, names, w)
    ensures api.Told(api.table, was) && Recorded(names, w.s, was) && FreedMatch(names, w.s)
  {
    was := map x | x in api.samples :: (x.events, x.ref);
    forall id | 0 <= id < |names|
      ensures Matches(api, names[id], w.s.insts[id], w.places[id])
    {
    }
  }

  /** What the channels are due is what the protocol's state and the samples' places say. */
  lemma DueForWorld(api: Api, names: seq<Sample>, w: World)
    requires Mirrors(api, names, w)
    ensures api.Due(VoicesFor(w.s.channels, StreamsOf(names), w.places))
  {
    var voices := VoicesFor(w.s.channels, StreamsOf(names), w.places);
    forall k | 0 <= k < |voices|
      ensures voices[k] == VoiceOf(api.channels[k])
    {
      var c := api.channels[k];
      assert api.table[k] == Entry(c.sample, c.status);
      if c.sample.Some? {
        var id := w.s.channels[k].sample.value;
        assert Matches(api, names[id], w.s.insts[id], w.places[id]);
        PlaceInStream(api, names[id]);
      }
    }
  }

  lemma PlaceInStream(api: Api, x: Sample)
    requires api.Valid() && x in api.samples
    ensures 0 <= x.Emitted() && x.score.full == Stream(x.resample, x.data)
  {
    assert Agrees(x, api.table) && Stands(x.score, x.frame, x.cursor, x.decoded);
    GenuineIsStream(x.score);
  }

  /** A sample that is not sounding stands at its beginning. */
  lemma SilentAtBeginning(api: Api, x: Sample)
    requires api.Valid() && x in api.samples && !Sounds(api.table, x)
    ensures x.Emitted() == 0
  {
    assert Agrees(x, api.table);
  }

  /** Live samples that are not sounding stand at their beginnings. */
  ghost predicate SilentPlaces(w: World)
    requires Protocol.Valid(w.s) && |w.places| == |w.s.insts|
  {
    forall id | 0 <= id < |w.places| && w.s.insts[id].ref != 0 && !Sounds(w.s.channels, id) :: w.places[id] == 0
  }

  lemma SilentInWorld(api: Api, names: seq<Sample>, w: World)
    requires Mirrors(api, names, w)
    ensures SilentPlaces(w)
  {
    forall id | 0 <= id < |names| && w.s.insts[id].ref != 0 && !Sounds(w.s.channels, id)
      ensures w.places[id] == 0
    {
      assert Matches(api, names[id], w.s.insts[id], w.places[id]);
      SoundsNamed(w.s.channels, names, id);
      SilentAtBeginning(api, names[id]);
    }
  }

  /** A live sample stands where the period has taken it. */
  lemma PlaceOn(api: Api, names: seq<Sample>, w: World, voices: seq<Option<Voice>>, n: nat, id: nat)
    requires Protocol.Valid(w.s) && |names| == |w.s.insts| == |w.places| && Distinct(names) && id < |names|
    requires voices == VoicesFor(w.s.channels, StreamsOf(names), w.places) && AllValid(voices) && SilentPlaces(w)
    requires WellFormed(Onwards(w.s.channels, voices, n)) && InRange(Onwards(w.s.channels, voices, n), |names|)
    requires api.Valid() && api.table == Named(Onwards(w.s.channels, voices, n), names)
    requires forall k | 0 <= k < |voices| :: k < |api.channels| && VoiceOf(api.channels[k]) == Later(voices[k], n)
    requires names[id] in api.samples && w.s.insts[id].ref != 0
    ensures names[id].Emitted() == PlaceMixed(w.places[id], w.s.channels, voices, n, id)
  {
    var k, t' := Find(w.s.channels, Some(id)), Onwards(w.s.channels, voices, n);
    SoundsNamed(t', names, id);
    if k < |voices| {
      OnwardsAt(w.s.channels, voices, n, k);
      FindUnique(t', id, k);
      FindUnique(w.s.channels, id, k);
      assert api.table[k] == Entry(api.channels[k].sample, api.channels[k].status);
      if t'[k].status == Status.Stopped {
        SilentAtBeginning(api, names[id]);
      } else {
        PlaceInStream(api, names[id]);
        assert voices[k].Some?;
      }
    } else {
      NowhereSounds(w.s.channels, voices, n, id);
      SilentAtBeginning(api, names[id]);
    }
  }

  lemma NowhereSounds(t: seq<Entry<nat>>, voices: seq<Option<Voice>>, n: nat, id: nat)
    requires |voices| == |t| == Find(t, Some(id))
    ensures !Sounds(t, id) && !Sounds(Onwards(t, voices, n), id)
  {
    forall k | 0 <= k < |t|
      ensures Onwards(t, voices, n)[k].sample == t[k].sample
    {
      OnwardsAt(t, voices, n, k);
    }
    FindHolds(t, id);
  }

  /** What the objects have been told is what the protocol has told the instance. */
  lemma ToldOn(api: Api, names: seq<Sample>, s: State, s': State, id: nat)
    requires Protocol.Valid(s) && Protocol.Valid(s') && |names| == |s.insts| == |s'.insts|
    requires Distinct(names) && id < |names|
    requires api.table == Named(s'.channels, names) && ToldOf(s, s', id)
    requires var x, i := names[id], s.insts[id];
             && (x in api.samples <==> i.ref != 0)
             && if x in api.samples then api.ToldSince(Named(s.channels, names), (i.events, i.ref), x)
                else x.ref == i.ref && x.events == i.events && !Sounds(Named(s.channels, names), x)
    ensures var x, i := names[id], s'.insts[id];
            (x in api.samples <==> i.ref != 0) && x.ref == i.ref && x.events == i.events
  {
    SoundsNamed(s.channels, names, id);
    SoundsNamed(s'.channels, names, id);
  }

  /** What mixing starts from. */
  ghost predicate Mixable(api: Api, names: seq<Sample>, w: World, voices: seq<Option<Voice>>, n: nat)
    reads api, api.bucket`locked, api.bucket`items, api.bucket`nOutputs, api.bucket`nOutputsFree,
          api.bucket`nOutputsUsed, api.bucket.items, api.owned, api.samples, names
  {
    && Mirrors(api, names, w) && IoFree(w.s)
    && voices == VoicesFor(w.s.channels, StreamsOf(names), w.places) && AllFit(voices, n)
  }

  /** What is known of the protocol's side once a period has been filled. */
  ghost predicate MixedRight(names: seq<Sample>, w: World, voices: seq<Option<Voice>>, n: nat)
  {
    && Protocol.Valid(w.s) && IoFree(w.s) && |names| == |w.s.insts| == |w.places| && Distinct(names)
    && voices == VoicesFor(w.s.channels, StreamsOf(names), w.places) && AllValid(voices)
    && SilentPlaces(w)
    && MixedWorld(w, voices, n).s.channels == Onwards(w.s.channels, voices, n)
  }

  lemma MixedIsRight(api: Api, names: seq<Sample>, w: World, voices: seq<Option<Voice>>, n: nat)
    requires Mixable(api, names, w, voices, n)
    ensures MixedRight(names, w, voices, n)
    ensures Named(MixedWorld(w, voices, n).s.channels, names) == Onwards(api.table, voices, n)
  {
    DueForWorld(api, names, w);
    VoicesValid(api, voices);
    SilentInWorld(api, names, w);
    MixedTable(w.s, EndedOf(voices, n), voices, n);
    OnwardsNamed(w.s.channels, names, voices, n);
  }

  lemma VoicesValid(api: Api, voices: seq<Option<Voice>>)
    requires api.Valid() && api.Due(voices)
    ensures AllValid(voices)
  {
    api.NothingHeardYet(voices, 0);
  }

  lemma AllMatch(api: Api, names: seq<Sample>, w: World, voices: seq<Option<Voice>>, n: nat,
                 was: map<Sample, (seq<Event>, int)>)
    requires MixedRight(names, w, voices, n) && api.Valid()
    requires api.table == Named(MixedWorld(w, voices, n).s.channels, names)
    requires api.Told(Named(w.s.channels, names), was)
    requires Recorded(names, w.s, was) && FreedMatch(names, w.s)
    requires forall k | 0 <= k < |voices| :: k < |api.channels| && VoiceOf(api.channels[k]) == Later(voices[k], n)
    ensures var w' := MixedWorld(w, voices, n);
            forall id | 0 <= id < |names| :: Matches(api, names[id], w'.s.insts[id], w'.places[id])
  {
    var w' := MixedWorld(w, voices, n);
    forall id | 0 <= id < |names|
      ensures Matches(api, names[id], w'.s.insts[id], w'.places[id])
    {
      MixedTells(w.s, EndedOf(voices, n), id);
      if names[id] in was {
        assert api.ToldSince(Named(w.s.channels, names), was[names[id]], names[id]);
      }
      ToldOn(api, names, w.s, w'.s, id);
      if names[id] in api.samples {
        PlaceOn(api, names, w, voices, n, id);
      }
    }
  }

  /** Filling a period leaves objects that mirror the state in which the samples have come to their ends. */
  method MixFor(api: Api, ghost names: seq<Sample>, ghost w: World, dst: array<Slot>, ghost voices: seq<Option<Voice>>,
                ghost was: map<Sample, (seq<Event>, int)>)
    returns (soundsPlaying: nat)
    requires api.Valid() && api.bucket.locked == 0 && api.Due(voices) && AllFit(voices, dst.Length)
    requires MixedRight(names, w, voices, dst.Length) && api.table == Named(w.s.channels, names)
    requires Named(MixedWorld(w, voices, dst.Length).s.channels, names) == Onwards(api.table, voices, dst.Length)
    requires api.Told(api.table, was) && Recorded(names, w.s, was) && FreedMatch(names, w.s)
    modifies api.bucket`locked, dst, api.owned, api.samples, api`table
    ensures api.Valid() && api.bucket.locked == 0 && api.samples == old(api.samples)
    ensures api.table == Named(MixedWorld(w, voices, dst.Length).s.channels, names)
    ensures var w' := MixedWorld(w, voices, dst.Length);
            forall id | 0 <= id < |names| :: Matches(api, names[id], w'.s.insts[id], w'.places[id])
    ensures soundsPlaying == CountSounding(voices)
    ensures forall k | 0 <= k < dst.Length :: dst[k].Word() == Wrap(0, Sum(voices, k))
  {
    soundsPlaying := api.MixPeriod(dst, voices, was);
    assert voices[..|voices|] == voices;
    AllMatch(api, names, w, voices, dst.Length, was);
  }

  /** The output fills a period as the protocol's io thread lets samples come to their ends.  The period holds
      the sum of what the channels are due, each from where its sample stands, and the samples move on. */
  method MixNext(api: Api, ghost names: seq<Sample>, ghost w: World, dst: array<Slot>, ghost voices: seq<Option<Voice>>)
    returns (soundsPlaying: nat)
    requires Mixable(api, names, w, voices, dst.Length)
    modifies api.bucket`locked, dst, api.owned, api.samples, api`table
    ensures |voices| == |w.s.channels| && AllValid(voices) && soundsPlaying == CountSounding(voices)
    ensures Mirrors(api, names, MixedWorld(w, voices, dst.Length))
    ensures forall k | 0 <= k < dst.Length :: dst[k].Word() == Wrap(0, Sum(voices, k))
  {
    ghost var was := BeforeMixing(api, names, w);
    DueForWorld(api, names, w);
    MixedIsRight(api, names, w, voices, dst.Length);
    soundsPlaying := MixFor(api, names, w, dst, voices, was);
  }

  // ---- the main loop -----------------------------------------------------------------------------------------

  /** Each slot of a period holds the sum of what the voices contribute, modulo 2^16. */
  ghost predicate SumsUp(period: seq<Slot>, voices: seq<Option<Voice>>)
    requires AllValid(voices)
  {
    forall k | 0 <= k < |period| :: period[k].Word() == Wrap(0, Sum(voices, k))
  }

  /** Fill a period from what the channels are due. */
  method FillPeriod(api: Api, ghost names: seq<Sample>, ghost w: World, dst: array<Slot>,
                    ghost voices: seq<Option<Voice>>)
    returns (soundsPlaying: nat)
    requires Protocol.Valid(w.s) && IoFree(w.s) && |names| == |w.s.insts| == |w.places| && InStep(api, names, w)
    requires voices == VoicesFor(w.s.channels, StreamsOf(names), w.places) && AllFit(voices, dst.Length)
    modifies api.bucket`locked, dst, api.owned, names, api`table
    ensures AllValid(voices) && soundsPlaying == CountSounding(voices)
    ensures InStep(api, names, MixedWorld(w, voices, dst.Length))
    ensures SumsUp(dst[..], voices)
  {
    assert Mirrors(api, names, w);
    soundsPlaying := MixNext(api, names, w, dst, voices);
    MixedReaches(w.s, EndedOf(voices, dst.Length));
  }

  /** A turn of the main loop: empty the pipe and, unless that ends the thread, fill a period.  The objects go
      from mirroring `w` to mirroring what the turn makes of it, and the period holds the sum of what the
      channels are due once the messages have taken effect, each from where its sample then stands. */
  method MainLoopTurn(api: Api, ghost names: seq<Sample>, ghost w: World, messages: seq<(Command, Option<Sample>)>,
                      dst: array<Slot>, ghost voices: seq<Option<Voice>>)
    returns (exits: bool, soundsPlaying: nat)
    requires Protocol.Valid(w.s) && IoFree(w.s) && |names| == |w.s.insts| == |w.places| && InStep(api, names, w)
    requires QueueFor(messages, w.s, names)
    requires var v := DrainedWorld(w);
             && voices == VoicesFor(v.s.channels, StreamsOf(names), v.places)
             && (!v.s.exited ==> AllFit(voices, dst.Length))
    modifies api.bucket, api.bucket.items, api, api.owned, names, dst
    ensures exits == DrainedWorld(w).s.exited
    ensures exits ==> InStep(api, names, DrainedWorld(w))
    ensures !exits ==>
              && AllValid(voices) && soundsPlaying == CountSounding(voices)
              && InStep(api, names, MixedWorld(DrainedWorld(w), voices, dst.Length))
              && SumsUp(dst[..], voices)
    ensures fresh(api.owned - old(api.owned))
    ensures api.bucket.items == old(api.bucket.items) || fresh(api.bucket.items)
  {
    soundsPlaying := 0;
    exits := ProcessCmdPipe(api, names, w, messages);
    if !exits {
      soundsPlaying := FillPeriod(api, names, DrainedWorld(w), dst, voices);
    }
  }
}
