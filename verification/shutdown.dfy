/** The end of a shutdown on the objects: once the io thread has exited the channels are closed, each giving its
    sample's reference up, as the protocol's CloseChannel steps do.
 */
module Shutdown {
  import opened Events
  import opened S5Prom
  import opened ChannelTable
  import opened Channels
  import opened EmbeddedApi
  import opened Commands
  import opened Counting
  import opened Protocol
  import opened Guarantees
  import opened Turns
  import opened Refinement
  import opened Progress

  /** The first `i` channels have been closed, and the others hold what table `t` says; the samples are as the
      protocol has them in state `s`. */
  ghost predicate ClosedUpTo(api: Api, names: seq<Sample>, t: seq<Entry<nat>>, s: State, i: nat)
    reads api`channels, api.channels, api.bucket`items, api.bucket.items, names
  {
    && |names| == |s.insts| && Distinct(names) && InRange(t, |names|)
    && i <= |t| == |api.channels| <= api.bucket.items.Length && s.channels == t[i..]
    && (forall j | 0 <= j < |t| :: api.channels[j].index == j)
    && (forall j | 0 <= j < i :: api.bucket.items[j] == None)
    && (forall j | i <= j < |t| ::
          && api.bucket.items[j] == Some(api.channels[j])
          && api.channels[j].sample == NamedEntry(t[j], names).sample)
    && forall id | 0 <= id < |names| ::
         names[id].ref == s.insts[id].ref && names[id].events == s.insts[id].events
  }

  /** Closing channels leaves pipe, threads and handles alone. */
  ghost predicate SoFarClosed(s: State, s': State) {
    && s'.pipe == s.pipe && s'.threads == s.threads && s'.exited && s'.executed == s.executed
    && SameHandles(s, s')
  }

  /** A sample that is on a channel is alive. */
  lemma HeldIsAlive(s: State)
    requires Inv(s) && s.channels != [] && s.channels[0].sample.Some?
    ensures var id := s.channels[0].sample.value; id < |s.insts| && 0 < s.insts[id].ref
  {
    var id := s.channels[0].sample.value;
    assert InstanceRight(s, id);
    CountNone(s.channels, HoldsIt(id));
  }

  /** One channel is closed, and its slot cleared. */
  method CloseOne(api: Api, ghost names: seq<Sample>, ghost t: seq<Entry<nat>>, ghost s: State, i: nat)
    requires Inv(s) && s.exited && ClosedUpTo(api, names, t, s, i) && i < |t|
    modifies api.bucket.items, api.channels[i], names
    ensures ClosedUpTo(api, names, t, Apply(s, CloseChannel), i + 1)
  {
    if s.channels[0].sample.Some? {
      HeldIsAlive(s);
    }
    var c := api.bucket.items[i].value;
    c.Close();
    api.bucket.items[i] := None;
  }

  /** ... which is a step of the protocol. */
  method CloseNextOne(api: Api, ghost names: seq<Sample>, ghost s: State, ghost s1: State, i: nat)
    returns (ghost s': State)
    requires Inv(s1) && Leads(s, Closings(i), s1) && SoFarClosed(s, s1)
    requires ClosedUpTo(api, names, s.channels, s1, i) && i < |s.channels|
    modifies api.bucket.items, api.channels[i], names
    ensures Inv(s') && Leads(s, Closings(i + 1), s') && SoFarClosed(s, s')
    ensures ClosedUpTo(api, names, s.channels, s', i + 1)
  {
    CloseOne(api, names, s.channels, s1, i);
    s' := ClosesOneMore(s, s1, i);
  }

  lemma ClosesOneMore(s: State, s1: State, i: nat) returns (s': State)
    requires Inv(s1) && Leads(s, Closings(i), s1) && SoFarClosed(s, s1) && s1.channels != []
    ensures s' == Apply(s1, CloseChannel) && Inv(s') && Leads(s, Closings(i + 1), s') && SoFarClosed(s, s')
  {
    InvKept(s1, CloseChannel);
    LeadsOneMore(s, Closings(i), s1, CloseChannel);
    assert Closings(i) + [CloseChannel] == Closings(i + 1);
    s' := Apply(s1, CloseChannel);
  }

  method CloseEach(api: Api, ghost names: seq<Sample>, ghost s: State, length: int) returns (ghost s': State)
    requires Inv(s) && s.exited && ClosedUpTo(api, names, s.channels, s, 0) && length == |s.channels|
    modifies api.bucket.items, api.channels, names
    ensures Inv(s') && Leads(s, Closings(|s.channels|), s') && ChannelsClosed(s, s')
    ensures ClosedUpTo(api, names, s.channels, s', |s.channels|)
  {
    var i := 0;
    s' := s;
    while i < length
      invariant 0 <= i <= length
      invariant Inv(s') && Leads(s, Closings(i), s') && SoFarClosed(s, s')
      invariant ClosedUpTo(api, names, s.channels, s', i)
    {
      s' := CloseNextOne(api, names, s, s', i);
      i := i + 1;
    }
  }

  lemma AliveUnlessUnnamed(s: State, s': State, id: nat)
    requires Inv(s) && Inv(s') && ChannelsClosed(s, s') && id < |s.insts|
    ensures s'.insts[id].ref == 0 <==> Unnamed(s, id)
  {
    assert InstanceRight(s', id);
    CountNone(s'.channels, HoldsIt(id));
    CountNone(s'.threads, HasRef(id));
    NoneLeft(s'.pipe, s'.released, Names(id));
  }

  lemma AllUnlessUnnamed(s: State, s': State)
    requires Inv(s) && Inv(s') && ChannelsClosed(s, s')
    ensures forall id | 0 <= id < |s.insts| :: s'.insts[id].ref == 0 <==> Unnamed(s, id)
  {
    forall id | 0 <= id < |s.insts|
      ensures s'.insts[id].ref == 0 <==> Unnamed(s, id)
    {
      AliveUnlessUnnamed(s, s', id);
    }
  }

  lemma NoneClosedYet(api: Api, names: seq<Sample>, w: World)
    requires InStep(api, names, w)
    ensures Inv(w.s) && |names| == |w.s.insts| && ClosedUpTo(api, names, w.s.channels, w.s, 0)
    ensures api.bucket.locked == 0 && api.bucket.nOutputsUsed == |w.s.channels|
  {
    assert Mirrors(api, names, w);
    forall id | 0 <= id < |names|
      ensures names[id].ref == w.s.insts[id].ref && names[id].events == w.s.insts[id].events
    {
      assert Matches(api, names[id], w.s.insts[id], w.places[id]);
    }
    forall j | 0 <= j < |w.s.channels|
      ensures api.channels[j].sample == NamedEntry(w.s.channels[j], names).sample
    {
      assert api.table[j] == NamedEntry(w.s.channels[j], names);
    }
  }

  /** close_all_channels, at shutdown.  The objects follow the protocol's steps to a state without channels, and
      then a sample has been freed exactly when its handle is closed and no command naming it was left behind. */
  method CloseAllChannels(api: Api, ghost names: seq<Sample>, ghost w: World) returns (ghost s': State)
    requires Protocol.Valid(w.s) && |names| == |w.s.insts| && InStep(api, names, w) && w.s.exited
    modifies api.bucket`locked, api.bucket.items, api.channels, names
    ensures Leads(w.s, Closings(|w.s.channels|), s') && ChannelsClosed(w.s, s')
    ensures forall id | 0 <= id < |names| ::
              && names[id].ref == s'.insts[id].ref && names[id].events == s'.insts[id].events
              && (names[id].ref == 0 <==> Unnamed(w.s, id))
    ensures api.bucket.locked == 0
  {
    NoneClosedYet(api, names, w);
    var l, list, length := api.bucket.LockItems();
    s' := CloseEach(api, names, w.s, length);
    var _ := api.bucket.Unlock();
    AllUnlessUnnamed(w.s, s');
  }
}
