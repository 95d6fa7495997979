/** What the protocol can always still do: calls complete, counters come down to zero, and a shutdown gives
    everything back.
 */
module Progress {
  import opened Events
  import opened ChannelTable
  import opened Commands
  import opened Counting
  import opened Protocol
  import opened Guarantees
  import opened Turns

  // ---- a client's call -------------------------------------------------------------------------------------

  /** The steps of a call to play, loop or stop. */
  function Call(t: nat, c: Command, id: nat): seq<Action> {
    [Begin(t, c, id), Write(t), Raise(t), BeginSync(t), WriteSync(t)]
  }

  /** What a call makes of a state: the command and a SYNC are on the pipe, a reference is held for each, and
      the counter is raised. */
  function Called(s: State, t: nat, c: Command, id: nat): State
    requires id < |s.insts|
  {
    var i := s.insts[id];
    s.(pipe := s.pipe + [Message(c, id, t), Message(Command.Sync, id, t)],
       insts := s.insts[id := i.(ref := i.ref + 2, audioCmdSync := i.audioCmdSync + 1)])
  }

  /** The command is written, ... */
  function Written(s: State, t: nat, c: Command, id: nat): State
    requires t < |s.threads| && id < |s.insts|
  {
    s.(pipe := s.pipe + [Message(c, id, t)], threads := s.threads[t := Sent(id)],
       insts := s.insts[id := AddRef(s.insts[id])])
  }

  lemma CallBegins(s: State, t: nat, c: Command, id: nat)
    requires Valid(s) && Enabled(s, Begin(t, c, id))
    ensures Leads(s, [Begin(t, c, id), Write(t)], Written(s, t, c, id))
  {
    ValidKept(s, Begin(t, c, id));
    var s1 := Apply(s, Begin(t, c, id));
    ValidKept(s1, Write(t));
    var s2 := Apply(s1, Write(t));
    assert s2.threads == s.threads[t := Sent(id)];
    LeadsFirst(s1, Write(t), [], s2);
    LeadsFirst(s, Begin(t, c, id), [Write(t)], s2);
  }

  /** ... the counter is raised, and a reference taken for the SYNC, ... */
  function AboutToSync(s: State, t: nat, id: nat): State
    requires t < |s.threads| && id < |s.insts|
  {
    var i := s.insts[id];
    s.(threads := s.threads[t := SendingSync(id)],
       insts := s.insts[id := i.(ref := i.ref + 1, audioCmdSync := i.audioCmdSync + 1)])
  }

  lemma RaiseThenRef(s: State, t: nat, id: nat)
    requires Valid(s) && t < |s.threads| && s.threads[t] == Sent(id) && id < |s.insts|
    ensures var s1 := Apply(s, Raise(t));
            Valid(s1) && Enabled(s1, BeginSync(t)) && Apply(s1, BeginSync(t)) == AboutToSync(s, t, id)
  {
    ValidKept(s, Raise(t));
    var s2 := Apply(Apply(s, Raise(t)), BeginSync(t));
    assert s2.threads == s.threads[t := SendingSync(id)];
    assert s2.insts == AboutToSync(s, t, id).insts;
  }

  lemma CallRaises(s: State, t: nat, id: nat)
    requires Valid(s) && t < |s.threads| && s.threads[t] == Sent(id) && id < |s.insts|
    ensures Leads(s, [Raise(t), BeginSync(t)], AboutToSync(s, t, id))
  {
    RaiseThenRef(s, t, id);
    var s1, s2 := Apply(s, Raise(t)), AboutToSync(s, t, id);
    LeadsFirst(s1, BeginSync(t), [], s2);
    LeadsFirst(s, Raise(t), [BeginSync(t)], s2);
  }

  /** ... which is written. */
  lemma CallSyncs(s: State, t: nat, id: nat)
    requires Valid(s) && t < |s.threads| && s.threads[t] == SendingSync(id)
    ensures Leads(s, [WriteSync(t)],
                  s.(pipe := s.pipe + [Message(Command.Sync, id, t)], threads := s.threads[t := Idle]))
  {
    ValidKept(s, WriteSync(t));
    LeadsFirst(s, WriteSync(t), [], Apply(s, WriteSync(t)));
  }

  lemma CalledIs(s: State, t: nat, c: Command, id: nat)
    requires t < |s.threads| && s.threads[t] == Idle && id < |s.insts|
    ensures var s2 := AboutToSync(Written(s, t, c, id), t, id);
            Called(s, t, c, id) ==
            s2.(pipe := s2.pipe + [Message(Command.Sync, id, t)], threads := s2.threads[t := Idle])
  {
    var s2 := AboutToSync(Written(s, t, c, id), t, id);
    assert s2.threads[t := Idle] == s.threads;
    assert s2.pipe + [Message(Command.Sync, id, t)] == Called(s, t, c, id).pipe;
    assert s2.insts == Called(s, t, c, id).insts;
  }

  lemma CallIsAboutToSync(s: State, t: nat, c: Command, id: nat)
    requires Valid(s) && Enabled(s, Begin(t, c, id))
    ensures var s2 := AboutToSync(Written(s, t, c, id), t, id);
            Valid(s2) && Leads(s, [Begin(t, c, id), Write(t)] + [Raise(t), BeginSync(t)], s2)
  {
    var a, b := [Begin(t, c, id), Write(t)], [Raise(t), BeginSync(t)];
    var s1 := Written(s, t, c, id);
    CallBegins(s, t, c, id);
    LeadsValid(s, a, s1);
    CallRaises(s1, t, id);
    LeadsValid(s1, b, AboutToSync(s1, t, id));
    LeadsJoin(s, a, s1, b, AboutToSync(s1, t, id));
  }

  lemma CallEnds(s: State, s2: State, t: nat, c: Command, id: nat)
    requires t < |s.threads| && s.threads[t] == Idle && id < |s.insts|
    requires s2 == AboutToSync(Written(s, t, c, id), t, id) && Valid(s2)
    ensures Leads(s2, [WriteSync(t)], Called(s, t, c, id))
  {
    CallSyncs(s2, t, id);
    CalledIs(s, t, c, id);
  }

  /** In any state a thread that is idle can call play, loop or stop on an open instance and complete the call,
      whatever the others and the io thread are doing. */
  lemma CallCompletes(s: State, t: nat, c: Command, id: nat)
    requires Valid(s) && t < |s.threads| && s.threads[t] == Idle
    requires id < |s.insts| && s.insts[id].open && c in {Play, Loop, Stop}
    ensures Leads(s, Call(t, c, id), Called(s, t, c, id))
  {
    var a, s2 := [Begin(t, c, id), Write(t)] + [Raise(t), BeginSync(t)], AboutToSync(Written(s, t, c, id), t, id);
    CallIsAboutToSync(s, t, c, id);
    CallEnds(s, s2, t, c, id);
    CallInParts(t, c, id);
    LeadsJoin(s, a, s2, [WriteSync(t)], Called(s, t, c, id));
  }

  lemma CallInParts(t: nat, c: Command, id: nat)
    ensures Call(t, c, id) == [Begin(t, c, id), Write(t)] + [Raise(t), BeginSync(t)] + [WriteSync(t)]
  {
  }

  lemma {:induction false} LeadsValid(s: State, actions: seq<Action>, s': State)
    requires Valid(s) && Leads(s, actions, s')
    ensures Valid(s')
    decreases |actions|
  {
    if actions != [] {
      ValidKept(s, actions[0]);
      LeadsValid(Apply(s, actions[0]), actions[1..], s');
    }
  }

  /** An instance can be opened in any state, ... */
  lemma OpenCompletes(s: State)
    requires Valid(s)
    ensures Leads(s, [Open], s.(insts := s.insts + [Instance(true, 0, false, [], 0, 1, 0)]))
  {
    LeadsFirst(s, Open, [], Apply(s, Open));
  }

  /** ... closed when nobody is in a call on it, whatever is going on elsewhere, ... */
  lemma CloseCompletes(s: State, id: nat)
    requires Valid(s) && id < |s.insts| && s.insts[id].open
    requires forall t | 0 <= t < |s.threads| && s.threads[t] != Idle :: s.threads[t].id != id
    ensures var i := s.insts[id];
            Leads(s, [CloseInstance(id)],
                  s.(insts := s.insts[id := i.(open := false, ref := i.ref - 1,
                                               frees := if i.ref == 1 then i.frees + 1 else i.frees)]))
  {
    LeadsFirst(s, CloseInstance(id), [], Apply(s, CloseInstance(id)));
  }

  /** ... and an EXIT be put on the pipe at any time. */
  lemma ExitIsSent(s: State)
    requires Valid(s)
    ensures Leads(s, [Shutdown], s.(pipe := s.pipe + [Message(Exit, 0, 0)]))
  {
    LeadsFirst(s, Shutdown, [], Apply(s, Shutdown));
  }

  // ---- threads finish their calls ------------------------------------------------------------------------------

  /** Only the threads have moved: what is on the channels and who is open is as before, and the messages they
      have written are no EXITs. */
  ghost predicate ThreadsMoved(s: State, s': State) {
    && s'.channels == s.channels && s'.exited == s.exited
    && s'.taken == s.taken && s'.executed == s.executed && s'.released == s.released
    && |s'.threads| == |s.threads| && SameHandles(s, s')
    && |s.pipe| <= |s'.pipe| && s'.pipe[..|s.pipe|] == s.pipe
    && forall j | |s.pipe| <= j < |s'.pipe| :: s'.pipe[j].command != Exit
  }

  ghost predicate SameHandles(s: State, s': State) {
    |s'.insts| == |s.insts| && forall id | 0 <= id < |s.insts| :: s'.insts[id].open == s.insts[id].open
  }

  /** What a thread inside a call does next. */
  function NextStep(s: State, t: nat): Action
    requires t < |s.threads| && s.threads[t] != Idle
  {
    match s.threads[t]
    case Sending(_, _) => Write(t)
    case Sent(_) => Raise(t)
    case Raised(_) => BeginSync(t)
    case _ => WriteSync(t)
  }

  function StepsLeft(t: Thread): nat {
    match t
    case Idle => 0
    case Sending(_, _) => 4
    case Sent(_) => 3
    case Raised(_) => 2
    case SendingSync(_) => 1
  }

  lemma ThreadSteps(s: State, t: nat)
    requires Valid(s) && t < |s.threads| && s.threads[t] != Idle
    ensures Enabled(s, NextStep(s, t))
    ensures var s' := Apply(s, NextStep(s, t));
            && ThreadsMoved(s, s') && StepsLeft(s'.threads[t]) < StepsLeft(s.threads[t])
            && forall u | 0 <= u < |s.threads| && u != t :: s'.threads[u] == s.threads[u]
  {
  }

  lemma {:induction false} ThreadFinishes(s: State, t: nat) returns (s': State)
    requires Inv(s) && t < |s.threads|
    ensures Inv(s') && Reaches(s, s') && ThreadsMoved(s, s') && s'.threads == s.threads[t := Idle]
    decreases StepsLeft(s.threads[t])
  {
    if s.threads[t] == Idle {
      ReachesItself(s);
      s' := s;
    } else {
      var a := NextStep(s, t);
      ThreadSteps(s, t);
      InvKept(s, a);
      var s1 := Apply(s, a);
      s' := ThreadFinishes(s1, t);
      ReachesItself(s);
      ReachesOneMore(s, s, a);
      ReachesOn(s, s1, s');
      MovedOn(s, s1, s');
      assert s'.threads == s.threads[t := Idle];
    }
  }

  lemma MovedOn(s: State, s1: State, s2: State)
    requires ThreadsMoved(s, s1) && ThreadsMoved(s1, s2)
    ensures ThreadsMoved(s, s2)
  {
    assert s2.pipe[..|s.pipe|] == s2.pipe[..|s1.pipe|][..|s.pipe|];
    forall j | |s.pipe| <= j < |s2.pipe|
      ensures s2.pipe[j].command != Exit
    {
      if j < |s1.pipe| {
        assert s2.pipe[j] == s2.pipe[..|s1.pipe|][j];
      }
    }
  }

  lemma {:induction false} ThreadsFinish(s: State, n: nat) returns (s': State)
    requires Inv(s) && n <= |s.threads|
    ensures Inv(s') && Reaches(s, s') && ThreadsMoved(s, s')
    ensures forall t | 0 <= t < n :: s'.threads[t] == Idle
  {
    if n == 0 {
      ReachesItself(s);
      s' := s;
    } else {
      var s1 := ThreadsFinish(s, n - 1);
      s' := ThreadFinishes(s1, n - 1);
      ReachesOn(s, s1, s');
      MovedOn(s, s1, s');
    }
  }

  // ---- the io thread catches up ------------------------------------------------------------------------------------

  /** The io thread is running and no EXIT is on its way. */
  ghost predicate Lasting(s: State) {
    !s.exited && forall j | s.executed <= j < |s.pipe| :: s.pipe[j].command != Exit
  }

  /** The io thread completes the message in its hands. */
  lemma IoFinishes(s: State) returns (s': State)
    requires Inv(s) && Lasting(s)
    ensures Inv(s') && Reaches(s, s') && Lasting(s') && IoFree(s')
    ensures s'.threads == s.threads && SameHandles(s, s')
  {
    s' := s;
    ReachesItself(s);
    if s.executed < s.taken {
      InvKept(s, Execute);
      ExecuteKeepsHandles(s);
      ReachesOneMore(s, s, Execute);
      s' := Apply(s, Execute);
    }
    if s'.released < s'.executed {
      InvKept(s', Release);
      ReachesOneMore(s, s', Release);
      s' := Apply(s', Release);
    }
  }

  lemma ExecuteKeepsHandles(s: State)
    requires Valid(s) && Enabled(s, Execute)
    ensures SameHandles(s, Apply(s, Execute))
  {
    var m := s.pipe[s.executed];
    if m.command != Exit {
      DeliveredRefs(s.insts[m.id], EventsOf(m.command, Sounds(s.channels, m.id)));
    }
  }

  lemma NextKeepsHandles(s: State)
    requires Valid(s) && IoFree(s) && s.taken < |s.pipe|
    ensures SameHandles(s, NextMessage(s)) && NextMessage(s).threads == s.threads
  {
    ValidKept(s, Take);
    ExecuteKeepsHandles(Apply(s, Take));
  }

  lemma {:induction false} DrainedKeepsHandles(s: State)
    requires Valid(s) && IoFree(s)
    ensures SameHandles(s, Drained(s)) && Drained(s).threads == s.threads
    ensures Lasting(s) ==> Lasting(Drained(s))
    decreases |s.pipe| - s.taken
  {
    if s.taken < |s.pipe| {
      NextKeepsHandles(s);
      if s.pipe[s.taken].command != Exit {
        DrainedKeepsHandles(NextMessage(s));
      }
    }
  }

  /** Nobody is inside a call, and every message has been dealt with. */
  ghost predicate AtRest(s: State) {
    && IoFree(s) && s.taken == |s.pipe|
    && forall t | 0 <= t < |s.threads| :: s.threads[t] == Idle
  }

  lemma CountersAtRest(s: State, id: nat)
    requires Inv(s) && AtRest(s) && id < |s.insts|
    ensures s.insts[id].audioCmdSync == 0
    ensures s.insts[id].isPlaying <==> Sounds(s.channels, id)
    ensures s.insts[id].ref == (if s.insts[id].open then 1 else 0) + (if Holds(s.channels, id) then 1 else 0)
  {
    assert InstanceRight(s, id);
    CountNone(s.pipe[s.executed..], SyncsOf(id));
    CountNone(s.threads, InWindow(id));
    CountNone(s.pipe[s.released..], Names(id));
    CountNone(s.threads, HasRef(id));
    CountHeld(s.channels, id);
    UnbrokenAlternates(s.insts[id].events);
  }

  /** Nobody gets stuck.  From every state of a run with no EXIT on its way the threads can complete their calls
      and the io thread their messages, and then every counter is zero and every wait for it over. */
  lemma BarrierOpens(threads: nat, actions: seq<Action>, s: State) returns (s': State)
    requires Run(threads, actions, s) && Lasting(s)
    ensures Inv(s') && Reaches(s, s') && SameHandles(s, s') && AtRest(s')
    ensures forall id | 0 <= id < |s'.insts| :: s'.insts[id].audioCmdSync == 0
  {
    RunInv(threads, actions, s);
    s' := ComesToRest(s);
    forall id | 0 <= id < |s'.insts|
      ensures s'.insts[id].audioCmdSync == 0
    {
      CountersAtRest(s', id);
    }
  }

  lemma ComesToRest(s: State) returns (s': State)
    requires Inv(s) && Lasting(s)
    ensures Inv(s') && Reaches(s, s') && SameHandles(s, s') && AtRest(s')
  {
    var s1 := IoFinishes(s);
    var s2 := ThreadsFinish(s1, |s1.threads|);
    assert forall j | 0 <= j < |s1.pipe| :: s2.pipe[j] == s2.pipe[..|s1.pipe|][j];
    DrainedLeads(s2);
    DrainedKeepsHandles(s2);
    s' := Drained(s2);
    ReachesOn(s, s1, s2);
    ReachesOn(s, s2, s');
  }

  /** A call made at rest takes effect: once the io thread has caught up, the table is what the command makes of
      it, the instance has been sent the command's events and a SYNC, and its flag and counter say so. */
  lemma CallTakesEffect(s: State, t: nat, c: Command, id: nat) returns (s': State)
    requires Inv(s) && AtRest(s) && t < |s.threads|
    requires id < |s.insts| && s.insts[id].open && c in {Play, Loop, Stop}
    ensures Inv(s') && Reaches(s, s') && AtRest(s') && SameHandles(s, s')
    ensures s'.channels == Effect(s.channels, c, id)
    ensures s'.insts[id].events == s.insts[id].events + EventsOf(c, Sounds(s.channels, id)) + [Event.Sync]
    ensures s'.insts[id].audioCmdSync == 0
    ensures s'.insts[id].isPlaying <==> c in {Play, Loop}
  {
    CallCompletes(s, t, c, id);
    var s1 := Called(s, t, c, id);
    LeadsInv(s, Call(t, c, id), s1);
    assert Reaches(s, s1);
    s' := Drained(s1);
    DrainedLeads(s1);
    ReachesOn(s, s1, s');
    CallDrained(s, s1, t, c, id);
    CountersAtRest(s', id);
    EffectKeeps(s.channels, c, id);
  }

  lemma CalledKeepsHandles(s: State, t: nat, c: Command, id: nat)
    requires AtRest(s) && id < |s.insts| && c in {Play, Loop, Stop} && Valid(Called(s, t, c, id))
    ensures var s1 := Called(s, t, c, id);
            SameHandles(s, s1) && IoFree(s1) && Lasting(s1) && s1.threads == s.threads
  {
  }

  lemma CallDrained(s: State, s1: State, t: nat, c: Command, id: nat)
    requires AtRest(s) && id < |s.insts| && c in {Play, Loop, Stop} && s1 == Called(s, t, c, id) && Valid(s1)
    ensures var s' := Drained(s1);
            && AtRest(s') && SameHandles(s, s') && s'.channels == Effect(s.channels, c, id)
            && s'.insts[id].events == s.insts[id].events + EventsOf(c, Sounds(s.channels, id)) + [Event.Sync]
  {
    CalledKeepsHandles(s, t, c, id);
    DrainedKeepsHandles(s1);
    CallFolds(s, s1, Drained(s1), t, c, id);
  }

  lemma CallFolds(s: State, s1: State, s': State, t: nat, c: Command, id: nat)
    requires AtRest(s) && id < |s.insts| && c in {Play, Loop, Stop} && s1 == Called(s, t, c, id)
    requires Valid(s1) && s' == Drained(s1)
    ensures s'.channels == Effect(s.channels, c, id)
    ensures s'.insts[id].events == s.insts[id].events + EventsOf(c, Sounds(s.channels, id)) + [Event.Sync]
  {
    DrainedIsFold(s1, id);
    TwoMessages(s1.channels, s1.pipe, s1.taken, c, id);
    EventsOnAndOn(s.insts[id].events, EventsOf(c, Sounds(s.channels, id)), [Event.Sync]);
  }

  /** What a command and its SYNC come to. */
  lemma TwoMessages(table: seq<Entry<nat>>, pipe: seq<Message>, from: nat, c: Command, id: nat)
    requires from + 2 == |pipe| && c in {Play, Loop, Stop}
    requires pipe[from].command == c && pipe[from].id == id
    requires pipe[from + 1].command == Command.Sync && pipe[from + 1].id == id
    ensures EffectFrom(table, pipe, from) == Effect(table, c, id)
    ensures EventsFrom(table, pipe, from, id) == EventsOf(c, Sounds(table, id)) + [Event.Sync]
  {
    var table' := Effect(table, c, id);
    assert EffectFrom(table', pipe, from + 2) == table' && EventsFrom(table', pipe, from + 2, id) == [];
    assert EffectFrom(table', pipe, from + 1) == table';
    assert EventsFrom(table', pipe, from + 1, id) == [Event.Sync] + [];
  }

  // ---- shutdown --------------------------

  function Closings(n: nat): (r: seq<Action>)
    ensures |r| == n && forall k | 0 <= k < n :: r[k] == CloseChannel
  {
    seq(n, _ => CloseChannel)
  }

  /** What remains the same when the channels are closed. */
  ghost predicate ChannelsClosed(s: State, s': State) {
    && s'.channels == [] && s'.pipe == s.pipe && s'.threads == s.threads && s'.exited
    && s'.executed == s.executed && SameHandles(s, s')
  }

  lemma {:induction false} ChannelsClose(s: State) returns (s': State)
    requires Inv(s) && s.exited
    ensures Inv(s') && Leads(s, Closings(|s.channels|), s') && ChannelsClosed(s, s')
    decreases |s.channels|
  {
    if s.channels == [] {
      s' := s;
      assert Closings(0) == [];
    } else {
      InvKept(s, CloseChannel);
      var s1 := Apply(s, CloseChannel);
      s' := ChannelsClose(s1);
      LeadsFirst(s, CloseChannel, Closings(|s1.channels|), s');
      assert Closings(|s.channels|) == [CloseChannel] + Closings(|s1.channels|);
    }
  }

  /** Nothing that is left behind refers to the sample of an instance. */
  ghost predicate Unnamed(s: State, id: nat)
    requires s.executed <= |s.pipe| && id < |s.insts|
  {
    && !s.insts[id].open
    && (forall j | s.executed <= j < |s.pipe| :: !Names(id)(s.pipe[j]))
    && (forall t | 0 <= t < |s.threads| :: !HasRef(id)(s.threads[t]))
  }

  /** Once the io thread has exited, closing the channels one by one closes them all, and then a sample has been
      freed exactly when its handle is closed and no command naming it was left behind. */
  lemma ShutdownCompletes(threads: nat, actions: seq<Action>, s: State) returns (s': State)
    requires Run(threads, actions, s) && s.exited
    ensures Leads(s, Closings(|s.channels|), s') && ChannelsClosed(s, s')
    ensures s.executed <= |s.pipe|
    ensures forall id | 0 <= id < |s.insts| :: s'.insts[id].frees == 1 <==> Unnamed(s, id)
  {
    RunInv(threads, actions, s);
    s' := ChannelsClose(s);
    LeadsJoin(Init(threads), actions, s, Closings(|s.channels|), s');
    forall id | 0 <= id < |s.insts|
      ensures s'.insts[id].frees == 1 <==> Unnamed(s, id)
    {
      ShutdownFrees(threads, actions + Closings(|s.channels|), s', id);
    }
  }

  lemma {:induction false} HandlesClose(s: State, n: nat) returns (s': State)
    requires Inv(s) && AtRest(s) && n <= |s.insts|
    ensures Inv(s') && Reaches(s, s') && AtRest(s') && |s'.insts| == |s.insts|
    ensures forall id | 0 <= id < n :: !s'.insts[id].open
  {
    if n == 0 {
      ReachesItself(s);
      s' := s;
    } else {
      s' := HandlesClose(s, n - 1);
      if s'.insts[n - 1].open {
        InvKept(s', CloseInstance(n - 1));
        ReachesOneMore(s, s', CloseInstance(n - 1));
        s' := Apply(s', CloseInstance(n - 1));
      }
    }
  }

  /** The io thread is told to exit, and does. */
  lemma IoExits(s: State) returns (s': State)
    requires Inv(s) && AtRest(s)
    ensures Inv(s') && Reaches(s, s') && s'.exited && s'.executed == |s'.pipe|
    ensures s'.threads == s.threads && SameHandles(s, s')
  {
    InvKept(s, Shutdown);
    var s1 := Apply(s, Shutdown);
    InvKept(s1, Take);
    var s2 := Apply(s1, Take);
    InvKept(s2, Execute);
    s' := Apply(s2, Execute);
    ReachesItself(s);
    ReachesOneMore(s, s, Shutdown);
    ReachesOneMore(s, s1, Take);
    ReachesOneMore(s, s2, Execute);
  }

  /** Nothing ever leaks for good: from every state of a run with no EXIT on its way, completing the calls, closing
      the handles and shutting down frees every sample ever opened. */
  lemma AllCanBeFreed(threads: nat, actions: seq<Action>, s: State) returns (s': State)
    requires Run(threads, actions, s) && Lasting(s)
    ensures Reaches(s, s') && |s'.insts| == |s.insts| && s'.channels == []
    ensures forall id | 0 <= id < |s'.insts| :: s'.insts[id].frees == 1
  {
    RunInv(threads, actions, s);
    var s1 := ComesToRest(s);
    var s2 := HandlesClose(s1, |s1.insts|);
    var s3 := IoExits(s2);
    s' := ChannelsClose(s3);
    assert Reaches(s3, s');
    ReachesOn(s, s1, s2);
    ReachesOn(s, s2, s3);
    ReachesOn(s, s3, s');
    forall id | 0 <= id < |s'.insts|
      ensures s'.insts[id].frees == 1
    {
      FreedWhenClosed(s', id);
    }
  }

  lemma FreedWhenClosed(s: State, id: nat)
    requires Inv(s) && s.exited && s.channels == [] && s.executed == |s.pipe|
    requires id < |s.insts| && !s.insts[id].open && forall t | 0 <= t < |s.threads| :: s.threads[t] == Idle
    ensures s.insts[id].frees == 1
  {
    assert InstanceRight(s, id);
    CountNone(s.channels, HoldsIt(id));
    CountNone(s.pipe[s.released..], Names(id));
    CountNone(s.threads, HasRef(id));
  }
}
