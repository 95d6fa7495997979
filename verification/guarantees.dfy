/** What the protocol guarantees in every run: for any number of threads, instances and commands and
    every interleaving.
 */
module Guarantees {
  import opened Events
  import opened ChannelTable
  import opened Commands
  import opened Counting
  import opened Protocol

  /** The state after setup: `threads` client threads, three free channels, nothing opened. */
  ghost function Init(threads: nat): State {
    State([], seq(threads, _ => Idle), [], 0, 0, 0, false, seq(3, _ => Entry(None, Status.Stopped)))
  }

  /** The actions, in order, lead from one state to the other. */
  ghost predicate Leads(s: State, actions: seq<Action>, s': State)
    decreases |actions|
  {
    if actions == [] then s' == s
    else
      && Valid(s) && Enabled(s, actions[0])
      && Leads(Apply(s, actions[0]), actions[1..], s')
  }

  ghost predicate Reaches(s: State, s': State) {
    exists actions :: Leads(s, actions, s')
  }

  lemma LeadsFirst(s: State, a: Action, actions: seq<Action>, s': State)
    requires Valid(s) && Enabled(s, a) && Leads(Apply(s, a), actions, s')
    ensures Leads(s, [a] + actions, s')
  {
    assert ([a] + actions)[1..] == actions;
  }

  lemma FirstOf(a: seq<Action>, b: seq<Action>)
    requires a != []
    ensures a + b == [a[0]] + (a[1..] + b)
  {
  }

  lemma {:induction false} LeadsJoin(s: State, a: seq<Action>, s1: State, b: seq<Action>, s2: State)
    requires Leads(s, a, s1) && Leads(s1, b, s2)
    ensures Leads(s, a + b, s2)
    decreases |a|
  {
    if a == [] {
      assert a + b == b;
    } else {
      LeadsJoin(Apply(s, a[0]), a[1..], s1, b, s2);
      LeadsFirst(s, a[0], a[1..] + b, s2);
      FirstOf(a, b);
    }
  }

  lemma {:induction false} LeadsOneMore(s: State, actions: seq<Action>, s': State, a: Action)
    requires Leads(s, actions, s') && Valid(s') && Enabled(s', a)
    ensures Leads(s, actions + [a], Apply(s', a))
    decreases |actions|
  {
    if actions == [] {
      assert ([a])[1..] == [] && actions + [a] == [a];
    } else {
      LeadsOneMore(Apply(s, actions[0]), actions[1..], s', a);
      LeadsFirst(s, actions[0], actions[1..] + [a], Apply(s', a));
      FirstOf(actions, [a]);
    }
  }

  lemma ReachesItself(s: State)
    ensures Reaches(s, s)
  {
    assert Leads(s, [], s);
  }

  lemma ReachesOn(s: State, s1: State, s2: State)
    requires Reaches(s, s1) && Reaches(s1, s2)
    ensures Reaches(s, s2)
  {
    var a :| Leads(s, a, s1);
    var b :| Leads(s1, b, s2);
    LeadsJoin(s, a, s1, b, s2);
  }

  lemma ReachesOneMore(s: State, s1: State, a: Action)
    requires Reaches(s, s1) && Valid(s1) && Enabled(s1, a)
    ensures Reaches(s, Apply(s1, a))
  {
    var actions :| Leads(s, actions, s1);
    LeadsOneMore(s, actions, s1, a);
  }

  /** A run of the whole system. */
  ghost predicate Run(threads: nat, actions: seq<Action>, s: State) {
    Leads(Init(threads), actions, s)
  }

  lemma InitInv(threads: nat)
    ensures Inv(Init(threads))
  {
  }

  lemma {:induction false} LeadsInv(s: State, actions: seq<Action>, s': State)
    requires Inv(s) && Leads(s, actions, s')
    ensures Inv(s')
    decreases |actions|
  {
    if actions != [] {
      InvKept(s, actions[0]);
      LeadsInv(Apply(s, actions[0]), actions[1..], s');
    }
  }

  lemma RunInv(threads: nat, actions: seq<Action>, s: State)
    requires Run(threads, actions, s)
    ensures Inv(s)
  {
    InitInv(threads);
    LeadsInv(Init(threads), actions, s);
  }

  // ---- the sync barrier ----------------------------------------------------------------------------

  /** When a thread that is in no call on an instance finds the instance's counter at zero, every
      message it has ever written for the instance has been executed.  The io thread executes messages
      in the order they were written, so its commands have taken effect in order. */
  lemma SyncBarrier(threads: nat, actions: seq<Action>, s: State, t: nat, id: nat)
    requires Run(threads, actions, s)
    requires t < |s.threads| && !Busy(s.threads[t], id)
    requires id < |s.insts| && s.insts[id].audioCmdSync == 0
    ensures forall j | 0 <= j < |s.pipe| && s.pipe[j].thread == t && Names(id)(s.pipe[j]) :: j < s.executed
  {
    RunInv(threads, actions, s);
    NoSyncLeft(s, id);
    forall j | 0 <= j < |s.pipe| && s.pipe[j].thread == t && Names(id)(s.pipe[j])
      ensures j < s.executed
    {
      assert Covered(s, j);
    }
  }

  lemma NoSyncLeft(s: State, id: nat)
    requires Inv(s) && id < |s.insts| && s.insts[id].audioCmdSync == 0
    ensures forall k | s.executed <= k < |s.pipe| :: !SyncsOf(id)(s.pipe[k])
    ensures forall t | 0 <= t < |s.threads| :: !InWindow(id)(s.threads[t])
  {
    assert InstanceRight(s, id);
    NoneLeft(s.pipe, s.executed, SyncsOf(id));
    CountNone(s.threads, InWindow(id));
  }

  /** The barrier opens as soon as it may: the counter is never negative, and it is zero exactly when
      no SYNC of the instance is unexecuted or about to be written. */
  lemma BarrierIsExact(threads: nat, actions: seq<Action>, s: State, id: nat)
    requires Run(threads, actions, s) && id < |s.insts|
    ensures 0 <= s.insts[id].audioCmdSync
    ensures s.insts[id].audioCmdSync == 0 <==>
              && (forall k | s.executed <= k < |s.pipe| :: !SyncsOf(id)(s.pipe[k]))
              && (forall t | 0 <= t < |s.threads| :: !InWindow(id)(s.threads[t]))
  {
    RunInv(threads, actions, s);
    assert InstanceRight(s, id);
    NoneLeft(s.pipe, s.executed, SyncsOf(id));
    CountNone(s.threads, InWindow(id));
  }

  // ---- references ------------------------------------------------------------------------------------

  /** Nothing refers to the sample of an instance any more. */
  ghost predicate Unreferenced(s: State, id: nat)
    requires s.released <= |s.pipe| && id < |s.insts|
  {
    && !s.insts[id].open
    && (forall j | 0 <= j < |s.channels| :: s.channels[j].sample != Some(id))
    && (forall j | s.released <= j < |s.pipe| :: !Names(id)(s.pipe[j]))
    && (forall t | 0 <= t < |s.threads| :: !HasRef(id)(s.threads[t]))
  }

  /** A sample's count is the number of things that refer to it; the sample is freed at most once, and
      has been freed exactly when nothing refers to it. */
  lemma FreedExactlyWhenUnreferenced(threads: nat, actions: seq<Action>, s: State, id: nat)
    requires Run(threads, actions, s) && id < |s.insts|
    ensures s.released <= |s.pipe| && s.insts[id].ref == Refs(s, id)
    ensures s.insts[id].frees == if s.insts[id].ref == 0 then 1 else 0
    ensures s.insts[id].frees == 1 <==> Unreferenced(s, id)
  {
    RunInv(threads, actions, s);
    assert InstanceRight(s, id);
    CountNone(s.channels, HoldsIt(id));
    CountNone(s.threads, HasRef(id));
    NoneLeft(s.pipe, s.released, Names(id));
  }

  /** No message from some point on is counted exactly when the count is zero. */
  lemma NoneLeft(pipe: seq<Message>, from: nat, p: Message -> bool)
    requires from <= |pipe|
    ensures Count(pipe[from..], p) == 0 <==> forall j | from <= j < |pipe| :: !p(pipe[j])
  {
    var left := pipe[from..];
    CountNone(left, p);
    assert forall j | from <= j < |pipe| :: pipe[j] == left[j - from];
    assert forall k | 0 <= k < |left| :: left[k] == pipe[from + k];
  }

  /** The instance whose sample an action reads, writes or refers to, if any. */
  ghost function Touches(s: State, a: Action): Option<nat>
    requires Valid(s) && Enabled(s, a)
  {
    match a
    case Begin(_, _, id) => Some(id)
    case Write(t) => Some(s.threads[t].id)
    case BeginSync(t) => Some(s.threads[t].id)
    case WriteSync(t) => Some(s.threads[t].id)
    case CloseInstance(id) => Some(id)
    case Execute => if s.pipe[s.executed].command == Exit then None else Some(s.pipe[s.executed].id)
    case Release => Some(s.pipe[s.released].id)
    case SampleEnds(c) => s.channels[c].sample
    case CloseChannel => s.channels[0].sample
    case _ => None
  }

  /** No step of any run touches a freed sample. */
  lemma NoUseAfterFree(threads: nat, actions: seq<Action>, s: State, a: Action)
    requires Run(threads, actions, s) && Valid(s) && Enabled(s, a)
    requires Touches(s, a).Some?
    ensures var id := Touches(s, a).value; id < |s.insts| && s.insts[id].frees == 0 && 0 < s.insts[id].ref
  {
    RunInv(threads, actions, s);
    var id := Touches(s, a).value;
    FreedExactlyWhenUnreferenced(threads, actions, s, id);
    match a
    case Execute => assert Names(id)(s.pipe[s.executed]);
    case Release => assert Names(id)(s.pipe[s.released]);
    case Write(t) => assert HasRef(id)(s.threads[t]);
    case WriteSync(t) => assert HasRef(id)(s.threads[t]);
    case SampleEnds(c) => assert s.channels[c].sample == Some(id);
    case CloseChannel => assert s.channels[0].sample == Some(id);
    case _ =>
  }

  /** Every step leaves the samples alone that it does not touch: their counts, their events and what their
      instances make of them. */
  lemma OthersUntouched(s: State, a: Action, id: nat)
    requires Valid(s) && Enabled(s, a) && id < |s.insts| && Touches(s, a) != Some(id)
    ensures id < |Apply(s, a).insts|
    ensures var i, i' := s.insts[id], Apply(s, a).insts[id];
            && i'.ref == i.ref && i'.frees == i.frees && i'.events == i.events && i'.late == i.late
            && i'.isPlaying == i.isPlaying && i'.open == i.open
  {
  }

  /** Once the io thread has exited and the channels have been closed, a sample has been freed exactly
      when its handle is closed and no command naming it was left behind unexecuted or unwritten.  In
      particular a shutdown with nothing left behind frees every closed sample, once. */
  lemma ShutdownFrees(threads: nat, actions: seq<Action>, s: State, id: nat)
    requires Run(threads, actions, s) && id < |s.insts|
    requires s.exited && s.channels == []
    ensures s.executed <= |s.pipe|
    ensures s.insts[id].frees == 1 <==>
              && !s.insts[id].open
              && (forall j | s.executed <= j < |s.pipe| :: !Names(id)(s.pipe[j]))
              && (forall t | 0 <= t < |s.threads| :: !HasRef(id)(s.threads[t]))
  {
    RunInv(threads, actions, s);
    assert s.executed == s.released;
    FreedExactlyWhenUnreferenced(threads, actions, s, id);
    if s.insts[id].frees == 1 {
      assert Unreferenced(s, id);
    }
  }

  // ---- events ------------------------------------------------------------------------------------------

  /** The events an instance is sent are, SYNCs aside, a strict alternation of starts and stops; and
      until the io thread exits its flag says whether some channel is playing or looping its sample. */
  lemma EventDiscipline(threads: nat, actions: seq<Action>, s: State, id: nat)
    requires Run(threads, actions, s) && id < |s.insts|
    ensures var marks := Marks(s.insts[id].events);
            forall k | 0 <= k < |marks| :: marks[k] == if k % 2 == 0 then Started else Event.Stopped
    ensures !s.exited ==> (s.insts[id].isPlaying <==> Sounds(s.channels, id))
  {
    RunInv(threads, actions, s);
    assert InstanceRight(s, id);
    UnbrokenAlternates(s.insts[id].events);
  }

  // ---- channels ------------------------------------------------------------------------------------------

  /** No two channels ever hold the same sample, a channel without a sample is stopped, and until the io
      thread exits a sample is on a channel exactly when the last command executed for it is a play or a
      loop. */
  lemma ChannelDiscipline(threads: nat, actions: seq<Action>, s: State, id: nat)
    requires Run(threads, actions, s) && id < |s.insts|
    ensures WellFormed(s.channels)
    ensures s.executed <= |s.pipe|
    ensures !s.exited ==> (Holds(s.channels, id) <==> Wants(s.pipe[..s.executed], id))
  {
    RunInv(threads, actions, s);
    assert InstanceRight(s, id);
  }
}
