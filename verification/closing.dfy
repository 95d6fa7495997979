/** When closing an instance is safe: the callback of a closed instance must not be called any more. */
module Closing {
  import opened Events
  import opened ChannelTable
  import opened Commands
  import opened Counting
  import opened Protocol
  import opened Guarantees

  /** What the io thread will do with the messages, and with a channel of the given status, sends the
      instance nothing: the channel is not playing towards an end, and as far as the next EXIT every
      message is for another instance or has no event to deliver.  While a message is in hand no sample
      comes to its end. */
  ghost predicate Mute(messages: seq<Message>, id: nat, status: Status, inHand: bool)
    decreases |messages|
  {
    && (inHand || status != Playing)
    && (messages == []
        || var m, rest := messages[0], messages[1..];
           || m.command == Exit
           || (!Names(id)(m) && Mute(rest, id, status, false))
           || (m.id == id && EventsOf(m.command, status != Status.Stopped) == []
               && Mute(rest, id, StatusAfter(m.command, status), false)))
  }

  ghost predicate Quiet(s: State, id: nat)
    requires s.executed <= |s.pipe|
  {
    s.exited || Mute(s.pipe[s.executed..], id, StatusOf(s.channels, id), s.executed < s.taken)
  }

  /** The instance has been closed. */
  ghost predicate Closed(s: State, id: nat) {
    && id < |s.insts| && !s.insts[id].open
    && forall t | 0 <= t < |s.threads| :: !Busy(s.threads[t], id)
  }

  /** Whatever happens, the instance is sent nothing any more. */
  ghost predicate LeftInPeace(s: State, id: nat)
    requires id < |s.insts|
  {
    forall s' | Reaches(s, s') :: id < |s'.insts| && s'.insts[id].late == s.insts[id].late
  }

  // ---- a quiet instance stays quiet --------------------------------------------------------------------

  /** A closed instance is still quiet after a step, and has been sent nothing. */
  ghost predicate LeavesQuiet(s: State, s': State, id: nat)
    requires id < |s.insts| && s'.executed <= |s'.pipe|
  {
    && Closed(s', id) && Quiet(s', id)
    && s'.insts[id].events == s.insts[id].events && s'.insts[id].late == s.insts[id].late
  }

  /** A step leaves a quiet closed instance quiet, and sends it nothing. */
  lemma QuietKept(s: State, a: Action, id: nat)
    requires Valid(s) && Enabled(s, a) && Closed(s, id) && Quiet(s, id)
    ensures LeavesQuiet(s, Apply(s, a), id)
  {
    match a
    case Execute => ExecuteKeepsQuiet(s, id);
    case SampleEnds(c) => EndKeepsQuiet(s, c, id);
    case Write(t) => WriteKeepsQuiet(s, a, Message(s.threads[t].command, s.threads[t].id, t), id);
    case WriteSync(t) => WriteKeepsQuiet(s, a, Message(Command.Sync, s.threads[t].id, t), id);
    case Shutdown => WriteKeepsQuiet(s, a, Message(Exit, 0, 0), id);
    case _ => OtherStepKeepsQuiet(s, a, id);
  }

  lemma OtherStepKeepsQuiet(s: State, a: Action, id: nat)
    requires Valid(s) && Enabled(s, a) && Closed(s, id) && Quiet(s, id)
    requires !a.Execute? && !a.SampleEnds? && !a.Write? && !a.WriteSync? && !a.Shutdown?
    ensures LeavesQuiet(s, Apply(s, a), id)
  {
  }

  lemma WriteKeepsQuiet(s: State, a: Action, m: Message, id: nat)
    requires Valid(s) && Enabled(s, a) && Closed(s, id) && Quiet(s, id)
    requires a.Write? || a.WriteSync? || a.Shutdown?
    requires Apply(s, a).pipe == s.pipe + [m] && !Names(id)(m)
    ensures LeavesQuiet(s, Apply(s, a), id)
  {
    assert (s.pipe + [m])[s.executed..] == s.pipe[s.executed..] + [m];
    if !s.exited {
      MuteAppend(s.pipe[s.executed..], m, id, StatusOf(s.channels, id), s.executed < s.taken);
    }
  }

  lemma {:induction false} MuteAppend(messages: seq<Message>, m: Message, id: nat, status: Status, inHand: bool)
    requires !Names(id)(m) && (inHand ==> messages != [])
    requires Mute(messages, id, status, inHand)
    ensures Mute(messages + [m], id, status, inHand)
    decreases |messages|
  {
    if messages == [] {
      assert (messages + [m])[1..] == [];
    } else {
      var head, rest := messages[0], messages[1..];
      assert (messages + [m])[1..] == rest + [m];
      if head.command == Exit {
      } else if !Names(id)(head) {
        MuteAppend(rest, m, id, status, false);
      } else {
        MuteAppend(rest, m, id, StatusAfter(head.command, status), false);
      }
    }
  }

  lemma EndKeepsQuiet(s: State, c: nat, id: nat)
    requires Valid(s) && Enabled(s, SampleEnds(c)) && Closed(s, id) && Quiet(s, id)
    ensures LeavesQuiet(s, Apply(s, SampleEnds(c)), id)
  {
    var t := s.channels;
    EndKeeps(t, c);
    FindUnique(t, t[c].sample.value, c);
    assert t[c].sample != Some(id);
    StatusKept(t, End(t, c), id);
  }

  /** Executing a message that has no event for an instance sends it nothing. */
  lemma NothingDelivered(s: State, id: nat)
    requires Valid(s) && Enabled(s, Execute) && Closed(s, id) && s.pipe[s.executed].command != Exit
    requires var m := s.pipe[s.executed];
             m.id == id ==> EventsOf(m.command, StatusOf(s.channels, id) != Status.Stopped) == []
    ensures var s' := Apply(s, Execute);
            Closed(s', id) && s'.insts[id].events == s.insts[id].events && s'.insts[id].late == s.insts[id].late
  {
    var m := s.pipe[s.executed];
    StatusTells(s.channels, m.id);
    var evs := EventsOf(m.command, Sounds(s.channels, m.id));
    HandleDelivers(s.insts[m.id], m.command, s.channels, m.id);
    if m.id == id {
      DeliverOne(s.insts[m.id], evs);
    }
    DeliveredRefs(s.insts[m.id], evs);
  }

  lemma ExecuteKeepsQuiet(s: State, id: nat)
    requires Valid(s) && Enabled(s, Execute) && Closed(s, id) && Quiet(s, id)
    ensures LeavesQuiet(s, Apply(s, Execute), id)
  {
    var m := s.pipe[s.executed];
    if m.command != Exit {
      assert s.pipe[s.executed..][1..] == s.pipe[s.executed + 1..];
      NothingDelivered(s, id);
      StatusOfEffect(s.channels, m.command, m.id, id);
    }
  }

  lemma {:induction false} QuietForEver(s: State, later: seq<Action>, s': State, id: nat)
    requires Valid(s) && Closed(s, id) && Quiet(s, id)
    requires Leads(s, later, s')
    ensures id < |s'.insts|
    ensures s'.insts[id].events == s.insts[id].events && s'.insts[id].late == s.insts[id].late
    decreases |later|
  {
    if later != [] {
      ValidKept(s, later[0]);
      QuietKept(s, later[0], id);
      QuietForEver(Apply(s, later[0]), later[1..], s', id);
    }
  }

  // ---- any other instance will be sent something ---------------------------------------------------------

  /** What the io thread does next with the messages it has. */
  function IoStep(s: State): Action {
    if s.released < s.executed then Release else if s.executed < s.taken then Execute else Take
  }

  /** A closed instance that is not quiet is sent something by the io thread's next step with a message, or
      is not quiet after it either. */
  lemma LoudStep(s: State, id: nat)
    requires Valid(s) && !s.exited && Closed(s, id) && !Quiet(s, id)
    requires !(IoFree(s) && StatusOf(s.channels, id) == Playing)
    ensures Enabled(s, IoStep(s))
    ensures var s' := Apply(s, IoStep(s));
            && s'.pipe == s.pipe && Closed(s', id)
            && (|| s.insts[id].late < s'.insts[id].late
                || (!s'.exited && !Quiet(s', id) && s'.insts[id].late == s.insts[id].late))
  {
    if s.released < s.executed {
      LoudRelease(s, id);
    } else if s.executed < s.taken {
      LoudExecute(s, id);
    }
  }

  lemma LoudRelease(s: State, id: nat)
    requires Valid(s) && !s.exited && Closed(s, id) && !Quiet(s, id) && s.released < s.executed
    ensures var s' := Apply(s, Release);
            && s'.pipe == s.pipe && Closed(s', id)
            && !s'.exited && !Quiet(s', id) && s'.insts[id].late == s.insts[id].late
  {
  }

  lemma LoudExecute(s: State, id: nat)
    requires Valid(s) && Enabled(s, Execute) && Closed(s, id) && !Quiet(s, id)
    ensures var s' := Apply(s, Execute);
            && s'.pipe == s.pipe && Closed(s', id)
            && (|| s.insts[id].late < s'.insts[id].late
                || (!s'.exited && !Quiet(s', id) && s'.insts[id].late == s.insts[id].late))
  {
    var m := s.pipe[s.executed];
    assert s.pipe[s.executed..][1..] == s.pipe[s.executed + 1..];
    if m.id == id && EventsOf(m.command, StatusOf(s.channels, id) != Status.Stopped) != [] {
      SomethingDelivered(s, id);
    } else {
      NothingDelivered(s, id);
      StatusOfEffect(s.channels, m.command, m.id, id);
    }
  }

  lemma SomethingDelivered(s: State, id: nat)
    requires Valid(s) && Enabled(s, Execute) && Closed(s, id)
    requires var m := s.pipe[s.executed];
             m.command != Exit && m.id == id && EventsOf(m.command, StatusOf(s.channels, id) != Status.Stopped) != []
    ensures var s' := Apply(s, Execute); Closed(s', id) && s.insts[id].late < s'.insts[id].late
  {
    var m := s.pipe[s.executed];
    StatusTells(s.channels, id);
    var evs := EventsOf(m.command, Sounds(s.channels, id));
    HandleDelivers(s.insts[id], m.command, s.channels, id);
    DeliverOne(s.insts[id], evs);
  }

  lemma {:induction false} LoudDelivers(s: State, id: nat) returns (later: seq<Action>, s': State)
    requires Valid(s) && !s.exited && Closed(s, id) && !Quiet(s, id)
    ensures Leads(s, later, s')
    ensures id < |s'.insts| && s.insts[id].late < s'.insts[id].late
    decreases |s.pipe| - s.executed, if s.released < s.executed then 2 else if s.executed < s.taken then 0 else 1
  {
    if IoFree(s) && StatusOf(s.channels, id) == Playing {
      var a := SampleEnds(Find(s.channels, Some(id)));
      s' := Apply(s, a);
      later := [a];
      assert later[1..] == [] && Leads(s', [], s');
    } else {
      var a := IoStep(s);
      LoudStep(s, id);
      ValidKept(s, a);
      var s1 := Apply(s, a);
      if s.insts[id].late < s1.insts[id].late {
        later, s' := [a], s1;
        assert later[1..] == [] && Leads(s1, [], s1);
      } else {
        var rest;
        rest, s' := LoudDelivers(s1, id);
        later := [a] + rest;
        assert later[1..] == rest;
      }
    }
  }

  /** A closed instance is left in peace, whatever happens, exactly when it is quiet. */
  lemma SafeExactlyWhenQuiet(threads: nat, actions: seq<Action>, s: State, id: nat)
    requires Run(threads, actions, s) && Closed(s, id)
    ensures s.executed <= |s.pipe|
    ensures Quiet(s, id) <==> LeftInPeace(s, id)
  {
    RunInv(threads, actions, s);
    QuietIsPeace(s, id);
  }

  lemma QuietIsPeace(s: State, id: nat)
    requires Valid(s) && Closed(s, id)
    ensures Quiet(s, id) <==> LeftInPeace(s, id)
  {
    if Quiet(s, id) {
      forall s' | Reaches(s, s')
        ensures id < |s'.insts| && s'.insts[id].late == s.insts[id].late
      {
        var later :| Leads(s, later, s');
        QuietForEver(s, later, s', id);
      }
    } else {
      var later, s' := LoudDelivers(s, id);
      assert Reaches(s, s');
    }
  }

  // ---- what a client can tell before it closes -------------------------------------------------------------

  /** With no thread inside a call on the instance, the counter tells whether a message naming it is
      unexecuted. */
  lemma CounterTells(s: State, id: nat)
    requires Inv(s) && id < |s.insts|
    requires forall t | 0 <= t < |s.threads| :: !Busy(s.threads[t], id)
    ensures s.insts[id].audioCmdSync == 0 <==> forall j | s.executed <= j < |s.pipe| :: !Names(id)(s.pipe[j])
  {
    assert InstanceRight(s, id);
    NoneLeft(s.pipe, s.executed, SyncsOf(id));
    CountNone(s.threads, InWindow(id));
    if s.insts[id].audioCmdSync == 0 {
      forall j | s.executed <= j < |s.pipe|
        ensures !Names(id)(s.pipe[j])
      {
        assert Covered(s, j);
      }
    } else {
      assert !(forall j | s.executed <= j < |s.pipe| :: !SyncsOf(id)(s.pipe[j]));
      var j :| s.executed <= j < |s.pipe| && SyncsOf(id)(s.pipe[j]);
      assert Names(id)(s.pipe[j]);
    }
  }

  lemma {:induction false} NotNamedIsMute(messages: seq<Message>, id: nat, status: Status, inHand: bool)
    requires forall j | 0 <= j < |messages| :: !Names(id)(messages[j])
    requires status != Playing
    ensures Mute(messages, id, status, inHand)
    decreases |messages|
  {
    if messages != [] {
      NotNamedIsMute(messages[1..], id, status, false);
    }
  }

  lemma {:induction false} PlayingIsNotMute(messages: seq<Message>, id: nat, inHand: bool)
    requires forall j | 0 <= j < |messages| :: !Names(id)(messages[j]) && messages[j].command != Exit
    requires inHand ==> messages != []
    ensures !Mute(messages, id, Playing, inHand)
  {
  }

  lemma {:induction false} SyncIsNotMute(messages: seq<Message>, id: nat, status: Status, inHand: bool, k: nat)
    requires k < |messages| && SyncsOf(id)(messages[k])
    requires forall j | 0 <= j < |messages| :: messages[j].command != Exit
    ensures !Mute(messages, id, status, inHand)
    decreases |messages|
  {
    var m := messages[0];
    if k > 0 {
      SyncIsNotMute(messages[1..], id, status, false, k - 1);
      SyncIsNotMute(messages[1..], id, StatusAfter(m.command, status), false, k - 1);
    }
  }

  /** Closing an instance that no thread is using, while no EXIT is on its way, is safe exactly when its
      sync counter is zero and no channel is playing its sample towards an end.  Both can be told before
      the close: the counter is what the sync wait tests, and a lowered flag, which wait tests too, rules the
      second out. */
  lemma CloseIsSafeExactly(threads: nat, actions: seq<Action>, s: State, id: nat)
    requires Run(threads, actions, s) && !s.exited
    requires Valid(s) && Enabled(s, CloseInstance(id))
    requires forall j | s.executed <= j < |s.pipe| :: s.pipe[j].command != Exit
    ensures LeftInPeace(Apply(s, CloseInstance(id)), id)
            <==> s.insts[id].audioCmdSync == 0 && StatusOf(s.channels, id) != Playing
    ensures s.insts[id].isPlaying <==> StatusOf(s.channels, id) != Status.Stopped
  {
    RunInv(threads, actions, s);
    ValidKept(s, CloseInstance(id));
    QuietIsPeace(Apply(s, CloseInstance(id)), id);
    FlagTells(threads, actions, s, id);
    MuteExactly(s, id);
  }

  lemma MuteExactly(s: State, id: nat)
    requires Inv(s) && id < |s.insts|
    requires forall t | 0 <= t < |s.threads| :: !Busy(s.threads[t], id)
    requires forall j | s.executed <= j < |s.pipe| :: s.pipe[j].command != Exit
    ensures Mute(s.pipe[s.executed..], id, StatusOf(s.channels, id), s.executed < s.taken)
            <==> s.insts[id].audioCmdSync == 0 && StatusOf(s.channels, id) != Playing
  {
    var messages, status := s.pipe[s.executed..], StatusOf(s.channels, id);
    CounterTells(s, id);
    if s.insts[id].audioCmdSync != 0 {
      var j :| s.executed <= j < |s.pipe| && Names(id)(s.pipe[j]);
      var k := SyncAhead(s, id, j);
      SyncIsNotMute(messages, id, status, s.executed < s.taken, k - s.executed);
    } else if status == Playing {
      PlayingIsNotMute(messages, id, s.executed < s.taken);
    } else {
      NotNamedIsMute(messages, id, status, s.executed < s.taken);
    }
  }

  lemma FlagTells(threads: nat, actions: seq<Action>, s: State, id: nat)
    requires Run(threads, actions, s) && id < |s.insts| && !s.exited
    ensures s.insts[id].isPlaying <==> StatusOf(s.channels, id) != Status.Stopped
  {
    RunInv(threads, actions, s);
    EventDiscipline(threads, actions, s, id);
    StatusTells(s.channels, id);
  }

  /** Every unexecuted message of an instance that no thread is using is a SYNC or followed by one. */
  lemma SyncAhead(s: State, id: nat, j: nat) returns (k: nat)
    requires Inv(s) && s.executed <= j < |s.pipe| && Names(id)(s.pipe[j])
    requires forall t | 0 <= t < |s.threads| :: !Busy(s.threads[t], id)
    ensures j <= k < |s.pipe| && SyncsOf(id)(s.pipe[k])
  {
    assert Covered(s, j);
    if s.pipe[j].command == Command.Sync {
      k := j;
    } else {
      k :| j < k < |s.pipe| && SyncsOf(s.pipe[j].id)(s.pipe[k]);
    }
  }

  /** So an instance closed when wait has returned, by a thread that nobody else shares it with, is never
      sent another event, whether it was stopped or played to its end. */
  lemma CleanClose(threads: nat, actions: seq<Action>, s: State, id: nat, later: seq<Action>, s': State)
    requires Run(threads, actions, s)
    requires Valid(s) && Enabled(s, CloseInstance(id))
    requires s.insts[id].audioCmdSync == 0 && !s.insts[id].isPlaying
    requires Leads(Apply(s, CloseInstance(id)), later, s')
    ensures id < |s'.insts| && s'.insts[id].events == s.insts[id].events && s'.insts[id].late == 0
  {
    RunInv(threads, actions, s);
    assert InstanceRight(s, id);
    var closed := Apply(s, CloseInstance(id));
    ValidKept(s, CloseInstance(id));
    CounterTells(s, id);
    if !s.exited {
      FlagTells(threads, actions, s, id);
      NotNamedIsMute(s.pipe[s.executed..], id, StatusOf(s.channels, id), s.executed < s.taken);
    }
    QuietForEver(closed, later, s', id);
  }

  // ---- wait, then close ------------------------------------------------------------------------------------

  /** No thread is inside a call on the instance, and nothing is on its way for it. */
  ghost predicate Settled(s: State, id: nat) {
    && id < |s.insts| && s.insts[id].audioCmdSync == 0
    && forall t | 0 <= t < |s.threads| :: !Busy(s.threads[t], id)
  }

  /** As long as nobody begins a call on it the instance stays settled, and a lowered flag stays down. */
  lemma StaysSettled(s: State, a: Action, id: nat)
    requires Inv(s) && Enabled(s, a) && Settled(s, id) && !(a.Begin? && a.id == id)
    ensures var s' := Apply(s, a);
            Inv(s') && Settled(s', id) && (s'.insts[id].isPlaying ==> s.insts[id].isPlaying)
  {
    InvKept(s, a);
    CounterTells(s, id);
    SettledUnnamed(s, a, id);
    CounterTells(Apply(s, a), id);
    FlagStaysDown(s, a, id);
  }

  lemma SettledUnnamed(s: State, a: Action, id: nat)
    requires Valid(s) && Enabled(s, a) && !(a.Begin? && a.id == id)
    requires id < |s.insts| && forall t | 0 <= t < |s.threads| :: !Busy(s.threads[t], id)
    requires forall j | s.executed <= j < |s.pipe| :: !Names(id)(s.pipe[j])
    ensures var s' := Apply(s, a);
            && id < |s'.insts| && (forall t | 0 <= t < |s'.threads| :: !Busy(s'.threads[t], id))
            && forall j | s'.executed <= j < |s'.pipe| :: !Names(id)(s'.pipe[j])
  {
  }

  lemma FlagStaysDown(s: State, a: Action, id: nat)
    requires Valid(s) && Enabled(s, a) && id < |s.insts|
    requires forall j | s.executed <= j < |s.pipe| :: !Names(id)(s.pipe[j])
    ensures Apply(s, a).insts[id].isPlaying ==> s.insts[id].isPlaying
  {
    if a == Execute {
      assert !Names(id)(s.pipe[s.executed]);
    }
  }

  /** Nobody begins a call on the instance. */
  predicate LeftAlone(actions: seq<Action>, id: nat) {
    forall k | 0 <= k < |actions| :: !(actions[k].Begin? && actions[k].id == id)
  }

  lemma {:induction false} SettledOn(s: State, actions: seq<Action>, s': State, id: nat)
    requires Inv(s) && Settled(s, id) && Leads(s, actions, s') && LeftAlone(actions, id)
    ensures Inv(s') && Settled(s', id) && (s'.insts[id].isPlaying ==> s.insts[id].isPlaying)
    decreases |actions|
  {
    if actions != [] {
      StaysSettled(s, actions[0], id);
      SettledOn(Apply(s, actions[0]), actions[1..], s', id);
    }
  }

  /** The two tests of wait are made at different times, and the close comes later still.  If the counter is
      found zero, afterwards the flag down, and after that the instance is closed, and nobody begins a call on it
      meanwhile, it is never sent another event. */
  lemma WaitThenClose(threads: nat, actions: seq<Action>, synced: State, between: seq<Action>, down: State,
                      before: seq<Action>, s: State, id: nat, later: seq<Action>, s': State)
    requires Run(threads, actions, synced) && Settled(synced, id)
    requires Leads(synced, between, down) && LeftAlone(between, id)
    requires id < |down.insts| && !down.insts[id].isPlaying
    requires Leads(down, before, s) && LeftAlone(before, id)
    requires Valid(s) && Enabled(s, CloseInstance(id)) && Leads(Apply(s, CloseInstance(id)), later, s')
    ensures id < |s'.insts| && s'.insts[id].events == s.insts[id].events && s'.insts[id].late == 0
  {
    RunInv(threads, actions, synced);
    SettledOn(synced, between, down, id);
    SettledOn(down, before, s, id);
    LeadsJoin(Init(threads), actions, synced, between, down);
    LeadsJoin(Init(threads), actions + between, down, before, s);
    CleanClose(threads, actions + between + before, s, id, later, s');
  }

  // ---- stop, then wait -------------------------------------------------------------------------------------

  /** After a stop and a wait that has returned, with no other thread using the instance: the last
      command written for it is a stop and its counter is zero. */
  ghost predicate StoppedAndSynced(s: State, id: nat) {
    && !s.exited
    && id < |s.insts| && s.insts[id].audioCmdSync == 0
    && (forall t | 0 <= t < |s.threads| :: !Busy(s.threads[t], id))
    && !Wants(s.pipe, id)
  }

  /** Then no channel holds the sample and no message naming it is unexecuted. */
  lemma StopThenWaitLeavesNothing(threads: nat, actions: seq<Action>, s: State, id: nat)
    requires Run(threads, actions, s) && StoppedAndSynced(s, id)
    ensures !Holds(s.channels, id) && !s.insts[id].isPlaying
    ensures s.executed <= |s.pipe| && forall j | s.executed <= j < |s.pipe| :: !Names(id)(s.pipe[j])
  {
    RunInv(threads, actions, s);
    CounterTells(s, id);
    WantsIgnores(s.pipe, s.executed, id);
    assert InstanceRight(s, id);
    UnbrokenAlternates(s.insts[id].events);
  }

  // ---- a close that comes too early -------------------------------------------------------------------------

  lemma RunOneMore(threads: nat, actions: seq<Action>, s: State, a: Action, s': State)
    requires Run(threads, actions, s)
    requires Valid(s) && Enabled(s, a) && Apply(s, a) == s'
    ensures Run(threads, actions + [a], s') && Valid(s')
  {
    LeadsOneMore(Init(threads), actions, s, a);
    ValidKept(s, a);
  }

  /** One thread has opened an instance and is somewhere in a call on it; the io thread has done nothing. */
  ghost function Early(ref: int, sync: int, thread: Thread, pipe: seq<Message>): State {
    State([Instance(true, sync, false, [], 0, ref, 0)], [thread], pipe, 0, 0, 0, false,
          seq(3, _ => Entry(None, Status.Stopped)))
  }

  lemma OpenEarly()
    ensures Run(1, [Open], Early(1, 0, Idle, [])) && Valid(Early(1, 0, Idle, []))
  {
    InitInv(1);
    assert Leads(Init(1), [], Init(1));
    assert Init(1).threads == [Idle];
    RunOneMore(1, [], Init(1), Open, Early(1, 0, Idle, []));
    assert [] + [Open] == [Open];
  }

  lemma PlayEarly()
    ensures var s := Early(2, 0, Sent(0), [Message(Play, 0, 0)]);
            Run(1, [Open, Begin(0, Play, 0), Write(0)], s) && Valid(s)
  {
    OpenEarly();
    var s1 := Early(2, 0, Sending(Play, 0), []);
    RunOneMore(1, [Open], Early(1, 0, Idle, []), Begin(0, Play, 0), s1);
    assert [Open] + [Begin(0, Play, 0)] == [Open, Begin(0, Play, 0)];
    RunOneMore(1, [Open, Begin(0, Play, 0)], s1, Write(0), Early(2, 0, Sent(0), [Message(Play, 0, 0)]));
    assert [Open, Begin(0, Play, 0)] + [Write(0)] == [Open, Begin(0, Play, 0), Write(0)];
  }

  lemma RaiseEarly() returns (actions: seq<Action>)
    ensures actions == [Open, Begin(0, Play, 0), Write(0), Raise(0)]
    ensures var s := Early(2, 1, Raised(0), [Message(Play, 0, 0)]); Run(1, actions, s) && Valid(s)
  {
    PlayEarly();
    var play := Message(Play, 0, 0);
    actions := [Open, Begin(0, Play, 0), Write(0)];
    RunOneMore(1, actions, Early(2, 0, Sent(0), [play]), Raise(0), Early(2, 1, Raised(0), [play]));
    actions := actions + [Raise(0)];
  }

  lemma BeginSyncEarly() returns (actions: seq<Action>)
    ensures actions == [Open, Begin(0, Play, 0), Write(0), Raise(0), BeginSync(0)]
    ensures var s := Early(3, 1, SendingSync(0), [Message(Play, 0, 0)]); Run(1, actions, s) && Valid(s)
  {
    var play := Message(Play, 0, 0);
    actions := RaiseEarly();
    RunOneMore(1, actions, Early(2, 1, Raised(0), [play]), BeginSync(0), Early(3, 1, SendingSync(0), [play]));
    actions := actions + [BeginSync(0)];
  }

  lemma SyncEarly() returns (actions: seq<Action>)
    ensures actions == [Open, Begin(0, Play, 0), Write(0), Raise(0), BeginSync(0), WriteSync(0)]
    ensures var s := Early(3, 1, Idle, [Message(Play, 0, 0), Message(Command.Sync, 0, 0)]);
            Run(1, actions, s) && Valid(s)
  {
    var play := Message(Play, 0, 0);
    actions := BeginSyncEarly();
    RunOneMore(1, actions, Early(3, 1, SendingSync(0), [play]), WriteSync(0),
               Early(3, 1, Idle, [play, Message(Command.Sync, 0, 0)]));
    actions := actions + [WriteSync(0)];
  }

  /** Play, and close at once.  The close is allowed, the io thread has not got round to the command, and
      the instance will be sent an event when it does. */
  lemma CloseTooEarly() returns (actions: seq<Action>, s: State)
    ensures actions == [Open, Begin(0, Play, 0), Write(0), Raise(0), BeginSync(0), WriteSync(0)]
    ensures Run(1, actions, s) && Valid(s) && Enabled(s, CloseInstance(0))
    ensures s.insts[0].audioCmdSync == 1
    ensures !LeftInPeace(Apply(s, CloseInstance(0)), 0)
  {
    actions := SyncEarly();
    s := Early(3, 1, Idle, [Message(Play, 0, 0), Message(Command.Sync, 0, 0)]);
    CloseIsSafeExactly(1, actions, s, 0);
  }
}
