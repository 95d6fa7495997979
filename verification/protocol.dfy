/** The protocol between client threads, the command pipe and the io thread, as a state machine.

    Any number of threads use any number of instances.  A command is a reference taken, a message
    written to the pipe, the instance's counter raised, a second reference taken and a SYNC message
    written; the io thread takes messages off the pipe one at a time, executes them on the channels
    and gives up their references.  Every action below is one of these steps, a critical section
    counting as a step, and the actions of different threads interleave freely.
 */
module Protocol {
  import opened Events
  import opened ChannelTable
  import opened Commands
  import opened Counting

  /** An instance and the sample it was opened with. */
  datatype Instance = Instance(
    open: bool,             // the client has not closed it
    audioCmdSync: int,
    isPlaying: bool,
    events: seq<Event>,     // what the sample has delivered to it
    late: nat,              // how many of them after it was closed
    ref: int,               // the sample's references
    frees: nat)             // how often the sample has been freed

  datatype Message = Message(command: Command, id: nat, thread: nat)

  /** Where a client thread is. */
  datatype Thread =
    | Idle
    | Sending(command: Command, id: nat)    // a reference taken, the command about to be written
    | Sent(id: nat)                         // the command written
    | Raised(id: nat)                       // the counter raised
    | SendingSync(id: nat)                  // a reference taken, the SYNC about to be written

  datatype State = State(
    insts: seq<Instance>,
    threads: seq<Thread>,
    pipe: seq<Message>,      // every message ever written
    taken: nat,              // how many the io thread has taken off the pipe,
    executed: nat,           // ... has executed,
    released: nat,           // ... and has given up the reference of
    exited: bool,            // the io thread has executed an EXIT
    channels: seq<Entry<nat>>)

  datatype Action =
    | Open
    | Begin(t: nat, command: Command, id: nat)
    | Write(t: nat)
    | Raise(t: nat)
    | BeginSync(t: nat)
    | WriteSync(t: nat)
    | CloseInstance(id: nat)
    | Shutdown
    | Take
    | Execute
    | Release
    | SampleEnds(channel: nat)
    | CloseChannel

  /** The thread is inside a call on the instance. */
  predicate Busy(t: Thread, id: nat) {
    t != Idle && t.id == id
  }

  // ---- steps on one instance ---------------------------------------------------------------------

  function AddRef(i: Instance): Instance {
    i.(ref := i.ref + 1)
  }

  function DropRef(i: Instance): Instance {
    i.(ref := i.ref - 1, frees := if i.ref - 1 == 0 then i.frees + 1 else i.frees)
  }

  /** The instance's callback. */
  function Deliver(i: Instance, ev: Event): Instance {
    var i' := i.(events := i.events + [ev], late := if i.open then i.late else i.late + 1);
    match ev
    case Started => i'.(isPlaying := true)
    case Stopped => i'.(isPlaying := false)
    case Sync => i'.(audioCmdSync := i.audioCmdSync - 1)
    case Error => i'
  }

  function DeliverAll(i: Instance, evs: seq<Event>): Instance
    decreases |evs|
  {
    if evs == [] then i else DeliverAll(Deliver(i, evs[0]), evs[1..])
  }

  lemma DeliverOne(i: Instance, evs: seq<Event>)
    requires |evs| <= 1
    ensures DeliverAll(i, evs) == if evs == [] then i else Deliver(i, evs[0])
  {
    if evs != [] {
      assert evs[1..] == [];
    }
  }

  /** What executing a command makes of its instance: the events are delivered, and the channel that
      takes the sample on or gives it up takes or gives up a reference. */
  ghost function Handle(i: Instance, c: Command, t: seq<Entry<nat>>, id: nat): Instance {
    var i' := DeliverAll(i, EventsOf(c, Sounds(t, id)));
    var t' := Effect(t, c, id);
    if Holds(t', id) && !Holds(t, id) then AddRef(i')
    else if !Holds(t', id) && Holds(t, id) then DropRef(i')
    else i'
  }

  lemma {:induction false} DeliveredRefs(i: Instance, evs: seq<Event>)
    ensures var i' := DeliverAll(i, evs);
            i'.ref == i.ref && i'.frees == i.frees && i'.open == i.open
    decreases |evs|
  {
    if evs != [] {
      DeliveredRefs(Deliver(i, evs[0]), evs[1..]);
    }
  }

  // ---- the steps -----------------------------------------------------------------------------------

  /** The io thread is between commands, and has not exited. */
  predicate IoFree(s: State) {
    !s.exited && s.taken == s.released
  }

  ghost predicate Enabled(s: State, a: Action) {
    match a
    case Open => true
    case Begin(t, c, id) =>
      && t < |s.threads| && s.threads[t] == Idle
      && id < |s.insts| && s.insts[id].open
      && c in {Play, Loop, Stop}
    case Write(t) => t < |s.threads| && s.threads[t].Sending?
    case Raise(t) => t < |s.threads| && s.threads[t].Sent?
    case BeginSync(t) => t < |s.threads| && s.threads[t].Raised?
    case WriteSync(t) => t < |s.threads| && s.threads[t].SendingSync?
    case CloseInstance(id) =>
      && id < |s.insts| && s.insts[id].open
      && forall t | 0 <= t < |s.threads| :: !Busy(s.threads[t], id)
    case Shutdown => true
    case Take => IoFree(s) && s.taken < |s.pipe|
    case Execute => !s.exited && s.executed < s.taken
    case Release => !s.exited && s.released < s.executed
    case SampleEnds(c) => IoFree(s) && c < |s.channels| && s.channels[c].status == Playing
    case CloseChannel => s.exited && s.channels != []
  }

  ghost function Apply(s: State, a: Action): (s': State)
    requires Valid(s) && Enabled(s, a)
    ensures |s'.insts| == |s.insts| + (if a == Open then 1 else 0)
    ensures s'.released <= s'.executed <= |s'.pipe|
  {
    match a
    case Open =>
      s.(insts := s.insts + [Instance(true, 0, false, [], 0, 1, 0)])
    case Begin(t, c, id) =>
      s.(insts := s.insts[id := AddRef(s.insts[id])], threads := s.threads[t := Sending(c, id)])
    case Write(t) =>
      var id := s.threads[t].id;
      s.(pipe := s.pipe + [Message(s.threads[t].command, id, t)], threads := s.threads[t := Sent(id)])
    case Raise(t) =>
      var id := s.threads[t].id;
      var i := s.insts[id];
      s.(insts := s.insts[id := i.(audioCmdSync := i.audioCmdSync + 1)], threads := s.threads[t := Raised(id)])
    case BeginSync(t) =>
      var id := s.threads[t].id;
      s.(insts := s.insts[id := AddRef(s.insts[id])], threads := s.threads[t := SendingSync(id)])
    case WriteSync(t) =>
      s.(pipe := s.pipe + [Message(Command.Sync, s.threads[t].id, t)], threads := s.threads[t := Idle])
    case CloseInstance(id) =>
      s.(insts := s.insts[id := DropRef(s.insts[id].(open := false))])
    case Shutdown =>
      s.(pipe := s.pipe + [Message(Exit, 0, 0)])
    case Take =>
      s.(taken := s.taken + 1)
    case Execute =>
      var m := s.pipe[s.executed];
      if m.command == Exit then s.(executed := s.executed + 1, released := s.released + 1, exited := true)
      else
        s.(executed := s.executed + 1,
           channels := Effect(s.channels, m.command, m.id),
           insts := s.insts[m.id := Handle(s.insts[m.id], m.command, s.channels, m.id)])
    case Release =>
      var m := s.pipe[s.released];
      s.(released := s.released + 1, insts := s.insts[m.id := DropRef(s.insts[m.id])])
    case SampleEnds(c) =>
      var id := s.channels[c].sample.value;
      s.(channels := End(s.channels, c), insts := s.insts[id := Deliver(s.insts[id], Event.Stopped)])
    case CloseChannel =>
      var e := s.channels[0];
      s.(channels := s.channels[1..],
         insts := if e.sample.None? then s.insts
                  else s.insts[e.sample.value := DropRef(s.insts[e.sample.value])])
  }

  // ---- what every step keeps: the shape ------------------------------------------------------------

  ghost predicate Valid(s: State) {
    && s.released <= s.executed <= s.taken <= s.released + 1
    && s.taken <= |s.pipe|
    && (s.exited ==> s.taken == s.released)
    && (s.released < s.executed ==> s.pipe[s.released].command != Exit)
    && WellFormed(s.channels)
    && (forall j | 0 <= j < |s.channels| && s.channels[j].sample.Some? :: s.channels[j].sample.value < |s.insts|)
    && (forall t | 0 <= t < |s.threads| && s.threads[t] != Idle ::
          s.threads[t].id < |s.insts| && s.insts[s.threads[t].id].open)
    && (forall t | 0 <= t < |s.threads| && s.threads[t].Sending? :: s.threads[t].command in {Play, Loop, Stop})
    && (forall j | 0 <= j < |s.pipe| && s.pipe[j].command != Exit ::
          s.pipe[j].id < |s.insts| && s.pipe[j].thread < |s.threads|)
  }

  lemma ValidKept(s: State, a: Action)
    requires Valid(s) && Enabled(s, a)
    ensures Valid(Apply(s, a))
  {
    match a
    case Execute => ExecuteValid(s);
    case SampleEnds(c) => SampleEndsValid(s, c);
    case Write(t) => WriteValid(s, a);
    case WriteSync(t) => WriteValid(s, a);
    case Shutdown => WriteValid(s, a);
    case CloseChannel => CloseChannelValid(s);
    case Open => OpenValid(s);
    case Begin(_, _, _) => ThreadValid(s, a);
    case Raise(_) => ThreadValid(s, a);
    case BeginSync(_) => ThreadValid(s, a);
    case CloseInstance(_) => CloseInstanceValid(s, a);
    case Release => CloseInstanceValid(s, a);
    case Take => TakeValid(s);
  }

  lemma TakeValid(s: State)
    requires Valid(s) && Enabled(s, Take)
    ensures Valid(Apply(s, Take))
  {
  }

  lemma SampleEndsValid(s: State, c: nat)
    requires Valid(s) && Enabled(s, SampleEnds(c))
    ensures Valid(Apply(s, SampleEnds(c)))
  {
    EndKeeps(s.channels, c);
  }

  lemma OpenValid(s: State)
    requires Valid(s)
    ensures Valid(Apply(s, Open))
  {
  }

  lemma CloseChannelValid(s: State)
    requires Valid(s) && Enabled(s, CloseChannel)
    ensures Valid(Apply(s, CloseChannel))
  {
  }

  lemma CloseInstanceValid(s: State, a: Action)
    requires Valid(s) && Enabled(s, a) && (a.CloseInstance? || a.Release?)
    ensures Valid(Apply(s, a))
  {
  }

  lemma ThreadValid(s: State, a: Action)
    requires Valid(s) && Enabled(s, a) && (a.Begin? || a.Raise? || a.BeginSync?)
    ensures Valid(Apply(s, a))
  {
  }

  lemma WriteValid(s: State, a: Action)
    requires Valid(s) && Enabled(s, a) && (a.Write? || a.WriteSync? || a.Shutdown?)
    ensures Valid(Apply(s, a))
  {
  }

  lemma ExecuteValid(s: State)
    requires Valid(s) && Enabled(s, Execute)
    ensures Valid(Apply(s, Execute))
  {
    var m, s' := s.pipe[s.executed], Apply(s, Execute);
    if m.command != Exit {
      EffectKeeps(s.channels, m.command, m.id);
      DeliveredRefs(s.insts[m.id], EventsOf(m.command, Sounds(s.channels, m.id)));
      forall j | 0 <= j < |s'.channels| && s'.channels[j].sample.Some?
        ensures s'.channels[j].sample.value < |s'.insts|
      {
        EffectMembers(s.channels, m.command, m.id, j);
      }
    }
  }

  lemma EffectMembers(t: seq<Entry<nat>>, c: Command, id: nat, j: nat)
    requires j < |Effect(t, c, id)|
    ensures var e := Effect(t, c, id)[j];
            e.sample in {None, Some(id)} || (j < |t| && e == t[j])
  {
  }

  // ---- references --------------------------------------------------------------------------------------

  function Names(id: nat): Message -> bool {
    (m: Message) => m.command != Exit && m.id == id
  }

  function HoldsIt(id: nat): Entry<nat> -> bool {
    (e: Entry<nat>) => e.sample == Some(id)
  }

  function HasRef(id: nat): Thread -> bool {
    (t: Thread) => (t.Sending? || t.SendingSync?) && t.id == id
  }

  /** Everything that keeps the sample of an instance: its open handle, the channel that holds it, the
      messages whose references have not been given up, and the threads about to write one. */
  ghost function Refs(s: State, id: nat): nat
    requires s.released <= |s.pipe| && id < |s.insts|
  {
    (if s.insts[id].open then 1 else 0)
    + Count(s.channels, HoldsIt(id))
    + Count(s.pipe[s.released..], Names(id))
    + Count(s.threads, HasRef(id))
  }

  /** The count is right, and the sample has been freed once if it is zero and never otherwise. */
  ghost predicate RefsRight(s: State, id: nat)
    requires s.released <= |s.pipe| && id < |s.insts|
  {
    && s.insts[id].ref == Refs(s, id)
    && s.insts[id].frees == if s.insts[id].ref == 0 then 1 else 0
  }

  lemma {:induction false} CountHeld(t: seq<Entry<nat>>, id: nat)
    requires WellFormed(t)
    ensures Count(t, HoldsIt(id)) == if Holds(t, id) then 1 else 0
  {
    if k :| 0 <= k < |t| && t[k].sample == Some(id) {
      CountUpdate(t, k, Entry(None, Status.Stopped), HoldsIt(id));
      CountNone(t[k := Entry(None, Status.Stopped)], HoldsIt(id));
    } else {
      CountNone(t, HoldsIt(id));
    }
  }

  lemma RefsOfNew(s: State)
    requires Valid(s)
    ensures RefsRight(Apply(s, Open), |s.insts|)
  {
    var id := |s.insts|;
    CountNone(s.channels, HoldsIt(id));
    CountNone(s.pipe[s.released..], Names(id));
    CountNone(s.threads, HasRef(id));
  }

  /** Messages counted from some point on, after one more has been written. */
  lemma CountWritten(pipe: seq<Message>, from: nat, m: Message, p: Message -> bool)
    requires from <= |pipe|
    ensures Count((pipe + [m])[from..], p) == Count(pipe[from..], p) + (if p(m) then 1 else 0)
  {
    CountAppend(pipe[from..], m, p);
    assert (pipe + [m])[from..] == pipe[from..] + [m];
  }

  /** ... and after one has been dealt with. */
  lemma CountTaken(pipe: seq<Message>, from: nat, p: Message -> bool)
    requires from < |pipe|
    ensures Count(pipe[from..], p) == (if p(pipe[from]) then 1 else 0) + Count(pipe[from + 1..], p)
  {
    assert pipe[from..][1..] == pipe[from + 1..];
  }

  lemma BeginKeepsRefs(s: State, t: nat, c: Command, i: nat, id: nat)
    requires Valid(s) && Enabled(s, Begin(t, c, i)) && id < |s.insts| && RefsRight(s, id)
    ensures RefsRight(Apply(s, Begin(t, c, i)), id)
  {
    CountUpdate(s.threads, t, Sending(c, i), HasRef(id));
  }

  lemma BeginSyncKeepsRefs(s: State, t: nat, id: nat)
    requires Valid(s) && Enabled(s, BeginSync(t)) && id < |s.insts| && RefsRight(s, id)
    ensures RefsRight(Apply(s, BeginSync(t)), id)
  {
    CountUpdate(s.threads, t, SendingSync(s.threads[t].id), HasRef(id));
  }

  lemma WriteKeepsRefs(s: State, t: nat, id: nat)
    requires Valid(s) && Enabled(s, Write(t)) && id < |s.insts| && RefsRight(s, id)
    ensures RefsRight(Apply(s, Write(t)), id)
  {
    var i := s.threads[t].id;
    CountUpdate(s.threads, t, Sent(i), HasRef(id));
    CountWritten(s.pipe, s.released, Message(s.threads[t].command, i, t), Names(id));
  }

  lemma WriteSyncKeepsRefs(s: State, t: nat, id: nat)
    requires Valid(s) && Enabled(s, WriteSync(t)) && id < |s.insts| && RefsRight(s, id)
    ensures RefsRight(Apply(s, WriteSync(t)), id)
  {
    CountUpdate(s.threads, t, Idle, HasRef(id));
    CountWritten(s.pipe, s.released, Message(Command.Sync, s.threads[t].id, t), Names(id));
  }

  lemma ExecuteKeepsRefs(s: State, id: nat)
    requires Valid(s) && Enabled(s, Execute) && id < |s.insts| && RefsRight(s, id)
    ensures RefsRight(Apply(s, Execute), id)
  {
    var m, s' := s.pipe[s.executed], Apply(s, Execute);
    CountTaken(s.pipe, s.released, Names(id));
    if m.command != Exit {
      EffectKeeps(s.channels, m.command, m.id);
      CountHeld(s.channels, id);
      CountHeld(s'.channels, id);
      DeliveredRefs(s.insts[m.id], EventsOf(m.command, Sounds(s.channels, m.id)));
    }
  }

  lemma RefsKept(s: State, a: Action, id: nat)
    requires Valid(s) && Enabled(s, a) && id < |s.insts| && RefsRight(s, id)
    ensures RefsRight(Apply(s, a), id)
  {
    match a
    case Begin(t, c, i) => BeginKeepsRefs(s, t, c, i, id);
    case Write(t) => WriteKeepsRefs(s, t, id);
    case BeginSync(t) => BeginSyncKeepsRefs(s, t, id);
    case WriteSync(t) => WriteSyncKeepsRefs(s, t, id);
    case Execute => ExecuteKeepsRefs(s, id);
    case Raise(_) => OtherStepKeepsRefs(s, a, id);
    case Shutdown => OtherStepKeepsRefs(s, a, id);
    case Release => OtherStepKeepsRefs(s, a, id);
    case SampleEnds(c) => EndKeepsRefs(s, c, id);
    case _ =>
  }

  lemma EndKeepsRefs(s: State, c: nat, id: nat)
    requires Valid(s) && Enabled(s, SampleEnds(c)) && id < |s.insts| && RefsRight(s, id)
    ensures RefsRight(Apply(s, SampleEnds(c)), id)
  {
    CountUpdate(s.channels, c, End(s.channels, c)[c], HoldsIt(id));
  }

  lemma OtherStepKeepsRefs(s: State, a: Action, id: nat)
    requires Valid(s) && Enabled(s, a) && id < |s.insts| && RefsRight(s, id)
    requires a.Raise? || a.Shutdown? || a.Release?
    ensures RefsRight(Apply(s, a), id)
  {
    match a
    case Raise(t) => CountUpdate(s.threads, t, Raised(s.threads[t].id), HasRef(id));
    case Shutdown => CountWritten(s.pipe, s.released, Message(Exit, 0, 0), Names(id));
    case Release => CountTaken(s.pipe, s.released, Names(id));
  }

  // ---- the sync counter ----------------------------------------------------------------------------------

  function SyncsOf(id: nat): Message -> bool {
    (m: Message) => m.command == Command.Sync && m.id == id
  }

  /** The thread has raised the counter of the instance and not yet written its SYNC. */
  function InWindow(id: nat): Thread -> bool {
    (t: Thread) => (t.Raised? || t.SendingSync?) && t.id == id
  }

  /** The counter is the number of SYNCs on their way, written or about to be. */
  ghost predicate CounterRight(s: State, id: nat)
    requires s.executed <= |s.pipe| && id < |s.insts|
  {
    s.insts[id].audioCmdSync == Count(s.pipe[s.executed..], SyncsOf(id)) + Count(s.threads, InWindow(id))
  }

  lemma HandledSyncs(i: Instance, c: Command, t: seq<Entry<nat>>, id: nat)
    ensures Handle(i, c, t, id).audioCmdSync == i.audioCmdSync - (if c == Command.Sync then 1 else 0)
  {
    DeliverOne(i, EventsOf(c, Sounds(t, id)));
  }

  lemma CounterOfNew(s: State)
    requires Valid(s)
    ensures CounterRight(Apply(s, Open), |s.insts|)
  {
    CountNone(s.pipe[s.executed..], SyncsOf(|s.insts|));
    CountNone(s.threads, InWindow(|s.insts|));
  }

  lemma CounterKept(s: State, a: Action, id: nat)
    requires Valid(s) && Enabled(s, a) && id < |s.insts| && CounterRight(s, id)
    ensures CounterRight(Apply(s, a), id)
  {
    match a
    case Begin(_, _, _) => ThreadStepKeepsCounter(s, a, id);
    case Raise(_) => ThreadStepKeepsCounter(s, a, id);
    case BeginSync(_) => ThreadStepKeepsCounter(s, a, id);
    case Write(t) => WriteKeepsCounter(s, t, id);
    case WriteSync(t) => WriteSyncKeepsCounter(s, t, id);
    case Shutdown => CountWritten(s.pipe, s.executed, Message(Exit, 0, 0), SyncsOf(id));
    case Execute => ExecuteKeepsCounter(s, id);
    case _ =>
  }

  lemma ThreadStepKeepsCounter(s: State, a: Action, id: nat)
    requires Valid(s) && Enabled(s, a) && id < |s.insts| && CounterRight(s, id)
    requires a.Begin? || a.Raise? || a.BeginSync?
    ensures CounterRight(Apply(s, a), id)
  {
    match a
    case Begin(t, c, i) => CountUpdate(s.threads, t, Sending(c, i), InWindow(id));
    case Raise(t) => CountUpdate(s.threads, t, Raised(s.threads[t].id), InWindow(id));
    case BeginSync(t) => CountUpdate(s.threads, t, SendingSync(s.threads[t].id), InWindow(id));
  }

  lemma WriteKeepsCounter(s: State, t: nat, id: nat)
    requires Valid(s) && Enabled(s, Write(t)) && id < |s.insts| && CounterRight(s, id)
    ensures CounterRight(Apply(s, Write(t)), id)
  {
    var i := s.threads[t].id;
    CountUpdate(s.threads, t, Sent(i), InWindow(id));
    CountWritten(s.pipe, s.executed, Message(s.threads[t].command, i, t), SyncsOf(id));
  }

  lemma WriteSyncKeepsCounter(s: State, t: nat, id: nat)
    requires Valid(s) && Enabled(s, WriteSync(t)) && id < |s.insts| && CounterRight(s, id)
    ensures CounterRight(Apply(s, WriteSync(t)), id)
  {
    CountUpdate(s.threads, t, Idle, InWindow(id));
    CountWritten(s.pipe, s.executed, Message(Command.Sync, s.threads[t].id, t), SyncsOf(id));
  }

  lemma ExecuteKeepsCounter(s: State, id: nat)
    requires Valid(s) && Enabled(s, Execute) && id < |s.insts| && CounterRight(s, id)
    ensures CounterRight(Apply(s, Execute), id)
  {
    var m := s.pipe[s.executed];
    CountTaken(s.pipe, s.executed, SyncsOf(id));
    if m.command != Exit {
      HandledSyncs(s.insts[m.id], m.command, s.channels, m.id);
    }
  }

  // ---- every command is followed by a SYNC ---------------------------------------------------------------

  /** The command in message `j` has been followed by a SYNC of the same instance, or the thread that
      wrote it is about to send one. */
  ghost predicate Covered(s: State, j: nat)
    requires j < |s.pipe|
  {
    var m := s.pipe[j];
    m.command in {Play, Loop, Stop} ==>
      || (m.thread < |s.threads| && Busy(s.threads[m.thread], m.id) && !s.threads[m.thread].Sending?)
      || exists k | j < k < |s.pipe| :: SyncsOf(m.id)(s.pipe[k])
  }

  lemma CoverKept(s: State, a: Action)
    requires Valid(s) && Enabled(s, a)
    requires forall j | 0 <= j < |s.pipe| :: Covered(s, j)
    ensures forall j | 0 <= j < |Apply(s, a).pipe| :: Covered(Apply(s, a), j)
  {
    var s' := Apply(s, a);
    forall j | 0 <= j < |s'.pipe|
      ensures Covered(s', j)
    {
      if j < |s.pipe| {
        assert Covered(s, j) && s'.pipe[j] == s.pipe[j];
        if k :| j < k < |s.pipe| && SyncsOf(s.pipe[j].id)(s.pipe[k]) {
          assert SyncsOf(s.pipe[j].id)(s'.pipe[k]);
        } else if a.WriteSync? && s.pipe[j].thread == a.t && s.pipe[j].command in {Play, Loop, Stop} {
          assert s'.pipe[|s.pipe|] == Message(Command.Sync, s.threads[a.t].id, a.t);
          assert SyncsOf(s.pipe[j].id)(s'.pipe[|s.pipe|]);
        }
      }
    }
  }

  // ---- events ------------------------------------------------------------------------------------------------

  /** The events of a sample alternate; until the io thread exits they say that it sounds exactly when a
      channel plays it, and so does its instance's flag. */
  ghost predicate EventsRight(s: State, id: nat)
    requires id < |s.insts|
  {
    var i := s.insts[id];
    && FlowOf(i.events) != Broken
    && i.isPlaying == IsPlayingAfter(i.events)
    && (!s.exited ==> FlowOf(i.events) == if Sounds(s.channels, id) then Sounding else Silent)
    && (i.open ==> i.late == 0)
  }

  lemma DeliverRight(i: Instance, ev: Event)
    requires i.isPlaying == IsPlayingAfter(i.events) && (i.open ==> i.late == 0)
    ensures var i' := Deliver(i, ev);
            && i'.events == i.events + [ev]
            && i'.isPlaying == IsPlayingAfter(i'.events) && (i'.open ==> i'.late == 0)
  {
    assert (i.events + [ev])[..|i.events|] == i.events;
  }

  /** A reference more or less is no concern of the events. */
  lemma HandleDelivers(i: Instance, c: Command, t: seq<Entry<nat>>, id: nat)
    ensures var i', d := Handle(i, c, t, id), DeliverAll(i, EventsOf(c, Sounds(t, id)));
            i'.events == d.events && i'.isPlaying == d.isPlaying && i'.open == d.open && i'.late == d.late
  {
  }

  lemma DeliveredRight(i: Instance, evs: seq<Event>)
    requires |evs| <= 1
    requires i.isPlaying == IsPlayingAfter(i.events) && (i.open ==> i.late == 0)
    ensures var i' := DeliverAll(i, evs);
            && i'.events == i.events + evs
            && i'.isPlaying == IsPlayingAfter(i'.events) && (i'.open ==> i'.late == 0)
  {
    DeliverOne(i, evs);
    AppendOne(i.events, evs);
    if evs != [] {
      DeliverRight(i, evs[0]);
    }
  }

  lemma AppendOne(events: seq<Event>, evs: seq<Event>)
    requires |evs| <= 1
    ensures events + evs == if evs == [] then events else events + [evs[0]]
  {
  }

  lemma HandleKeepsFlow(i: Instance, c: Command, t: seq<Entry<nat>>, id: nat)
    requires WellFormed(t) && i.isPlaying == IsPlayingAfter(i.events) && (i.open ==> i.late == 0)
    requires FlowOf(i.events) == if Sounds(t, id) then Sounding else Silent
    ensures var i' := Handle(i, c, t, id);
            && FlowOf(i'.events) == (if Sounds(Effect(t, c, id), id) then Sounding else Silent)
            && i'.isPlaying == IsPlayingAfter(i'.events) && (i'.open ==> i'.late == 0)
  {
    EffectKeeps(t, c, id);
    HandleDelivers(i, c, t, id);
    DeliveredRight(i, EventsOf(c, Sounds(t, id)));
    EventsFlow(i.events, c, Sounds(t, id));
  }

  lemma EventsFlow(events: seq<Event>, c: Command, sounds: bool)
    requires FlowOf(events) == if sounds then Sounding else Silent
    ensures FlowOf(events + EventsOf(c, sounds))
         == if c in {Play, Loop} || (sounds && c != Stop) then Sounding else Silent
  {
    var evs := EventsOf(c, sounds);
    AppendOne(events, evs);
    if evs != [] {
      FlowAppend(events, evs[0]);
    }
  }

  lemma EventsKept(s: State, a: Action, id: nat)
    requires Valid(s) && Enabled(s, a) && id < |s.insts| && EventsRight(s, id)
    ensures EventsRight(Apply(s, a), id)
  {
    match a
    case Execute =>
      var m := s.pipe[s.executed];
      if m.command != Exit {
        ExecuteKeepsEvents(s, id);
      }
    case SampleEnds(c) => EndKeepsEvents(s, c, id);
    case _ =>
  }

  lemma EndKeepsEvents(s: State, c: nat, id: nat)
    requires Valid(s) && Enabled(s, SampleEnds(c)) && id < |s.insts| && EventsRight(s, id)
    ensures EventsRight(Apply(s, SampleEnds(c)), id)
  {
    var i := s.channels[c].sample.value;
    EndKeeps(s.channels, c);
    FindUnique(s.channels, i, c);
    if i == id {
      DeliverRight(s.insts[i], Event.Stopped);
      FlowAppend(s.insts[i].events, Event.Stopped);
    }
  }

  lemma ExecuteKeepsEvents(s: State, id: nat)
    requires Valid(s) && Enabled(s, Execute) && id < |s.insts| && EventsRight(s, id)
    requires s.pipe[s.executed].command != Exit
    ensures EventsRight(Apply(s, Execute), id)
  {
    var m := s.pipe[s.executed];
    if m.id == id {
      HandleKeepsFlow(s.insts[id], m.command, s.channels, id);
    } else {
      EffectKeeps(s.channels, m.command, m.id);
    }
  }

  // ---- which samples are on channels ----------------------------------------------------------------------------

  /** The last play, loop or stop among the messages of an instance is a play or a loop. */
  predicate Wants(pipe: seq<Message>, id: nat) {
    if pipe == [] then false
    else
      var last := pipe[|pipe| - 1];
      if last.id == id && last.command in {Play, Loop} then true
      else if last.id == id && last.command == Stop then false
      else Wants(pipe[..|pipe| - 1], id)
  }

  /** Until the io thread exits, a channel holds the sample exactly when the last command executed for it
      is a play or a loop: a sample that has come to its end stays on its channel. */
  ghost predicate HoldingRight(s: State, id: nat)
    requires s.executed <= |s.pipe|
  {
    !s.exited ==> (Holds(s.channels, id) <==> Wants(s.pipe[..s.executed], id))
  }

  lemma HoldingKept(s: State, a: Action, id: nat)
    requires Valid(s) && Enabled(s, a) && HoldingRight(s, id)
    ensures HoldingRight(Apply(s, a), id)
  {
    match a
    case Execute => ExecuteKeepsHolding(s, id);
    case SampleEnds(c) =>
      EndKeeps(s.channels, c);
      FindUnique(s.channels, s.channels[c].sample.value, c);
    case Write(_) => assert Apply(s, a).pipe[..s.executed] == s.pipe[..s.executed];
    case WriteSync(_) => assert Apply(s, a).pipe[..s.executed] == s.pipe[..s.executed];
    case Shutdown => assert Apply(s, a).pipe[..s.executed] == s.pipe[..s.executed];
    case _ =>
  }

  lemma ExecuteKeepsHolding(s: State, id: nat)
    requires Valid(s) && Enabled(s, Execute) && HoldingRight(s, id)
    ensures HoldingRight(Apply(s, Execute), id)
  {
    var m := s.pipe[s.executed];
    assert s.pipe[..s.executed + 1][..s.executed] == s.pipe[..s.executed];
    EffectKeeps(s.channels, m.command, m.id);
  }

  lemma {:induction false} WantsIgnores(pipe: seq<Message>, n: nat, id: nat)
    requires n <= |pipe|
    requires forall j | n <= j < |pipe| :: !Names(id)(pipe[j])
    ensures Wants(pipe, id) == Wants(pipe[..n], id)
    decreases |pipe|
  {
    if n < |pipe| {
      WantsIgnores(pipe[..|pipe| - 1], n, id);
      assert pipe[..|pipe| - 1][..n] == pipe[..n];
    } else {
      assert pipe[..n] == pipe;
    }
  }

  // ---- the invariant over runs -----------------------------------------------------------------------------------

  /** All is right with one instance. */
  ghost predicate InstanceRight(s: State, id: nat)
    requires Valid(s) && id < |s.insts|
  {
    RefsRight(s, id) && CounterRight(s, id) && EventsRight(s, id) && HoldingRight(s, id)
  }

  ghost predicate Inv(s: State) {
    && Valid(s)
    && (forall j | 0 <= j < |s.pipe| :: Covered(s, j))
    && (forall id | 0 <= id < |s.insts| :: InstanceRight(s, id))
  }

  lemma InvKept(s: State, a: Action)
    requires Inv(s) && Enabled(s, a)
    ensures Inv(Apply(s, a))
  {
    ValidKept(s, a);
    CoverKept(s, a);
    forall id | 0 <= id < |Apply(s, a).insts|
      ensures InstanceRight(Apply(s, a), id)
    {
      if id < |s.insts| {
        assert InstanceRight(s, id);
        InstanceKept(s, a, id);
      } else {
        NewInstanceRight(s);
      }
    }
  }

  lemma InstanceKept(s: State, a: Action, id: nat)
    requires Valid(s) && Enabled(s, a) && id < |s.insts| && InstanceRight(s, id)
    ensures Valid(Apply(s, a)) && InstanceRight(Apply(s, a), id)
  {
    ValidKept(s, a);
    RefsKept(s, a, id);
    CounterKept(s, a, id);
    EventsKept(s, a, id);
    HoldingKept(s, a, id);
  }

  lemma NewInstanceRight(s: State)
    requires Inv(s)
    ensures var s', id := Apply(s, Open), |s.insts|;
            Valid(s') && InstanceRight(s', id)
  {
    ValidKept(s, Open);
    RefsOfNew(s);
    CounterOfNew(s);
    NeverNamed(s.pipe[..s.executed], |s.insts|);
  }

  lemma {:induction false} NeverNamed(pipe: seq<Message>, id: nat)
    requires forall j | 0 <= j < |pipe| :: !Names(id)(pipe[j])
    ensures !Wants(pipe, id)
  {
    WantsIgnores(pipe, 0, id);
    assert pipe[..0] == [];
  }
}
