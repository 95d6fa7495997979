/** Whole runs of the objects: whatever clients do, and however often the main loop turns, the output puts out
    the periods that the model of playback says.
 */
module Performance {
  import opened Pcm
  import opened Adpcm
  import opened S5Prom
  import opened ChannelTable
  import opened Transfer
  import opened EmbeddedApi
  import opened Commands
  import opened Protocol
  import opened Guarantees
  import opened Turns
  import opened Refinement
  import opened Playback

  /** What is done to the objects. */
  datatype Act =
    | OpenSample(host: HostOrder, resample: bool, data: seq<byte>)
    | TakeRef(id: nat)                       // for a message about to be written
    | Put(command: Command, id: nat)         // a message is written to the pipe
    | CloseHandle(id: nat)
    | RaiseCounter
    | Period(n: nat)                         // a turn of the main loop

  /** Doing `d` in the model is doing `act` to the objects. */
  ghost predicate DoneBy(x: Scene, d: Doing, act: Act)
    requires Right(x) && Allowed(x, d)
  {
    match d
    case Opens(full) => act.OpenSample? && full == Stream(act.resample, act.data)
    case Turn(n) => act == Period(n)
    case Client(a) =>
      match a
      case Begin(_, _, id) => act == TakeRef(id)
      case BeginSync(t) => act == TakeRef(x.w.s.threads[t].id)
      case Write(t) => act == Put(x.w.s.threads[t].command, x.w.s.threads[t].id)
      case WriteSync(t) => act == Put(Command.Sync, x.w.s.threads[t].id)
      case Shutdown => act.Put? && act.command == Exit
      case CloseInstance(id) => act == CloseHandle(id)
      case _ => act == RaiseCounter
  }

  /** Opening an instance for some data, any step of a client that the protocol lets it take, and a turn of the main
      loop whenever the io thread is free and the voices fit, are allowed by the model, and there is an act that
      does it to the objects. */
  lemma ActFor(x: Scene, d: Doing, host: HostOrder, resample: bool, data: seq<byte>) returns (act: Act)
    requires Right(x)
    requires d.Opens? ==> d.full == Stream(resample, data)
    requires d.Client? ==> Enabled(x.w.s, d.a) && d.a != Open
    requires d.Client? ==> !(d.a.Take? || d.a.Execute? || d.a.Release? || d.a.SampleEnds? || d.a.CloseChannel?)
    requires d.Turn? ==> IoFree(x.w.s) && (DrainedWorld(x.w).s.exited || AllFit(DueIn(x.w, x.streams), d.n))
    ensures Allowed(x, d) && DoneBy(x, d, act)
  {
    match d
    case Opens(_) => act := OpenSample(host, resample, data);
    case Turn(n) => act := Period(n);
    case Client(a) =>
      match a
      case Begin(_, _, id) => act := TakeRef(id);
      case BeginSync(t) => act := TakeRef(x.w.s.threads[t].id);
      case Write(t) => act := Put(x.w.s.threads[t].command, x.w.s.threads[t].id);
      case WriteSync(t) => act := Put(Command.Sync, x.w.s.threads[t].id);
      case Shutdown => act := Put(Exit, 0);
      case CloseInstance(id) => act := CloseHandle(id);
      case _ => act := RaiseCounter;
  }

  /** The acts do, one after the other, what the doings say. */
  ghost predicate Follows(x: Scene, doings: seq<Doing>, acts: seq<Act>)
    requires Right(x)
    decreases |doings|
  {
    && |acts| == |doings|
    && (doings != [] ==>
          && Allowed(x, doings[0]) && DoneBy(x, doings[0], acts[0])
          && (DidRight(x, doings[0]); Follows(Did(x, doings[0]), doings[1..], acts[1..])))
  }

  /** The periods of a run. */
  ghost function Outputs(x: Scene, doings: seq<Doing>, acts: seq<Act>): seq<seq<uint16>>
    requires Right(x) && Follows(x, doings, acts)
    decreases |doings|
  {
    if doings == [] then []
    else
      DidRight(x, doings[0]);
      OutputOf(x, doings[0]) + Outputs(Did(x, doings[0]), doings[1..], acts[1..])
  }

  /** The objects are as the scene has them. */
  ghost predicate Performs(api: Api, names: seq<Sample>, queue: seq<(Command, Option<Sample>)>, x: Scene)
    reads api, api.bucket`locked, api.bucket`items, api.bucket`nOutputs, api.bucket`nOutputsFree,
          api.bucket`nOutputsUsed, api.bucket.items, api.owned, api.samples, names
  {
    && Right(x) && |names| == |x.heard| && InStep(api, names, x.w) && x.streams == StreamsOf(names)
    && (!x.w.s.exited ==> QueueFor(queue, x.w.s, names))
  }

  // ---- the acts ----------------------------------------------------------------------------------------------

  method OpenInStep(api: Api, ghost names: seq<Sample>, ghost w: World, host: HostOrder, resample: bool,
                    data: seq<byte>)
    returns (y: Sample)
    requires InStep(api, names, w) && Protocol.Valid(w.s)
    modifies api`samples
    ensures fresh(y) && y.resample == resample && y.data == data
    ensures InStep(api, names + [y], World(Apply(w.s, Open), w.places + [0]))
  {
    assert Mirrors(api, names, w);
    y := OpenNext(api, names, w, host, resample, data);
    InvKept(w.s, Open);
  }

  method DoOpen(api: Api, names: seq<Sample>, queue: seq<(Command, Option<Sample>)>, ghost x: Scene,
                host: HostOrder, resample: bool, data: seq<byte>)
    returns (y: Sample)
    requires Performs(api, names, queue, x)
    modifies api`samples
    ensures fresh(y) && Performs(api, names + [y], queue, Did(x, Opens(Stream(resample, data))))
  {
    y := OpenInStep(api, names, x.w, host, resample, data);
    OpensRight(x, Stream(resample, data));
    StreamsMore(names, y);
    QueueStays(queue, x.w.s, Apply(x.w.s, Open), names, y);
  }

  lemma StreamsMore(names: seq<Sample>, y: Sample)
    ensures StreamsOf(names + [y]) == StreamsOf(names) + [Stream(y.resample, y.data)]
  {
  }

  lemma QueueStays(queue: seq<(Command, Option<Sample>)>, s: State, s': State, names: seq<Sample>, y: Sample)
    requires s'.pipe == s.pipe && s'.taken == s.taken
    ensures QueueFor(queue, s, names) ==> QueueFor(queue, s', names + [y])
  {
  }

  /** A client's step leaves streams, and what has been heard, alone. */
  lemma ClientDid(x: Scene, a: Action)
    requires Right(x) && Allowed(x, Client(a)) && Inv(x.w.s)
    ensures var x' := Did(x, Client(a));
            && Right(x') && Inv(x'.w.s) && x' == x.(w := x.w.(s := Apply(x.w.s, a)))
    ensures Apply(x.w.s, a).exited == x.w.s.exited && Apply(x.w.s, a).taken == x.w.s.taken
    ensures !(a.Write? || a.WriteSync? || a.Shutdown?) ==> Apply(x.w.s, a).pipe == x.w.s.pipe
  {
    ClientRight(x, a);
    InvKept(x.w.s, a);
  }

  /** A step that writes no message leaves the queue as it is. */
  lemma QueueOn(queue: seq<(Command, Option<Sample>)>, x: Scene, a: Action, names: seq<Sample>)
    requires Right(x) && Allowed(x, Client(a)) && !(a.Write? || a.WriteSync? || a.Shutdown?)
    requires !x.w.s.exited ==> QueueFor(queue, x.w.s, names)
    ensures !Apply(x.w.s, a).exited ==> QueueFor(queue, Apply(x.w.s, a), names)
  {
  }

  method TakeRefInStep(api: Api, ghost names: seq<Sample>, ghost w: World, y: Sample, ghost a: Action, ghost id: nat)
    requires InStep(api, names, w) && Protocol.Valid(w.s) && Enabled(w.s, a)
    requires (a.Begin? && id == a.id) || (a.BeginSync? && id == w.s.threads[a.t].id)
    requires id < |names| && y == names[id]
    modifies y`ref
    ensures InStep(api, names, w.(s := Apply(w.s, a)))
  {
    assert Mirrors(api, names, w);
    InvKept(w.s, a);
    TakeRefNext(api, names, w, y, a, id);
  }

  method DoTakeRef(api: Api, names: seq<Sample>, queue: seq<(Command, Option<Sample>)>, ghost x: Scene, ghost a: Action,
                   id: nat)
    requires Performs(api, names, queue, x) && Allowed(x, Client(a))
    requires (a.Begin? && id == a.id) || (a.BeginSync? && id == x.w.s.threads[a.t].id)
    modifies names
    ensures Performs(api, names, queue, Did(x, Client(a)))
  {
    InStepInv(api, names, x.w);
    ClientDid(x, a);
    TakeRefInStep(api, names, x.w, names[id], a, id);
    QueueOn(queue, x, a, names);
  }

  lemma InStepInv(api: Api, names: seq<Sample>, w: World)
    requires InStep(api, names, w)
    ensures Inv(w.s)
  {
    assert Mirrors(api, names, w);
  }

  method CloseInStep(api: Api, ghost names: seq<Sample>, ghost w: World, y: Sample, ghost id: nat)
    requires InStep(api, names, w) && Protocol.Valid(w.s) && Enabled(w.s, CloseInstance(id))
    requires id < |names| && y == names[id]
    modifies api`samples, y`ref
    ensures InStep(api, names, w.(s := Apply(w.s, CloseInstance(id))))
  {
    assert Mirrors(api, names, w);
    InvKept(w.s, CloseInstance(id));
    CloseNext(api, names, w, y, id);
  }

  method DoClose(api: Api, names: seq<Sample>, queue: seq<(Command, Option<Sample>)>, ghost x: Scene, id: nat)
    requires Performs(api, names, queue, x) && Allowed(x, Client(CloseInstance(id)))
    modifies api`samples, names
    ensures Performs(api, names, queue, Did(x, Client(CloseInstance(id))))
  {
    InStepInv(api, names, x.w);
    ClientDid(x, CloseInstance(id));
    CloseInStep(api, names, x.w, names[id], id);
    QueueOn(queue, x, CloseInstance(id), names);
  }

  /** The message that is written. */
  lemma PutIs(x: Scene, a: Action, command: Command, id: nat) returns (m: Message)
    requires Right(x) && Allowed(x, Client(a)) && (a.Write? || a.WriteSync? || a.Shutdown?)
    requires DoneBy(x, Client(a), Put(command, id))
    ensures Apply(x.w.s, a).pipe == x.w.s.pipe + [m] && Apply(x.w.s, a).taken == x.w.s.taken
    ensures m.command == command && (command != Exit ==> m.id == id < |x.w.s.insts|)
  {
    match a
    case Write(t) => m := Message(x.w.s.threads[t].command, x.w.s.threads[t].id, t);
    case WriteSync(t) => m := Message(Command.Sync, x.w.s.threads[t].id, t);
    case Shutdown => m := Message(Exit, 0, 0);
  }

  lemma QueueGrows(queue: seq<(Command, Option<Sample>)>, s: State, s': State, names: seq<Sample>,
                   message: (Command, Option<Sample>), m: Message)
    requires QueueFor(queue, s, names) && StandsFor(message, m, names)
    requires s'.pipe == s.pipe + [m] && s'.taken == s.taken
    ensures QueueFor(queue + [message], s', names)
  {
  }

  method DoPut(api: Api, names: seq<Sample>, queue: seq<(Command, Option<Sample>)>, ghost x: Scene, ghost a: Action,
               command: Command, id: nat)
    returns (queue': seq<(Command, Option<Sample>)>)
    requires Performs(api, names, queue, x) && Allowed(x, Client(a)) && (a.Write? || a.WriteSync? || a.Shutdown?)
    requires DoneBy(x, Client(a), Put(command, id))
    ensures Performs(api, names, queue', Did(x, Client(a)))
  {
    assert Mirrors(api, names, x.w);
    ghost var m := PutIs(x, a, command, id);
    var message := (command, if command == Exit then None else Some(names[id]));
    queue' := queue + [message];
    PutNext(api, names, queue, x, a, message, m);
  }

  lemma PutNext(api: Api, names: seq<Sample>, queue: seq<(Command, Option<Sample>)>, x: Scene, a: Action,
                message: (Command, Option<Sample>), m: Message)
    requires Performs(api, names, queue, x) && Allowed(x, Client(a)) && (a.Write? || a.WriteSync? || a.Shutdown?)
    requires StandsFor(message, m, names)
    requires Apply(x.w.s, a).pipe == x.w.s.pipe + [m] && Apply(x.w.s, a).taken == x.w.s.taken
    ensures Performs(api, names, queue + [message], Did(x, Client(a)))
  {
    assert Mirrors(api, names, x.w);
    ElsewhereNext(api, names, x.w, a);
    ClientDid(x, a);
    if !x.w.s.exited {
      QueueGrows(queue, x.w.s, Apply(x.w.s, a), names, message, m);
    }
  }

  lemma DoRaise(api: Api, names: seq<Sample>, queue: seq<(Command, Option<Sample>)>, x: Scene, a: Action)
    requires Performs(api, names, queue, x) && Allowed(x, Client(a)) && a.Raise?
    ensures Performs(api, names, queue, Did(x, Client(a)))
  {
    assert Mirrors(api, names, x.w);
    ElsewhereNext(api, names, x.w, a);
    ClientDid(x, a);
    QueueOn(queue, x, a, names);
  }

  /** The words of a period. */
  function WordsOf(period: seq<Slot>): (r: seq<uint16>)
    ensures |r| == |period| && forall k | 0 <= k < |r| :: r[k] == period[k].Word()
  {
    seq(|period|, k requires 0 <= k < |period| => period[k].Word())
  }

  /** What a turn comes to. */
  lemma TurnIs(x: Scene, n: nat)
    requires Right(x) && Allowed(x, Turn(n))
    ensures var x', v, voices := Did(x, Turn(n)), DrainedWorld(x.w), DueIn(x.w, x.streams);
            && Right(x') && x'.streams == x.streams && |x'.heard| == |x.heard|
            && AllValid(voices) && |voices| == |v.s.channels|
            && if v.s.exited then x'.w == v && OutputOf(x, Turn(n)) == []
               else
                 && x'.w == MixedWorld(v, voices, n) && OutputOf(x, Turn(n)) == [Sums(voices, n)]
                 && x'.w.s.taken == |x'.w.s.pipe|
  {
    DidRight(x, Turn(n));
    EmptiedRight(x);
    RightVoices(Emptied(x));
  }

  method DoPeriod(api: Api, names: seq<Sample>, queue: seq<(Command, Option<Sample>)>, ghost x: Scene, n: nat)
    returns (output: seq<seq<uint16>>)
    requires Performs(api, names, queue, x) && Allowed(x, Turn(n))
    modifies api.bucket, api.bucket.items, api, api.owned, names
    ensures Performs(api, names, [], Did(x, Turn(n)))
    ensures output == OutputOf(x, Turn(n))
    ensures fresh(api.owned - old(api.owned))
    ensures api.bucket.items == old(api.bucket.items) || fresh(api.bucket.items)
  {
    TurnIs(x, n);
    var dst := new Slot[n](_ => SILENCE);
    output := TakeTurn(api, names, queue, x.w, DueIn(x.w, x.streams), dst);
  }

  lemma SameWords(period: seq<Slot>, voices: seq<Option<Voice>>)
    requires AllValid(voices) && SumsUp(period, voices)
    ensures WordsOf(period) == Sums(voices, |period|)
  {
  }

  method TakeTurn(api: Api, names: seq<Sample>, queue: seq<(Command, Option<Sample>)>, ghost w: World,
                  ghost voices: seq<Option<Voice>>, dst: array<Slot>)
    returns (output: seq<seq<uint16>>)
    requires Protocol.Valid(w.s) && IoFree(w.s) && |names| == |w.s.insts| == |w.places| && InStep(api, names, w)
    requires QueueFor(queue, w.s, names)
    requires voices == DueIn(w, StreamsOf(names)) && AllValid(voices) && |voices| == |DrainedWorld(w).s.channels|
    requires !DrainedWorld(w).s.exited ==> AllFit(voices, dst.Length)
    modifies api.bucket, api.bucket.items, api, api.owned, names, dst
    ensures var v := DrainedWorld(w);
            if v.s.exited then InStep(api, names, v) && output == []
            else InStep(api, names, MixedWorld(v, voices, dst.Length)) && output == [Sums(voices, dst.Length)]
    ensures fresh(api.owned - old(api.owned))
    ensures api.bucket.items == old(api.bucket.items) || fresh(api.bucket.items)
  {
    var exits, _ := MainLoopTurn(api, names, w, queue, dst, voices);
    output := [];
    if !exits {
      output := [WordsOf(dst[..])];
      SameWords(dst[..], voices);
    }
  }

  // ---- whole runs ------------------------------------------------------------------------------------------------

  /** One act. */
  method Do(api: Api, names: seq<Sample>, queue: seq<(Command, Option<Sample>)>, ghost x: Scene, ghost d: Doing,
            act: Act)
    returns (names': seq<Sample>, queue': seq<(Command, Option<Sample>)>, output: seq<seq<uint16>>)
    requires Performs(api, names, queue, x) && Allowed(x, d) && DoneBy(x, d, act)
    modifies api.bucket, api.bucket.items, api, api.owned, names
    ensures Performs(api, names', queue', Did(x, d)) && output == OutputOf(x, d)
    ensures forall k | 0 <= k < |names'| :: names'[k] in names || fresh(names'[k])
    ensures fresh(api.owned - old(api.owned))
    ensures api.bucket.items == old(api.bucket.items) || fresh(api.bucket.items)
  {
    names', queue', output := names, queue, [];
    match act {
      case OpenSample(host, resample, data) =>
        var y := DoOpen(api, names, queue, x, host, resample, data);
        names' := names + [y];
      case Period(n) =>
        output := DoPeriod(api, names, queue, x, n);
        queue' := [];
      case _ => queue' := DoClient(api, names, queue, x, d.a, act);
    }
  }

  /** A client's act. */
  method DoClient(api: Api, names: seq<Sample>, queue: seq<(Command, Option<Sample>)>, ghost x: Scene, ghost a: Action,
                  act: Act)
    returns (queue': seq<(Command, Option<Sample>)>)
    requires Performs(api, names, queue, x) && Allowed(x, Client(a)) && DoneBy(x, Client(a), act)
    modifies api`samples, names
    ensures Performs(api, names, queue', Did(x, Client(a)))
  {
    queue' := queue;
    match act {
      case TakeRef(id) => DoTakeRef(api, names, queue, x, a, id);
      case Put(command, id) => queue' := DoPut(api, names, queue, x, a, command, id);
      case CloseHandle(id) => DoClose(api, names, queue, x, id);
      case RaiseCounter => DoRaise(api, names, queue, x, a);
    }
  }

  method Continue(api: Api, names: seq<Sample>, queue: seq<(Command, Option<Sample>)>, ghost x: Scene,
                  ghost doings: seq<Doing>, acts: seq<Act>)
    returns (outputs: seq<seq<uint16>>)
    requires Performs(api, names, queue, x) && Follows(x, doings, acts)
    modifies api.bucket, api.bucket.items, api, api.owned, names
    ensures outputs == Outputs(x, doings, acts)
    decreases |acts|
  {
    outputs := [];
    if acts != [] {
      DidRight(x, doings[0]);
      var names', queue', output := Do(api, names, queue, x, doings[0], acts[0]);
      var rest := Continue(api, names', queue', Did(x, doings[0]), doings[1..], acts[1..]);
      outputs := output + rest;
    }
  }

  /** Any run of clients and main loop, on objects made for it: what comes out is what the model of playback
      says, of which GaplessPlayback speaks. */
  method Perform(ghost threads: nat, ghost doings: seq<Doing>, acts: seq<Act>) returns (outputs: seq<seq<uint16>>)
    requires Follows(Opening(threads), doings, acts)
    ensures outputs == Outputs(Opening(threads), doings, acts)
  {
    var api := Setup(threads);
    assert StreamsOf([]) == [];
    outputs := Continue(api, [], [], Opening(threads), doings, acts);
  }
}
