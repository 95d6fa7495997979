/** The embedded output: the table of channels, the commands of its io thread and the filling of DMA
    periods.
 */
module EmbeddedApi {
  import opened Pcm
  import opened Adpcm
  import opened Events
  import opened S5Prom
  import opened ChannelTable
  import opened Transfer
  import opened Channels
  import opened Bucket
  import Commands

  /** A sample and the channels agree: its events say that it sounds exactly when a channel plays it,
      and when none does it is rewound. */
  ghost predicate Agrees(s: Sample, t: seq<Entry<Sample>>)
    reads s
  {
    && s.Valid()
    && FlowOf(s.events) == (if Sounds(t, s) then Sounding else Silent)
    && (Sounds(t, s) || s.frame.isReset)
  }

  /** struct embedded_api_instance, with the samples that have been opened and not freed. */
  class Api {
    const bucket: Bucket<Channel>
    ghost var channels: seq<Channel>
    ghost var owned: set<Channel>          // the same as a set
    ghost var table: seq<Entry<Sample>>    // what the channels hold
    ghost var samples: set<Sample>

    constructor ()
      ensures Valid() && bucket.locked == 0
      ensures samples == {}
      ensures table == seq(3, _ => Entry(None, Status.Stopped))
      ensures fresh(bucket) && fresh(bucket.items) && fresh(owned)
    {
      bucket := new Bucket<Channel>();
      channels, owned, samples, table := [], {}, {}, [];
      new;
      var _ := AddChannels(3);
    }

    /** The bucket's items are the channels, which are distinct objects. */
    ghost predicate Lists()
      reads this`channels, this`owned, bucket`items, bucket`nOutputs, bucket`nOutputsFree, bucket`nOutputsUsed,
            bucket.items
    {
      && bucket.Valid()
      && bucket.nOutputsUsed == |channels| <= bucket.items.Length
      && (forall i | 0 <= i < |channels| ::
            bucket.items[i] == Some(channels[i]) && channels[i] in owned && channels[i].index == i)
      && (forall i | |channels| <= i < bucket.items.Length :: bucket.items[i] == None)
    }

    /** The table tells what the channels hold. */
    ghost predicate Shows()
      reads this`channels, this`owned, this`table, owned
    {
      && |table| == |channels|
      && (forall i | 0 <= i < |channels| :: channels[i] in owned)
      && forall i | 0 <= i < |channels| :: table[i] == Entry(channels[i].sample, channels[i].status)
    }

    ghost predicate Valid()
      reads this, bucket`items, bucket`nOutputs, bucket`nOutputsFree, bucket`nOutputsUsed, bucket.items, owned, samples
    {
      && Lists()
      && Shows()
      && WellFormed(table)
      && (forall i | 0 <= i < |table| && table[i].sample.Some? :: table[i].sample.value in samples)
      && (forall s {:trigger Agrees(s, table)} | s in samples :: Agrees(s, table))
    }

    /** When only one sample and its entry in the table have changed, it is enough to look at that sample. */
    twostate lemma OthersAgree(s: Sample)
      requires samples == old(samples)
      requires forall x {:trigger old(Agrees(x, table))} | x in samples :: old(Agrees(x, table))
      requires forall x | x in samples && x != s :: unchanged(x)
      requires forall x | x != s :: Sounds(table, x) == Sounds(old(table), x)
      requires Agrees(s, table)
      ensures forall x {:trigger Agrees(x, table)} | x in samples :: Agrees(x, table)
    {
      forall x | x in samples
        ensures Agrees(x, table)
      {
        if x != s {
          assert old(Agrees(x, table));
        }
      }
    }

    /** The search loops of the play and stop commands. */
    method FindChannel(x: Option<Sample>) returns (i: nat)
      requires Lists() && Shows()
      ensures i == Find(table, x)
    {
      i := 0;
      while i < bucket.nOutputsUsed
        invariant i <= |channels|
        invariant forall j | 0 <= j < i :: channels[j].sample != x
      {
        if bucket.items[i].value.sample == x {
          break;
        }
        i := i + 1;
      }
      FindFirst(table, x, i);
    }

    /** One channel more, stopped and without a sample. */
    method AddChannel() returns (e: int)
      requires Lists() && Shows() && bucket.locked == 0
      modifies bucket, bucket.items, this`channels, this`owned, this`table
      ensures Lists() && Shows() && bucket.locked == 0 && e == 0
      ensures table == old(table) + [Entry(None, Status.Stopped)]
      ensures |channels| == |old(channels)| + 1 && channels[..|old(channels)|] == old(channels)
      ensures fresh(owned - old(owned))
      ensures bucket.items == old(bucket.items) || fresh(bucket.items)
    {
      var c := new Channel(|channels|);
      ghost var slots := bucket.items[..];
      if bucket.nOutputsFree != 0 {
        assert slots[|channels|] == None;
        FirstFree(slots, |channels|);
      }
      e := bucket.Add(Some(c));
      channels, owned := channels + [c], owned + {c};
      table := table + [Entry(None, Status.Stopped)];
    }

    method AddChannels(n: nat) returns (e: int)
      requires Lists() && Shows() && bucket.locked == 0
      modifies bucket, bucket.items, this`channels, this`owned, this`table
      ensures Lists() && Shows() && bucket.locked == 0 && e == 0
      ensures table == old(table) + seq(n, _ => Entry(None, Status.Stopped))
      ensures |channels| == |old(channels)| + n && channels[..|old(channels)|] == old(channels)
      ensures fresh(owned - old(owned))
      ensures bucket.items == old(bucket.items) || fresh(bucket.items)
    {
      e := 0;
      for i := 0 to n
        invariant Lists() && Shows() && bucket.locked == 0 && e == 0
        invariant table == old(table) + seq(i, _ => Entry(None, Status.Stopped))
        invariant |channels| == |old(channels)| + i && channels[..|old(channels)|] == old(channels)
        invariant fresh(owned - old(owned))
        invariant bucket.items == old(bucket.items) || fresh(bucket.items)
      {
        e := AddChannel();
      }
    }

    /** The channel that already holds the sample plays or loops it. */
    method StartChannel(c: Channel, ghost i: nat, s: Sample, asked: Status)
      requires Valid() && s in samples && asked != Status.Stopped
      requires i == Find(table, Some(s)) < |channels| && c == channels[i]
      modifies c`status, s`events, this`table
      ensures Valid()
      ensures table == Play(old(table), s, asked)
      ensures s.events == if old(Sounds(table, s)) then old(s.events) else old(s.events) + [Started]
    {
      ghost var t, events := table, s.events;
      PlayOnHeld(t, s, i, asked);
      assert Agrees(s, t);
      c.Resume(s, asked);
      table := t[i := Entry(Some(s), asked)];
      assert Agrees(s, table) by {
        FlowAppend(events, Started);
      }
      OthersAgree(s);
    }

    /** A channel without a sample takes the sample on, and a reference to it, and starts. */
    method AssignChannel(c: Channel, ghost i: nat, s: Sample, asked: Status)
      requires Valid() && s in samples && asked != Status.Stopped
      requires !Holds(table, s) && Find(table, Some(s)) == |channels|
      requires i == Find(table, None) < |channels| && c == channels[i]
      modifies c, s`events, s`ref, this`table
      ensures Valid()
      ensures table == Play(old(table), s, asked)
      ensures s.events == old(s.events) + [Started]
      ensures s.ref == old(s.ref) + 1
    {
      ghost var t, events := table, s.events;
      PlayOnFree(t, s, i, asked);
      assert Agrees(s, t);
      c.Assign(s, asked);
      table := t[i := Entry(Some(s), asked)];
      assert Agrees(s, table) by {
        FlowAppend(events, Started);
      }
      OthersAgree(s);
    }

    /** One pass of the play command over the channels: the channel that holds the sample, or else
        the first free one. */
    method TryPlay(s: Sample, asked: Status) returns (found: bool)
      requires Valid() && bucket.locked == 0 && s in samples && asked != Status.Stopped
      modifies bucket`locked, owned, s`events, s`ref, this`table
      ensures Valid() && bucket.locked == 0
      ensures found <==> old(Holds(table, s)) || Find(old(table), None) < |channels|
      ensures found ==>
                && table == Play(old(table), s, asked)
                && s.events == (if old(Sounds(table, s)) then old(s.events) else old(s.events) + [Started])
                && s.ref == old(s.ref) + (if old(Holds(table, s)) then 0 else 1)
      ensures !found ==> table == old(table) && s.events == old(s.events) && s.ref == old(s.ref)
    {
      found := false;
      var l, _, _ := bucket.LockItems();
      if l == 0 {
        found := PlayOnChannels(s, asked);
        var _ := bucket.Unlock();
      }
    }

    method PlayOnChannels(s: Sample, asked: Status) returns (found: bool)
      requires Valid() && s in samples && asked != Status.Stopped
      modifies owned, s`events, s`ref, this`table
      ensures Valid()
      ensures found <==> old(Holds(table, s)) || Find(old(table), None) < |channels|
      ensures found ==>
                && table == Play(old(table), s, asked)
                && s.events == (if old(Sounds(table, s)) then old(s.events) else old(s.events) + [Started])
                && s.ref == old(s.ref) + (if old(Holds(table, s)) then 0 else 1)
      ensures !found ==> table == old(table) && s.events == old(s.events) && s.ref == old(s.ref)
    {
      found := false;
      FindHolds(table, s);
      var i := FindChannel(Some(s));
      if i < bucket.nOutputsUsed {
        found := true;
        StartChannel(bucket.items[i].value, i, s, asked);
      } else {
        var j := FindChannel(None);
        if j < bucket.nOutputsUsed {
          found := true;
          AssignChannel(bucket.items[j].value, j, s, asked);
        }
      }
    }

    /** Whatever does not sound is rewound: a start, which leaves the decoder alone, is always a start from
        the first byte. */
    lemma StoppedMeansRewound(s: Sample)
      requires Valid() && s in samples && !Sounds(table, s)
      ensures s.Emitted() == 0 && s.frame.signal == 0 && s.frame.step == 0x7f && s.frame.phase == 0
      ensures s.ate ==> s.data == []
    {
      assert Agrees(s, table);
      assert Stands(s.score, s.frame, s.cursor, s.decoded);
      RewoundIsInitial(s.score, s.frame, s.cursor, s.decoded);
    }

    /** add_channels for one channel, between commands. */
    method AddFreeChannel() returns (e: int)
      requires Valid() && bucket.locked == 0
      modifies bucket, bucket.items, this`channels, this`owned, this`table
      ensures Valid() && bucket.locked == 0 && e == 0
      ensures table == old(table) + [Entry(None, Status.Stopped)]
      ensures fresh(owned - old(owned))
      ensures bucket.items == old(bucket.items) || fresh(bucket.items)
    {
      ghost var t := table;
      e := AddChannels(1);
      assert table == t + [Entry(None, Status.Stopped)];
      forall s | s in samples
        ensures Agrees(s, table)
      {
        assert old(Agrees(s, table));
        SoundsAppend(t, s);
      }
    }

    /** One search of the play command; when it fails a channel is added. */
    method PlayOrAdd(s: Sample, asked: Status) returns (found: bool, e: int)
      requires Valid() && bucket.locked == 0 && s in samples && asked != Status.Stopped
      modifies bucket, bucket.items, this`channels, this`owned, this`table, owned, s`events, s`ref
      ensures Valid() && bucket.locked == 0 && e == 0
      ensures found <==> old(Holds(table, s)) || Find(old(table), None) < |old(table)|
      ensures found ==>
                && table == Play(old(table), s, asked)
                && s.events == (if old(Sounds(table, s)) then old(s.events) else old(s.events) + [Started])
                && s.ref == old(s.ref) + (if old(Holds(table, s)) then 0 else 1)
      ensures !found ==>
                && table == old(table) + [Entry(None, Status.Stopped)]
                && s.events == old(s.events) && s.ref == old(s.ref)
      ensures fresh(owned - old(owned))
      ensures bucket.items == old(bucket.items) || fresh(bucket.items)
    {
      e := 0;
      found := TryPlay(s, asked);
      if !found {
        e := AddFreeChannel();
      }
    }

    /** The play and loop commands.  If no channel holds the sample and none is free, a channel is added
        and the search repeated; `passes` counts the searches. */
    method PlayCommand(s: Sample, asked: Status) returns (e: int, ghost passes: nat)
      requires Valid() && bucket.locked == 0 && s in samples && asked != Status.Stopped
      modifies bucket, bucket.items, this`channels, this`owned, this`table, owned, s`events, s`ref
      ensures Valid() && bucket.locked == 0 && e == 0
      ensures table == Play(old(table), s, asked)
      ensures s.events == if old(Sounds(table, s)) then old(s.events) else old(s.events) + [Started]
      ensures s.ref == old(s.ref) + (if old(Holds(table, s)) then 0 else 1)
      ensures passes == if old(Holds(table, s)) || Find(old(table), None) < |old(table)| then 1 else 2
      ensures fresh(owned - old(owned))
      ensures bucket.items == old(bucket.items) || fresh(bucket.items)
    {
      ghost var t, events, ref := table, s.events, s.ref;
      var found;
      e, passes, found := 0, 0, false;
      while !found
        invariant Valid() && bucket.locked == 0 && e == 0
        invariant bucket.items == old(bucket.items) || fresh(bucket.items)
        invariant fresh(owned - old(owned))
        invariant Searched(s, asked, found, passes, t, events, ref)
        decreases 2 - passes
      {
        found, e := PlayOrAdd(s, asked);
        passes := passes + 1;
        if passes == 1 && !found {
          PlayOnNewChannel(t, s, asked);
        }
      }
    }

    /** How far a play command has come that found the table to be `t`. */
    ghost predicate Searched(s: Sample, asked: Status, found: bool, passes: nat,
                             t: seq<Entry<Sample>>, events: seq<Event>, ref: int)
      reads this`table, s`events, s`ref
    {
      var once := Holds(t, s) || Find(t, None) < |t|;
      if found then
        && passes == (if once then 1 else 2)
        && table == Play(t, s, asked)
        && s.events == (if Sounds(t, s) then events else events + [Started])
        && s.ref == ref + (if Holds(t, s) then 0 else 1)
      else
        && s.events == events && s.ref == ref
        && if passes == 0 then table == t
           else
             && passes == 1 && !once && !Holds(table, s) && !Sounds(table, s) && !Sounds(t, s)
             && |table| == |t| + 1 && Find(table, None) < |table|
             && Play(table, s, asked) == Play(t, s, asked)
    }

    /** The stop command: silence the channel that holds the sample, rewind the sample and take it off
        the channel.  The reference of the command keeps the sample alive. */
    method StopCommand(s: Sample)
      requires Valid() && bucket.locked == 0 && s in samples
      requires Holds(table, s) ==> 1 < s.ref
      modifies bucket`locked, owned, s, this`table
      ensures Valid() && bucket.locked == 0
      ensures table == Stop(old(table), s)
      ensures s.events == if old(Sounds(table, s)) then old(s.events) + [Event.Stopped] else old(s.events)
      ensures s.ref == old(s.ref) - (if old(Holds(table, s)) then 1 else 0)
      ensures s.frame.isReset
    {
      var l, _, _ := bucket.LockItems();
      if l == 0 {
        StopOnChannels(s);
        var _ := bucket.Unlock();
      }
    }

    method StopOnChannels(s: Sample)
      requires Valid() && s in samples
      requires Holds(table, s) ==> 1 < s.ref
      modifies owned, s, this`table
      ensures Valid()
      ensures table == Stop(old(table), s)
      ensures s.events == if old(Sounds(table, s)) then old(s.events) + [Event.Stopped] else old(s.events)
      ensures s.ref == old(s.ref) - (if old(Holds(table, s)) then 1 else 0)
      ensures s.frame.isReset
    {
      FindHolds(table, s);
      assert Agrees(s, table);
      var i := FindChannel(Some(s));
      if i < bucket.nOutputsUsed {
        TakeOff(bucket.items[i].value, i, s);
      }
    }

    method TakeOff(c: Channel, ghost i: nat, s: Sample)
      requires Valid() && s in samples && 1 < s.ref
      requires i == Find(table, Some(s)) < |channels| && c == channels[i]
      modifies c, s, this`table
      ensures Valid()
      ensures table == Stop(old(table), s)
      ensures s.events == if old(Sounds(table, s)) then old(s.events) + [Event.Stopped] else old(s.events)
      ensures s.ref == old(s.ref) - 1
      ensures s.frame.isReset
    {
      ghost var t, events := table, s.events;
      assert Agrees(s, t);
      assert Sounds(t, s) <==> c.status != Status.Stopped by {
        FindUnique(t, s, i);
      }
      c.Release(s);
      table := Stop(t, s);
      StopKeeps(t, s);
      assert Agrees(s, table) by {
        FlowAppend(events, Event.Stopped);
      }
      OthersAgree(s);
    }

    /** An instance opens a sample. */
    method OpenSample(host: HostOrder, resample: bool, data: seq<byte>) returns (s: Sample)
      requires Valid()
      modifies this`samples
      ensures Valid() && samples == old(samples) + {s}
      ensures fresh(s) && s.ref == 1 && s.events == [] && s.score == ScoreOf(resample, data)
      ensures s.resample == resample && s.data == data && s.Emitted() == 0
    {
      s := new Sample(host, resample, data);
      samples := samples + {s};
      assert !Sounds(table, s);
    }

    /** What the io thread does with a command it has taken off the pipe: execute it and give up the
        reference it came with.  The sample is freed when that was the last one, and then no channel
        holds it. */
    method Execute(command: Commands.Command, s: Sample)
      requires Valid() && bucket.locked == 0 && s in samples && command != Commands.Exit
      requires (if Holds(table, s) then 1 else 0) < s.ref
      modifies bucket, bucket.items, this, owned, s
      ensures Valid() && bucket.locked == 0
      ensures table == Commands.Effect(old(table), command, s)
      ensures s.ref == old(s.ref) - 1 + (if Holds(table, s) then 1 else 0) - (if old(Holds(table, s)) then 1 else 0)
      ensures samples == if s.ref == 0 then old(samples) - {s} else old(samples)
      ensures s.ref == 0 ==> !Holds(table, s)
      ensures s.events == old(s.events) + Commands.EventsOf(command, old(Sounds(table, s)))
      ensures s.Emitted() == if command == Commands.Stop then 0 else old(s.Emitted())
      ensures fresh(owned - old(owned))
      ensures bucket.items == old(bucket.items) || fresh(bucket.items)
    {
      Commands.EffectKeeps(table, command, s);
      Perform(command, s);
      Discard(s);
    }

    method Perform(command: Commands.Command, s: Sample)
      requires Valid() && bucket.locked == 0 && s in samples && command != Commands.Exit
      requires Holds(table, s) ==> 1 < s.ref
      modifies bucket, bucket.items, this`channels, this`owned, this`table, owned, s
      ensures Valid() && bucket.locked == 0
      ensures table == Commands.Effect(old(table), command, s)
      ensures s.ref == old(s.ref) + (if Holds(table, s) then 1 else 0) - (if old(Holds(table, s)) then 1 else 0)
      ensures s.events == old(s.events) + Commands.EventsOf(command, old(Sounds(table, s)))
      ensures s.Emitted() == if command == Commands.Stop then 0 else old(s.Emitted())
      ensures fresh(owned - old(owned))
      ensures bucket.items == old(bucket.items) || fresh(bucket.items)
    {
      Commands.EffectKeeps(table, command, s);
      match command {
        case Play => var _, _ := PlayCommand(s, Playing);
        case Loop => var _, _ := PlayCommand(s, Looping);
        case Stop =>
          StopCommand(s);
          assert Agrees(s, table);
        case Sync => SyncCommand(s);
      }
    }

    /** The sync command: tell the instance. */
    method SyncCommand(s: Sample)
      requires Valid() && s in samples
      modifies s`events
      ensures Valid() && s.events == old(s.events) + [Event.Sync]
    {
      ghost var events := s.events;
      assert Agrees(s, table);
      s.OnOutputEvent(Event.Sync);
      assert Agrees(s, table) by {
        FlowAppend(events, Event.Sync);
      }
      OthersAgree(s);
    }

    /** Take a reference, for a command about to be sent. */
    method TakeRef(s: Sample)
      requires Valid() && s in samples
      modifies s`ref
      ensures Valid() && s.ref == old(s.ref) + 1
    {
      assert Agrees(s, table);
      s.AddRef();
      assert Agrees(s, table);
      OthersAgree(s);
    }

    /** Give up a reference. */
    method Discard(s: Sample)
      requires Valid() && s in samples
      requires (if Holds(table, s) then 1 else 0) < s.ref
      modifies s`ref, this`samples
      ensures Valid()
      ensures s.ref == old(s.ref) - 1
      ensures samples == if s.ref == 0 then old(samples) - {s} else old(samples)
    {
      assert Agrees(s, table);
      s.Close();
      if s.ref == 0 {
        samples := samples - {s};
      } else {
        assert Agrees(s, table);
      }
      forall x | x in samples
        ensures Agrees(x, table)
      {
        assert old(Agrees(x, table));
      }
    }

    // ---- filling a period ------------------------------------------------------------------------

    /** A sample that sounded in table `t`, or did not, has fallen silent since and been told so, or nothing
        has happened to it; `was` is what it had been delivered and what referred to it. */
    ghost predicate ToldSince(t: seq<Entry<Sample>>, was: (seq<Event>, int), x: Sample)
      reads this`table, x
    {
      && x.ref == was.1
      && (Sounds(table, x) ==> Sounds(t, x))
      && x.events == if Sounds(t, x) && !Sounds(table, x) then was.0 + [Event.Stopped] else was.0
    }

    ghost predicate Told(t: seq<Entry<Sample>>, was: map<Sample, (seq<Event>, int)>)
      reads this`samples, this`table, samples
    {
      && samples == was.Keys
      && forall x {:trigger ToldSince(t, was[x], x)} | x in samples :: ToldSince(t, was[x], x)
    }

    /** One sounding channel's share of a period. */
    method TransferOne(dst: array<Slot>, c: Channel, ghost i: nat, mix: bool, ghost v: Voice)
      requires Valid() && i < |channels| && c == channels[i] && VoiceOf(c) == Some(v)
      requires c.sample.value in samples
      requires Fits(v, dst.Length)
      modifies dst, c`status, c.sample.value, this`table
      ensures Valid()
      ensures c.sample.value.ref == old(c.sample.value.ref)
      ensures c.sample.value.events
              == if Ended(v, dst.Length) then old(c.sample.value.events) + [Event.Stopped]
                 else old(c.sample.value.events)
      ensures old(Sounds(table, c.sample.value)) && Sounds(table, c.sample.value) == !Ended(v, dst.Length)
      ensures forall x | x != c.sample.value :: Sounds(table, x) == Sounds(old(table), x)
      ensures v.Valid()
      ensures Carries(old(dst[..]), dst[..], dst.Length, v, mix)
      ensures table == if Ended(v, dst.Length) then End(old(table), i) else old(table)
      ensures VoiceOf(c) == if Ended(v, dst.Length) then None else Some(v.(start := Onward(v, dst.Length)))
    {
      ghost var t, s, events := table, c.sample.value, c.sample.value.events;
      assert Agrees(s, t);
      assert Sounds(t, s) by {
        FindUnique(t, s, i);
      }
      TransferChannel(dst, c, c.sample.value, mix);
      if Ended(v, dst.Length) {
        table := End(t, i);
        EndKeeps(t, i);
        assert Agrees(s, table) by {
          FlowAppend(events, Event.Stopped);
        }
        OthersAgree(s);
      }
    }

    /** `voices` are what the channels are about to contribute. */
    ghost predicate Due(voices: seq<Option<Voice>>)
      requires Valid()
      reads this, bucket`items, bucket`nOutputs, bucket`nOutputsFree, bucket`nOutputsUsed, bucket.items, owned, samples
    {
      && |voices| == |channels|
      && forall i | 0 <= i < |channels| :: voices[i] == VoiceOf(channels[i])
    }

    /** What the first `n` channels are about to contribute. */
    ghost function VoicesOf(n: nat): (r: seq<Option<Voice>>)
      requires Valid() && n <= |channels|
      reads this, bucket`items, bucket`nOutputs, bucket`nOutputsFree, bucket`nOutputsUsed, bucket.items, owned, samples
      ensures |r| == n && forall i | 0 <= i < n :: r[i] == VoiceOf(channels[i])
    {
      if n == 0 then []
      else
        assert table[n - 1].sample == channels[n - 1].sample;
        VoicesOf(n - 1) + [VoiceOf(channels[n - 1])]
    }

    /** The channels from `i` on are about to contribute `voices`.  The channels before have been heard
        for `n` frames: they go on from where they stand, or have ended, as the table shows. */
    ghost predicate Heard(voices: seq<Option<Voice>>, i: nat, n: nat, t: seq<Entry<Sample>>)
      reads this`channels, this`owned, this`samples, this`table, owned, samples
    {
      && i <= |voices| == |channels| == |t|
      && (forall j | 0 <= j < |channels| ::
            channels[j] in owned && (channels[j].sample.Some? ==> channels[j].sample.value in samples))
      && (forall j | 0 <= j < |channels| :: VoiceOf(channels[j]) == if j < i then Later(voices[j], n) else voices[j])
      && table == Onwards(t, voices[..i], n)
    }

    /** Distinct channels hold distinct samples, so one channel's turn leaves the voices of the others
        alone. */
    twostate lemma OtherVoicesKept(i: nat)
      requires old(Lists() && Shows() && WellFormed(table))
      requires channels == old(channels) && i < |channels|
      requires channels[i].sample == old(channels[i].sample) && channels[i].sample.Some?
      requires forall j | 0 <= j < |channels| && j != i :: unchanged(channels[j])
      requires forall j | 0 <= j < |channels| && channels[j].sample.Some? && channels[j].sample != channels[i].sample ::
                 unchanged(channels[j].sample.value)
      ensures forall j | 0 <= j < |channels| && j != i :: VoiceOf(channels[j]) == old(VoiceOf(channels[j]))
    {
      forall j | 0 <= j < |channels| && j != i
        ensures VoiceOf(channels[j]) == old(VoiceOf(channels[j]))
      {
        assert old(table[j].sample == channels[j].sample && table[i].sample == channels[i].sample);
      }
    }

    /** The turn of a sounding channel in filling a period: what is heard. */
    method HearSounding(dst: array<Slot>, c: Channel, ghost i: nat, sounds: nat,
                        ghost voices: seq<Option<Voice>>, ghost t: seq<Entry<Sample>>)
      requires Valid() && i < |channels| && c == channels[i] && c.status != Status.Stopped
      requires Heard(voices, i, dst.Length, t)
      requires voices[i].Some? && voices[i].value.Valid() && Fits(voices[i].value, dst.Length)
      modifies dst, c`status, c.sample.value, this`table
      ensures Valid() && Heard(voices, i + 1, dst.Length, t)
      ensures Carries(old(dst[..]), dst[..], dst.Length, voices[i].value, sounds != 0)
      ensures c.sample.value.ref == old(c.sample.value.ref)
      ensures old(Sounds(table, c.sample.value))
      ensures forall x | x != c.sample.value :: Sounds(table, x) == Sounds(old(table), x)
      ensures c.sample.value.events
              == if Sounds(table, c.sample.value) then old(c.sample.value.events)
                 else old(c.sample.value.events) + [Event.Stopped]
    {
      OnwardsStep(t, voices, i, dst.Length);
      assert voices[i] == VoiceOf(c);
      TransferOne(dst, c, i, sounds != 0, voices[i].value);
      OtherVoicesKept(i);
    }

    /** ... and what is told. */
    method MixSounding(dst: array<Slot>, c: Channel, ghost i: nat, sounds: nat,
                       ghost voices: seq<Option<Voice>>, ghost t: seq<Entry<Sample>>,
                       ghost was: map<Sample, (seq<Event>, int)>)
      requires Valid() && i < |channels| && c == channels[i] && c.status != Status.Stopped
      requires Heard(voices, i, dst.Length, t) && Told(t, was)
      requires voices[i].Some? && voices[i].value.Valid() && Fits(voices[i].value, dst.Length)
      modifies dst, c`status, c.sample.value, this`table
      ensures Valid() && Heard(voices, i + 1, dst.Length, t) && Told(t, was)
      ensures Carries(old(dst[..]), dst[..], dst.Length, voices[i].value, sounds != 0)
    {
      ghost var s := c.sample.value;
      assert ToldSince(t, was[s], s);
      HearSounding(dst, c, i, sounds, voices, t);
      forall x | x in samples
        ensures ToldSince(t, was[x], x)
      {
        if x != s {
          assert old(ToldSince(t, was[x], x));
        }
      }
    }

    /** The turn of channel `i` in filling a period. */
    method MixChannel(dst: array<Slot>, c: Channel, ghost i: nat, sounds: nat,
                      ghost voices: seq<Option<Voice>>, ghost t: seq<Entry<Sample>>,
                      ghost was: map<Sample, (seq<Event>, int)>)
      returns (sounds': nat)
      requires Valid() && i < |channels| && c == channels[i]
      requires Heard(voices, i, dst.Length, t) && Told(t, was)
      requires AllValid(voices) && AllFit(voices, dst.Length)
      requires sounds == CountSounding(voices[..i]) && CarriesAll(dst[..], voices[..i])
      modifies dst, owned, samples, this`table
      ensures Valid() && Heard(voices, i + 1, dst.Length, t) && Told(t, was)
      ensures sounds' == CountSounding(voices[..i + 1]) && CarriesAll(dst[..], voices[..i + 1])
    {
      assert voices[i] == VoiceOf(c);
      ghost var before := dst[..];
      sounds' := sounds;
      if c.status != Status.Stopped {
        MixSounding(dst, c, i, sounds, voices, t, was);
        sounds' := sounds + 1;
      } else {
        OnwardsStep(t, voices, i, dst.Length);
      }
      TurnOfVoice(before, dst[..], voices, i);
    }

    /** The loop over the channels. */
    method MixChannels(dst: array<Slot>, list: array<Option<Channel>>, length: int, ghost voices: seq<Option<Voice>>,
                       ghost was: map<Sample, (seq<Event>, int)>)
      returns (sounds: nat)
      requires Valid() && list == bucket.items && length == |channels|
      requires Heard(voices, 0, dst.Length, table) && Told(table, was)
      requires AllValid(voices) && AllFit(voices, dst.Length)
      modifies dst, owned, samples, this`table
      ensures Valid() && Heard(voices, |voices|, dst.Length, old(table)) && Told(old(table), was)
      ensures sounds == CountSounding(voices) && CarriesAll(dst[..], voices)
    {
      sounds := 0;
      var i := 0;
      while i < length
        invariant i <= length
        invariant Valid() && Heard(voices, i, dst.Length, old(table)) && Told(old(table), was)
        invariant sounds == CountSounding(voices[..i]) && CarriesAll(dst[..], voices[..i])
      {
        sounds := MixChannel(dst, list[i].value, i, sounds, voices, old(table), was);
        i := i + 1;
      }
      assert voices[..i] == voices;
    }

    /** Fill one period from all sounding channels.  Each slot of the period comes to hold the sum, modulo
        2^16, of what the sounding channels are due; a period nobody sounds in is silenced. */
    method MixPeriod(dst: array<Slot>, ghost voices: seq<Option<Voice>>, ghost was: map<Sample, (seq<Event>, int)>)
      returns (soundsPlaying: nat)
      requires Valid() && bucket.locked == 0
      requires Due(voices) && Told(table, was)
      requires AllFit(voices, dst.Length)
      modifies bucket`locked, dst, owned, samples, this`table
      ensures Valid() && bucket.locked == 0
      ensures AllValid(voices)
      ensures soundsPlaying == CountSounding(voices)
      ensures forall w | 0 <= w < dst.Length :: dst[w].Word() == Wrap(0, Sum(voices, w))
      ensures Heard(voices, |voices|, dst.Length, old(table)) && Told(old(table), was)
    {
      NothingHeardYet(voices, dst.Length);
      soundsPlaying := MixLocked(dst, voices, was);
      SilenceUnheard(dst, soundsPlaying, voices);
    }

    /** The channels are gone through with the bucket locked. */
    method MixLocked(dst: array<Slot>, ghost voices: seq<Option<Voice>>, ghost was: map<Sample, (seq<Event>, int)>)
      returns (sounds: nat)
      requires Valid() && bucket.locked == 0
      requires Heard(voices, 0, dst.Length, table) && Told(table, was)
      requires AllValid(voices) && AllFit(voices, dst.Length)
      modifies bucket`locked, dst, owned, samples, this`table
      ensures Valid() && bucket.locked == 0
      ensures Heard(voices, |voices|, dst.Length, old(table)) && Told(old(table), was)
      ensures sounds == CountSounding(voices) && CarriesAll(dst[..], voices)
    {
      var list, length := LockChannels();
      sounds := MixChannels(dst, list, length, voices, was);
      UnlockChannels();
    }

    method LockChannels() returns (list: array<Option<Channel>>, length: int)
      requires Valid() && bucket.locked == 0
      modifies bucket`locked
      ensures Valid() && bucket.locked == 1 && list == bucket.items && length == |channels|
    {
      var l;
      l, list, length := bucket.LockItems();
    }

    method UnlockChannels()
      requires Valid() && bucket.locked == 1
      modifies bucket`locked
      ensures Valid() && bucket.locked == 0
    {
      var _ := bucket.Unlock();
    }

    /** With up to ten channels sounding no sum wraps: read as a signed number, a slot of the period holds
        the exact sum. */
    lemma TenChannelsNeverWrap(voices: seq<Option<Voice>>, k: nat)
      requires Valid() && Due(voices) && AllValid(voices)
      requires CountSounding(voices) <= 10
      ensures Signed(Wrap(0, Sum(voices, k))) == Sum(voices, k)
    {
      forall i, x | 0 <= i < |voices| && voices[i].Some? && x in voices[i].value.full
        ensures -3276 <= x <= 3276
      {
        assert voices[i] == VoiceOf(channels[i]) && table[i].sample == channels[i].sample;
        var s := channels[i].sample.value;
        assert Agrees(s, table) && Stands(s.score, s.frame, s.cursor, s.decoded);
        GenuineIsStream(s.score);
        OutputBounds(s.resample, s.data);
      }
      TenVoicesFit(voices, k);
    }

    lemma NothingHeardYet(voices: seq<Option<Voice>>, n: nat)
      requires Valid() && Due(voices)
      ensures AllValid(voices)
      ensures Heard(voices, 0, n, table)
    {
      assert voices[..0] == [];
      forall j | 0 <= j < |channels| && channels[j].sample.Some?
        ensures channels[j].sample.value in samples && channels[j].sample.value.Valid()
      {
        assert table[j].sample == channels[j].sample;
        assert Agrees(channels[j].sample.value, table);
      }
    }
  }

  /** A period in which nothing sounds is silenced. */
  method SilenceUnheard(dst: array<Slot>, sounds: nat, ghost voices: seq<Option<Voice>>)
    requires AllValid(voices)
    requires sounds == CountSounding(voices) && CarriesAll(dst[..], voices)
    modifies dst
    ensures forall w | 0 <= w < dst.Length :: dst[w].Word() == Wrap(0, Sum(voices, w))
  {
    if sounds == 0 {
      Silence(dst, 0);
      NoneSoundingAnywhere(voices);
    }
  }

  lemma FirstFree<T>(slots: seq<Option<T>>, n: nat)
    requires n < |slots| && slots[n] == None
    requires forall i | 0 <= i < n :: slots[i] != None
    ensures FirstSlot(slots, None, 0) == n
  {
  }
}
