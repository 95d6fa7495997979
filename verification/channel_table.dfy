/** The output channels as a table: which sample each channel holds and whether it sounds.
    These functions say what the play, loop and stop commands and the end of a one-shot sample make
    of the table; the objects are in api.dfy and the threads around them in protocol.dfy.
 */
module ChannelTable {

  datatype Option<+T> = None | Some(value: T)

  datatype Status = Stopped | Playing | Looping

  datatype Entry<S> = Entry(sample: Option<S>, status: Status)

  /** The first channel with a given sample, or with none; the number of channels if there is none
      such. */
  function Find<S(==)>(t: seq<Entry<S>>, x: Option<S>): (i: nat)
    ensures i <= |t|
    ensures i < |t| ==> t[i].sample == x
    ensures forall j | 0 <= j < i :: t[j].sample != x
  {
    if t == [] || t[0].sample == x then 0 else 1 + Find(t[1..], x)
  }

  /** Some channel holds the sample. */
  ghost predicate Holds<S>(t: seq<Entry<S>>, s: S) {
    exists i | 0 <= i < |t| :: t[i].sample == Some(s)
  }

  /** Some channel holds the sample and is playing or looping. */
  ghost predicate Sounds<S>(t: seq<Entry<S>>, s: S) {
    exists i | 0 <= i < |t| :: t[i].sample == Some(s) && t[i].status != Stopped
  }

  /** No two channels hold the same sample, and a channel without a sample is stopped. */
  ghost predicate WellFormed<S>(t: seq<Entry<S>>) {
    && (forall i, j | 0 <= i < j < |t| && t[i].sample.Some? :: t[i].sample != t[j].sample)
    && (forall i | 0 <= i < |t| && t[i].sample.None? :: t[i].status == Stopped)
  }

  /** The play and loop commands. */
  function Play<S(==)>(t: seq<Entry<S>>, s: S, status: Status): seq<Entry<S>> {
    var i, j := Find(t, Some(s)), Find(t, None);
    var e := Entry(Some(s), status);
    if i < |t| then t[i := e] else if j < |t| then t[j := e] else t + [e]
  }

  /** The stop command. */
  function Stop<S(==)>(t: seq<Entry<S>>, s: S): seq<Entry<S>> {
    var i := Find(t, Some(s));
    if i < |t| then t[i := Entry(None, Stopped)] else t
  }

  /** A one-shot sample has come to its end: the channel keeps it. */
  function End<S>(t: seq<Entry<S>>, i: nat): seq<Entry<S>>
    requires i < |t|
  {
    t[i := t[i].(status := Stopped)]
  }

  lemma FindHolds<S>(t: seq<Entry<S>>, s: S)
    ensures Find(t, Some(s)) < |t| <==> Holds(t, s)
  {
    if Find(t, Some(s)) < |t| {
      assert t[Find(t, Some(s))].sample == Some(s);
    }
    if k :| 0 <= k < |t| && t[k].sample == Some(s) {
      assert Find(t, Some(s)) <= k;
    }
  }

  /** In a well-formed table the channel that holds a sample is the one that is found. */
  lemma FindUnique<S>(t: seq<Entry<S>>, s: S, i: nat)
    requires WellFormed(t) && i < |t| && t[i].sample == Some(s)
    ensures Find(t, Some(s)) == i
    ensures Holds(t, s) && (Sounds(t, s) <==> t[i].status != Stopped)
  {
  }

  lemma {:induction false} FindFirst<S>(t: seq<Entry<S>>, x: Option<S>, i: nat)
    requires i <= |t|
    requires forall j | 0 <= j < i :: t[j].sample != x
    requires i < |t| ==> t[i].sample == x
    ensures Find(t, x) == i
  {
    if i > 0 {
      FindFirst(t[1..], x, i - 1);
    }
  }

  /** A table that differs from another in the entry of one sample only. */
  lemma OthersKept<S>(t: seq<Entry<S>>, t': seq<Entry<S>>, i: nat, s: S)
    requires WellFormed(t) && WellFormed(t')
    requires |t| <= |t'| && i < |t'|
    requires i < |t| ==> t[i].sample in {None, Some(s)}
    requires t'[i].sample in {None, Some(s)}
    requires |t'| <= |t| + 1 && (|t| < |t'| ==> i == |t|)
    requires forall j | 0 <= j < |t| && j != i :: t'[j] == t[j]
    ensures forall x | x != s :: Holds(t', x) == Holds(t, x) && Sounds(t', x) == Sounds(t, x)
  {
    forall x | x != s
      ensures Holds(t', x) == Holds(t, x) && Sounds(t', x) == Sounds(t, x)
    {
      if k :| 0 <= k < |t| && t[k].sample == Some(x) {
        assert t'[k] == t[k];
      }
      if k :| 0 <= k < |t'| && t'[k].sample == Some(x) {
        assert t'[k] == t[k];
      }
    }
  }

  /** A play or loop command leaves the sample on exactly one channel, sounding as asked, and leaves
      the other samples alone.  A channel is added only when all are held by other samples. */
  lemma PlayKeeps<S>(t: seq<Entry<S>>, s: S, status: Status)
    requires WellFormed(t) && status != Stopped
    ensures var t' := Play(t, s, status);
            && WellFormed(t')
            && (exists i | 0 <= i < |t'| :: t'[i] == Entry(Some(s), status))
            && Holds(t', s) && Sounds(t', s)
            && (forall x | x != s :: Holds(t', x) == Holds(t, x) && Sounds(t', x) == Sounds(t, x))
            && |t'| == |t| + (if forall i | 0 <= i < |t| :: t[i].sample.Some? && t[i].sample != Some(s) then 1 else 0)
  {
    var t', i, j := Play(t, s, status), Find(t, Some(s)), Find(t, None);
    var k := if i < |t| then i else j;
    assert t'[k] == Entry(Some(s), status);
    assert WellFormed(t');
    OthersKept(t, t', k, s);
    if i < |t| {
      assert t[i].sample == Some(s);
    } else if j < |t| {
      assert t[j].sample == None;
    }
  }

  /** The case of a sample that is on a channel. */
  lemma PlayOnHeld<S>(t: seq<Entry<S>>, s: S, i: nat, status: Status)
    requires WellFormed(t) && i == Find(t, Some(s)) < |t| && status != Stopped
    ensures var t' := Play(t, s, status);
            && t' == t[i := Entry(Some(s), status)] && WellFormed(t') && Sounds(t', s)
            && forall x | x != s :: Sounds(t', x) == Sounds(t, x)
    ensures Sounds(t, s) <==> t[i].status != Stopped
  {
    FindUnique(t, s, i);
    PlayKeeps(t, s, status);
  }

  /** The case of a sample on no channel, with a channel free. */
  lemma PlayOnFree<S>(t: seq<Entry<S>>, s: S, i: nat, status: Status)
    requires WellFormed(t) && !Holds(t, s) && i == Find(t, None) < |t| && status != Stopped
    ensures var t' := Play(t, s, status);
            && t' == t[i := Entry(Some(s), status)] && WellFormed(t') && Sounds(t', s)
            && forall x | x != s :: Sounds(t', x) == Sounds(t, x)
    ensures !Sounds(t, s)
  {
    FindHolds(t, s);
    PlayKeeps(t, s, status);
  }

  /** A stop command takes the sample off its channel and leaves the other samples alone. */
  lemma StopKeeps<S>(t: seq<Entry<S>>, s: S)
    requires WellFormed(t)
    ensures var t' := Stop(t, s);
            && WellFormed(t') && |t'| == |t|
            && !Holds(t', s) && !Sounds(t', s)
            && (forall x | x != s :: Holds(t', x) == Holds(t, x) && Sounds(t', x) == Sounds(t, x))
  {
    var t', i := Stop(t, s), Find(t, Some(s));
    if i < |t| {
      assert WellFormed(t');
      forall j | 0 <= j < |t'|
        ensures t'[j].sample != Some(s)
      {
        if t[j].sample == Some(s) {
          FindUnique(t, s, j);
        }
      }
      OthersKept(t, t', i, s);
    } else {
      assert forall j | 0 <= j < |t| :: t[j].sample != Some(s);
    }
  }

  /** The natural end of a sample silences it, keeps it on its channel and leaves the other samples
      alone. */
  lemma EndKeeps<S>(t: seq<Entry<S>>, i: nat)
    requires WellFormed(t) && i < |t| && t[i].sample.Some?
    ensures var t', s := End(t, i), t[i].sample.value;
            && WellFormed(t') && |t'| == |t|
            && Holds(t', s) && !Sounds(t', s)
            && (forall x | x != s :: Holds(t', x) == Holds(t, x) && Sounds(t', x) == Sounds(t, x))
  {
    var t', s := End(t, i), t[i].sample.value;
    assert WellFormed(t');
    FindUnique(t', s, i);
    OthersKept(t, t', i, s);
  }

  /** With every channel held by another sample, adding a free channel and playing on that is what a
      play command comes to. */
  lemma PlayOnNewChannel<S>(t: seq<Entry<S>>, s: S, status: Status)
    requires !Holds(t, s) && Find(t, None) == |t|
    ensures var t' := t + [Entry(None, Stopped)];
            && !Holds(t', s) && !Sounds(t', s) && !Sounds(t, s)
            && Find(t', None) == |t|
            && Play(t', s, status) == Play(t, s, status)
  {
    var t' := t + [Entry(None, Stopped)];
    FindHolds(t, s);
    FindHolds(t', s);
    forall i | 0 <= i < |t|
      ensures t'[i] == t[i] && t[i].sample != None
    {
    }
    assert t'[|t|].sample == None;
    FindFirst(t', None, |t|);
  }

  lemma SoundsAppend<S>(t: seq<Entry<S>>, s: S)
    ensures Sounds(t + [Entry(None, Stopped)], s) == Sounds(t, s)
  {
    var t' := t + [Entry(None, Stopped)];
    if k :| 0 <= k < |t| && t[k].sample == Some(s) && t[k].status != Stopped {
      assert t'[k] == t[k];
    }
  }

  /** The status of the channel that holds a sample; a sample on no channel is silent. */
  function StatusOf<S(==)>(t: seq<Entry<S>>, s: S): Status {
    var i := Find(t, Some(s));
    if i < |t| then t[i].status else Stopped
  }

  lemma StatusTells<S>(t: seq<Entry<S>>, s: S)
    requires WellFormed(t)
    ensures Sounds(t, s) <==> StatusOf(t, s) != Stopped
  {
    FindHolds(t, s);
    if Holds(t, s) {
      FindUnique(t, s, Find(t, Some(s)));
    }
  }

  /** A table that keeps a sample's entry keeps its status. */
  lemma StatusKept<S>(t: seq<Entry<S>>, t': seq<Entry<S>>, s: S)
    requires WellFormed(t) && WellFormed(t')
    requires forall i | 0 <= i < |t| && t[i].sample == Some(s) :: i < |t'| && t'[i] == t[i]
    requires forall i | 0 <= i < |t'| && t'[i].sample == Some(s) :: i < |t| && t[i] == t'[i]
    ensures StatusOf(t', s) == StatusOf(t, s)
  {
    var i := Find(t, Some(s));
    if i < |t| {
      FindUnique(t', s, i);
    } else {
      FindHolds(t, s);
      FindHolds(t', s);
    }
  }
}
