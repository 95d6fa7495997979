/** The commands that client threads put on the pipe, and what each makes of the channels. */
module Commands {
  import opened ChannelTable
  import opened Events

  datatype Command = Exit | Loop | Play | Stop | Sync

  function Effect<S(==)>(t: seq<Entry<S>>, c: Command, s: S): seq<Entry<S>> {
    match c
    case Play => ChannelTable.Play(t, s, Playing)
    case Loop => ChannelTable.Play(t, s, Looping)
    case Stop => ChannelTable.Stop(t, s)
    case _ => t
  }

  /** The events a command sends to a sample that does or does not sound. */
  function EventsOf(c: Command, sounds: bool): seq<Event> {
    match c
    case Play => if sounds then [] else [Started]
    case Loop => if sounds then [] else [Started]
    case Stop => if sounds then [Event.Stopped] else []
    case Sync => [Event.Sync]
    case Exit => []
  }

  /** A play or a loop puts the sample on a channel and has it sound; a stop takes it off. */
  lemma EffectKeeps<S>(t: seq<Entry<S>>, c: Command, s: S)
    requires WellFormed(t)
    ensures var t' := Effect(t, c, s);
            && WellFormed(t')
            && (Holds(t', s) <==> if c in {Play, Loop} then true else if c == Stop then false else Holds(t, s))
            && (Sounds(t', s) <==> if c in {Play, Loop} then true else if c == Stop then false else Sounds(t, s))
            && forall x | x != s :: Holds(t', x) == Holds(t, x) && Sounds(t', x) == Sounds(t, x)
  {
    match c
    case Play => PlayKeeps(t, s, Playing);
    case Loop => PlayKeeps(t, s, Looping);
    case Stop => StopKeeps(t, s);
    case _ =>
  }

  /** The status of a sample's channel after a command for the sample. */
  function StatusAfter(c: Command, status: Status): Status {
    match c
    case Play => Playing
    case Loop => Looping
    case Stop => Status.Stopped
    case _ => status
  }

  /** A command for one sample leaves the channel entries of another as they are. */
  lemma ChannelsOfOthers<S>(t: seq<Entry<S>>, c: Command, id: S, other: S)
    requires id != other
    ensures forall j | 0 <= j < |Effect(t, c, id)| && Effect(t, c, id)[j].sample == Some(other) ::
              j < |t| && t[j] == Effect(t, c, id)[j]
    ensures forall j | 0 <= j < |t| && t[j].sample == Some(other) ::
              j < |Effect(t, c, id)| && Effect(t, c, id)[j] == t[j]
  {
  }

  /** What executing a message does to the status of an instance's channel. */
  lemma StatusOfEffect<S>(t: seq<Entry<S>>, c: Command, other: S, id: S)
    requires WellFormed(t)
    ensures StatusOf(Effect(t, c, other), id)
         == if other == id then StatusAfter(c, StatusOf(t, id)) else StatusOf(t, id)
  {
    EffectKeeps(t, c, other);
    if other != id {
      ChannelsOfOthers(t, c, other, id);
      StatusKept(t, Effect(t, c, other), id);
    } else {
      match c
      case Play => StatusOfPlay(t, id, Playing);
      case Loop => StatusOfPlay(t, id, Looping);
      case Stop => StatusTells(Effect(t, c, other), id);
      case _ =>
    }
  }

  lemma StatusOfPlay<S>(t: seq<Entry<S>>, id: S, status: Status)
    requires WellFormed(t) && status != Status.Stopped
    ensures StatusOf(ChannelTable.Play(t, id, status), id) == status
  {
    PlayKeeps(t, id, status);
    var t' := ChannelTable.Play(t, id, status);
    var i :| 0 <= i < |t'| && t'[i] == Entry(Some(id), status);
    FindUnique(t', id, i);
  }
}
