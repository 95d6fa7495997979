/** The events a sample delivers to the instance it was opened for, and what a sequence of them
    means. */
module Events {

  datatype Event = Started | Stopped | Error | Sync

  /** Where a sequence of events leaves playback.  It is broken by a start while sounding and by a
      stop while silent. */
  datatype Flow = Silent | Sounding | Broken

  function FlowOf(events: seq<Event>): Flow {
    if events == [] then Silent
    else
      var before, last := FlowOf(events[..|events| - 1]), events[|events| - 1];
      match last
      case Started => if before == Silent then Sounding else Broken
      case Stopped => if before == Sounding then Silent else Broken
      case _ => before
  }

  /** The instance's is_playing flag after the events: the last start or stop decides. */
  function IsPlayingAfter(events: seq<Event>): bool {
    if events == [] then false
    else
      match events[|events| - 1]
      case Started => true
      case Stopped => false
      case _ => IsPlayingAfter(events[..|events| - 1])
  }

  lemma FlowAppend(events: seq<Event>, ev: Event)
    ensures FlowOf(events + [ev]) ==
            match ev
            case Started => if FlowOf(events) == Silent then Sounding else Broken
            case Stopped => if FlowOf(events) == Sounding then Silent else Broken
            case _ => FlowOf(events)
  {
    assert (events + [ev])[..|events|] == events;
  }

  /** The starts and stops among the events. */
  function Marks(events: seq<Event>): (r: seq<Event>)
    ensures forall i | 0 <= i < |r| :: r[i] in {Started, Stopped}
  {
    if events == [] then []
    else
      var rest, last := Marks(events[..|events| - 1]), events[|events| - 1];
      if last in {Started, Stopped} then rest + [last] else rest
  }

  /** A flow that is not broken is a strict alternation: a start, a stop, a start, and so on; and the
      flag is raised exactly after a start. */
  lemma {:induction false} UnbrokenAlternates(events: seq<Event>)
    requires FlowOf(events) != Broken
    ensures forall i | 0 <= i < |Marks(events)| :: Marks(events)[i] == if i % 2 == 0 then Started else Stopped
    ensures FlowOf(events) == if |Marks(events)| % 2 == 1 then Sounding else Silent
    ensures IsPlayingAfter(events) <==> FlowOf(events) == Sounding
  {
    if events != [] {
      var before := events[..|events| - 1];
      FlowAppend(before, events[|events| - 1]);
      UnbrokenAlternates(before);
    }
  }
}
