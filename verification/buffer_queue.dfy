/** The ring of buffers between a sample and the player: buffers are taken to be filled, handed over to
    be drained, and returned.  Two positions and two counters stand for three queues.
 */
module BufferQueue {
  import opened ChannelTable

  /** The slot `k` places after `first` in a ring of `n`. */
  function Place(first: nat, k: nat, n: nat): (i: nat)
    requires first < n && k <= n
    ensures i < n
  {
    if first + k < n then first + k else first + k - n
  }

  /** `length` slots of the ring, from the one `start` places after `first` on. */
  function Stretch(first: nat, start: nat, length: nat, n: nat): (r: seq<nat>)
    requires first < n && start + length <= n
    ensures |r| == length
    ensures forall k | 0 <= k < length :: r[k] == Place(first, start + k, n)
  {
    seq<nat>(length, k requires 0 <= k < length => Place(first, start + k, n))
  }

  /** No slot occurs twice among the slots of the ring. */
  lemma PlacesDiffer(first: nat, j: nat, k: nat, n: nat)
    requires first < n && j < k < n
    ensures Place(first, j, n) != Place(first, k, n)
  {
  }

  class BufferQueue {
    const nbBuffers: nat
    var drainBuffer: nat
    var fillBuffer: nat
    var freeDrainBuffers: nat
    var freeFillBuffers: nat

    // One buffer is being filled; and the slot that has been in flight longest.
    ghost var filling: bool
    ghost var first: nat

    ghost function BeingFilled(): nat
      reads this
    {
      if filling then 1 else 0
    }

    /** How many buffers are with the player. */
    ghost function Away(): int
      reads this
    {
      nbBuffers - freeDrainBuffers - BeingFilled() - freeFillBuffers
    }

    /** Round the ring there are the buffers in flight, the filled ones, the one being filled and the free
        ones; the two positions are where the filled ones begin and end. */
    ghost predicate Valid()
      reads this
    {
      && first < nbBuffers
      && 0 <= Away()
      && drainBuffer == Place(first, Away(), nbBuffers)
      && fillBuffer == Place(first, Away() + freeDrainBuffers, nbBuffers)
    }

    /** The buffers with the player, oldest first. */
    ghost function InFlight(): seq<nat>
      requires Valid()
      reads this
    {
      Stretch(first, 0, Away(), nbBuffers)
    }

    /** The buffers filled and not yet handed over, oldest first. */
    ghost function Filled(): seq<nat>
      requires Valid()
      reads this
    {
      Stretch(first, Away(), freeDrainBuffers, nbBuffers)
    }

    /** The buffers free to be filled, in the order they will be. */
    ghost function Free(): seq<nat>
      requires Valid()
      reads this
    {
      Stretch(first, Away() + freeDrainBuffers + BeingFilled(), freeFillBuffers, nbBuffers)
    }

    constructor (buffers: nat)
      requires 0 < buffers
      ensures Valid() && nbBuffers == buffers && !filling
      ensures InFlight() == [] && Filled() == []
      ensures |Free()| == buffers && forall k | 0 <= k < buffers :: Free()[k] == k
    {
      nbBuffers := buffers;
      drainBuffer, fillBuffer := 0, 0;
      freeDrainBuffers, freeFillBuffers := 0, buffers;
      filling, first := false, 0;
    }

    /** Start over with every buffer free. */
    method Reset()
      requires 0 < nbBuffers
      modifies this
      ensures Valid() && !filling
      ensures InFlight() == [] && Filled() == []
      ensures |Free()| == nbBuffers && forall k | 0 <= k < nbBuffers :: Free()[k] == k
    {
      drainBuffer, fillBuffer := 0, 0;
      freeDrainBuffers := 0;
      freeFillBuffers := nbBuffers;
      filling, first := false, 0;
    }

    method DrainBuffersInUse() returns (i: int)
      requires Valid()
      ensures i == |InFlight()| + |Filled()| + BeingFilled()
    {
      i := nbBuffers - freeFillBuffers;
    }

    /** Hand over the oldest filled buffer. */
    method GetDrainBuffer() returns (buffer: Option<nat>)
      requires Valid()
      modifies this`drainBuffer, this`freeDrainBuffers
      ensures Valid() && filling == old(filling) && Free() == old(Free()) && fillBuffer == old(fillBuffer)
      ensures old(Filled()) == [] ==>
                buffer == None && Filled() == [] && InFlight() == old(InFlight())
      ensures old(Filled()) != [] ==>
                && buffer == Some(old(Filled())[0])
                && Filled() == old(Filled())[1..]
                && InFlight() == old(InFlight()) + [old(Filled())[0]]
    {
      buffer := None;
      if freeDrainBuffers != 0 {
        buffer := Some(drainBuffer);
        freeDrainBuffers := freeDrainBuffers - 1;
        if drainBuffer == nbBuffers - 1 {
          drainBuffer := 0;
        } else {
          drainBuffer := drainBuffer + 1;
        }
      }
    }

    /** The player is done with its oldest buffer. */
    method ReturnDrainBuffer()
      requires Valid() && InFlight() != []
      modifies this`freeFillBuffers, this`first
      ensures Valid() && filling == old(filling) && Filled() == old(Filled()) && fillBuffer == old(fillBuffer)
      ensures InFlight() == old(InFlight())[1..]
      ensures Free() == old(Free()) + [old(InFlight())[0]]
    {
      freeFillBuffers := freeFillBuffers + 1;
      first := Place(first, 1, nbBuffers);
    }

    /** Take the next free buffer to fill it. */
    method GetFillBuffer() returns (buffer: Option<nat>)
      requires Valid() && !filling
      modifies this`freeFillBuffers, this`filling
      ensures Valid() && Filled() == old(Filled()) && InFlight() == old(InFlight())
      ensures old(Free()) == [] ==> buffer == None && !filling && Free() == []
      ensures old(Free()) != [] ==>
                && buffer == Some(old(Free())[0]) && filling && buffer.value == fillBuffer
                && Free() == old(Free())[1..]
    {
      buffer := None;
      if freeFillBuffers != 0 {
        freeFillBuffers := freeFillBuffers - 1;
        buffer := Some(fillBuffer);
        filling := true;
      }
    }

    /** The buffer taken has been filled. */
    method ReturnFillBuffer()
      requires Valid() && filling
      modifies this`freeDrainBuffers, this`fillBuffer, this`filling
      ensures Valid() && !filling
      ensures Filled() == old(Filled()) + [old(fillBuffer)]
      ensures InFlight() == old(InFlight()) && Free() == old(Free())
    {
      freeDrainBuffers := freeDrainBuffers + 1;
      if fillBuffer == nbBuffers - 1 {
        fillBuffer := 0;
      } else {
        fillBuffer := fillBuffer + 1;
      }
      filling := false;
    }

    /** The buffer taken has not been filled: everything is as before it was taken. */
    method CancelFillBuffer()
      requires Valid() && filling
      modifies this`freeFillBuffers, this`filling
      ensures Valid() && !filling
      ensures Free() == [fillBuffer] + old(Free())
      ensures Filled() == old(Filled()) && InFlight() == old(InFlight())
    {
      freeFillBuffers := freeFillBuffers + 1;
      filling := false;
    }

    /** The buffers in flight, filled, being filled and free are all the buffers, each once. */
    lemma QueuesAreDisjoint()
      requires Valid()
      ensures var all := InFlight() + Filled() + (if filling then [fillBuffer] else []) + Free();
              && |all| == nbBuffers
              && (forall k | 0 <= k < |all| :: all[k] < nbBuffers)
              && forall j, k | 0 <= j < k < |all| :: all[j] != all[k]
    {
      var all := InFlight() + Filled() + (if filling then [fillBuffer] else []) + Free();
      assert forall k | 0 <= k < |all| :: all[k] == Place(first, k, nbBuffers);
      forall j, k | 0 <= j < k < |all|
        ensures all[j] != all[k]
      {
        PlacesDiffer(first, j, k, nbBuffers);
      }
    }
  }
}
