/** Loading a channel's ring of buffers from its sample and handing the buffers to the player. */
module Player {
  import opened Pcm
  import opened BufferQueue

  /** The first `length` bytes of a buffer. */
  ghost function Row(memory: array2<byte>, i: nat, length: nat): (r: seq<byte>)
    requires i < memory.Length0 && length <= memory.Length1
    reads memory
    ensures |r| == length
    ensures forall k | 0 <= k < length :: r[k] == memory[i, k]
  {
    seq(length, k requires 0 <= k < length reads memory => memory[i, k])
  }

  function Flatten(chunks: seq<seq<byte>>): seq<byte> {
    if chunks == [] then [] else Flatten(chunks[..|chunks| - 1]) + chunks[|chunks| - 1]
  }

  lemma FlattenAppend(chunks: seq<seq<byte>>, chunk: seq<byte>)
    ensures Flatten(chunks + [chunk]) == Flatten(chunks) + chunk
  {
    assert (chunks + [chunk])[..|chunks|] == chunks;
  }

  /** One read: how many frames it asked for, and what it returned. */
  datatype Request = Request(frames: nat, given: int)

  /** The frames that a number of reads have given. */
  function FramesOf(calls: seq<Request>): nat {
    if calls == [] then 0
    else
      var last := calls[|calls| - 1];
      FramesOf(calls[..|calls| - 1]) + (if last.given > 0 then last.given else 0)
  }

  lemma FramesAppend(calls: seq<Request>, call: Request)
    ensures FramesOf(calls + [call]) == FramesOf(calls) + (if call.given > 0 then call.given else 0)
  {
    assert (calls + [call])[..|calls|] == calls;
  }

  /** A sample as the loader sees it: a stream of frames of which a read gives as many as it likes. */
  class Source {
    const data: seq<byte>
    const frameSize: nat
    var position: nat

    ghost var asked: seq<Request>    // the reads so far

    /** The reads since there have been those given. */
    ghost function Since(before: seq<Request>): seq<Request>
      requires before <= asked
      reads this`asked
    {
      asked[|before|..]
    }

    ghost predicate Valid()
      reads this
    {
      0 < frameSize && position <= |data|
    }

    constructor (data: seq<byte>, frameSize: nat)
      requires 0 < frameSize
      ensures Valid() && position == 0 && this.data == data && this.frameSize == frameSize && asked == []
    {
      this.data, this.frameSize, position, asked := data, frameSize, 0, [];
    }

    /** Read at most `frames` frames, room for which there must be, into a buffer from offset `at` on.
        How many is up to the sample; a result that is not positive says that none could be read. */
    method Read(frames: nat, memory: array2<byte>, row: nat, at: nat) returns (framesRead: int)
      requires Valid() && row < memory.Length0 && at + frames * frameSize <= memory.Length1
      modifies this`position, this`asked, memory
      ensures Valid() && framesRead <= frames
      ensures asked == old(asked) + [Request(frames, framesRead)]
      ensures framesRead <= 0 ==> position == old(position)
      ensures framesRead > 0 ==> position == old(position) + framesRead * frameSize
      ensures at + (position - old(position)) <= memory.Length1
      ensures forall i, k | 0 <= i < memory.Length0 && 0 <= k < memory.Length1 ::
                memory[i, k] ==
                if i == row && at <= k < at + (position - old(position)) then data[old(position) + k - at]
                else old(memory[i, k])
    {
      framesRead := *;
      if framesRead > frames || framesRead * frameSize > |data| - position {
        framesRead := 0;
      }
      if framesRead > 0 {
        var bytes := framesRead * frameSize;
        MoreFramesMoreBytes(framesRead, frames, frameSize);
        for b := 0 to bytes
          invariant forall i, k | 0 <= i < memory.Length0 && 0 <= k < memory.Length1 ::
                      memory[i, k] ==
                      if i == row && at <= k < at + b then data[position + k - at] else old(memory[i, k])
          modifies memory
        {
          memory[row, at + b] := data[position + b];
        }
        position := position + bytes;
      }
      asked := asked + [Request(frames, framesRead)];
    }
  }

  lemma MoreFramesMoreBytes(m: nat, n: nat, frameSize: nat)
    requires m <= n
    ensures m * frameSize <= n * frameSize
  {
  }

  /** What a read gives fits the room it was asked to fill. */
  lemma GivenFits(room: nat, given: nat, frameSize: nat)
    requires 0 < frameSize && 0 < given <= room / frameSize
    ensures 0 < given * frameSize <= room
  {
    FramesFit(room, frameSize);
    MoreFramesMoreBytes(given, room / frameSize, frameSize);
    MoreFramesMoreBytes(1, given, frameSize);
  }

  lemma FramesFit(room: nat, frameSize: nat)
    requires 0 < frameSize
    ensures room / frameSize * frameSize <= room
  {
  }

  /** The room left in a buffer of `size` bytes after a number of reads into it. */
  function Room(calls: seq<Request>, size: nat, frameSize: nat): int {
    if calls == [] then size
    else
      var last := calls[|calls| - 1];
      Room(calls[..|calls| - 1], size, frameSize) - (if last.given > 0 then last.given * frameSize else 0)
  }

  lemma {:induction false} RoomIs(calls: seq<Request>, size: nat, frameSize: nat)
    ensures Room(calls, size, frameSize) == size - FramesOf(calls) * frameSize
  {
    if calls != [] {
      var before, given := calls[..|calls| - 1], calls[|calls| - 1].given;
      RoomIs(before, size, frameSize);
      Distribute(FramesOf(before), if given > 0 then given else 0, frameSize);
    }
  }

  /** The reads that fill a buffer of `size` bytes: each asks for as many frames as there is room for, and none is
      made after one that has given nothing or once the buffer is full. */
  ghost predicate Fills(calls: seq<Request>, size: nat, frameSize: nat)
    requires 0 < frameSize
  {
    && calls != []
    && var before, last := calls[..|calls| - 1], calls[|calls| - 1];
       && last.frames == Room(before, size, frameSize) / frameSize
       && (before != [] ==> Fills(before, size, frameSize) && Unfinished(before, size, frameSize))
  }

  /** The last read has given something, and left room. */
  ghost predicate Unfinished(calls: seq<Request>, size: nat, frameSize: nat)
    requires calls != []
  {
    0 < calls[|calls| - 1].given && 0 < Room(calls, size, frameSize)
  }

  lemma FillsOn(calls: seq<Request>, size: nat, frameSize: nat, call: Request)
    requires 0 < frameSize
    requires calls != [] ==> Fills(calls, size, frameSize) && Unfinished(calls, size, frameSize)
    requires call.frames == Room(calls, size, frameSize) / frameSize
    ensures Fills(calls + [call], size, frameSize)
    ensures Room(calls + [call], size, frameSize)
         == Room(calls, size, frameSize) - (if call.given > 0 then call.given * frameSize else 0)
  {
    assert (calls + [call])[..|calls|] == calls;
  }

  /** Of the reads that fill a buffer only the last can have given nothing. */
  lemma {:induction false} FillsGive(calls: seq<Request>, size: nat, frameSize: nat)
    requires 0 < frameSize && Fills(calls, size, frameSize)
    ensures AllButLastGive(calls)
    decreases |calls|
  {
    if |calls| > 1 {
      FillsGive(calls[..|calls| - 1], size, frameSize);
    }
  }

  predicate AllButLastGive(calls: seq<Request>) {
    forall k | 0 <= k < |calls| - 1 :: 0 < calls[k].given
  }

  predicate AllAsk(calls: seq<Request>) {
    forall k | 0 <= k < |calls| :: 0 < calls[k].frames
  }

  /** Reads that go on after some that have all given. */
  lemma CallsJoin(a: seq<Request>, b: seq<Request>)
    requires AllButLastGive(a) && AllButLastGive(b) && b != [] && (a != [] ==> 0 < a[|a| - 1].given)
    ensures AllButLastGive(a + b) && FramesOf(a + b) == FramesOf(a) + FramesOf(b)
    ensures AllAsk(a) && AllAsk(b) ==> AllAsk(a + b)
  {
    FramesJoin(a, b);
  }

  /** If frames divide the buffer, no read asks for none. */
  lemma {:induction false} FillsAsk(calls: seq<Request>, size: nat, frameSize: nat)
    requires 0 < frameSize && Fills(calls, size, frameSize) && 0 < size && Divides(frameSize, size)
    ensures AllAsk(calls)
    decreases |calls|
  {
    var before := calls[..|calls| - 1];
    if before != [] {
      FillsAsk(before, size, frameSize);
    }
    RoomIs(before, size, frameSize);
    RoomForOne(size, FramesOf(before), frameSize);
  }

  lemma {:induction false} FramesJoin(a: seq<Request>, b: seq<Request>)
    ensures FramesOf(a + b) == FramesOf(a) + FramesOf(b)
    decreases |b|
  {
    if b == [] {
      assert a + b == a;
    } else {
      assert (a + b)[..|a + b| - 1] == a + b[..|b| - 1];
      FramesJoin(a, b[..|b| - 1]);
    }
  }

  lemma Distribute(m: int, n: int, frameSize: int)
    ensures (m + n) * frameSize == m * frameSize + n * frameSize
  {
  }

  /** A number of whole frames fills the buffer. */
  ghost predicate Divides(frameSize: nat, size: nat) {
    exists m: nat :: BytesOf(m, frameSize) == size
  }

  function BytesOf(frames: nat, frameSize: nat): nat {
    frames * frameSize
  }

  /** If frames divide the buffer, a read that finds room asks for at least one. */
  lemma RoomForOne(size: nat, n: nat, frameSize: nat)
    requires 0 < frameSize && Divides(frameSize, size) && n * frameSize < size
    ensures 0 < (size - n * frameSize) / frameSize
  {
    var m: nat :| BytesOf(m, frameSize) == size;
    if m <= n {
      MoreFramesMoreBytes(m, n, frameSize);
    } else {
      MoreFramesMoreBytes(1, m - n, frameSize);
      Distribute(n, m - n, frameSize);
      RoomAsksForOne(size - n * frameSize, frameSize);
    }
  }

  lemma RoomAsksForOne(room: nat, frameSize: nat)
    requires 0 < frameSize <= room
    ensures 0 < room / frameSize
  {
  }

  /** struct aout_instance of the buffered output. */
  class Player {
    const bq: BufferQueue
    const memory: array2<byte>       // the buffers
    const bytesUsed: array<nat>      // how much of each is filled
    const source: Source

    // What has been handed to the player, buffer by buffer.
    ghost var enqueued: seq<seq<byte>>

    ghost predicate Shape()
      reads this, bq, source
    {
      && bq.Valid() && source.Valid()
      && memory.Length0 == bytesUsed.Length == bq.nbBuffers
    }

    /** The buffers with the player still hold what was handed over in them. */
    ghost predicate Intact()
      requires Shape()
      reads this, bq, source, memory, bytesUsed
    {
      var away := bq.InFlight();
      && |away| <= |enqueued|
      && forall k | 0 <= k < |away| ::
           && bytesUsed[away[k]] <= memory.Length1
           && Row(memory, away[k], bytesUsed[away[k]]) == enqueued[|enqueued| - |away| + k]
    }

    /** Between calls nothing is half done, and what has been handed over is what has been read. */
    ghost predicate Valid()
      reads this, bq, source, memory, bytesUsed
    {
      && Shape() && Intact()
      && !bq.filling && bq.Filled() == []
      && Flatten(enqueued) == source.data[..source.position]
    }

    constructor (buffers: nat, bufferSize: nat, source: Source)
      requires 0 < buffers && source.Valid() && source.position == 0
      ensures Valid() && this.source == source && memory.Length1 == bufferSize && enqueued == []
      ensures fresh(bq) && fresh(memory) && fresh(bytesUsed)
    {
      bq := new BufferQueue(buffers);
      memory := new byte[buffers, bufferSize];
      bytesUsed := new nat[buffers];
      this.source := source;
      enqueued := [];
    }

    /** A buffer that the reads so far have begun to fill. */
    ghost predicate Filling(row: nat, start: nat, room: nat, frames: nat, calls: seq<Request>)
      reads this, bq, source, memory, bytesUsed
    {
      && Shape() && row < memory.Length0
      && bytesUsed[row] + room == memory.Length1 && room == Room(calls, memory.Length1, source.frameSize)
      && frames == FramesOf(calls)
      && source.position == start + bytesUsed[row]
      && (bytesUsed[row] == 0 <==> frames == 0)
      && forall k | 0 <= k < bytesUsed[row] :: memory[row, k] == source.data[start + k]
    }

    lemma FilledIs(row: nat, start: nat, room: nat, frames: nat, calls: seq<Request>)
      requires Filling(row, start, room, frames, calls)
      ensures source.position == start + frames * source.frameSize
      ensures Row(memory, row, bytesUsed[row]) == source.data[start..source.position]
    {
      RoomIs(calls, memory.Length1, source.frameSize);
    }

    /** Ask for as many frames as there is room for. */
    method ReadPiece(row: nat, room: nat, at: nat) returns (framesRead: int, bytes: nat)
      requires Shape() && row < memory.Length0 && at + room <= memory.Length1
      modifies source`position, source`asked, memory
      ensures Shape() && source.asked == old(source.asked) + [Request(room / source.frameSize, framesRead)]
      ensures bytes == if framesRead > 0 then framesRead * source.frameSize else 0
      ensures bytes <= room && (bytes == 0 <==> framesRead <= 0)
      ensures source.position == old(source.position) + bytes
      ensures forall i, k | 0 <= i < memory.Length0 && 0 <= k < memory.Length1 ::
                memory[i, k] ==
                if i == row && at <= k < at + bytes then source.data[old(source.position) + k - at]
                else old(memory[i, k])
    {
      FramesFit(room, source.frameSize);
      framesRead := source.Read(room / source.frameSize, memory, row, at);
      bytes := 0;
      if framesRead > 0 {
        GivenFits(room, framesRead, source.frameSize);
        bytes := framesRead * source.frameSize;
      }
    }

    /** The reads so far, and whether another may follow. */
    ghost predicate Reading(before: seq<Request>, calls: seq<Request>, more: bool)
      requires source.Valid()
      reads source
    {
      && source.asked == before + calls
      && (calls != [] ==> Fills(calls, memory.Length1, source.frameSize))
      && (more && calls != [] ==> Unfinished(calls, memory.Length1, source.frameSize))
    }

    /** One read into the buffer. */
    method FillOnce(row: nat, room: nat, frames: nat, ghost start: nat, ghost before: seq<Request>,
                    ghost calls: seq<Request>)
      returns (framesRead: int, room': nat, frames': nat, ghost calls': seq<Request>)
      requires Filling(row, start, room, frames, calls) && Reading(before, calls, true)
      modifies source`position, source`asked, memory, bytesUsed
      ensures Filling(row, start, room', frames', calls')
      ensures calls' != [] && framesRead == calls'[|calls'| - 1].given
      ensures Reading(before, calls', 0 < framesRead && 0 < room')
      ensures if framesRead > 0 then room' < room && frames < frames' else room' == room && frames' == frames
      ensures forall i | 0 <= i < memory.Length0 && i != row :: bytesUsed[i] == old(bytesUsed[i])
      ensures forall i, k | 0 <= i < memory.Length0 && 0 <= k < memory.Length1 && i != row ::
                memory[i, k] == old(memory[i, k])
    {
      var bytes;
      framesRead, bytes := ReadPiece(row, room, bytesUsed[row]);
      ghost var call := Request(room / source.frameSize, framesRead);
      FillsOn(calls, memory.Length1, source.frameSize, call);
      FramesAppend(calls, call);
      calls' := calls + [call];
      room', frames' := room, frames;
      if framesRead > 0 {
        room', frames' := room - bytes, frames + framesRead;
        bytesUsed[row] := bytesUsed[row] + bytes;
      }
    }

    /** Fill one buffer: read until it is full or the sample gives nothing.  The result is what the last
        read gave, and the number of frames read in all. */
    method Fill(row: nat) returns (framesRead: int, frames: nat, ghost calls: seq<Request>)
      requires Shape() && row < memory.Length0
      modifies source`position, source`asked, memory, bytesUsed
      ensures Shape()
      ensures source.asked == old(source.asked) + calls && Fills(calls, memory.Length1, source.frameSize)
      ensures framesRead == calls[|calls| - 1].given && frames == FramesOf(calls)
      ensures bytesUsed[row] <= memory.Length1
      ensures source.position
           == old(source.position) + bytesUsed[row] == old(source.position) + frames * source.frameSize
      ensures Row(memory, row, bytesUsed[row]) == source.data[old(source.position)..source.position]
      ensures bytesUsed[row] == memory.Length1 || framesRead <= 0
      ensures framesRead > 0 ==> frames > 0
      ensures bytesUsed[row] == 0 <==> frames == 0
      ensures forall i | 0 <= i < memory.Length0 && i != row :: bytesUsed[i] == old(bytesUsed[i])
      ensures forall i, k | 0 <= i < memory.Length0 && 0 <= k < memory.Length1 && i != row ::
                memory[i, k] == old(memory[i, k])
    {
      frames, calls := 0, [];
      bytesUsed[row] := 0;
      var room: nat := memory.Length1;
      ghost var start := source.position;
      while true
        invariant Filling(row, start, room, frames, calls) && Reading(old(source.asked), calls, true)
        invariant forall i | 0 <= i < memory.Length0 && i != row :: bytesUsed[i] == old(bytesUsed[i])
        invariant forall i, k | 0 <= i < memory.Length0 && 0 <= k < memory.Length1 && i != row ::
                    memory[i, k] == old(memory[i, k])
        decreases room
      {
        framesRead, room, frames, calls := FillOnce(row, room, frames, start, old(source.asked), calls);
        if bytesUsed[row] >= memory.Length1 {
          bytesUsed[row] := memory.Length1;
          break;
        }
        if framesRead <= 0 {
          break;
        }
      }
      FilledIs(row, start, room, frames, calls);
    }

    /** Hand the filled buffer over to the player. */
    method Enqueue(ghost row: nat) returns (e: int)
      requires Shape() && Intact() && row < memory.Length0 && !bq.filling && bq.Filled() == [row]
      requires bytesUsed[row] <= memory.Length1
      modifies bq, this`enqueued
      ensures Shape() && Intact() && !bq.filling && bq.Filled() == [] && bq.Free() == old(bq.Free())
      ensures e == 0
      ensures enqueued == old(enqueued) + [Row(memory, row, bytesUsed[row])]
    {
      e := -1;
      var buffer := bq.GetDrainBuffer();
      if buffer.Some? {
        enqueued := enqueued + [Row(memory, buffer.value, bytesUsed[buffer.value])];
        e := 0;
      }
    }

    /** The player has played its oldest buffer. */
    method ReturnBuffer()
      requires Valid() && bq.InFlight() != []
      modifies bq
      ensures Valid()
      ensures bq.InFlight() == old(bq.InFlight())[1..]
    {
      bq.ReturnDrainBuffer();
    }

    /** Filling the buffer taken leaves the ones in flight alone. */
    twostate lemma OthersIntact(row: nat)
      requires old(Shape() && Intact()) && Shape()
      requires old(bq.filling) && row == old(bq.fillBuffer)
      requires unchanged(bq) && enqueued == old(enqueued)
      requires forall i | 0 <= i < memory.Length0 && i != row :: bytesUsed[i] == old(bytesUsed[i])
      requires forall i, k | 0 <= i < memory.Length0 && 0 <= k < memory.Length1 && i != row ::
                 memory[i, k] == old(memory[i, k])
      ensures Intact()
    {
      var away := bq.InFlight();
      forall k | 0 <= k < |away|
        ensures && bytesUsed[away[k]] <= memory.Length1
                && Row(memory, away[k], bytesUsed[away[k]]) == enqueued[|enqueued| - |away| + k]
      {
        PlacesDiffer(bq.first, k, bq.Away() + bq.freeDrainBuffers, bq.nbBuffers);
        assert away[k] != row;
        assert Row(memory, away[k], bytesUsed[away[k]]) == old(Row(memory, away[k], bytesUsed[away[k]]));
      }
    }

    /** Hand over the buffer just filled, or put it back if nothing was read into it. */
    method HandOver(row: nat)
      requires Shape() && Intact() && bq.Filled() == [] && bq.filling && row == bq.fillBuffer
      requires bytesUsed[row] <= memory.Length1
      requires Flatten(enqueued) + Row(memory, row, bytesUsed[row]) == source.data[..source.position]
      modifies bq, this`enqueued
      ensures Valid()
      ensures bytesUsed[row] == 0 ==> |bq.Free()| == |old(bq.Free())| + 1 && enqueued == old(enqueued)
      ensures bytesUsed[row] != 0 ==>
                && |bq.Free()| == |old(bq.Free())|
                && enqueued == old(enqueued) + [Row(memory, row, bytesUsed[row])]
    {
      FlattenAppend(enqueued, Row(memory, row, bytesUsed[row]));
      if bytesUsed[row] != 0 {
        bq.ReturnFillBuffer();
        var _ := Enqueue(row);
      } else {
        assert Flatten(enqueued) + Row(memory, row, 0) == Flatten(enqueued);
        bq.CancelFillBuffer();
      }
    }

    /** One turn of the loading loop, with a free buffer at hand. */
    method LoadBuffer() returns (framesRead: int, frames: nat, ghost calls: seq<Request>)
      requires Valid() && bq.Free() != []
      modifies bq, source`position, source`asked, memory, bytesUsed, this`enqueued
      ensures Valid()
      ensures source.asked == old(source.asked) + calls && Fills(calls, memory.Length1, source.frameSize)
      ensures framesRead == calls[|calls| - 1].given && frames == FramesOf(calls)
      ensures source.position == old(source.position) + frames * source.frameSize
      ensures |bq.Free()| + (if frames == 0 then 0 else 1) == |old(bq.Free())|
      ensures frames == 0 ==> enqueued == old(enqueued) && framesRead <= 0
      ensures frames != 0 ==>
                && |enqueued| == |old(enqueued)| + 1 && enqueued[..|old(enqueued)|] == old(enqueued)
                && (|enqueued[|old(enqueued)|]| == memory.Length1 || framesRead <= 0)
      ensures framesRead > 0 ==> Divides(source.frameSize, memory.Length1)
    {
      var buffer := bq.GetFillBuffer();
      var row := buffer.value;
      label filling:
      framesRead, frames, calls := Fill(row);
      assert BytesOf(frames, source.frameSize) == frames * source.frameSize;
      OthersIntact@filling(row);
      HandOver(row);
    }

    /** Fill and hand over buffers until none is free or a read gives nothing.  All buffers handed over are full,
        except that the last need not be when a read has given nothing.  Reads are made exactly when a buffer is
        free, and none after one that has given nothing.  If frames divide the buffers, every read asks for some;
        otherwise the last read into a buffer asks for none and gets none, so that one call loads one buffer at
        most. */
    method Load() returns (totalFrames: nat, ghost refused: bool, ghost calls: seq<Request>)
      requires Valid()
      modifies bq, source`position, source`asked, memory, bytesUsed, this`enqueued
      ensures Valid()
      ensures source.asked == old(source.asked) + calls && AllButLastGive(calls) && totalFrames == FramesOf(calls)
      ensures refused <==> calls != [] && calls[|calls| - 1].given <= 0
      ensures calls == [] <==> old(bq.Free()) == []
      ensures refused || bq.Free() == []
      ensures source.position == old(source.position) + totalFrames * source.frameSize
      ensures |old(enqueued)| <= |enqueued| && enqueued[..|old(enqueued)|] == old(enqueued)
      ensures forall k | |old(enqueued)| <= k < |enqueued| ::
                |enqueued[k]| == memory.Length1 || (refused && k == |enqueued| - 1)
      ensures 0 < memory.Length1 && Divides(source.frameSize, memory.Length1) ==> AllAsk(calls)
      ensures !Divides(source.frameSize, memory.Length1) ==> |enqueued| <= |old(enqueued)| + 1
    {
      totalFrames, refused, calls := 0, false, [];
      var framesRead := 1;
      while bq.freeFillBuffers != 0 && framesRead > 0
        invariant Valid()
        invariant source.asked == old(source.asked) + calls && AllButLastGive(calls) && totalFrames == FramesOf(calls)
        invariant refused <==> calls != [] && calls[|calls| - 1].given <= 0
        invariant refused <==> framesRead <= 0
        invariant calls == [] ==> bq.Free() == old(bq.Free()) && enqueued == old(enqueued)
        invariant calls != [] ==> old(bq.Free()) != []
        invariant source.position == old(source.position) + totalFrames * source.frameSize
        invariant |old(enqueued)| <= |enqueued| && enqueued[..|old(enqueued)|] == old(enqueued)
        invariant forall k | |old(enqueued)| <= k < |enqueued| ::
                    |enqueued[k]| == memory.Length1 || (refused && k == |enqueued| - 1)
        invariant 0 < memory.Length1 && Divides(source.frameSize, memory.Length1) ==> AllAsk(calls)
        invariant !Divides(source.frameSize, memory.Length1) ==>
                    |enqueued| <= |old(enqueued)| + (if refused then 1 else 0)
        decreases |bq.Free()|, framesRead > 0
      {
        var frames;
        ghost var more;
        framesRead, frames, more := LoadBuffer();
        Distribute(totalFrames, frames, source.frameSize);
        FillsGive(more, memory.Length1, source.frameSize);
        CallsJoin(calls, more);
        if 0 < memory.Length1 && Divides(source.frameSize, memory.Length1) {
          FillsAsk(more, memory.Length1, source.frameSize);
        }
        totalFrames := totalFrames + frames;
        calls := calls + more;
        refused := framesRead <= 0;
      }
    }
  }
}
