/** Commands as bytes on a pipe: sends and receives that may be cut into pieces, interrupted, or find the
    pipe empty.  Each command's bytes are written without another command's in between.
 */
module Pipe {
  import opened Pcm

  /** A command's bytes, all commands being of one size. */
  type Frame = seq<byte>

  datatype State = State(
    sent: seq<Frame>,         // the commands written completely
    sending: seq<Frame>,      // the command being written, if any
    offset: nat,              // how much of it has been written
    wire: seq<byte>,          // what is in the pipe
    receiving: bool,          // a receive is under way
    partial: seq<byte>,       // what it has read
    received: seq<Frame>,     // the commands received
    nothings: nat)            // how many receives returned that there was nothing

  datatype Step =
    | Send(command: Frame)    // pipe_send is called
    | Write(n: nat)           // write() takes some bytes
    | Receive                 // pipe_recv is called
    | Read(n: nat)            // read() gives some bytes
    | WouldBlock              // read() finds the pipe empty
    | Interrupted             // either call is interrupted

  predicate Enabled(size: nat, s: State, a: Step) {
    match a
    case Send(c) => s.sending == [] && |c| == size
    case Write(n) => s.sending != [] && s.offset + n <= |s.sending[0]|
    case Receive => !s.receiving
    case Read(n) => s.receiving && 0 < n <= |s.wire| && |s.partial| + n <= size
    case WouldBlock => s.receiving && s.wire == []
    case Interrupted => true
  }

  function Apply(size: nat, s: State, a: Step): State
    requires Enabled(size, s, a)
  {
    match a
    case Send(c) => s.(sending := [c], offset := 0)
    case Write(n) =>
      var c := s.sending[0];
      var s' := s.(wire := s.wire + c[s.offset..s.offset + n], offset := s.offset + n);
      if s'.offset == |c| then s'.(sent := s.sent + [c], sending := [], offset := 0) else s'
    case Receive => s.(receiving := true, partial := [])
    case Read(n) =>
      var s' := s.(partial := s.partial + s.wire[..n], wire := s.wire[n..]);
      if |s'.partial| == size
      then s'.(received := s.received + [s'.partial], receiving := false, partial := [])
      else s'
    case WouldBlock =>
      if s.partial == [] then s.(receiving := false, nothings := s.nothings + 1) else s
    case Interrupted => s
  }

  function Bytes(frames: seq<Frame>): seq<byte> {
    if frames == [] then [] else Bytes(frames[..|frames| - 1]) + frames[|frames| - 1]
  }

  lemma BytesAppend(frames: seq<Frame>, f: Frame)
    ensures Bytes(frames + [f]) == Bytes(frames) + f
  {
    assert (frames + [f])[..|frames|] == frames;
  }

  /** What has been written of the command being sent. */
  function Begun(s: State): seq<byte> {
    if s.sending == [] || |s.sending[0]| < s.offset then [] else s.sending[0][..s.offset]
  }

  ghost predicate Sized(size: nat, frames: seq<Frame>) {
    forall i | 0 <= i < |frames| :: |frames[i]| == size
  }

  /** No byte is lost, made up or moved: what has been received, what a receive under way has read and
      what is in the pipe are what has been written. */
  ghost predicate Inv(size: nat, s: State) {
    && Sized(size, s.sent) && Sized(size, s.sending) && Sized(size, s.received)
    && |s.sending| <= 1 && (s.sending != [] ==> s.offset < size)
    && |s.partial| < size && (!s.receiving ==> s.partial == [])
    && Bytes(s.received) + s.partial + s.wire == Bytes(s.sent) + Begun(s)
  }

  lemma StepKeeps(size: nat, s: State, a: Step)
    requires 0 < size && Inv(size, s) && Enabled(size, s, a)
    ensures Inv(size, Apply(size, s, a))
  {
    match a
    case Write(n) => WriteKeeps(size, s, n);
    case Read(n) => ReadKeeps(size, s, n);
    case _ =>
  }

  lemma Associate(a: seq<byte>, b: seq<byte>, c: seq<byte>)
    ensures (a + b) + c == a + (b + c)
  {
  }

  lemma WrittenMore(gone: seq<byte>, wire: seq<byte>, sent: seq<byte>, c: Frame, m: nat, n: nat)
    requires m + n <= |c|
    requires gone + wire == sent + c[..m]
    ensures gone + (wire + c[m..m + n]) == sent + c[..m + n]
  {
    Associate(gone, wire, c[m..m + n]);
    Associate(sent, c[..m], c[m..m + n]);
    assert c[..m] + c[m..m + n] == c[..m + n];
  }

  lemma ReadMore(gone: seq<byte>, partial: seq<byte>, wire: seq<byte>, n: nat)
    requires n <= |wire|
    ensures gone + (partial + wire[..n]) + wire[n..] == gone + partial + wire
  {
    Associate(gone, partial, wire[..n]);
    Associate(gone + partial, wire[..n], wire[n..]);
    assert wire[..n] + wire[n..] == wire;
  }

  /** A frame completed counts as before. */
  lemma Completed(frames: seq<Frame>, f: Frame)
    ensures Bytes(frames + [f]) + [] == Bytes(frames) + f
    ensures f[..|f|] == f
  {
    BytesAppend(frames, f);
  }

  lemma WriteKeeps(size: nat, s: State, n: nat)
    requires 0 < size && Inv(size, s) && Enabled(size, s, Write(n))
    ensures Inv(size, Apply(size, s, Write(n)))
  {
    var c, s' := s.sending[0], Apply(size, s, Write(n));
    WrittenMore(Bytes(s.received) + s.partial, s.wire, Bytes(s.sent), c, s.offset, n);
    if s.offset + n == size {
      Completed(s.sent, c);
      assert Begun(s') == [];
    } else {
      assert Begun(s') == c[..s.offset + n];
    }
  }

  lemma ReadKeeps(size: nat, s: State, n: nat)
    requires 0 < size && Inv(size, s) && Enabled(size, s, Read(n))
    ensures Inv(size, Apply(size, s, Read(n)))
  {
    ReadMore(Bytes(s.received), s.partial, s.wire, n);
    if |s.partial + s.wire[..n]| == size {
      Completed(s.received, s.partial + s.wire[..n]);
    }
  }

  lemma {:induction false} FirstFrame(frames: seq<Frame>)
    requires frames != []
    ensures Bytes(frames) == frames[0] + Bytes(frames[1..])
  {
    if |frames| > 1 {
      var front, last := frames[..|frames| - 1], frames[|frames| - 1];
      FirstFrame(front);
      assert frames[1..][..|frames| - 2] == front[1..];
      Associate(frames[0], Bytes(front[1..]), last);
    }
  }

  /** The first of several frames heads the bytes. */
  lemma HeadOff(size: nat, frames: seq<Frame>, x: seq<byte>)
    requires frames != [] && |frames[0]| == size
    ensures var all := Bytes(frames) + x;
            size <= |all| && all[..size] == frames[0] && all[size..] == Bytes(frames[1..]) + x
  {
    FirstFrame(frames);
    Associate(frames[0], Bytes(frames[1..]), x);
  }

  /** Frames of one size are told apart in a stream of bytes. */
  lemma {:induction false} FramesTellApart(size: nat, a: seq<Frame>, x: seq<byte>, b: seq<Frame>, y: seq<byte>)
    requires 0 < size && |y| < size
    requires Sized(size, a) && Sized(size, b)
    requires Bytes(a) + x == Bytes(b) + y
    ensures |a| <= |b| && a == b[..|a|]
    ensures |x| < size ==> a == b && x == y
  {
    if a != [] {
      HeadOff(size, a, x);
    }
    if b != [] {
      HeadOff(size, b, y);
    }
    if a != [] && b != [] {
      FramesTellApart(size, a[1..], x, b[1..], y);
      assert a == [a[0]] + a[1..] && b == [b[0]] + b[1..];
    } else {
      assert Bytes(a) + x == if a == [] then x else Bytes(a) + x;
      assert Bytes(b) + y == if b == [] then y else Bytes(b) + y;
    }
  }

  predicate Run(size: nat, s: State, steps: seq<Step>, s': State)
    decreases |steps|
  {
    if steps == [] then s' == s
    else Enabled(size, s, steps[0]) && Run(size, Apply(size, s, steps[0]), steps[1..], s')
  }

  lemma {:induction false} RunKeeps(size: nat, s: State, steps: seq<Step>, s': State)
    requires 0 < size && Inv(size, s) && Run(size, s, steps, s')
    ensures Inv(size, s')
    decreases |steps|
  {
    if steps != [] {
      StepKeeps(size, s, steps[0]);
      RunKeeps(size, Apply(size, s, steps[0]), steps[1..], s');
    }
  }

  const EMPTY := State([], [], 0, [], false, [], [], 0)

  /** In every run the commands received are the commands sent, in order and whole, up to those still in
      the pipe. */
  lemma ReceivesWhatWasSent(size: nat, steps: seq<Step>, s: State)
    requires 0 < size && Run(size, EMPTY, steps, s)
    ensures |s.received| <= |s.sent| && s.received == s.sent[..|s.received|]
  {
    RunKeeps(size, EMPTY, steps, s);
    assert Bytes(s.received) + (s.partial + s.wire) == Bytes(s.received) + s.partial + s.wire;
    FramesTellApart(size, s.received, s.partial + s.wire, s.sent, Begun(s));
  }

  /** A receive that finds the pipe empty returns that there is nothing only between commands: all that was sent
      has then been received, and of a command being sent not a byte has been written.  In the middle of a command
      it keeps what it has and goes on. */
  lemma NothingOnlyAtBoundary(size: nat, steps: seq<Step>, s: State)
    requires 0 < size && Run(size, EMPTY, steps, s) && s.receiving && s.wire == []
    ensures Enabled(size, s, WouldBlock)
    ensures Apply(size, s, WouldBlock)
         == if s.received == s.sent && s.partial == [] && Begun(s) == []
            then s.(receiving := false, nothings := s.nothings + 1)
            else s
  {
    RunKeeps(size, EMPTY, steps, s);
    assert Bytes(s.received) + (s.partial + s.wire) == Bytes(s.received) + s.partial + s.wire;
    FramesTellApart(size, s.received, s.partial + s.wire, s.sent, Begun(s));
  }

  // ---- how much a step moves, and that everything arrives -----------------------------------------------------

  /** A write puts as many bytes in the pipe as it reports, the next ones of the command. */
  lemma WriteMoves(size: nat, s: State, n: nat)
    requires 0 < size && Inv(size, s) && Enabled(size, s, Write(n))
    ensures var s', piece := Apply(size, s, Write(n)), s.sending[0][s.offset..s.offset + n];
            && s'.wire == s.wire + piece && |s'.wire| == |s.wire| + n
            && Bytes(s'.sent) + Begun(s') == Bytes(s.sent) + Begun(s) + piece
            && s'.received == s.received && s'.partial == s.partial
  {
    var c := s.sending[0];
    Associate(Bytes(s.sent), c[..s.offset], c[s.offset..s.offset + n]);
    assert c[..s.offset] + c[s.offset..s.offset + n] == c[..s.offset + n];
    if s.offset + n == size {
      Completed(s.sent, c);
    }
  }

  /** A read takes as many bytes out of the pipe as it reports, the oldest ones, and they are received. */
  lemma ReadMoves(size: nat, s: State, n: nat)
    requires 0 < size && Inv(size, s) && Enabled(size, s, Read(n))
    ensures var s' := Apply(size, s, Read(n));
            && s.wire == s.wire[..n] + s'.wire && |s'.wire| == |s.wire| - n
            && Bytes(s'.received) + s'.partial == Bytes(s.received) + s.partial + s.wire[..n]
            && s'.sent == s.sent && s'.sending == s.sending && s'.offset == s.offset
  {
    Associate(Bytes(s.received), s.partial, s.wire[..n]);
    if |s.partial + s.wire[..n]| == size {
      Completed(s.received, s.partial + s.wire[..n]);
    }
  }

  lemma {:induction false} RunJoins(size: nat, s: State, a: seq<Step>, s1: State, b: seq<Step>, s2: State)
    requires Run(size, s, a, s1) && Run(size, s1, b, s2)
    ensures Run(size, s, a + b, s2)
    decreases |a|
  {
    if a == [] {
      assert a + b == b;
    } else {
      assert (a + b)[1..] == a[1..] + b;
      RunJoins(size, Apply(size, s, a[0]), a[1..], s1, b, s2);
    }
  }

  lemma RunFirst(size: nat, s: State, a: Step, steps: seq<Step>, s': State)
    requires Enabled(size, s, a) && Run(size, Apply(size, s, a), steps, s')
    ensures Run(size, s, [a] + steps, s')
  {
    assert ([a] + steps)[1..] == steps;
  }

  /** With no command being written and nothing in the pipe, everything has been received. */
  lemma NothingLeft(size: nat, s: State)
    requires 0 < size && Inv(size, s) && s.sending == [] && s.wire == []
    ensures s.received == s.sent && s.partial == []
  {
    assert Bytes(s.received) + s.partial + s.wire == Bytes(s.received) + s.partial;
    FramesTellApart(size, s.received, s.partial, s.sent, []);
  }

  /** The next thing a receiver does: call pipe_recv, or read what there is and fits. */
  function NextReceive(size: nat, s: State): (a: Step)
    requires s.wire != [] && |s.partial| < size
    ensures Enabled(size, s, a)
  {
    if !s.receiving then Receive
    else Read(if |s.wire| <= size - |s.partial| then |s.wire| else size - |s.partial|)
  }

  /** A receiver that keeps on receives every command written, when none is being written. */
  lemma {:induction false} CatchesUp(size: nat, s: State) returns (steps: seq<Step>, s': State)
    requires 0 < size && Inv(size, s) && s.sending == []
    ensures Run(size, s, steps, s') && forall k | 0 <= k < |steps| :: steps[k].Receive? || steps[k].Read?
    ensures s'.sent == s'.received == s.sent && s'.sending == [] && s'.wire == [] && s'.partial == []
    decreases |s.wire|, !s.receiving
  {
    if s.wire == [] {
      NothingLeft(size, s);
      steps, s' := [], s;
    } else {
      var a := NextReceive(size, s);
      StepKeeps(size, s, a);
      steps, s' := CatchesUp(size, Apply(size, s, a));
      RunFirst(size, s, a, steps, s');
      steps := [a] + steps;
    }
  }

  /** In every run: a command sent when no other is being written arrives, behind all those sent before; writes
      and reads are all it takes. */
  lemma CommandArrives(size: nat, before: seq<Step>, s: State, c: Frame) returns (steps: seq<Step>, s': State)
    requires 0 < size && Run(size, EMPTY, before, s) && s.sending == [] && |c| == size
    ensures Run(size, s, [Send(c)] + steps, s')
    ensures forall k | 0 <= k < |steps| :: steps[k].Write? || steps[k].Receive? || steps[k].Read?
    ensures s'.sent == s'.received == s.sent + [c] && s'.wire == []
  {
    RunKeeps(size, EMPTY, before, s);
    var s1 := Apply(size, s, Send(c));
    StepKeeps(size, s, Send(c));
    StepKeeps(size, s1, Write(size));
    steps, s' := CatchesUp(size, Apply(size, s1, Write(size)));
    RunFirst(size, s1, Write(size), steps, s');
    steps := [Write(size)] + steps;
    RunFirst(size, s, Send(c), steps, s');
  }

  // ---- any cut ------------------------------------------------------------------------------------------------

  function Total(pieces: seq<nat>): nat {
    if pieces == [] then 0 else pieces[0] + Total(pieces[1..])
  }

  function Writes(pieces: seq<nat>): seq<Step> {
    seq(|pieces|, k requires 0 <= k < |pieces| => Write(pieces[k]))
  }

  function Reads(pieces: seq<nat>): seq<Step> {
    seq(|pieces|, k requires 0 <= k < |pieces| => Read(pieces[k]))
  }

  /** What is left of a command can be written in any pieces. */
  lemma {:induction false} WritesAnyhow(size: nat, s: State, c: Frame, pieces: seq<nat>)
    requires s.sending == [c] && s.offset < |c| == size && s.offset + Total(pieces) == size
    requires forall k | 0 <= k < |pieces| :: 0 < pieces[k]
    ensures Run(size, s, Writes(pieces),
                s.(wire := s.wire + c[s.offset..], sent := s.sent + [c], sending := [], offset := 0))
    decreases |pieces|
  {
    var n, rest := pieces[0], pieces[1..];
    var s1 := Apply(size, s, Write(n));
    assert Writes(pieces) == [Write(n)] + Writes(rest);
    Associate(s.wire, c[s.offset..s.offset + n], c[s.offset + n..]);
    assert c[s.offset..] == c[s.offset..s.offset + n] + c[s.offset + n..];
    if rest == [] {
      assert Writes(rest) == [] && Run(size, s1, [], s1);
    } else {
      assert 0 < rest[0] <= Total(rest);
      WritesAnyhow(size, s1, c, rest);
    }
    RunFirst(size, s, Write(n), Writes(rest),
             s.(wire := s.wire + c[s.offset..], sent := s.sent + [c], sending := [], offset := 0));
  }

  /** ... and read in any pieces. */
  lemma {:induction false} ReadsAnyhow(size: nat, s: State, pieces: seq<nat>)
    requires s.receiving && |s.partial| < size && |s.partial| + Total(pieces) == size
    requires |s.partial| + |s.wire| == size
    requires forall k | 0 <= k < |pieces| :: 0 < pieces[k]
    ensures Run(size, s, Reads(pieces),
                s.(wire := [], received := s.received + [s.partial + s.wire], receiving := false, partial := []))
    decreases |pieces|
  {
    var n, rest := pieces[0], pieces[1..];
    var s', s1 := s.(wire := [], received := s.received + [s.partial + s.wire], receiving := false, partial := []),
                  Apply(size, s, Read(n));
    assert Reads(pieces) == [Read(n)] + Reads(rest);
    assert s.partial + s.wire[..n] + s.wire[n..] == s.partial + s.wire;
    if rest == [] {
      assert s.wire[..n] == s.wire;
      assert Reads(rest) == [] && Run(size, s1, [], s1);
      assert s1 == s';
    } else {
      assert 0 < rest[0] <= Total(rest);
      ReadsAnyhow(size, s1, rest);
      assert s1.partial + s1.wire == s.partial + s.wire;
    }
    RunFirst(size, s, Read(n), Reads(rest), s');
  }

  /** However write() and read() cut it, a command sent over an idle pipe is received. */
  lemma AnyCut(size: nat, s: State, c: Frame, takes: seq<nat>, gives: seq<nat>)
    requires 0 < size == |c| && s.sending == [] && s.wire == [] && !s.receiving
    requires Total(takes) == size == Total(gives)
    requires (forall k | 0 <= k < |takes| :: 0 < takes[k]) && (forall k | 0 <= k < |gives| :: 0 < gives[k])
    ensures Run(size, s, [Send(c)] + Writes(takes) + ([Receive] + Reads(gives)),
                s.(sent := s.sent + [c], offset := 0, received := s.received + [c], partial := []))
  {
    var s1 := Apply(size, s, Send(c));
    WritesAnyhow(size, s1, c, takes);
    var s2 := s1.(wire := c, sent := s.sent + [c], sending := [], offset := 0);
    assert s1.wire + c[0..] == c;
    RunFirst(size, s, Send(c), Writes(takes), s2);
    var s3 := Apply(size, s2, Receive);
    ReadsAnyhow(size, s3, gives);
    var s4 := s3.(wire := [], received := s.received + [c], receiving := false, partial := []);
    assert s3.partial + s3.wire == c;
    RunFirst(size, s2, Receive, Reads(gives), s4);
    RunJoins(size, s, [Send(c)] + Writes(takes), s2, [Receive] + Reads(gives), s4);
  }
}
