/** The output path of a TCP connection in its loop thread: direct and deferred writes, write
    interest, half-close and close. What the kernel does with a write is a parameter. */
module TcpConnection {
  import opened ByteBuffer

  datatype ConnState = Connecting | Connected | Disconnecting | Disconnected

  /** The result of `write`: bytes taken, EWOULDBLOCK, EPIPE or ECONNRESET, another error. */
  datatype Outcome = Wrote(n: nat) | WouldBlock | Broken | OtherError

  /** What the connection queues to its loop. */
  datatype Callback = WriteComplete | HighWater(size: nat) | ForceCloseInLoop

  datatype Setup = Setup(highWaterMark: nat, onWriteComplete: bool, onHighWater: bool)

  /** `wire` is what the kernel took. `offered` are the bytes of all sends made while connected,
      `accepted` those of them that were not dropped for a broken connection. `shuts` counts
      half-closes; `forced` says that a forced close was asked for. */
  datatype State = State(
    st: ConnState, output: seq<byte>, writing: bool, queued: seq<Callback>,
    wire: seq<byte>, offered: seq<byte>, accepted: seq<byte>, shuts: nat, forced: bool)

  const INIT := State(Connecting, [], false, [], [], [], [], 0, false)

  datatype Step =
    | Establish
    | Send(message: seq<byte>, o: Outcome)
    | HandleWrite(w: Outcome)
    | Shutdown
    | ForceClose
    | CloseInLoop
    | HandleClose
    | Destroy

  predicate Possible(o: Outcome, len: nat) {
    o.Wrote? ==> o.n <= len
  }

  predicate Direct(s: State) {
    !s.writing && s.output == []
  }

  predicate Enabled(s: State, a: Step) {
    match a
    case Establish => s.st.Connecting?
    case Send(message, o) => Possible(o, |message|)
    case HandleWrite(w) => Possible(w, |s.output|)
    case HandleClose => s.st.Connected? || s.st.Disconnecting?
    case _ => true
  }

  function Deferred(s: State, setup: Setup, rest: seq<byte>): State {
    var size := |s.output| + |rest|;
    s.(queued := if size >= setup.highWaterMark && |s.output| < setup.highWaterMark && setup.onHighWater
                 then s.queued + [HighWater(size)] else s.queued,
       output := s.output + rest, writing := true)
  }

  function SendStep(s: State, setup: Setup, message: seq<byte>, o: Outcome): State
    requires Possible(o, |message|)
  {
    if !s.st.Connected? then s else
    var n := if Direct(s) && o.Wrote? then o.n else 0;
    var done := Direct(s) && o.Wrote? && n == |message| && setup.onWriteComplete;
    var fault := Direct(s) && o.Broken?;
    var t := s.(wire := s.wire + message[..n], offered := s.offered + message,
                accepted := if fault then s.accepted else s.accepted + message,
                queued := if done then s.queued + [WriteComplete] else s.queued);
    if !fault && n < |message| then Deferred(t, setup, message[n..]) else t
  }

  function ShutdownInLoop(s: State): State {
    if s.writing then s else s.(shuts := s.shuts + 1)
  }

  function WriteStep(s: State, setup: Setup, w: Outcome): State
    requires Possible(w, |s.output|)
  {
    if !s.writing || !w.Wrote? || w.n == 0 then s else
    var t := s.(wire := s.wire + s.output[..w.n], output := s.output[w.n..]);
    if t.output != [] then t else
    var u := t.(writing := false, queued := if setup.onWriteComplete then t.queued + [WriteComplete] else t.queued);
    if u.st.Disconnecting? then ShutdownInLoop(u) else u
  }

  function Closed(s: State): State {
    s.(st := Disconnected, writing := false)
  }

  function Apply(s: State, setup: Setup, a: Step): State {
    if !Enabled(s, a) then s else
    match a
    case Establish => s.(st := Connected)
    case Send(message, o) => SendStep(s, setup, message, o)
    case HandleWrite(w) => WriteStep(s, setup, w)
    case Shutdown => if s.st.Connected? then ShutdownInLoop(s.(st := Disconnecting)) else s
    case ForceClose =>
      if s.st.Connected? || s.st.Disconnecting?
      then s.(st := Disconnecting, forced := true, queued := s.queued + [ForceCloseInLoop]) else s
    case CloseInLoop => if s.st.Connected? || s.st.Disconnecting? then Closed(s) else s
    case HandleClose => Closed(s)
    case Destroy => if s.st.Connected? then Closed(s) else s
  }

  function Run(setup: Setup, acts: seq<Step>): State {
    if acts == [] then INIT else Apply(Run(setup, acts[..|acts| - 1]), setup, acts[|acts| - 1])
  }

  // ----- the invariant -----

  /** The wire and the output buffer are the accepted bytes; write interest is on exactly while
      there is something to write; the half-close comes once, after everything is written, and is
      not forgotten once asked for. */
  predicate Inv(s: State) {
    && s.wire + s.output == s.accepted
    && (!s.st.Disconnected? ==> (s.writing <==> s.output != []))
    && (s.st.Disconnected? ==> !s.writing)
    && (s.st.Connecting? ==> s.output == [] && !s.forced)
    && s.shuts <= 1
    && (s.shuts == 1 ==> (s.st.Disconnecting? || s.st.Disconnected?) && s.output == [])
    && (s.st.Disconnecting? && s.output == [] && !s.forced ==> s.shuts == 1)
    && (s.forced ==> !s.st.Connected?)
  }

  lemma StreamKept(wire: seq<byte>, output: seq<byte>, message: seq<byte>, n: nat)
    requires n <= |message| && (output == [] || n == 0)
    ensures wire + message[..n] + (output + message[n..]) == wire + output + message
    ensures n == 0 ==> wire + message[..n] == wire
    ensures n == |message| ==> wire + message[..n] + output == wire + output + message
  {
    assert message == message[..n] + message[n..];
    assert output == [] ==> wire + output == wire;
  }

  lemma SendKeepsInv(s: State, setup: Setup, message: seq<byte>, o: Outcome)
    requires Inv(s) && Possible(o, |message|)
    ensures Inv(SendStep(s, setup, message, o))
  {
    if s.st.Connected? {
      StreamKept(s.wire, s.output, message, if Direct(s) && o.Wrote? then o.n else 0);
    }
  }

  lemma WriteKeepsInv(s: State, setup: Setup, w: Outcome)
    requires Inv(s) && Possible(w, |s.output|)
    ensures Inv(WriteStep(s, setup, w))
  {
    if s.writing && w.Wrote? {
      assert s.output == s.output[..w.n] + s.output[w.n..];
    }
  }

  lemma StepKeepsInv(s: State, setup: Setup, a: Step)
    requires Inv(s)
    ensures Inv(Apply(s, setup, a))
  {
    if Enabled(s, a) {
      match a
      case Send(message, o) => SendKeepsInv(s, setup, message, o);
      case HandleWrite(w) => WriteKeepsInv(s, setup, w);
      case _ =>
    }
  }

  /** A direct write of at least one byte finds the connection broken. */
  predicate Faults(s: State, a: Step) {
    a.Send? && s.st.Connected? && Direct(s) && a.o.Broken? && a.message != []
  }

  predicate NeverFaults(setup: Setup, acts: seq<Step>) {
    acts == [] || (NeverFaults(setup, acts[..|acts| - 1]) && !Faults(Run(setup, acts[..|acts| - 1]), acts[|acts| - 1]))
  }

  /** Dropped bytes stay missing. */
  lemma StepMisses(s: State, setup: Setup, a: Step)
    ensures var t := Apply(s, setup, a);
      |t.offered| - |t.accepted| == |s.offered| - |s.accepted| + if Faults(s, a) then |a.message| else 0
    ensures !Faults(s, a) && s.accepted == s.offered ==> Apply(s, setup, a).accepted == Apply(s, setup, a).offered
  {
  }

  /** For every pattern of partial writes, sends and closes: the connection carries one byte stream,
      which is every byte offered while connected exactly if no direct write of some bytes found the
      connection broken. */
  lemma {:induction false} OneByteStream(setup: Setup, acts: seq<Step>)
    ensures Inv(Run(setup, acts))
    ensures var s := Run(setup, acts);
      && s.wire + s.output == s.accepted
      && |s.accepted| <= |s.offered|
      && (s.accepted == s.offered <==> NeverFaults(setup, acts))
      && (!NeverFaults(setup, acts) ==> |s.accepted| < |s.offered|)
  {
    hide Apply;
    if acts != [] {
      OneByteStream(setup, acts[..|acts| - 1]);
      StepMisses(Run(setup, acts[..|acts| - 1]), setup, acts[|acts| - 1]);
      StepKeepsInv(Run(setup, acts[..|acts| - 1]), setup, acts[|acts| - 1]);
    }
  }

  function RunFrom(s: State, setup: Setup, acts: seq<Step>): State {
    if acts == [] then s else Apply(RunFrom(s, setup, acts[..|acts| - 1]), setup, acts[|acts| - 1])
  }

  /** Once the write side is shut down nothing more is written, accepted or shut down, whatever
      happens later; and by then every accepted byte was on the wire. */
  lemma {:induction false} SilentAfterShutdown(s: State, setup: Setup, acts: seq<Step>)
    requires Inv(s) && s.shuts == 1
    ensures s.wire == s.accepted
    ensures var t := RunFrom(s, setup, acts);
      Inv(t) && t.wire == s.wire && t.accepted == s.accepted && t.shuts == 1
  {
    assert s.wire + [] == s.wire;
    if acts != [] {
      SilentAfterShutdown(s, setup, acts[..|acts| - 1]);
      StepKeepsInv(RunFrom(s, setup, acts[..|acts| - 1]), setup, acts[|acts| - 1]);
    }
  }

  /** What is on the wire is never taken back. */
  lemma {:induction false} WireOnlyGrows(s: State, setup: Setup, acts: seq<Step>)
    ensures s.wire <= RunFrom(s, setup, acts).wire
    ensures s.accepted <= RunFrom(s, setup, acts).accepted
  {
    hide Apply;
    if acts != [] {
      WireOnlyGrows(s, setup, acts[..|acts| - 1]);
      StepGrows(RunFrom(s, setup, acts[..|acts| - 1]), setup, acts[|acts| - 1]);
    }
  }

  lemma StepGrows(s: State, setup: Setup, a: Step)
    ensures s.wire <= Apply(s, setup, a).wire && s.accepted <= Apply(s, setup, a).accepted
  {
  }

  // ----- what the kernel and the callers did -----

  /** The bytes the kernel takes in one step: of a direct write, or of the output buffer. */
  function KernelTakes(s: State, a: Step): nat {
    match a
    case Send(message, o) => if s.st.Connected? && Direct(s) && Possible(o, |message|) && o.Wrote? then o.n else 0
    case HandleWrite(w) => if s.writing && Possible(w, |s.output|) && w.Wrote? then w.n else 0
    case _ => 0
  }

  function KernelTook(setup: Setup, acts: seq<Step>): nat {
    if acts == [] then 0 else
    KernelTook(setup, acts[..|acts| - 1]) + KernelTakes(Run(setup, acts[..|acts| - 1]), acts[|acts| - 1])
  }

  /** The wire holds exactly as many bytes as the kernel said it took. */
  lemma {:induction false} WireIsWhatKernelTook(setup: Setup, acts: seq<Step>)
    ensures |Run(setup, acts).wire| == KernelTook(setup, acts)
  {
    hide Apply, KernelTakes;
    if acts != [] {
      WireIsWhatKernelTook(setup, acts[..|acts| - 1]);
      StepTakes(Run(setup, acts[..|acts| - 1]), setup, acts[|acts| - 1]);
    }
  }

  lemma StepTakes(s: State, setup: Setup, a: Step)
    ensures |Apply(s, setup, a).wire| == |s.wire| + KernelTakes(s, a)
  {
  }

  /** The connection's states, from what is asked of it alone. */
  function NextState(st: ConnState, a: Step): ConnState {
    match a
    case Establish => if st.Connecting? then Connected else st
    case Shutdown => if st.Connected? then Disconnecting else st
    case ForceClose => if st.Connected? || st.Disconnecting? then Disconnecting else st
    case CloseInLoop => if st.Connected? || st.Disconnecting? then Disconnected else st
    case HandleClose => if st.Connected? || st.Disconnecting? then Disconnected else st
    case Destroy => if st.Connected? then Disconnected else st
    case _ => st
  }

  function StateAfter(acts: seq<Step>): ConnState {
    if acts == [] then Connecting else NextState(StateAfter(acts[..|acts| - 1]), acts[|acts| - 1])
  }

  /** All messages sent while connected, one after the other. */
  function SentWhileConnected(acts: seq<Step>): seq<byte> {
    if acts == [] then [] else
    var front, a := acts[..|acts| - 1], acts[|acts| - 1];
    if a.Send? && Possible(a.o, |a.message|) && StateAfter(front).Connected? then SentWhileConnected(front) + a.message
    else SentWhileConnected(front)
  }

  lemma {:induction false} OfferedIsSent(setup: Setup, acts: seq<Step>)
    ensures Run(setup, acts).st == StateAfter(acts) && Run(setup, acts).offered == SentWhileConnected(acts)
  {
    hide Apply, NextState;
    if acts != [] {
      OfferedIsSent(setup, acts[..|acts| - 1]);
      StepOffers(Run(setup, acts[..|acts| - 1]), setup, acts[|acts| - 1]);
    }
  }

  lemma StepOffers(s: State, setup: Setup, a: Step)
    ensures Apply(s, setup, a).st == NextState(s.st, a)
    ensures Apply(s, setup, a).offered ==
      if a.Send? && Possible(a.o, |a.message|) && s.st.Connected? then s.offered + a.message else s.offered
  {
  }

  function Sum(ns: seq<nat>): nat {
    if ns == [] then 0 else Sum(ns[..|ns| - 1]) + ns[|ns| - 1]
  }

  function Writes(ns: seq<nat>): (r: seq<Step>)
    ensures |r| == |ns| && forall i :: 0 <= i < |ns| ==> r[i] == HandleWrite(Wrote(ns[i]))
  {
    seq(|ns|, i requires 0 <= i < |ns| => HandleWrite(Wrote(ns[i])))
  }

  /** Partial writes move exactly the bytes taken, in order; when their sizes add up to what is
      buffered, the buffer is drained, write interest dropped and a deferred half-close performed. */
  lemma {:induction false} PartialWritesDrain(s: State, setup: Setup, ns: seq<nat>)
    requires Inv(s) && s.writing && Sum(ns) <= |s.output|
    ensures var t := RunFrom(s, setup, Writes(ns));
      && t.wire == s.wire + s.output[..Sum(ns)] && t.output == s.output[Sum(ns)..] && t.st == s.st
      && (t.writing <==> Sum(ns) < |s.output|)
      && t.shuts == if s.st.Disconnecting? && Sum(ns) == |s.output| then 1 else 0
  {
    if ns == [] {
      assert s.output[..0] == [] && s.wire + [] == s.wire;
    } else {
      var front, n := ns[..|ns| - 1], ns[|ns| - 1];
      PartialWritesDrain(s, setup, front);
      hide Apply, Inv;
      assert Writes(ns)[..|ns| - 1] == Writes(front);
      OneWrite(RunFrom(s, setup, Writes(front)), setup, n);
      SlicesJoin(s.wire, s.output, Sum(front), n);
    }
  }

  lemma SlicesJoin(wire: seq<byte>, output: seq<byte>, k: nat, n: nat)
    requires k + n <= |output|
    ensures wire + output[..k] + output[k..][..n] == wire + output[..k + n]
    ensures output[k..][n..] == output[k + n..]
  {
  }

  lemma OneWrite(s: State, setup: Setup, n: nat)
    requires n <= |s.output| && (s.writing <==> s.output != [])
    ensures var t := Apply(s, setup, HandleWrite(Wrote(n)));
      && t.wire == s.wire + s.output[..n] && t.output == s.output[n..] && t.st == s.st
      && (t.writing <==> t.output != [])
      && t.shuts == if s.writing && n == |s.output| && s.st.Disconnecting? then s.shuts + 1 else s.shuts
  {
    assert s.output[..0] == [] && s.wire + [] == s.wire;
  }

  // ----- callbacks -----

  /** A step queues a write-complete callback exactly when it puts the last accepted byte on the
      wire, and a high-water callback exactly when it lifts the output across the mark. */
  lemma CallbacksRight(s: State, setup: Setup, a: Step)
    requires Inv(s) && Enabled(s, a)
    ensures var t := Apply(s, setup, a);
      && s.queued <= t.queued
      && (WriteComplete in t.queued[|s.queued|..] <==>
            setup.onWriteComplete && t.wire == t.accepted && !t.writing
            && ((a.Send? && s.st.Connected? && a.o == Wrote(|a.message|) && s.output == [])
                || (a.HandleWrite? && s.writing && s.wire != t.wire)))
      && (forall n :: HighWater(n) in t.queued[|s.queued|..] <==>
            setup.onHighWater && n == |t.output| && |s.output| < setup.highWaterMark <= |t.output|)
      && (ForceCloseInLoop in t.queued[|s.queued|..] <==> a.ForceClose? && (s.st.Connected? || s.st.Disconnecting?))
  {
    var t := Apply(s, setup, a);
    StepKeepsInv(s, setup, a);
    if a.HandleWrite? {
      WriteCallbacks(s, setup, a.w);
    } else if a.Send? {
      SendCallbacks(s, setup, a.message, a.o);
    } else if t.queued == s.queued {
      assert t.queued[|s.queued|..] == [];
    } else {
      assert t.queued[|s.queued|..] == [ForceCloseInLoop];
    }
  }

  lemma WriteCallbacks(s: State, setup: Setup, w: Outcome)
    requires Inv(s) && Possible(w, |s.output|)
    ensures var t := WriteStep(s, setup, w);
      && t.queued == s.queued + (if setup.onWriteComplete && s.writing && s.wire != t.wire && !t.writing then [WriteComplete] else [])
      && |t.output| <= |s.output|
      && (s.writing && !t.writing ==> t.wire == t.accepted)
      && (!s.writing ==> t == s)
  {
    WriteKeepsInv(s, setup, w);
    var t := WriteStep(s, setup, w);
    assert t.wire + [] == t.wire;
    if s.writing && w.Wrote? && w.n > 0 {
      assert |t.wire| > |s.wire|;
    }
  }

  lemma SendCallbacks(s: State, setup: Setup, message: seq<byte>, o: Outcome)
    requires Inv(s) && Possible(o, |message|)
    ensures var t := SendStep(s, setup, message, o);
      && t.queued == s.queued
           + (if setup.onWriteComplete && s.st.Connected? && o == Wrote(|message|) && s.output == [] then [WriteComplete] else [])
           + (if setup.onHighWater && |s.output| < setup.highWaterMark <= |t.output| then [HighWater(|t.output|)] else [])
      && (s.st.Connected? && o == Wrote(|message|) && s.output == [] ==> !t.writing && t.output == [] && t.wire == t.accepted)
  {
    SendKeepsInv(s, setup, message, o);
    var t := SendStep(s, setup, message, o);
    assert t.wire + [] == t.wire;
    assert s.queued + [] == s.queued && s.queued + [] + [] == s.queued;
  }

  // ----- the class -----

  class Connection {
    var state: ConnState
    var outputBuffer: Buffer
    var writing: bool
    var queuedInLoop: seq<Callback>
    const setup: Setup
    ghost var wire: seq<byte>
    ghost var offered: seq<byte>
    ghost var accepted: seq<byte>
    ghost var shuts: nat
    ghost var forced: bool

    ghost function View(): State
      requires outputBuffer.Valid()
      reads this, outputBuffer, outputBuffer.buffer
    {
      State(state, outputBuffer.Contents(), writing, queuedInLoop, wire, offered, accepted, shuts, forced)
    }

    ghost predicate Valid()
      reads this, outputBuffer, outputBuffer.buffer
    {
      outputBuffer.Valid() && Inv(View())
    }

    constructor (setup: Setup)
      ensures Valid() && View() == INIT && this.setup == setup
      ensures fresh(outputBuffer) && fresh(outputBuffer.buffer)
    {
      state, writing, queuedInLoop := Connecting, false, [];
      outputBuffer := new Buffer(INITIAL_SIZE);
      this.setup := setup;
      wire, offered, accepted, shuts, forced := [], [], [], 0, false;
    }

    method ConnectEstablished()
      requires Valid() && state.Connecting?
      modifies this
      ensures Valid() && outputBuffer == old(outputBuffer)
      ensures View() == Apply(old(View()), setup, Establish)
    {
      state := Connected;
    }

    /** `send` in the loop thread, with `sendInLoop`; `o` is the result of a direct write. */
    method SendMessage(message: seq<byte>, o: Outcome)
      requires Valid() && Possible(o, |message|)
      modifies this, outputBuffer, outputBuffer.buffer
      ensures Valid() && outputBuffer == old(outputBuffer)
      ensures outputBuffer.buffer == old(outputBuffer.buffer) || fresh(outputBuffer.buffer)
      ensures View() == Apply(old(View()), setup, Send(message, o))
    {
      hide Inv, Deferred;
      SendKeepsInv(View(), setup, message, o);
      if !state.Connected? {
        return;
      }
      var nwrote := 0;
      var remaining := |message|;
      var faultError := false;
      if !writing && outputBuffer.ReadableBytes() == 0 {
        if o.Wrote? {
          nwrote := o.n;
          remaining := |message| - nwrote;
          if remaining == 0 && setup.onWriteComplete {
            queuedInLoop := queuedInLoop + [WriteComplete];
          }
        } else if o.Broken? {
          faultError := true;
        }
      }
      wire := wire + message[..nwrote];
      offered := offered + message;
      accepted := if faultError then accepted else accepted + message;
      if !faultError && remaining > 0 {
        Defer(message[nwrote..]);
      }
    }

    /** The end of `sendInLoop`: what was not written waits in the output buffer. */
    method Defer(rest: seq<byte>)
      requires outputBuffer.Valid()
      modifies this`queuedInLoop, this`writing, outputBuffer, outputBuffer.buffer
      ensures outputBuffer.Valid()
      ensures outputBuffer.buffer == old(outputBuffer.buffer) || fresh(outputBuffer.buffer)
      ensures View() == Deferred(old(View()), setup, rest)
    {
      var oldLen := outputBuffer.ReadableBytes();
      if oldLen + |rest| >= setup.highWaterMark && oldLen < setup.highWaterMark && setup.onHighWater {
        queuedInLoop := queuedInLoop + [HighWater(oldLen + |rest|)];
      }
      outputBuffer.Append(rest);
      if !writing {
        writing := true;
      }
    }

    method ShutdownWriteInLoop()
      requires outputBuffer.Valid()
      modifies this`shuts
      ensures outputBuffer.Valid() && View() == ShutdownInLoop(old(View()))
    {
      if !writing {
        shuts := shuts + 1;
      }
    }

    method ShutdownConnection()
      requires Valid()
      modifies this
      ensures Valid() && outputBuffer == old(outputBuffer)
      ensures View() == Apply(old(View()), setup, Shutdown)
    {
      StepKeepsInv(View(), setup, Shutdown);
      if state.Connected? {
        state := Disconnecting;
        ShutdownWriteInLoop();
      }
    }

    /** The descriptor is writable; `w` is the result of writing the output buffer. */
    method HandleWritable(w: Outcome)
      requires Valid() && Possible(w, outputBuffer.ReadableBytes())
      modifies this, outputBuffer
      ensures Valid() && outputBuffer == old(outputBuffer)
      ensures outputBuffer.buffer == old(outputBuffer.buffer)
      ensures View() == Apply(old(View()), setup, HandleWrite(w))
    {
      hide Inv;
      WriteKeepsInv(View(), setup, w);
      if writing {
        if w.Wrote? && w.n > 0 {
          wire := wire + outputBuffer.Contents()[..w.n];
          outputBuffer.Retrieve(w.n);
          if outputBuffer.ReadableBytes() == 0 {
            writing := false;
            if setup.onWriteComplete {
              queuedInLoop := queuedInLoop + [WriteComplete];
            }
            if state.Disconnecting? {
              ShutdownWriteInLoop();
            }
          }
        }
      }
    }

    method ForceCloseConnection()
      requires Valid()
      modifies this
      ensures Valid() && outputBuffer == old(outputBuffer)
      ensures View() == Apply(old(View()), setup, ForceClose)
    {
      if state.Connected? || state.Disconnecting? {
        state := Disconnecting;
        queuedInLoop := queuedInLoop + [ForceCloseInLoop];
        forced := true;
      }
    }

    method ForceCloseNow()
      requires Valid()
      modifies this
      ensures Valid() && outputBuffer == old(outputBuffer)
      ensures View() == Apply(old(View()), setup, CloseInLoop)
    {
      if state.Connected? || state.Disconnecting? {
        HandlePeerClose();
      }
    }

    method HandlePeerClose()
      requires Valid() && (state.Connected? || state.Disconnecting?)
      modifies this
      ensures Valid() && outputBuffer == old(outputBuffer)
      ensures View() == Apply(old(View()), setup, HandleClose)
    {
      state := Disconnected;
      writing := false;
    }

    method ConnectDestroyed()
      requires Valid()
      modifies this
      ensures Valid() && outputBuffer == old(outputBuffer)
      ensures View() == Apply(old(View()), setup, Destroy)
    {
      if state.Connected? {
        state := Disconnected;
        writing := false;
      }
    }
  }
}
