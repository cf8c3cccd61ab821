/** The asynchronous logger: many appending threads, one writing thread, recycled buffers.
    Each lock section and each local stretch of the writing thread is one atomic step. */
module AsyncLogging {
  import opened Options

  const LARGE_BUFFER := 4000 * 1000
  const MAX_BATCH := 25

  /** `FixedBuffer::append`: all of the line or, when it does not fit, nothing. */
  function Put(buffer: string, line: string): string {
    if LARGE_BUFFER - |buffer| > |line| then buffer + line else buffer
  }

  /** What the log file receives: the text of a buffer, or the notice that buffers were dropped. */
  datatype Item = Chunk(text: string) | Notice(dropped: nat)

  /** Where the writing thread stands: at its `while` test, past the test and before or in its lock
      section (where it may wait), with a batch in hand, with `i` buffers of the trimmed batch
      written, or out of the loop. */
  datatype Phase = Top | Entered | Taken | Writing(i: nat) | Ended

  /** Shared fields, the writing thread's locals, the log file, and every batch taken so far. */
  datatype State = State(
    current: string, next: Option<string>, buffers: seq<string>, running: bool,
    phase: Phase, new1: Option<string>, new2: Option<string>, batch: seq<string>,
    out: seq<Item>, taken: seq<seq<string>>)

  const INIT := State("", Some(""), [], true, Top, Some(""), Some(""), [], [], [])

  datatype Step = Append(line: string) | Test | Take | Trim | Write | Recycle | Stop

  function AppendStep(s: State, line: string): State {
    if LARGE_BUFFER - |s.current| > |line| then
      s.(current := Put(s.current, line))
    else
      s.(buffers := s.buffers + [s.current],
         current := Put(match s.next case Some(b) => b case None => "", line),
         next := None)
  }

  /** The lock section of the writing thread; waiting in it for a notification changes nothing. */
  function TakeStep(s: State): State
    requires s.new1.Some?
  {
    var all := s.buffers + [s.current];
    s.(buffers := [], current := s.new1.value, new1 := None, batch := all, taken := s.taken + [all], phase := Taken,
       next := if s.next.None? then s.new2 else s.next,
       new2 := if s.next.None? then None else s.new2)
  }

  function TrimStep(s: State): State {
    if |s.batch| > MAX_BATCH then
      s.(out := s.out + [Notice(|s.batch| - 2)], batch := s.batch[..2], phase := Writing(0))
    else
      s.(phase := Writing(0))
  }

  function WriteStep(s: State): State
    requires s.phase.Writing? && s.phase.i < |s.batch|
  {
    s.(out := s.out + [Chunk(s.batch[s.phase.i])], phase := Writing(s.phase.i + 1))
  }

  /** Spare buffers are refilled from the written batch, last buffer first. */
  function RecycleStep(s: State): State {
    s.(new1 := Some(if s.new1.None? then "" else s.new1.value),
       new2 := Some(if s.new2.None? then "" else s.new2.value),
       batch := [], phase := Top)
  }

  predicate Enabled(s: State, a: Step) {
    match a
    case Append(_) => true
    case Test => s.phase.Top?
    case Take => s.phase.Entered?
    case Trim => s.phase.Taken?
    case Write => s.phase.Writing? && s.phase.i < |s.batch|
    case Recycle => s.phase.Writing? && s.phase.i >= |s.batch|
    case Stop => true
  }

  // ----- the invariant across both threads -----

  ghost predicate Blank(b: Option<string>) {
    b == Some("")
  }

  /** An empty `next` means the appenders have already handed over a buffer, so a batch that takes
      the second spare has at least two buffers to give back. */
  ghost predicate SparesSafe(s: State) {
    && (s.next.None? ==> s.buffers != [])
    && (s.next.Some? ==> Blank(s.next))
    && match s.phase
       case Top => Blank(s.new1) && Blank(s.new2) && s.batch == []
       case Entered => Blank(s.new1) && Blank(s.new2) && s.batch == []
       case Ended => s.batch == []
       case Taken => s.new1.None? && s.batch != [] && (Blank(s.new2) || (s.new2.None? && |s.batch| >= 2))
       case Writing(i) => s.new1.None? && s.batch != [] && i <= |s.batch| <= MAX_BATCH
                          && (Blank(s.new2) || (s.new2.None? && |s.batch| >= 2))
  }

  function Concat(xs: seq<string>): string {
    if xs == [] then "" else Concat(xs[..|xs| - 1]) + xs[|xs| - 1]
  }

  function Flat(xs: seq<seq<string>>): string {
    if xs == [] then "" else Flat(xs[..|xs| - 1]) + Concat(xs[|xs| - 1])
  }

  /** The part of a batch that survives the size limit. */
  function Kept(batch: seq<string>): seq<string> {
    if |batch| > MAX_BATCH then batch[..2] else batch
  }

  function Chunks(xs: seq<string>): (r: seq<Item>)
    ensures |r| == |xs| && forall i :: 0 <= i < |xs| ==> r[i] == Chunk(xs[i])
  {
    seq(|xs|, i requires 0 <= i < |xs| => Chunk(xs[i]))
  }

  /** Everything the log file receives for one batch. */
  function Emit(batch: seq<string>): seq<Item> {
    (if |batch| > MAX_BATCH then [Notice(|batch| - 2)] else []) + Chunks(Kept(batch))
  }

  function EmitAll(batches: seq<seq<string>>): seq<Item> {
    if batches == [] then [] else EmitAll(batches[..|batches| - 1]) + Emit(batches[|batches| - 1])
  }

  /** The log file holds what the finished batches emit and a prefix of the one in hand. */
  ghost predicate OutputRight(s: State) {
    match s.phase
    case Top => s.out == EmitAll(s.taken)
    case Entered => s.out == EmitAll(s.taken)
    case Ended => s.out == EmitAll(s.taken)
    case Taken => s.taken != [] && s.taken[|s.taken| - 1] == s.batch && s.out == EmitAll(s.taken[..|s.taken| - 1])
    case Writing(i) =>
      && s.taken != [] && s.batch == Kept(s.taken[|s.taken| - 1]) && i <= |s.batch|
      && s.out + Chunks(s.batch[i..]) == EmitAll(s.taken)
  }

  /** The text of all accepted lines is, in order, the batches taken, the waiting buffers and the
      current buffer. */
  ghost predicate NothingLost(s: State, lines: seq<string>) {
    Concat(lines) == Flat(s.taken) + Concat(s.buffers) + s.current
  }

  ghost predicate Inv(s: State, lines: seq<string>) {
    SparesSafe(s) && OutputRight(s) && NothingLost(s, lines) && |s.current| < LARGE_BUFFER
  }

  // ----- runs -----

  /** One step; a step that is not enabled does not happen. */
  function Apply(s: State, a: Step): State {
    if !Enabled(s, a) then s else
    match a
    case Append(line) => AppendStep(s, line)
    case Test => s.(phase := if s.running then Entered else Ended)
    case Take => if s.new1.Some? then TakeStep(s) else s
    case Trim => TrimStep(s)
    case Write => WriteStep(s)
    case Recycle => RecycleStep(s)
    case Stop => s.(running := false)
  }

  /** The state after any interleaving of steps. */
  function Run(acts: seq<Step>): State {
    if acts == [] then INIT else Apply(Run(acts[..|acts| - 1]), acts[|acts| - 1])
  }

  /** The lines a buffer can hold; `FixedBuffer` silently ignores the others. */
  function Accepted(acts: seq<Step>): seq<string> {
    if acts == [] then [] else
    var a := acts[|acts| - 1];
    Accepted(acts[..|acts| - 1]) + if a.Append? && |a.line| < LARGE_BUFFER then [a.line] else []
  }

  lemma ConcatSnoc(xs: seq<string>, x: string)
    ensures Concat(xs + [x]) == Concat(xs) + x
  {
    assert (xs + [x])[..|xs|] == xs;
  }

  lemma Assoc(a: string, b: string, c: string)
    ensures (a + b) + c == a + (b + c)
  {
  }

  /** Handing over the current buffer and starting the next keeps the text in order. */
  lemma HandOver(taken: string, buffers: seq<string>, current: string, line: string)
    ensures taken + Concat(buffers + [current]) + line == (taken + Concat(buffers) + current) + line
  {
    ConcatSnoc(buffers, current);
    Assoc(taken, Concat(buffers), current);
  }

  lemma AppendKeepsText(s: State, lines: seq<string>, line: string)
    requires NothingLost(s, lines) && (s.next.Some? ==> s.next.value == "")
    ensures NothingLost(AppendStep(s, line), lines + if |line| < LARGE_BUFFER then [line] else [])
  {
    hide Concat, Flat;
    ConcatSnoc(lines, line);
    assert lines + [] == lines;
    HandOver(Flat(s.taken), s.buffers, s.current, line);
    HandOver(Flat(s.taken), s.buffers, s.current, "");
    Assoc(Flat(s.taken) + Concat(s.buffers), s.current, line);
    var x := Flat(s.taken) + Concat(s.buffers) + s.current;
    assert x + "" == x;
    assert "" + line == line;
    var y := Flat(s.taken) + Concat(s.buffers + [s.current]);
    assert y + "" == y;
  }

  lemma AppendKeepsInv(s: State, lines: seq<string>, line: string)
    requires Inv(s, lines)
    ensures Inv(AppendStep(s, line), lines + if |line| < LARGE_BUFFER then [line] else [])
  {
    hide NothingLost, EmitAll, Chunks, Kept, Concat, Flat;
    AppendKeepsText(s, lines, line);
  }

  lemma TakeKeepsText(s: State, lines: seq<string>)
    requires NothingLost(s, lines) && s.new1 == Some("")
    ensures NothingLost(TakeStep(s), lines)
  {
    hide Concat;
    var all := s.buffers + [s.current];
    ConcatSnoc(s.buffers, s.current);
    assert (s.taken + [all])[..|s.taken|] == s.taken;
    Assoc(Flat(s.taken), Concat(s.buffers), s.current);
    NothingMore(Flat(s.taken + [all]));
  }

  lemma NothingMore(text: string)
    ensures text + Concat([]) + "" == text
  {
  }

  lemma TakeKeepsInv(s: State, lines: seq<string>)
    requires Inv(s, lines) && s.phase.Entered?
    ensures Inv(TakeStep(s), lines)
  {
    hide NothingLost, EmitAll, Concat, Flat;
    TakeKeepsText(s, lines);
    assert TakeStep(s).taken[..|s.taken|] == s.taken;
  }

  lemma EmitSnoc(batches: seq<seq<string>>)
    requires batches != []
    ensures EmitAll(batches) == EmitAll(batches[..|batches| - 1]) + Emit(batches[|batches| - 1])
  {
  }

  lemma TrimKeepsInv(s: State, lines: seq<string>)
    requires Inv(s, lines) && s.phase.Taken?
    ensures Inv(TrimStep(s), lines)
  {
    var r := TrimStep(s);
    hide EmitAll, Concat, Flat, Chunks, Emit;
    EmitSnoc(s.taken);
    assert r.batch[0..] == r.batch;
    EmitNotice(s.out, s.batch);
  }

  lemma EmitNotice(out: seq<Item>, batch: seq<string>)
    ensures |batch| > MAX_BATCH ==> out + [Notice(|batch| - 2)] + Chunks(Kept(batch)) == out + Emit(batch)
    ensures |batch| <= MAX_BATCH ==> out + Chunks(Kept(batch)) == out + Emit(batch)
  {
  }

  lemma WriteKeepsInv(s: State, lines: seq<string>)
    requires Inv(s, lines) && s.phase.Writing? && s.phase.i < |s.batch|
    ensures Inv(WriteStep(s), lines)
  {
    hide EmitAll, Concat, Flat, Kept;
    var r := WriteStep(s);
    var i := s.phase.i;
    assert Chunks(s.batch[i..]) == [Chunk(s.batch[i])] + Chunks(s.batch[i + 1..]);
  }

  lemma RecycleKeepsInv(s: State, lines: seq<string>)
    requires Inv(s, lines) && s.phase.Writing? && s.phase.i >= |s.batch|
    ensures Inv(RecycleStep(s), lines)
  {
    assert s.batch[s.phase.i..] == [];
    assert s.out + Chunks([]) == s.out;
  }

  /** Every step of either thread keeps the invariant, and the writing thread never moves out of
      an empty spare. */
  lemma StepKeepsInv(s: State, lines: seq<string>, a: Step)
    requires Inv(s, lines)
    ensures Enabled(s, a) && a.Take? ==> s.new1.Some?
    ensures Inv(Apply(s, a), lines + if a.Append? && |a.line| < LARGE_BUFFER then [a.line] else [])
  {
    assert lines + [] == lines;
    if Enabled(s, a) {
      match a
      case Append(line) => AppendKeepsInv(s, lines, line);
      case Test =>
      case Take => TakeKeepsInv(s, lines);
      case Trim => TrimKeepsInv(s, lines);
      case Write => WriteKeepsInv(s, lines);
      case Recycle => RecycleKeepsInv(s, lines);
      case Stop =>
    }
  }

  /** In every interleaving the invariant holds. */
  lemma {:induction false} RunsKeepInv(acts: seq<Step>)
    ensures Inv(Run(acts), Accepted(acts))
  {
    if acts == [] {
      assert Inv(INIT, []);
    } else {
      RunsKeepInv(acts[..|acts| - 1]);
      StepKeepsInv(Run(acts[..|acts| - 1]), Accepted(acts[..|acts| - 1]), acts[|acts| - 1]);
    }
  }

  // ----- what that means for the log file -----

  /** The text in the log file, notices left out. */
  function TextOf(items: seq<Item>): string {
    if items == [] then "" else
    var x := items[|items| - 1];
    TextOf(items[..|items| - 1]) + if x.Chunk? then x.text else ""
  }

  lemma TextConcat(a: seq<Item>, b: seq<Item>)
    ensures TextOf(a + b) == TextOf(a) + TextOf(b)
  {
    if b == [] {
      assert a + b == a;
    } else {
      assert (a + b)[..|a + b| - 1] == a + b[..|b| - 1];
      TextConcat(a, b[..|b| - 1]);
    }
  }

  lemma TextOfChunks(xs: seq<string>)
    ensures TextOf(Chunks(xs)) == Concat(xs)
  {
    if xs != [] {
      assert Chunks(xs)[..|xs| - 1] == Chunks(xs[..|xs| - 1]);
      TextOfChunks(xs[..|xs| - 1]);
    }
  }

  lemma TextOfEmit(batch: seq<string>)
    ensures TextOf(Emit(batch)) == Concat(Kept(batch))
  {
    var head := if |batch| > MAX_BATCH then [Notice(|batch| - 2)] else [];
    TextConcat(head, Chunks(Kept(batch)));
    TextOfChunks(Kept(batch));
    assert |head| > 0 ==> head[..|head| - 1] == [];
  }

  function KeptAll(batches: seq<seq<string>>): seq<seq<string>> {
    if batches == [] then [] else KeptAll(batches[..|batches| - 1]) + [Kept(batches[|batches| - 1])]
  }

  /** The file shows exactly the kept part of every batch, in order. */
  lemma TextOfAll(batches: seq<seq<string>>)
    ensures TextOf(EmitAll(batches)) == Flat(KeptAll(batches))
  {
    if batches != [] {
      var front, last := batches[..|batches| - 1], batches[|batches| - 1];
      TextOfAll(front);
      TextConcat(EmitAll(front), Emit(last));
      TextOfEmit(last);
      assert KeptAll(batches)[..|KeptAll(batches)| - 1] == KeptAll(front);
    }
  }

  lemma NothingTrimmed(batches: seq<seq<string>>)
    requires forall b :: b in batches ==> |b| <= MAX_BATCH
    ensures KeptAll(batches) == batches
  {
    if batches != [] {
      assert batches[|batches| - 1] in batches;
      NothingTrimmed(batches[..|batches| - 1]);
    }
  }

  /** What is still to be written of the batch in hand. */
  function Unwritten(s: State): seq<string> {
    match s.phase
    case Taken => Kept(s.batch)
    case Writing(i) => if i <= |s.batch| then s.batch[i..] else []
    case _ => []
  }

  lemma FlatKeptSnoc(batches: seq<seq<string>>)
    requires batches != []
    ensures Flat(KeptAll(batches)) == Flat(KeptAll(batches[..|batches| - 1])) + Concat(Kept(batches[|batches| - 1]))
  {
    var front, last := KeptAll(batches[..|batches| - 1]), Kept(batches[|batches| - 1]);
    assert (front + [last])[..|front|] == front;
  }

  lemma UnwrittenText(s: State)
    requires OutputRight(s)
    ensures TextOf(s.out) + Concat(Unwritten(s)) == Flat(KeptAll(s.taken))
  {
    hide TextOf, Concat, Flat, KeptAll, Kept, EmitAll;
    TextOfAll(s.taken);
    match s.phase
    case Taken =>
      TextOfAll(s.taken[..|s.taken| - 1]);
      FlatKeptSnoc(s.taken);
    case Writing(i) =>
      TextConcat(s.out, Chunks(s.batch[i..]));
      TextOfChunks(s.batch[i..]);
    case _ =>
      NothingUnwritten(TextOf(s.out));
  }

  lemma NothingUnwritten(text: string)
    ensures text + Concat([]) == text
  {
  }

  /** At every moment of every interleaving, stops included: the file and the unwritten rest of the
      batch in hand hold the kept part of every batch, and batches, waiting buffers and current
      buffer hold every accepted line in order. So lines are lost only if a batch exceeded the
      limit. */
  lemma LogIsFifo(acts: seq<Step>)
    ensures var s := Run(acts);
      && TextOf(s.out) + Concat(Unwritten(s)) == Flat(KeptAll(s.taken))
      && Concat(Accepted(acts)) == Flat(s.taken) + Concat(s.buffers) + s.current
      && ((forall b :: b in s.taken ==> |b| <= MAX_BATCH) ==>
            Concat(Accepted(acts)) == TextOf(s.out) + Concat(Unwritten(s)) + Concat(s.buffers) + s.current)
  {
    var s := Run(acts);
    RunsKeepInv(acts);
    UnwrittenText(s);
    if forall b :: b in s.taken ==> |b| <= MAX_BATCH {
      NothingTrimmed(s.taken);
    }
  }

  /** A thread that had passed its test when the logger was stopped still takes and writes all that
      was appended; one that had not leaves it in the buffers for good. */
  lemma StopAndTake(acts: seq<Step>)
    requires Run(acts).phase.Entered?
    ensures var t := Apply(Apply(Run(acts), Stop), Take);
      t.phase.Taken? && t.buffers == [] && t.current == "" && Concat(Accepted(acts)) == Flat(t.taken)
  {
    RunsKeepInv(acts);
    var s := Run(acts);
    TakeKeepsInv(s, Accepted(acts));
    var t := TakeStep(s);
    assert Flat(t.taken) + Concat([]) + "" == Flat(t.taken);
  }

  lemma StopAndLeave(acts: seq<Step>, more: seq<Step>)
    requires Run(acts).phase.Top?
    ensures var t := Apply(Apply(Run(acts), Stop), Test);
      && t.buffers == Run(acts).buffers && t.current == Run(acts).current
      && RunFrom(t, more).phase.Ended? && RunFrom(t, more).out == Run(acts).out && RunFrom(t, more).taken == Run(acts).taken
  {
    EndedForGood(Apply(Apply(Run(acts), Stop), Test), more);
  }

  function RunFrom(s: State, acts: seq<Step>): State {
    if acts == [] then s else Apply(RunFrom(s, acts[..|acts| - 1]), acts[|acts| - 1])
  }

  /** Once the thread is out of its loop nothing is ever taken or written again. */
  lemma {:induction false} EndedForGood(s: State, acts: seq<Step>)
    requires s.phase.Ended?
    ensures var t := RunFrom(s, acts);
      t.phase.Ended? && t.out == s.out && t.taken == s.taken
  {
    if acts != [] {
      EndedForGood(s, acts[..|acts| - 1]);
    }
  }

  /** The spare buffers never run out: whenever the writing thread enters its lock section it owns
      two blank buffers, a batch in hand is not empty and is long enough for both refills, and the
      appenders always have a current buffer with room for a byte. */
  lemma SparesNeverMissing(acts: seq<Step>)
    ensures var s := Run(acts);
      && (s.phase.Top? || s.phase.Entered? ==> s.new1 == Some("") && s.new2 == Some("") && s.batch == [])
      && (s.phase.Taken? || s.phase.Writing? ==> s.new1.None? && s.batch != [])
      && (s.phase.Writing? && s.new2.None? ==> |s.batch| >= 2)
      && (s.next.None? ==> s.buffers != [])
      && |s.current| < LARGE_BUFFER
  {
    RunsKeepInv(acts);
  }

  // ----- how much text a batch takes -----

  /** A line with room in the current buffer joins it and moves no buffer; any other hands the buffer
      over. */
  lemma RoomKeepsBuffers(s: State, line: string)
    ensures |s.current| + |line| < LARGE_BUFFER ==> AppendStep(s, line) == s.(current := s.current + line)
    ensures |s.current| + |line| >= LARGE_BUFFER ==> AppendStep(s, line).buffers == s.buffers + [s.current]
  {
  }

  function Size(buffers: seq<string>): nat {
    if buffers == [] then 0 else Size(buffers[..|buffers| - 1]) + |buffers[|buffers| - 1]|
  }

  /** The text of all lines appended since the last lock section of the writing thread. */
  function Volume(acts: seq<Step>): nat {
    if acts == [] then 0 else
    var front, a := acts[..|acts| - 1], acts[|acts| - 1];
    if a.Append? then Volume(front) + |a.line|
    else if a.Take? && Enabled(Run(front), a) then 0
    else Volume(front)
  }

  /** The lines among them that found too little room. */
  function Displacing(acts: seq<Step>): nat {
    if acts == [] then 0 else
    var front, a := acts[..|acts| - 1], acts[|acts| - 1];
    if a.Append? then Displacing(front) + if |Run(front).current| + |a.line| >= LARGE_BUFFER then |a.line| else 0
    else if a.Take? && Enabled(Run(front), a) then 0
    else Displacing(front)
  }

  /** The waiting buffers together with the lines that displaced them reach one buffer's size each. */
  ghost predicate BuffersFull(s: State, volume: nat, displacing: nat) {
    && Size(s.buffers) + displacing >= |s.buffers| * LARGE_BUFFER
    && Size(s.buffers) + |s.current| <= volume && displacing <= volume
    && (s.buffers == [] && displacing == 0 ==> |s.current| == volume)
  }

  lemma SizeSnoc(buffers: seq<string>, b: string)
    ensures Size(buffers + [b]) == Size(buffers) + |b|
  {
    assert (buffers + [b])[..|buffers|] == buffers;
  }

  lemma AppendKeepsFull(s: State, line: string, volume: nat, displacing: nat)
    requires BuffersFull(s, volume, displacing) && (s.next.Some? ==> s.next.value == "")
    ensures BuffersFull(AppendStep(s, line), volume + |line|,
                        displacing + if |s.current| + |line| >= LARGE_BUFFER then |line| else 0)
  {
    SizeSnoc(s.buffers, s.current);
  }

  lemma {:induction false} BuffersFullInRuns(acts: seq<Step>)
    ensures BuffersFull(Run(acts), Volume(acts), Displacing(acts))
  {
    hide Inv, AppendStep, BuffersFull, Blank;
    if acts == [] {
      StartFull();
    } else {
      var front, a := acts[..|acts| - 1], acts[|acts| - 1];
      var s := Run(front);
      BuffersFullInRuns(front);
      RunsKeepInv(front);
      SparesBlank(s, Accepted(front));
      if a.Append? {
        AppendKeepsFull(s, a.line, Volume(front), Displacing(front));
      } else {
        OtherKeepsFull(s, a, Volume(front), Displacing(front));
      }
    }
  }

  lemma StartFull()
    ensures BuffersFull(INIT, 0, 0)
  {
  }

  lemma SparesBlank(s: State, lines: seq<string>)
    requires Inv(s, lines)
    ensures s.next.Some? ==> s.next.value == ""
    ensures s.phase.Entered? ==> s.new1 == Some("")
  {
  }

  lemma OtherKeepsFull(s: State, a: Step, volume: nat, displacing: nat)
    requires BuffersFull(s, volume, displacing) && !a.Append? && (s.phase.Entered? ==> s.new1 == Some(""))
    ensures if a.Take? && Enabled(s, a) then BuffersFull(Apply(s, a), 0, 0) else BuffersFull(Apply(s, a), volume, displacing)
  {
  }

  /** A batch of n + 1 buffers takes n / 2 buffers' worth of text since the last lock section; with
      less than one buffer's worth nothing is handed over at all. */
  lemma WaitingNeedsText(acts: seq<Step>)
    ensures |Run(acts).buffers| * LARGE_BUFFER <= 2 * Volume(acts)
    ensures Volume(acts) < LARGE_BUFFER ==> Run(acts).buffers == [] && |Run(acts).current| == Volume(acts)
  {
    BuffersFullInRuns(acts);
    if Volume(acts) < LARGE_BUFFER {
      SmallVolume(acts);
    }
  }

  lemma {:induction false} SmallVolume(acts: seq<Step>)
    requires Volume(acts) < LARGE_BUFFER
    ensures Run(acts).buffers == [] && Displacing(acts) == 0 && |Run(acts).current| == Volume(acts)
  {
    hide Inv, Blank;
    if acts != [] {
      var front, a := acts[..|acts| - 1], acts[|acts| - 1];
      RunsKeepInv(front);
      SparesBlank(Run(front), Accepted(front));
      if a.Append? {
        SmallVolume(front);
        RoomKeepsBuffers(Run(front), a.line);
      } else if !(a.Take? && Enabled(Run(front), a)) {
        SmallVolume(front);
      }
    }
  }

  /** Between two lock sections the appenders never append as much as 12.5 buffers hold. */
  predicate NeverFlooded(acts: seq<Step>) {
    acts == [] || (NeverFlooded(acts[..|acts| - 1]) && 2 * Volume(acts) < MAX_BATCH * LARGE_BUFFER)
  }

  lemma {:induction false} NeverFloodedNeverTrims(acts: seq<Step>)
    requires NeverFlooded(acts)
    ensures forall b :: b in Run(acts).taken ==> |b| <= MAX_BATCH
  {
    if acts != [] {
      var front, a := acts[..|acts| - 1], acts[|acts| - 1];
      NeverFloodedNeverTrims(front);
      BatchFits(front);
    }
  }

  lemma BatchFits(acts: seq<Step>)
    requires NeverFlooded(acts)
    ensures |Run(acts).buffers| < MAX_BATCH
  {
    WaitingNeedsText(acts);
    assert acts == [] ==> Volume(acts) == 0;
  }

  /** In such a run nothing is ever lost: file, rest of the batch, buffers and current buffer hold all
      accepted lines. */
  lemma NeverFloodedLosesNothing(acts: seq<Step>)
    requires NeverFlooded(acts)
    ensures var s := Run(acts);
      Concat(Accepted(acts)) == TextOf(s.out) + Concat(Unwritten(s)) + Concat(s.buffers) + s.current
  {
    NeverFloodedNeverTrims(acts);
    LogIsFifo(acts);
  }

  // ----- one round of the writing thread -----

  lemma {:induction false} RunningUntilStopped(acts: seq<Step>)
    ensures Run(acts).running <==> Stop !in acts
  {
    if acts != [] {
      RunningUntilStopped(acts[..|acts| - 1]);
      assert acts == acts[..|acts| - 1] + [acts[|acts| - 1]];
    }
  }

  function Writes(n: nat): (r: seq<Step>)
    ensures |r| == n && forall i :: 0 <= i < n ==> r[i] == Write
  {
    seq(n, _ => Write)
  }

  lemma RunSnoc(s: State, acts: seq<Step>, a: Step)
    ensures RunFrom(s, acts + [a]) == Apply(RunFrom(s, acts), a)
  {
    assert (acts + [a])[..|acts|] == acts;
  }

  lemma {:induction false} RunWrites(s: State, n: nat)
    requires s.phase == Writing(0) && n <= |s.batch|
    ensures RunFrom(s, Writes(n)) == s.(phase := Writing(n), out := s.out + Chunks(s.batch[..n]))
  {
    if n > 0 {
      assert Writes(n)[..n - 1] == Writes(n - 1);
      RunWrites(s, n - 1);
      assert Chunks(s.batch[..n]) == Chunks(s.batch[..n - 1]) + [Chunk(s.batch[n - 1])];
    } else {
      assert Writes(0) == [] && Chunks(s.batch[..0]) == [];
    }
  }

  /** From the test of a logger that was not stopped, one round of the writing thread alone takes
      everything and writes all of it that survives the size limit. */
  lemma RoundWrites(acts: seq<Step>)
    requires Run(acts).phase.Top? && Stop !in acts
    ensures var s := Run(acts);
      var m := Apply(Apply(Apply(s, Test), Take), Trim);
      var t := Apply(RunFrom(m, Writes(|m.batch|)), Recycle);
      && t.phase.Top? && t.buffers == [] && t.current == "" && t.running
      && t.taken == s.taken + [s.buffers + [s.current]]
      && t.out == s.out + Emit(s.buffers + [s.current]) && Concat(Accepted(acts)) == Flat(t.taken)
  {
    var s := Run(acts);
    RunningUntilStopped(acts);
    RunsKeepInv(acts);
    SparesBlank(s, Accepted(acts));
    RoundSteps(s, Accepted(acts));
  }

  lemma RoundSteps(s: State, lines: seq<string>)
    requires Inv(s, lines) && s.phase.Top? && s.running
    ensures var m := Apply(Apply(Apply(s, Test), Take), Trim);
      var t := Apply(RunFrom(m, Writes(|m.batch|)), Recycle);
      && t.phase.Top? && t.buffers == [] && t.current == "" && t.running
      && t.taken == s.taken + [s.buffers + [s.current]]
      && t.out == s.out + Emit(s.buffers + [s.current]) && Concat(lines) == Flat(t.taken)
  {
    hide EmitAll, Concat, Flat, Emit, Chunks, SparesSafe, OutputRight;
    var all := s.buffers + [s.current];
    var e := Apply(s, Test);
    StepKeepsInv(s, lines, Test);
    assert lines + [] == lines;
    SparesBlank(e, lines);
    TakeKeepsInv(e, lines);
    var m := Apply(Apply(e, Take), Trim);
    EmitNotice(s.out, all);
    RunWrites(m, |m.batch|);
    assert m.batch[..|m.batch|] == m.batch;
    var t := TakeStep(e);
    NothingMore(Flat(t.taken));
  }

  // ----- the class -----

  class Logger {
    var currentBuffer: Option<string>
    var nextBuffer: Option<string>
    var buffers: seq<string>
    var running: bool
    // Locals of the writing thread, which live across its lock sections.
    var newBuffer1: Option<string>
    var newBuffer2: Option<string>
    var buffersToWrite: seq<string>
    var output: seq<Item>
    ghost var phase: Phase
    ghost var taken: seq<seq<string>>
    ghost var lines: seq<string>

    ghost function View(): State
      requires currentBuffer.Some?
      reads this
    {
      State(currentBuffer.value, nextBuffer, buffers, running, phase, newBuffer1, newBuffer2, buffersToWrite, output, taken)
    }

    ghost predicate Valid()
      reads this
    {
      currentBuffer.Some? && Inv(View(), lines)
    }

    constructor ()
      ensures Valid() && View() == INIT && lines == []
    {
      currentBuffer, nextBuffer, buffers, running := Some(""), Some(""), [], true;
      newBuffer1, newBuffer2, buffersToWrite, output := Some(""), Some(""), [], [];
      phase, taken, lines := Top, [], [];
    }

    method AppendLine(line: string)
      requires Valid()
      modifies this
      ensures Valid() && View() == AppendStep(old(View()), line)
      ensures lines == old(lines) + if |line| < LARGE_BUFFER then [line] else []
    {
      hide NothingLost, OutputRight, EmitAll, Chunks, Kept, Concat, Flat;
      AppendKeepsInv(View(), lines, line);
      if LARGE_BUFFER - |currentBuffer.value| > |line| {
        currentBuffer := Some(Put(currentBuffer.value, line));
      } else {
        buffers := buffers + [currentBuffer.value];
        if nextBuffer.Some? {
          currentBuffer, nextBuffer := nextBuffer, None;
        } else {
          currentBuffer := Some("");
        }
        currentBuffer := Some(Put(currentBuffer.value, line));
      }
      lines := lines + if |line| < LARGE_BUFFER then [line] else [];
    }

    /** The `while` test. */
    method TestRunning() returns (go: bool)
      requires Valid() && phase.Top?
      modifies this
      ensures Valid() && View() == Apply(old(View()), Test) && lines == old(lines) && go == running
    {
      go := running;
      phase := if go then Entered else Ended;
    }

    method StopRunning()
      requires Valid()
      modifies this
      ensures Valid() && View() == Apply(old(View()), Stop) && lines == old(lines)
    {
      running := false;
    }

    /** The lock section; the logger may have been stopped since the test. */
    method TakeBatch()
      requires Valid() && phase.Entered?
      modifies this
      ensures Valid() && View() == TakeStep(old(View())) && lines == old(lines)
    {
      hide NothingLost, OutputRight, EmitAll, Chunks, Kept, Concat, Flat;
      assert newBuffer1.Some? && |newBuffer1.value| == 0;
      assert newBuffer2.Some? && |newBuffer2.value| == 0;
      assert buffersToWrite == [];
      TakeKeepsInv(View(), lines);
      buffers, currentBuffer := buffers + [currentBuffer.value], None;
      currentBuffer, newBuffer1 := newBuffer1, None;
      buffersToWrite, buffers := buffers, buffersToWrite;
      if nextBuffer.None? {
        nextBuffer, newBuffer2 := newBuffer2, None;
      }
      assert buffersToWrite != [];
      phase, taken := Taken, taken + [buffersToWrite];
    }

    method TrimBatch()
      requires Valid() && phase.Taken?
      modifies this
      ensures Valid() && View() == TrimStep(old(View())) && lines == old(lines)
    {
      hide NothingLost, OutputRight, EmitAll, Chunks, Kept, Concat, Flat;
      TrimKeepsInv(View(), lines);
      if |buffersToWrite| > MAX_BATCH {
        output := output + [Notice(|buffersToWrite| - 2)];
        buffersToWrite := buffersToWrite[..2];
      }
      phase := Writing(0);
    }

    method WriteBatch()
      requires Valid() && phase == Writing(0)
      modifies this
      ensures Valid() && phase == Writing(|buffersToWrite|) && lines == old(lines)
      ensures output == old(output) + Chunks(old(buffersToWrite))
      ensures View() == old(View()).(out := output, phase := phase)
    {
      hide NothingLost, OutputRight, EmitAll, Kept, Concat, Flat;
      var i := 0;
      while i < |buffersToWrite|
        invariant 0 <= i <= |buffersToWrite| == old(|buffersToWrite|)
        invariant Valid() && phase == Writing(i) && lines == old(lines)
        invariant output == old(output) + Chunks(old(buffersToWrite)[..i])
        invariant View() == old(View()).(out := output, phase := phase)
      {
        WriteKeepsInv(View(), lines);
        output := output + [Chunk(buffersToWrite[i])];
        phase := Writing(i + 1);
        i := i + 1;
      }
      assert old(buffersToWrite)[..i] == old(buffersToWrite);
    }

    method RecycleBuffers()
      requires Valid() && phase == Writing(|buffersToWrite|)
      modifies this
      ensures Valid() && View() == RecycleStep(old(View())) && lines == old(lines)
    {
      hide NothingLost, OutputRight, EmitAll, Chunks, Kept, Concat, Flat;
      RecycleKeepsInv(View(), lines);
      if |buffersToWrite| > 2 {
        buffersToWrite := buffersToWrite[..2];
      }
      if newBuffer1.None? {
        assert buffersToWrite != [];
        newBuffer1 := Some("");
        buffersToWrite := buffersToWrite[..|buffersToWrite| - 1];
      }
      if newBuffer2.None? {
        assert buffersToWrite != [];
        newBuffer2 := Some("");
        buffersToWrite := buffersToWrite[..|buffersToWrite| - 1];
      }
      buffersToWrite := [];
      phase := Top;
    }
  }
}
