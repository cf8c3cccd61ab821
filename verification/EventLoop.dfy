/** The queue of pending functors of an event loop: any number of queueing threads, one loop thread
    that blocks in poll, and the wake-up counter between them. Each lock section, each access to the
    counter and each functor call is one atomic step. */
module EventLoop {

  /** Functors are identified by the order in which they were made. */
  type Functor = nat

  /** Where the loop thread stands: at the `while` test, blocked in poll, handling events (with the
      wake-up channel among them or not), about to swap, running functors, or out of the loop. */
  datatype Phase = Top | Polling | Handling(wakeup: bool) | Calling | Running | Stopped

  /** The fields shared by the threads, the wake-up counter, and the loop thread's local batch.
      `owed` counts other threads between queueing (or quitting) and their write to the counter;
      `owing` says that the loop thread itself is there. `queued`, `executed` and `rounds` record
      the run. */
  datatype State = State(
    pending: seq<Functor>, calling: bool, quit: bool, counter: nat, owed: nat, owing: bool,
    phase: Phase, batch: seq<Functor>,
    queued: seq<Functor>, executed: seq<Functor>, rounds: nat)

  /** The loop as `loop()` finds it, with the functors its own thread queued beforehand. */
  function Entered(early: seq<Functor>): State {
    State(early, false, false, 0, 0, false, Top, [], early, [], 0)
  }

  /** Push, Quit and Write belong to other threads, the rest to the loop thread. */
  datatype Step =
    | Push(f: Functor) | Quit | Write
    | PushHere(g: Functor) | QuitHere | WriteHere
    | Test | Return(wakeup: bool) | Drain | Begin | Swap | Next | Finish

  /** The loop thread is in a callback: of a channel, or of a functor it runs. */
  predicate InCallback(s: State) {
    (s.phase.Handling? || s.phase.Running?) && !s.owing
  }

  /** Poll may return at any time, by its timeout or for another channel; it reports the wake-up
      channel only if the counter is not zero. */
  predicate Enabled(s: State, a: Step) {
    match a
    case Push(_) => true
    case Quit => true
    case Write => s.owed > 0
    case PushHere(_) => InCallback(s)
    case QuitHere => InCallback(s)
    case WriteHere => s.owing
    case Test => s.phase.Top?
    case Return(wakeup) => s.phase.Polling? && (wakeup ==> s.counter > 0)
    case Drain => s.phase == Handling(true) && !s.owing
    case Begin => s.phase == Handling(false) && !s.owing
    case Swap => s.phase.Calling?
    case Next => s.phase.Running? && !s.owing && s.batch != []
    case Finish => s.phase.Running? && !s.owing && s.batch == []
  }

  /** One step; a step that is not enabled does not happen. */
  function Apply(s: State, a: Step): State {
    if !Enabled(s, a) then s else
    match a
    case Push(f) => s.(pending := s.pending + [f], queued := s.queued + [f], owed := s.owed + 1)
    case Quit => s.(quit := true, owed := s.owed + 1)
    case Write => s.(owed := s.owed - 1, counter := s.counter + 1)
    case PushHere(g) => s.(pending := s.pending + [g], queued := s.queued + [g], owing := s.calling)
    case QuitHere => s.(quit := true)
    case WriteHere => s.(owing := false, counter := s.counter + 1)
    case Test => s.(phase := if s.quit then Stopped else Polling)
    case Return(wakeup) => s.(phase := Handling(wakeup))
    case Drain => s.(phase := Handling(false), counter := 0)
    case Begin => s.(phase := Calling, calling := true)
    case Swap => s.(phase := Running, batch := s.pending, pending := [])
    case Next => s.(executed := s.executed + [s.batch[0]], batch := s.batch[1..])
    case Finish => s.(phase := Top, calling := false, rounds := s.rounds + 1)
  }

  function RunFrom(s: State, acts: seq<Step>): State {
    if acts == [] then s else Apply(RunFrom(s, acts[..|acts| - 1]), acts[|acts| - 1])
  }

  // ----- the invariant -----

  /** The counter is readable, or a thread is about to make it so. */
  predicate Waking(s: State) {
    s.counter > 0 || s.owed > 0 || s.owing
  }

  /** From the swap to the next return of poll, a waiting functor implies a wake-up. Before the
      swap none is needed. A quit that the `while` test can no longer see implies one, too. */
  predicate Inv(s: State) {
    && (s.phase.Running? || s.phase.Top? || s.phase.Polling? ==> s.pending == [] || Waking(s))
    && (s.phase.Polling? ==> !s.quit || Waking(s))
    && (s.owing ==> s.phase.Running?)
    && (s.calling <==> s.phase.Calling? || s.phase.Running?)
    && (!s.phase.Running? ==> s.batch == [])
  }

  predicate InOrder(s: State) {
    s.executed + s.batch + s.pending == s.queued
  }

  lemma StepKeepsInv(s: State, a: Step)
    requires Inv(s)
    ensures Inv(Apply(s, a))
  {
  }

  lemma StepKeepsOrder(s: State, a: Step)
    requires InOrder(s) && (!s.phase.Running? ==> s.batch == [])
    ensures InOrder(Apply(s, a))
  {
    var t := Apply(s, a);
    if Enabled(s, a) {
      match a
      case Push(f) => assert s.executed + s.batch + (s.pending + [f]) == s.queued + [f];
      case PushHere(f) => assert s.executed + s.batch + (s.pending + [f]) == s.queued + [f];
      case Swap => assert s.executed + s.pending + [] == s.executed + [] + s.pending;
      case Next => assert s.executed + [s.batch[0]] + s.batch[1..] == s.executed + s.batch;
      case _ =>
    }
  }

  /** In every interleaving functors run in queueing order, each once, whether or not the loop has
      been entered with functors waiting. */
  lemma {:induction false} FunctorsInOrder(early: seq<Functor>, acts: seq<Step>)
    ensures var s := RunFrom(Entered(early), acts);
      InOrder(s) && (!s.phase.Running? ==> s.batch == [])
  {
    if acts != [] {
      FunctorsInOrder(early, acts[..|acts| - 1]);
      StepKeepsOrder(RunFrom(Entered(early), acts[..|acts| - 1]), acts[|acts| - 1]);
    }
  }

  lemma {:induction false} RunKeepsInv(s: State, acts: seq<Step>)
    requires Inv(s)
    ensures Inv(RunFrom(s, acts))
  {
    if acts != [] {
      RunKeepsInv(s, acts[..|acts| - 1]);
      StepKeepsInv(RunFrom(s, acts[..|acts| - 1]), acts[|acts| - 1]);
    }
  }

  /** Blocked in poll with work to do, or told to quit, the loop will be woken by the counter: it
      is readable, or another thread is about to write it. */
  predicate Attended(s: State) {
    s.phase.Polling? && (s.pending != [] || s.quit) ==> s.counter > 0 || s.owed > 0
  }

  /** No interleaving leaves a functor or a quit unattended exactly when the loop thread itself
      queued nothing before it entered the loop. */
  lemma AttendedIffNothingEarly(early: seq<Functor>)
    ensures (forall acts :: Attended(RunFrom(Entered(early), acts))) <==> early == []
  {
    if early == [] {
      forall acts ensures Attended(RunFrom(Entered(early), acts)) {
        RunKeepsInv(Entered(early), acts);
      }
    } else {
      assert RunFrom(Entered(early), []) == Entered(early);
      assert !Attended(RunFrom(Entered(early), [Test]));
    }
  }

  /** Even then the first round runs the early functors and restores the guarantee for good. */
  lemma AttendedAfterFirstRound(early: seq<Functor>, acts: seq<Step>)
    requires RunFrom(Entered(early), acts).rounds > 0
    ensures Inv(RunFrom(Entered(early), acts))
    ensures early <= RunFrom(Entered(early), acts).executed
  {
    RoundRunsWaiting(Entered(early), acts);
    InvAfterRound(early, acts);
  }

  /** The invariant but for functors queued before the loop was entered. */
  predicate LateInv(s: State) {
    && (s.rounds > 0 || s.phase.Running? ==> Inv(s))
    && (s.owing ==> s.phase.Running?)
    && (s.calling <==> s.phase.Calling? || s.phase.Running?)
    && (!s.phase.Running? ==> s.batch == [])
  }

  lemma {:induction false} InvAfterRound(early: seq<Functor>, acts: seq<Step>)
    ensures LateInv(RunFrom(Entered(early), acts))
  {
    if acts != [] {
      InvAfterRound(early, acts[..|acts| - 1]);
    }
  }

  // ----- every round does its work -----

  /** How `t` stands towards the functors that wait in `s`: still waiting, in the batch, or run. */
  predicate Served(s: State, t: State) {
    && s.rounds <= t.rounds
    && if t.rounds > s.rounds then s.executed + s.pending <= t.executed
       else if t.phase.Running? then s.executed + s.pending <= t.executed + t.batch
       else t.executed == s.executed && s.pending <= t.pending
  }

  lemma ServedStep(s: State, t: State, a: Step)
    requires Served(s, t)
    ensures Served(s, Apply(t, a))
  {
    var u := Apply(t, a);
    if Enabled(t, a) && a.Next? {
      assert u.executed + u.batch == t.executed + t.batch;
    }
  }

  /** Whatever else happens, when a round of functors ends after `s`, every functor that waited in
      `s` has run. */
  lemma {:induction false} RoundRunsWaiting(s: State, acts: seq<Step>)
    requires !s.phase.Running?
    ensures Served(s, RunFrom(s, acts))
    ensures RunFrom(s, acts).rounds > s.rounds ==> s.executed + s.pending <= RunFrom(s, acts).executed
  {
    if acts != [] {
      RoundRunsWaiting(s, acts[..|acts| - 1]);
      ServedStep(s, RunFrom(s, acts[..|acts| - 1]), acts[|acts| - 1]);
    }
  }

  // ----- a wake-up is enough -----

  function Nexts(n: nat): (r: seq<Step>)
    ensures |r| == n && forall i :: 0 <= i < n ==> r[i] == Next
  {
    seq(n, _ => Next)
  }

  lemma RunConcat(s: State, a: seq<Step>, b: seq<Step>)
    ensures RunFrom(s, a + b) == RunFrom(RunFrom(s, a), b)
  {
    if b == [] {
      assert a + b == a;
    } else {
      assert (a + b)[..|a + b| - 1] == a + b[..|b| - 1];
      RunConcat(s, a, b[..|b| - 1]);
    }
  }

  lemma RunSnoc(s: State, acts: seq<Step>, a: Step)
    ensures RunFrom(s, acts + [a]) == Apply(RunFrom(s, acts), a)
  {
    assert (acts + [a])[..|acts|] == acts;
  }

  lemma {:induction false} RunNexts(s: State, n: nat)
    requires s.phase.Running? && !s.owing && n <= |s.batch|
    ensures RunFrom(s, Nexts(n)) == s.(executed := s.executed + s.batch[..n], batch := s.batch[n..])
  {
    if n > 0 {
      assert Nexts(n)[..n - 1] == Nexts(n - 1);
      RunNexts(s, n - 1);
      assert s.batch[..n] == s.batch[..n - 1] + [s.batch[n - 1]];
    } else {
      assert Nexts(n) == [];
    }
  }

  /** A round of the loop thread alone from a blocked poll, with the wake-up channel reported or not. */
  function Round(s: State, wakeup: bool): seq<Step> {
    [Return(wakeup)] + (if wakeup then [Drain] else []) + [Begin] + [Swap] + Nexts(|s.pending|) + [Finish]
  }

  /** The same after the owed write, if the counter is zero. */
  function WakeUp(s: State): seq<Step> {
    Wake(s) + Round(s, true)
  }

  function Wake(s: State): seq<Step> {
    if s.counter == 0 then [Write] else []
  }

  /** A round runs everything that waits, uses up a reported wake-up, and leads to the `while` test. */
  predicate RoundDone(s: State, t: State, wakeup: bool) {
    && t.phase.Top? && t.executed == s.executed + s.pending && t.pending == [] && t.rounds == s.rounds + 1
    && t.counter == (if wakeup then 0 else s.counter) && t.quit == s.quit
    && Apply(t, Test).phase == if s.quit then Stopped else Polling
  }

  /** Every round does so, whether the wake-up, another channel or the timeout began it. */
  lemma RoundRunsAll(s: State, wakeup: bool)
    requires s.phase.Polling? && !s.owing && (wakeup ==> s.counter > 0)
    ensures RoundDone(s, RunFrom(s, Round(s, wakeup)), wakeup)
  {
    var start := [Return(wakeup)] + (if wakeup then [Drain] else []);
    var t := RunFrom(s, start + [Begin] + [Swap]);
    RoundSwaps(s, wakeup);
    RunNexts(t, |s.pending|);
    RunConcat(s, start + [Begin] + [Swap], Nexts(|s.pending|));
    RunSnoc(s, start + [Begin] + [Swap] + Nexts(|s.pending|), Finish);
  }

  lemma RoundSwaps(s: State, wakeup: bool)
    requires s.phase.Polling? && !s.owing && (wakeup ==> s.counter > 0)
    ensures var t := RunFrom(s, [Return(wakeup)] + (if wakeup then [Drain] else []) + [Begin] + [Swap]);
      && t.phase.Running? && !t.owing && t.batch == s.pending && t.pending == [] && t.executed == s.executed
      && t.rounds == s.rounds && t.counter == (if wakeup then 0 else s.counter) && t.quit == s.quit
  {
    RunSnoc(s, [], Return(wakeup));
    assert [] + [Return(wakeup)] == [Return(wakeup)];
    hide RunFrom;
    RunNone(s);
    RunSnoc(s, [Return(wakeup)], Drain);
    var start := [Return(wakeup)] + (if wakeup then [Drain] else []);
    assert [Return(wakeup)] + [] == [Return(wakeup)];
    RunSnoc(s, start, Begin);
    RunSnoc(s, start + [Begin], Swap);
  }

  lemma RunNone(s: State)
    ensures RunFrom(s, []) == s
  {
  }

  /** In particular the timeout alone brings every waiting functor to run. */
  lemma TimeoutSuffices(early: seq<Functor>, acts: seq<Step>)
    requires RunFrom(Entered(early), acts).phase.Polling?
    ensures var s := RunFrom(Entered(early), acts);
      RoundDone(s, RunFrom(s, Round(s, false)), false)
  {
    ReachedAwake(early, acts);
    RoundRunsAll(RunFrom(Entered(early), acts), false);
  }

  /** From every reachable blocked poll with functors waiting or a quit requested, the owed write
      (if the counter is zero) and one round of the loop thread alone run all of them, use up the
      wake-up, and end the loop if that was asked for. In the first round after an entry with
      waiting functors this takes a wake-up that is there or owed. */
  lemma WakeUpSuffices(early: seq<Functor>, acts: seq<Step>)
    requires RunFrom(Entered(early), acts).phase.Polling?
    requires RunFrom(Entered(early), acts).pending != [] || RunFrom(Entered(early), acts).quit
    requires early == [] || RunFrom(Entered(early), acts).rounds > 0
             || RunFrom(Entered(early), acts).counter > 0 || RunFrom(Entered(early), acts).owed > 0
    ensures var s := RunFrom(Entered(early), acts);
      RoundDone(s, RunFrom(s, WakeUp(s)), true)
  {
    hide RunFrom, Inv, LateInv;
    var s := RunFrom(Entered(early), acts);
    ReachedAwake(early, acts);
    WakeMakesReadable(s);
    RunConcat(s, Wake(s), Round(s, true));
    RoundRunsAll(RunFrom(s, Wake(s)), true);
  }

  lemma ReachedAwake(early: seq<Functor>, acts: seq<Step>)
    ensures var s := RunFrom(Entered(early), acts);
      s.phase.Polling? ==> !s.owing && ((early == [] || s.rounds > 0) && (s.pending != [] || s.quit) ==> s.counter > 0 || s.owed > 0)
  {
    InvAfterRound(early, acts);
    if early == [] {
      RunKeepsInv(Entered(early), acts);
    }
  }

  // ----- quitting -----

  /** Some quit of the run took place. */
  predicate QuitAsked(early: seq<Functor>, acts: seq<Step>) {
    acts != [] &&
    (QuitAsked(early, acts[..|acts| - 1]) ||
     ((acts[|acts| - 1].Quit? || acts[|acts| - 1].QuitHere?) && Enabled(RunFrom(Entered(early), acts[..|acts| - 1]), acts[|acts| - 1])))
  }

  /** All functors queued in the run, the early ones first. */
  function QueuedIn(early: seq<Functor>, acts: seq<Step>): seq<Functor> {
    if acts == [] then early else
    var front, a := acts[..|acts| - 1], acts[|acts| - 1];
    if a.Push? then QueuedIn(early, front) + [a.f]
    else if a.PushHere? && Enabled(RunFrom(Entered(early), front), a) then QueuedIn(early, front) + [a.g]
    else QueuedIn(early, front)
  }

  /** The loop is told to quit exactly by the quits of the run, stops only then, and holds exactly the
      functors queued in the run. */
  lemma {:induction false} AsAsked(early: seq<Functor>, acts: seq<Step>)
    ensures var s := RunFrom(Entered(early), acts);
      (s.quit <==> QuitAsked(early, acts)) && (s.phase.Stopped? ==> s.quit) && s.queued == QueuedIn(early, acts)
  {
    if acts != [] {
      AsAsked(early, acts[..|acts| - 1]);
    }
  }

  lemma WakeMakesReadable(s: State)
    requires s.phase.Polling? && (s.counter > 0 || s.owed > 0)
    ensures var t := RunFrom(s, Wake(s));
      t.counter > 0 && t == s.(counter := t.counter, owed := t.owed)
  {
    RunSnoc(s, [], Write);
    assert [] + [Write] == [Write];
  }

  // ----- the class -----

  class Loop {
    var pendingFunctors: seq<Functor>
    var callingPendingFunctors: bool
    var quitting: bool
    var wakeupCounter: nat
    // The local of doPendingFunctors, which lives across its functor calls.
    var functors: seq<Functor>
    ghost var owed: nat
    ghost var owing: bool
    ghost var phase: Phase
    ghost var queued: seq<Functor>
    ghost var executed: seq<Functor>
    ghost var rounds: nat

    ghost function View(): State
      reads this
    {
      State(pendingFunctors, callingPendingFunctors, quitting, wakeupCounter, owed, owing, phase, functors, queued, executed, rounds)
    }

    ghost predicate Valid()
      reads this
    {
      LateInv(View()) && InOrder(View())
    }

    /** The loop entered by `loop()`, with the functors its own thread queued beforehand. */
    constructor (early: seq<Functor>)
      ensures Valid() && View() == Entered(early)
      ensures early == [] ==> Inv(View())
    {
      pendingFunctors, callingPendingFunctors, quitting, wakeupCounter, functors := early, false, false, 0, [];
      owed, owing, phase, queued, executed, rounds := 0, false, Top, early, [], 0;
      new;
      assert [] + [] + early == early;
    }

    /** The lock section of `queueInLoop` in another thread, which then calls `Wakeup`. */
    method QueueFromOutside(cb: Functor)
      requires Valid()
      modifies this
      ensures Valid() && View() == Apply(old(View()), Push(cb))
    {
      StepKeepsOrder(View(), Push(cb));
      pendingFunctors := pendingFunctors + [cb];
      queued, owed := queued + [cb], owed + 1;
    }

    method QuitFromOutside()
      requires Valid()
      modifies this
      ensures Valid() && View() == Apply(old(View()), Quit)
    {
      quitting := true;
      owed := owed + 1;
    }

    /** `wakeup` in another thread. */
    method Wakeup()
      requires Valid() && owed > 0
      modifies this
      ensures Valid() && View() == Apply(old(View()), Write)
    {
      wakeupCounter := wakeupCounter + 1;
      owed := owed - 1;
    }

    /** `queueInLoop` called by a callback in the loop thread. */
    method QueueInLoop(cb: Functor)
      requires Valid() && InCallback(View())
      modifies this
      ensures Valid() && View() == Apply(Apply(old(View()), PushHere(cb)), WriteHere)
      ensures callingPendingFunctors ==> wakeupCounter > 0
    {
      StepKeepsOrder(View(), PushHere(cb));
      pendingFunctors := pendingFunctors + [cb];
      queued := queued + [cb];
      if callingPendingFunctors {
        wakeupCounter := wakeupCounter + 1;
      }
    }

    method QuitInLoop()
      requires Valid() && InCallback(View())
      modifies this
      ensures Valid() && View() == Apply(old(View()), QuitHere)
    {
      quitting := true;
    }

    /** The `while` test. */
    method Continue() returns (polling: bool)
      requires Valid() && phase.Top?
      modifies this
      ensures Valid() && View() == Apply(old(View()), Test)
      ensures polling && (rounds > 0 || old(Inv(View()))) ==> pendingFunctors == [] || wakeupCounter > 0 || owed > 0
    {
      polling := !quitting;
      phase := if polling then Polling else Stopped;
    }

    method PollReturns(wakeup: bool)
      requires Valid() && phase.Polling? && (wakeup ==> wakeupCounter > 0)
      modifies this
      ensures Valid() && View() == Apply(old(View()), Return(wakeup))
    {
      phase := Handling(wakeup);
    }

    method HandleRead() returns (one: nat)
      requires Valid() && phase == Handling(true)
      modifies this
      ensures Valid() && View() == Apply(old(View()), Drain) && one == old(wakeupCounter)
    {
      one, wakeupCounter := wakeupCounter, 0;
      phase := Handling(false);
    }

    method StartCalling()
      requires Valid() && phase == Handling(false)
      modifies this
      ensures Valid() && View() == Apply(old(View()), Begin)
    {
      callingPendingFunctors := true;
      phase := Calling;
    }

    /** The lock section of `doPendingFunctors`. */
    method SwapPending()
      requires Valid() && phase.Calling?
      modifies this
      ensures Valid() && View() == Apply(old(View()), Swap)
    {
      StepKeepsOrder(View(), Swap);
      functors := [];
      functors, pendingFunctors := pendingFunctors, functors;
      phase := Running;
    }

    /** Calls the next functor, whose body may call `QueueInLoop` and `QuitInLoop`. */
    method CallNext() returns (functor: Functor)
      requires Valid() && phase.Running? && !owing && functors != []
      modifies this
      ensures Valid() && View() == Apply(old(View()), Next)
      ensures executed == old(executed) + [functor]
    {
      StepKeepsOrder(View(), Next);
      functor := functors[0];
      functors := functors[1..];
      executed := executed + [functor];
    }

    method StopCalling()
      requires Valid() && phase.Running? && !owing && functors == []
      modifies this
      ensures Valid() && View() == Apply(old(View()), Finish)
    {
      callingPendingFunctors := false;
      phase, rounds := Top, rounds + 1;
    }
  }
}
