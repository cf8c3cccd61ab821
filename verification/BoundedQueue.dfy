/** The bounded blocking queue: a monitor with two condition variables, any number of putting and
    taking threads, spurious wake-ups, and newcomers that overtake woken threads. Each stretch
    between two releases of the lock is one step. */
module BoundedQueue {
  import opened Options

  type Thread = nat

  /** Of the threads inside a call that do not hold the lock, some sleep unsignalled, some were
      signalled, and some woke up without a signal. `offers` are the arguments of putting threads;
      `accepted` and `taken` record the run. */
  datatype State<T> = State(
    capacity: nat, queue: seq<T>, offers: map<Thread, T>,
    takeAsleep: set<Thread>, takeSignalled: set<Thread>, takeAwake: set<Thread>,
    putAsleep: set<Thread>, putSignalled: set<Thread>, putAwake: set<Thread>,
    accepted: seq<T>, taken: seq<T>)

  function Initial<T>(capacity: nat): State<T> {
    State(capacity, [], map[], {}, {}, {}, {}, {}, {}, [], [])
  }

  /** `woken` are the sleepers that the step's notification wakes, if it notifies. */
  datatype Step<T> =
    | Put(t: Thread, x: T, woken: set<Thread>)
    | Take(t: Thread, woken: set<Thread>)
    | Spurious(t: Thread)
    | Resume(t: Thread, woken: set<Thread>)

  predicate Full<T>(s: State<T>) {
    |s.queue| >= s.capacity
  }

  function Inside<T>(s: State<T>): set<Thread> {
    s.takeAsleep + s.takeSignalled + s.takeAwake + s.putAsleep + s.putSignalled + s.putAwake
  }

  /** A notification wakes at least one sleeper if there is one. */
  predicate Notifies(woken: set<Thread>, asleep: set<Thread>) {
    woken <= asleep && (asleep != {} ==> woken != {})
  }

  predicate Enabled<T>(s: State<T>, a: Step<T>) {
    match a
    case Put(t, _, woken) => t !in Inside(s) && Notifies(woken, s.takeAsleep)
    case Take(t, woken) => t !in Inside(s) && Notifies(woken, s.putAsleep)
    case Spurious(t) => t in s.takeAsleep || t in s.putAsleep
    case Resume(t, woken) =>
      if t in s.takeSignalled || t in s.takeAwake then Notifies(woken, s.putAsleep)
      else (t in s.putSignalled || t in s.putAwake) && t in s.offers && Notifies(woken, s.takeAsleep)
  }

  /** The body of `put` from its `while` test on. */
  function PutBody<T>(s: State<T>, t: Thread, x: T, woken: set<Thread>): State<T> {
    if Full(s) then s.(putAsleep := s.putAsleep + {t}, offers := s.offers[t := x])
    else s.(queue := s.queue + [x], accepted := s.accepted + [x],
            takeAsleep := s.takeAsleep - woken, takeSignalled := s.takeSignalled + woken)
  }

  function TakeBody<T>(s: State<T>, t: Thread, woken: set<Thread>): State<T> {
    if s.queue == [] then s.(takeAsleep := s.takeAsleep + {t})
    else s.(queue := s.queue[1..], taken := s.taken + [s.queue[0]],
            putAsleep := s.putAsleep - woken, putSignalled := s.putSignalled + woken)
  }

  function SpuriousStep<T>(s: State<T>, t: Thread): State<T> {
    if t in s.takeAsleep then s.(takeAsleep := s.takeAsleep - {t}, takeAwake := s.takeAwake + {t})
    else s.(putAsleep := s.putAsleep - {t}, putAwake := s.putAwake + {t})
  }

  function WithoutTaker<T>(s: State<T>, t: Thread): State<T> {
    s.(takeSignalled := s.takeSignalled - {t}, takeAwake := s.takeAwake - {t})
  }

  function WithoutPutter<T>(s: State<T>, t: Thread): State<T> {
    s.(putSignalled := s.putSignalled - {t}, putAwake := s.putAwake - {t})
  }

  function Apply<T>(s: State<T>, a: Step<T>): State<T> {
    if !Enabled(s, a) then s else
    match a
    case Put(t, x, woken) => PutBody(s, t, x, woken)
    case Take(t, woken) => TakeBody(s, t, woken)
    case Spurious(t) => SpuriousStep(s, t)
    case Resume(t, woken) =>
      if t in s.takeSignalled || t in s.takeAwake then TakeBody(WithoutTaker(s, t), t, woken)
      else PutBody(WithoutPutter(s, t), t, s.offers[t], woken)
  }

  function Run<T>(capacity: nat, acts: seq<Step<T>>): State<T> {
    if acts == [] then Initial(capacity) else Apply(Run(capacity, acts[..|acts| - 1]), acts[|acts| - 1])
  }

  // ----- the invariant -----

  predicate Apart<T>(s: State<T>) {
    && s.takeAsleep !! s.takeSignalled && s.takeAsleep !! s.takeAwake && s.takeSignalled !! s.takeAwake
    && s.putAsleep !! s.putSignalled && s.putAsleep !! s.putAwake && s.putSignalled !! s.putAwake
    && (s.takeAsleep + s.takeSignalled + s.takeAwake) !! (s.putAsleep + s.putSignalled + s.putAwake)
    && s.putAsleep + s.putSignalled + s.putAwake <= s.offers.Keys
  }

  /** While a taker sleeps unsignalled there are signalled takers for all items, and while a putter
      sleeps unsignalled there are signalled putters for all free places. */
  predicate NoWakeupLost<T>(s: State<T>) {
    && (s.takeAsleep != {} ==> |s.takeSignalled| >= |s.queue|)
    && (s.putAsleep != {} ==> |s.putSignalled| >= s.capacity - |s.queue|)
  }

  ghost predicate Fifo<T>(s: State<T>) {
    s.taken + s.queue == s.accepted && |s.queue| <= s.capacity
  }

  ghost predicate Inv<T>(s: State<T>) {
    Apart(s) && NoWakeupLost(s) && Fifo(s)
  }

  lemma Removed(s: set<Thread>, t: Thread)
    ensures |s - {t}| >= |s| - 1
    ensures t !in s ==> s - {t} == s
  {
    if t in s {
      assert s == (s - {t}) + {t};
    } else {
      assert s - {t} == s;
    }
  }

  lemma Joined(s: set<Thread>, woken: set<Thread>)
    requires s !! woken
    ensures |s + woken| == |s| + |woken|
    ensures woken != {} ==> |woken| >= 1
  {
  }

  /** `put` from its test on, by a thread that is neither asleep nor counted as signalled. `spare`
      says that the thread was one of the signalled putters. */
  lemma PutBodyKeeps<T>(s: State<T>, t: Thread, x: T, woken: set<Thread>, spare: nat)
    requires Apart(s) && Fifo(s) && t !in Inside(s) && Notifies(woken, s.takeAsleep) && spare <= 1
    requires s.takeAsleep != {} ==> |s.takeSignalled| >= |s.queue|
    requires s.putAsleep != {} ==> |s.putSignalled| + spare >= s.capacity - |s.queue|
    ensures Inv(PutBody(s, t, x, woken))
  {
    var r := PutBody(s, t, x, woken);
    if !Full(s) {
      Joined(s.takeSignalled, woken);
      assert s.taken + (s.queue + [x]) == (s.taken + s.queue) + [x];
    }
  }

  lemma TakeBodyKeeps<T>(s: State<T>, t: Thread, woken: set<Thread>, spare: nat)
    requires Apart(s) && Fifo(s) && t !in Inside(s) && Notifies(woken, s.putAsleep) && spare <= 1
    requires s.takeAsleep != {} ==> |s.takeSignalled| + spare >= |s.queue|
    requires s.putAsleep != {} ==> |s.putSignalled| >= s.capacity - |s.queue|
    ensures Inv(TakeBody(s, t, woken))
  {
    var r := TakeBody(s, t, woken);
    if s.queue != [] {
      Joined(s.putSignalled, woken);
      assert s.taken + [s.queue[0]] + s.queue[1..] == s.taken + s.queue;
    }
  }

  lemma TakerOut<T>(s: State<T>, t: Thread)
    requires Apart(s) && (t in s.takeSignalled || t in s.takeAwake)
    ensures Apart(WithoutTaker(s, t)) && t !in Inside(WithoutTaker(s, t))
    ensures |WithoutTaker(s, t).takeSignalled| >= |s.takeSignalled| - 1
  {
    Removed(s.takeSignalled, t);
  }

  lemma PutterOut<T>(s: State<T>, t: Thread)
    requires Apart(s) && (t in s.putSignalled || t in s.putAwake)
    ensures t !in s.takeSignalled && t !in s.takeAwake
    ensures Apart(WithoutPutter(s, t)) && t !in Inside(WithoutPutter(s, t))
    ensures |WithoutPutter(s, t).putSignalled| >= |s.putSignalled| - 1
  {
    Removed(s.putSignalled, t);
  }

  lemma ResumeKeepsInv<T>(s: State<T>, t: Thread, woken: set<Thread>)
    requires Inv(s) && Enabled(s, Resume(t, woken))
    ensures Inv(Apply(s, Resume(t, woken)))
  {
    hide Apart, Inside, PutBody, TakeBody, Notifies;
    if t in s.takeSignalled || t in s.takeAwake {
      TakerOut(s, t);
      TakeBodyKeeps(WithoutTaker(s, t), t, woken, 1);
    } else {
      PutterOut(s, t);
      PutBodyKeeps(WithoutPutter(s, t), t, s.offers[t], woken, 1);
    }
  }

  lemma SpuriousKeepsInv<T>(s: State<T>, t: Thread)
    requires Inv(s) && (t in s.takeAsleep || t in s.putAsleep)
    ensures Inv(SpuriousStep(s, t))
  {
    hide Fifo;
    var r := SpuriousStep(s, t);
    SpuriousApart(s, t);
    assert Fifo(r) by { FifoSame(s, r); }
  }

  lemma FifoSame<T>(s: State<T>, r: State<T>)
    requires Fifo(s) && r.queue == s.queue && r.taken == s.taken && r.accepted == s.accepted && r.capacity == s.capacity
    ensures Fifo(r)
  {
  }

  lemma SpuriousApart<T>(s: State<T>, t: Thread)
    requires Apart(s) && (t in s.takeAsleep || t in s.putAsleep)
    ensures Apart(SpuriousStep(s, t))
  {
    if t in s.takeAsleep {
      assert s.takeAsleep - {t} + s.takeSignalled + (s.takeAwake + {t}) == s.takeAsleep + s.takeSignalled + s.takeAwake;
    } else {
      assert s.putAsleep - {t} + s.putSignalled + (s.putAwake + {t}) == s.putAsleep + s.putSignalled + s.putAwake;
    }
  }

  lemma NotEnabled<T>(s: State<T>, a: Step<T>)
    requires !Enabled(s, a)
    ensures Apply(s, a) == s
  {
  }

  lemma StepKeepsInv<T>(s: State<T>, a: Step<T>)
    requires Inv(s)
    ensures Inv(Apply(s, a))
  {
    hide PutBody, TakeBody, Apart, Inside, Notifies;
    if Enabled(s, a) {
      match a
      case Put(t, x, woken) => PutBodyKeeps(s, t, x, woken, 0);
      case Take(t, woken) => TakeBodyKeeps(s, t, woken, 0);
      case Spurious(t) => SpuriousKeepsInv(s, t);
      case Resume(t, woken) => ResumeKeepsInv(s, t, woken);
    } else {
      NotEnabled(s, a);
    }
  }

  /** In every interleaving items come out in the order in which they went in, the queue never
      holds more than its capacity, and no wake-up is lost. */
  lemma {:induction false} RunsKeepInv<T>(capacity: nat, acts: seq<Step<T>>)
    ensures Inv(Run(capacity, acts)) && Run(capacity, acts).capacity == capacity
  {
    hide Inv, Apply;
    if acts == [] {
      InitialInv<T>(capacity);
    } else {
      RunsKeepInv(capacity, acts[..|acts| - 1]);
      StepKeepsInv(Run(capacity, acts[..|acts| - 1]), acts[|acts| - 1]);
      CapacityStays(Run(capacity, acts[..|acts| - 1]), acts[|acts| - 1]);
    }
  }

  lemma InitialInv<T>(capacity: nat)
    ensures Inv(Initial<T>(capacity))
  {
  }

  lemma CapacityStays<T>(s: State<T>, a: Step<T>)
    ensures Apply(s, a).capacity == s.capacity
  {
  }

  // ----- what a call comes to -----

  /** A put either puts its item at the end, or, exactly if there is no room, sleeps with it. */
  lemma PutOutcome<T>(s: State<T>, t: Thread, x: T, woken: set<Thread>)
    requires Enabled(s, Put(t, x, woken))
    ensures var r := Apply(s, Put(t, x, woken));
      && r.taken == s.taken
      && if |s.queue| < s.capacity then r.queue == s.queue + [x] && r.accepted == s.accepted + [x] && t !in Inside(r)
         else r.queue == s.queue && r.accepted == s.accepted && t in r.putAsleep && t in r.offers && r.offers[t] == x
  {
    PutBodyOutcome(s, t, x, woken);
  }

  /** A take either takes the oldest item, or, exactly if there is none, sleeps. */
  lemma TakeOutcome<T>(s: State<T>, t: Thread, woken: set<Thread>)
    requires Enabled(s, Take(t, woken))
    ensures var r := Apply(s, Take(t, woken));
      && r.accepted == s.accepted
      && if s.queue != [] then r.queue == s.queue[1..] && r.taken == s.taken + [s.queue[0]] && t !in Inside(r)
         else r.queue == s.queue && r.taken == s.taken && t in r.takeAsleep
  {
    TakeBodyOutcome(s, t, woken);
  }

  /** A woken thread that has the lock again comes to the same, a putter with the item of its call. */
  lemma ResumeOutcome<T>(s: State<T>, t: Thread, woken: set<Thread>)
    requires Inv(s) && Enabled(s, Resume(t, woken))
    ensures var r := Apply(s, Resume(t, woken));
      if t in s.takeSignalled || t in s.takeAwake then
        && r.accepted == s.accepted
        && if s.queue != [] then r.queue == s.queue[1..] && r.taken == s.taken + [s.queue[0]] && t !in Inside(r)
           else r.queue == s.queue && r.taken == s.taken && t in r.takeAsleep
      else
        && t in s.offers && r.taken == s.taken
        && if |s.queue| < s.capacity then
             r.queue == s.queue + [s.offers[t]] && r.accepted == s.accepted + [s.offers[t]] && t !in Inside(r)
           else r.queue == s.queue && r.accepted == s.accepted && t in r.putAsleep && t in r.offers && r.offers[t] == s.offers[t]
  {
    hide Inv, Apart, Inside, PutBody, TakeBody;
    assert Apart(s) by { InvApart(s); }
    if t in s.takeSignalled || t in s.takeAwake {
      TakerOut(s, t);
      TakeBodyOutcome(WithoutTaker(s, t), t, woken);
    } else {
      PutterOut(s, t);
      PutBodyOutcome(WithoutPutter(s, t), t, s.offers[t], woken);
    }
  }

  lemma InvApart<T>(s: State<T>)
    requires Inv(s)
    ensures Apart(s)
  {
  }

  lemma PutBodyOutcome<T>(s: State<T>, t: Thread, x: T, woken: set<Thread>)
    requires t !in Inside(s) && Notifies(woken, s.takeAsleep)
    ensures var r := PutBody(s, t, x, woken);
      && r.taken == s.taken
      && if |s.queue| < s.capacity then r.queue == s.queue + [x] && r.accepted == s.accepted + [x] && t !in Inside(r)
         else r.queue == s.queue && r.accepted == s.accepted && t in r.putAsleep && t in r.offers && r.offers[t] == x
  {
  }

  lemma TakeBodyOutcome<T>(s: State<T>, t: Thread, woken: set<Thread>)
    requires t !in Inside(s) && Notifies(woken, s.putAsleep)
    ensures var r := TakeBody(s, t, woken);
      && r.accepted == s.accepted
      && if s.queue != [] then r.queue == s.queue[1..] && r.taken == s.taken + [s.queue[0]] && t !in Inside(r)
         else r.queue == s.queue && r.taken == s.taken && t in r.takeAsleep
  {
  }

  function Putters<T>(s: State<T>): set<Thread> {
    s.putAsleep + s.putSignalled + s.putAwake
  }

  function Takers<T>(s: State<T>): set<Thread> {
    s.takeAsleep + s.takeSignalled + s.takeAwake
  }

  /** Until it resumes, a waiting thread stays inside its call, with its item. */
  lemma WaitersStay<T>(s: State<T>, a: Step<T>, t: Thread)
    requires Inv(s) && !(a.Resume? && a.t == t)
    ensures t in Putters(s) ==> t in Putters(Apply(s, a)) && t in Apply(s, a).offers && Apply(s, a).offers[t] == s.offers[t]
    ensures t in Takers(s) ==> t in Takers(Apply(s, a))
  {
    hide NoWakeupLost, Fifo;
  }

  // ----- what that means for a sleeper -----

  lemma Member(s: set<Thread>)
    requires |s| > 0
    ensures exists t :: t in s
  {
    assert s != {};
  }

  /** If a taker sleeps while items wait, a signalled taker can run and get the oldest item. */
  lemma SleeperHasHelper<T>(capacity: nat, acts: seq<Step<T>>)
    requires Run(capacity, acts).takeAsleep != {} && Run(capacity, acts).queue != []
    ensures var s := Run(capacity, acts);
      exists t :: t in s.takeSignalled && Enabled(s, Resume(t, s.putAsleep))
        && Apply(s, Resume(t, s.putAsleep)).taken == s.taken + [s.queue[0]]
  {
    RunsKeepInv(capacity, acts);
    var s := Run(capacity, acts);
    Member(s.takeSignalled);
    var t :| t in s.takeSignalled;
    assert Enabled(s, Resume(t, s.putAsleep));
  }

  /** If a putter sleeps while there is room, a signalled putter can run and put its item. */
  lemma SleepingPutterHasHelper<T>(capacity: nat, acts: seq<Step<T>>)
    requires Run(capacity, acts).putAsleep != {} && |Run(capacity, acts).queue| < capacity
    ensures var s := Run(capacity, acts);
      exists t :: t in s.putSignalled && t in s.offers && Enabled(s, Resume(t, s.takeAsleep))
        && Apply(s, Resume(t, s.takeAsleep)).queue == s.queue + [s.offers[t]]
  {
    RunsKeepInv(capacity, acts);
    var s := Run(capacity, acts);
    Member(s.putSignalled);
    var t :| t in s.putSignalled;
    PutterOut(s, t);
    assert Enabled(s, Resume(t, s.takeAsleep));
    ResumedPutter(s, t, s.takeAsleep);
  }

  /** Threads of both kinds sleep only while one of them is signalled. */
  predicate NotStuck<T>(s: State<T>) {
    s.takeAsleep != {} && s.putAsleep != {} ==> s.takeSignalled != {} || s.putSignalled != {}
  }

  /** No interleaving leaves both kinds asleep unsignalled exactly when there is room for at least
      one item. */
  lemma NeverBothAsleepIff<T>(capacity: nat, x: T)
    ensures (forall acts: seq<Step<T>> :: NotStuck(Run(capacity, acts))) <==> capacity > 0
  {
    if capacity > 0 {
      forall acts: seq<Step<T>> ensures NotStuck(Run(capacity, acts)) {
        RunsKeepInv(capacity, acts);
      }
    } else {
      var take: Step<T>, put: Step<T> := Take(0, {}), Put(1, x, {0});
      assert [take, put][..1] == [take] && [take][..0] == [];
      assert Run(capacity, [take]) == Apply(Initial(capacity), take);
      assert Run(capacity, [take, put]) == Apply(Apply(Initial(capacity), take), put);
      assert 0 in Run(capacity, [take, put]).takeAsleep && 1 in Run(capacity, [take, put]).putAsleep;
      assert !NotStuck(Run(capacity, [take, put]));
    }
  }

  lemma ResumedPutter<T>(s: State<T>, t: Thread, woken: set<Thread>)
    requires Inv(s) && (t in s.putSignalled || t in s.putAwake) && Enabled(s, Resume(t, woken))
    ensures t in s.offers && Apply(s, Resume(t, woken)) == PutBody(WithoutPutter(s, t), t, s.offers[t], woken)
  {
    PutterOut(s, t);
  }

  // ----- the class -----

  class BoundedBlockingQueue<T(0)> {
    const maxSize: nat
    var queue: seq<T>
    ghost var offers: map<Thread, T>
    ghost var takeAsleep: set<Thread>
    ghost var takeSignalled: set<Thread>
    ghost var takeAwake: set<Thread>
    ghost var putAsleep: set<Thread>
    ghost var putSignalled: set<Thread>
    ghost var putAwake: set<Thread>
    ghost var accepted: seq<T>
    ghost var taken: seq<T>

    ghost function View(): State<T>
      reads this
    {
      State(maxSize, queue, offers, takeAsleep, takeSignalled, takeAwake, putAsleep, putSignalled, putAwake, accepted, taken)
    }

    ghost predicate Valid()
      reads this
    {
      Inv(View())
    }

    constructor (maxSize: nat)
      ensures Valid() && View() == Initial(maxSize)
    {
      this.maxSize := maxSize;
      queue, offers, accepted, taken := [], map[], [], [];
      takeAsleep, takeSignalled, takeAwake, putAsleep, putSignalled, putAwake := {}, {}, {}, {}, {}, {};
    }

    /** A call of `put` up to its return or its wait. */
    method PutOrWait(ghost t: Thread, x: T, ghost woken: set<Thread>) returns (done: bool)
      requires Valid() && Enabled(View(), Put(t, x, woken))
      modifies this
      ensures Valid() && View() == Apply(old(View()), Put(t, x, woken))
      ensures done <==> |old(queue)| < maxSize
    {
      StepKeepsInv(View(), Put(t, x, woken));
      done := PutSection(t, x, woken);
    }

    method PutSection(ghost t: Thread, x: T, ghost woken: set<Thread>) returns (done: bool)
      modifies this
      ensures View() == PutBody(old(View()), t, x, woken) && (done <==> |old(queue)| < maxSize)
    {
      if |queue| >= maxSize {
        putAsleep, offers := putAsleep + {t}, offers[t := x];
        return false;
      }
      assert |queue| < maxSize;
      queue := queue + [x];
      accepted := accepted + [x];
      takeAsleep, takeSignalled := takeAsleep - woken, takeSignalled + woken;
      done := true;
    }

    /** A call of `take` up to its return or its wait. */
    method TakeOrWait(ghost t: Thread, ghost woken: set<Thread>) returns (front: Option<T>)
      requires Valid() && Enabled(View(), Take(t, woken))
      modifies this
      ensures Valid() && View() == Apply(old(View()), Take(t, woken))
      ensures front == if old(queue) == [] then None else Some(old(queue)[0])
    {
      StepKeepsInv(View(), Take(t, woken));
      front := TakeSection(t, woken);
    }

    method TakeSection(ghost t: Thread, ghost woken: set<Thread>) returns (front: Option<T>)
      modifies this
      ensures View() == TakeBody(old(View()), t, woken)
      ensures front == if old(queue) == [] then None else Some(old(queue)[0])
    {
      if |queue| == 0 {
        takeAsleep := takeAsleep + {t};
        return None;
      }
      assert |queue| > 0;
      front := Some(queue[0]);
      taken := taken + [queue[0]];
      queue := queue[1..];
      putAsleep, putSignalled := putAsleep - woken, putSignalled + woken;
    }

    /** A woken putter has the lock again and tests its condition once more. */
    method PutAgain(ghost t: Thread, x: T, ghost woken: set<Thread>) returns (done: bool)
      requires Valid() && (t in putSignalled || t in putAwake) && t in offers && offers[t] == x
      requires Enabled(View(), Resume(t, woken))
      modifies this
      ensures Valid() && View() == Apply(old(View()), Resume(t, woken))
      ensures done <==> |old(queue)| < maxSize
    {
      hide Inv, Apart, Inside, Notifies, PutBody, TakeBody;
      StepKeepsInv(View(), Resume(t, woken));
      ResumedPutter(View(), t, woken);
      putSignalled, putAwake := putSignalled - {t}, putAwake - {t};
      done := PutSection(t, x, woken);
    }

    method TakeAgain(ghost t: Thread, ghost woken: set<Thread>) returns (front: Option<T>)
      requires Valid() && (t in takeSignalled || t in takeAwake) && Enabled(View(), Resume(t, woken))
      modifies this
      ensures Valid() && View() == Apply(old(View()), Resume(t, woken))
      ensures front == if old(queue) == [] then None else Some(old(queue)[0])
    {
      hide Inv, Apart, Inside, Notifies, PutBody, TakeBody;
      StepKeepsInv(View(), Resume(t, woken));
      takeSignalled, takeAwake := takeSignalled - {t}, takeAwake - {t};
      front := TakeSection(t, woken);
    }
  }
}
