/** The timer queue: timers in memory, two indexes over them, cancellation from inside callbacks,
    and the one-shot timer descriptor that wakes the loop. */
module TimerQueue {

  /** A timer object; `interval` is in seconds, `expiration` in microseconds. */
  datatype Timer = Timer(expiration: int, interval: real, sequence: int) {
    predicate Repeats() {
      interval > 0.0
    }
  }

  /** Elements of the two ordered sets, ordered by their first component, then by address. */
  datatype Entry = Entry(when: int, addr: nat)
  datatype Key = Key(addr: nat, sequence: int)

  /** The timer descriptor: one shot, readable once fired. */
  datatype Descriptor = Disarmed | Armed(at: int) | Fired

  /** The fields of the queue, the heap of timers, and the batch of a handleRead in progress.
      `called` counts the timers of the batch whose callback has been called. `pending` are timers
      whose insertion is still queued to the loop; `freed` lists the sequence numbers of deleted
      timers, and `ran` the timers whose callbacks were called. */
  datatype State = State(
    memory: map<nat, Timer>, created: int,
    timers: seq<Entry>, active: set<Key>,
    calling: bool, canceling: set<Key>, batch: seq<Entry>, called: nat, now: int,
    fd: Descriptor, pending: set<nat>, freed: seq<int>, ran: seq<Key>)

  const INIT := State(map[], 0, [], {}, false, {}, [], 0, 0, Disarmed, {}, [], [])

  predicate Before(x: Entry, y: Entry) {
    x.when < y.when || (x.when == y.when && x.addr < y.addr)
  }

  ghost predicate Sorted(ts: seq<Entry>) {
    forall i, j :: 0 <= i < j < |ts| ==> Before(ts[i], ts[j])
  }

  // ----- the ordered set -----

  function Insert(ts: seq<Entry>, e: Entry): (r: seq<Entry>)
    ensures forall x :: x in r <==> x in ts || x == e
    ensures |r| == |ts| + 1
  {
    if ts == [] then [e]
    else if Before(e, ts[0]) then [e] + ts
    else [ts[0]] + Insert(ts[1..], e)
  }

  function Erase(ts: seq<Entry>, e: Entry): (r: seq<Entry>)
    ensures forall x :: x in r ==> x in ts
    ensures forall x :: x in ts && x != e ==> x in r
    ensures |r| <= |ts|
  {
    if ts == [] then [] else if ts[0] == e then ts[1..] else [ts[0]] + Erase(ts[1..], e)
  }

  /** How many entries expire at or before `now`: the position of `lower_bound((now, MAX))`. */
  function Due(ts: seq<Entry>, now: int): (k: nat)
    ensures k <= |ts|
  {
    if ts == [] || ts[0].when > now then 0 else 1 + Due(ts[1..], now)
  }

  lemma {:induction false} InsertSorted(ts: seq<Entry>, e: Entry)
    requires Sorted(ts) && e !in ts
    ensures Sorted(Insert(ts, e))
    ensures Insert(ts, e)[0] == if ts == [] || Before(e, ts[0]) then e else ts[0]
  {
    if ts != [] && !Before(e, ts[0]) {
      InsertSorted(ts[1..], e);
      var r := Insert(ts[1..], e);
      forall j | 0 <= j < |r| ensures Before(ts[0], r[j]) {
        assert r[j] in r;
        if r[j] != e {
          assert r[j] in ts[1..];
        } else {
          assert e != ts[0] by { assert ts[0] in ts; }
        }
      }
    }
  }

  lemma {:induction false} EraseSorted(ts: seq<Entry>, e: Entry)
    requires Sorted(ts) && e in ts
    ensures Sorted(Erase(ts, e)) && e !in Erase(ts, e) && |Erase(ts, e)| == |ts| - 1
    ensures Erase(ts, e) != [] ==> Erase(ts, e)[0] == ts[0] || Before(ts[0], Erase(ts, e)[0])
  {
    if ts[0] != e {
      EraseSorted(ts[1..], e);
      var r := Erase(ts[1..], e);
      forall j | 0 <= j < |r| ensures Before(ts[0], r[j]) {
        assert r[j] in r && r[j] in ts[1..];
      }
    } else {
      forall j | 0 < j < |ts| ensures ts[j] != e {
        assert Before(ts[0], ts[j]);
      }
    }
  }

  /** On a sorted set the due entries are exactly those with expiration at or before `now`. */
  lemma {:induction false} DueSplits(ts: seq<Entry>, now: int)
    requires Sorted(ts)
    ensures forall i :: 0 <= i < |ts| ==> (i < Due(ts, now) <==> ts[i].when <= now)
  {
    if ts == [] {
    } else if ts[0].when > now {
      forall i | 0 <= i < |ts| ensures ts[i].when > now {
        assert i > 0 ==> Before(ts[0], ts[i]);
      }
    } else {
      DueSplits(ts[1..], now);
      forall i | 0 <= i < |ts| ensures i < Due(ts, now) <==> ts[i].when <= now {
        assert i > 0 ==> ts[i] == ts[1..][i - 1];
      }
    }
  }

  // ----- steps -----

  /** `addTime`: whole microseconds of an interval that is not negative. */
  function AddTime(t: int, seconds: real): int {
    t + (seconds * 1000000.0).Floor
  }

  /** `x` is `seconds` after `t`, cut down to a whole microsecond. */
  predicate CutDown(t: int, seconds: real, x: int) {
    (x - t) as real <= seconds * 1000000.0 < (x - t) as real + 1.0
  }

  /** Less than a microsecond is cut off, and nothing from whole seconds. */
  lemma AddTimeRight(t: int, seconds: real)
    ensures CutDown(t, seconds, AddTime(t, seconds))
    ensures forall n: int :: seconds == n as real ==> AddTime(t, seconds) == t + 1000000 * n
    ensures forall n: int :: seconds >= n as real ==> AddTime(t, seconds) >= t + 1000000 * n
  {
    forall n: int | seconds >= n as real ensures AddTime(t, seconds) >= t + 1000000 * n {
      assert seconds * 1000000.0 >= (n * 1000000) as real;
    }
  }

  function KeyOf(memory: map<nat, Timer>, e: Entry): Key
    requires e.addr in memory
  {
    Key(e.addr, memory[e.addr].sequence)
  }

  function KeySet(memory: map<nat, Timer>, ts: seq<Entry>): (r: set<Key>)
    ensures forall e :: e in ts && e.addr in memory ==> KeyOf(memory, e) in r
    ensures forall k :: k in r ==> exists e :: e in ts && e.addr in memory && KeyOf(memory, e) == k
  {
    set e | e in ts && e.addr in memory :: KeyOf(memory, e)
  }

  lemma KeySetSnoc(memory: map<nat, Timer>, ts: seq<Entry>, e: Entry)
    requires e.addr in memory
    ensures KeySet(memory, ts + [e]) == KeySet(memory, ts) + {KeyOf(memory, e)}
  {
  }

  /** `new Timer` in any thread; the insertion is queued to the loop. */
  function CreateStep(s: State, addr: nat, when: int, interval: real): State
    requires addr !in s.memory
  {
    s.(memory := s.memory[addr := Timer(when, interval, s.created + 1)],
       created := s.created + 1, pending := s.pending + {addr})
  }

  function Indexed(s: State, addr: nat): State
    requires addr in s.memory
  {
    var e := Entry(s.memory[addr].expiration, addr);
    s.(timers := Insert(s.timers, e), active := s.active + {KeyOf(s.memory, e)})
  }

  /** `addTimerInLoop`: index the timer, and arm the descriptor if it became the earliest. */
  function AddStep(s: State, addr: nat): State
    requires addr in s.memory
  {
    var when := s.memory[addr].expiration;
    Indexed(s, addr).(pending := s.pending - {addr},
                      fd := if s.timers == [] || when < s.timers[0].when then Armed(when) else s.fd)
  }

  function Free(s: State, addr: nat): State
    requires addr in s.memory
  {
    s.(memory := s.memory - {addr}, freed := s.freed + [s.memory[addr].sequence])
  }

  function CancelStep(s: State, k: Key): State
    requires k in s.active ==> k.addr in s.memory
  {
    if k in s.active then
      Free(s, k.addr).(timers := Erase(s.timers, Entry(s.memory[k.addr].expiration, k.addr)), active := s.active - {k})
    else if s.calling then s.(canceling := s.canceling + {k})
    else s
  }

  /** `handleRead` up to its callbacks. */
  function BeginStep(s: State, now: int): State
    requires forall e :: e in s.timers ==> e.addr in s.memory
  {
    var k := Due(s.timers, now);
    s.(fd := if s.fd.Fired? then Disarmed else s.fd,
       timers := s.timers[k..],
       active := s.active - KeySet(s.memory, s.timers[..k]),
       calling := true, canceling := {}, batch := s.timers[..k], called := 0, now := now)
  }

  /** Calls the callback of the next timer of the batch. */
  function CallStep(s: State): State
    requires s.called < |s.batch| && s.batch[s.called].addr in s.memory
  {
    s.(called := s.called + 1, ran := s.ran + [KeyOf(s.memory, s.batch[s.called])])
  }

  /** `reset` for the first timer of the batch. */
  function ResetOne(s: State): State
    requires s.batch != [] && s.batch[0].addr in s.memory
  {
    var a := s.batch[0].addr;
    var t := s.memory[a];
    var rest := s.(batch := s.batch[1..]);
    if t.Repeats() && KeyOf(s.memory, s.batch[0]) !in s.canceling then
      Indexed(rest.(memory := s.memory[a := t.(expiration := AddTime(s.now, t.interval))]), a)
    else
      Free(rest, a)
  }

  /** The end of `reset`: arm for the earliest timer. */
  function Rearm(s: State): State {
    s.(calling := false, fd := if s.timers != [] && s.timers[0].when > 0 then Armed(s.timers[0].when) else s.fd)
  }

  ghost function EndStep(s: State): State
    requires Structure(s)
    decreases |s.batch|
  {
    if s.batch == [] then Rearm(s) else
    ResetOneStructure(s);
    EndStep(ResetOne(s))
  }

  // ----- the structural invariant -----

  ghost predicate OnTime(memory: map<nat, Timer>, e: Entry) {
    e.addr in memory && memory[e.addr].expiration == e.when
  }

  /** Sorted, and every entry carries its timer's current expiration. */
  ghost predicate IndexRight(memory: map<nat, Timer>, ts: seq<Entry>) {
    Sorted(ts) && forall e :: e in ts ==> OnTime(memory, e)
  }

  ghost predicate ActiveRight(s: State) {
    && (forall e :: e in s.timers && e.addr in s.memory ==> KeyOf(s.memory, e) in s.active)
    && (forall k :: k in s.active ==> k.addr in s.memory && s.memory[k.addr].sequence == k.sequence
                                      && Entry(s.memory[k.addr].expiration, k.addr) in s.timers)
  }

  ghost predicate InTimers(s: State, a: nat) {
    a in s.memory && Entry(s.memory[a].expiration, a) in s.timers
  }

  ghost predicate InBatch(s: State, a: nat) {
    a in s.memory && Entry(s.memory[a].expiration, a) in s.batch
  }

  /** Every timer in memory has exactly one owner: the index, the running batch, or the queued
      insertion. */
  ghost predicate OwnedOnce(s: State, a: nat) {
    && (InTimers(s, a) || InBatch(s, a) || a in s.pending)
    && !(InTimers(s, a) && InBatch(s, a)) && !(InTimers(s, a) && a in s.pending) && !(InBatch(s, a) && a in s.pending)
  }

  ghost predicate Live(memory: map<nat, Timer>, q: int) {
    exists a :: a in memory && memory[a].sequence == q
  }

  /** Sequence numbers name timers: each number handed out is live at one address or freed once. */
  ghost predicate SequencesRight(s: State) {
    && 0 <= s.created
    && (forall a, b :: a in s.memory && b in s.memory && s.memory[a].sequence == s.memory[b].sequence ==> a == b)
    && (forall a :: a in s.memory ==> 1 <= s.memory[a].sequence <= s.created && s.memory[a].sequence !in s.freed)
    && (forall i, j :: 0 <= i < j < |s.freed| ==> s.freed[i] != s.freed[j])
    && (forall q :: q in s.freed ==> 1 <= q <= s.created)
    && (forall q {:trigger Live(s.memory, q)} :: 1 <= q <= s.created ==> q in s.freed || Live(s.memory, q))
  }

  ghost predicate Structure(s: State) {
    && IndexRight(s.memory, s.timers) && IndexRight(s.memory, s.batch) && ActiveRight(s)
    && (forall a {:trigger OwnedOnce(s, a)} :: a in s.memory ==> OwnedOnce(s, a))
    && s.pending <= s.memory.Keys
    && SequencesRight(s)
    && (!s.calling ==> s.batch == [])
  }

  lemma AllocFresh(s: State, addr: nat, when: int, interval: real)
    requires Structure(s) && addr !in s.memory
    ensures Structure(CreateStep(s, addr, when, interval))
  {
    var r := CreateStep(s, addr, when, interval);
    forall a | a in r.memory ensures OwnedOnce(r, a) {
      if a != addr {
        assert OwnedOnce(s, a);
      } else {
        assert forall e :: e in s.timers + s.batch ==> OnTime(s.memory, e);
      }
    }
    LiveAfterCreate(s, addr, when, interval);
  }

  lemma LiveAfterCreate(s: State, addr: nat, when: int, interval: real)
    requires SequencesRight(s) && addr !in s.memory
    ensures SequencesRight(CreateStep(s, addr, when, interval))
  {
    var r := CreateStep(s, addr, when, interval);
    forall q | 1 <= q <= r.created ensures q in r.freed || Live(r.memory, q) {
      if q == r.created {
        assert r.memory[addr].sequence == q;
      } else if q !in s.freed {
        assert Live(s.memory, q);
        var a :| a in s.memory && s.memory[a].sequence == q;
        assert r.memory[a].sequence == q;
      }
    }
  }

  lemma FreeSequences(s: State, addr: nat)
    requires SequencesRight(s) && addr in s.memory
    ensures SequencesRight(Free(s, addr))
  {
    var r := Free(s, addr);
    forall q | 1 <= q <= r.created ensures q in r.freed || Live(r.memory, q) {
      if q !in r.freed {
        assert Live(s.memory, q);
        var a :| a in s.memory && s.memory[a].sequence == q;
        assert r.freed[|r.freed| - 1] == s.memory[addr].sequence;
        assert a in r.memory;
      }
    }
  }

  /** Indexing a timer that has no owner. */
  lemma IndexUnowned(s: State, addr: nat)
    requires addr in s.memory && !InTimers(s, addr)
    requires IndexRight(s.memory, s.timers) && ActiveRight(s)
    ensures IndexRight(s.memory, Indexed(s, addr).timers) && ActiveRight(Indexed(s, addr))
    ensures forall a :: InTimers(Indexed(s, addr), a) <==> InTimers(s, a) || a == addr
    ensures Indexed(s, addr).timers[0] == if s.timers == [] || Before(Entry(s.memory[addr].expiration, addr), s.timers[0])
                                          then Entry(s.memory[addr].expiration, addr) else s.timers[0]
  {
    InsertSorted(s.timers, Entry(s.memory[addr].expiration, addr));
  }

  lemma AddKeepsStructure(s: State, addr: nat)
    requires Structure(s) && addr in s.pending
    ensures Structure(AddStep(s, addr))
    ensures AddStep(s, addr).timers[0].when == if s.timers == [] || s.memory[addr].expiration < s.timers[0].when
                                               then s.memory[addr].expiration else s.timers[0].when
  {
    assert OwnedOnce(s, addr);
    IndexUnowned(s, addr);
    var r := AddStep(s, addr);
    var x := Indexed(s, addr);
    forall a | a in r.memory ensures OwnedOnce(r, a) {
      assert OwnedOnce(s, a);
      assert InTimers(r, a) <==> InTimers(x, a);
    }
  }

  lemma CancelKeepsStructure(s: State, k: Key)
    requires Structure(s)
    ensures k in s.active ==> k.addr in s.memory
    ensures Structure(CancelStep(s, k))
  {
    if k in s.active {
      var e := Entry(s.memory[k.addr].expiration, k.addr);
      var r := CancelStep(s, k);
      EraseSorted(s.timers, e);
      FreeSequences(s, k.addr);
      assert OwnedOnce(s, k.addr);
      forall x | x in r.timers ensures OnTime(r.memory, x) && KeyOf(r.memory, x) in r.active {
        assert OnTime(s.memory, x);
      }
      forall x | x in r.batch ensures OnTime(r.memory, x) {
        assert OnTime(s.memory, x);
        assert InBatch(s, x.addr);
      }
      forall j | j in r.active ensures j.addr in r.memory && Entry(r.memory[j.addr].expiration, j.addr) in r.timers {
        assert j in s.active;
      }
      forall a | a in r.memory ensures OwnedOnce(r, a) {
        assert OwnedOnce(s, a);
      }
    } else {
      var r := CancelStep(s, k);
      forall a | a in r.memory ensures OwnedOnce(r, a) {
        assert OwnedOnce(s, a);
      }
    }
  }

  lemma BatchApart(s: State, now: int)
    requires Sorted(s.timers)
    ensures forall x, y :: x in s.timers[..Due(s.timers, now)] && y in s.timers[Due(s.timers, now)..] ==> x != y
    ensures forall x :: x in s.timers <==> x in s.timers[..Due(s.timers, now)] || x in s.timers[Due(s.timers, now)..]
    ensures Sorted(s.timers[..Due(s.timers, now)]) && Sorted(s.timers[Due(s.timers, now)..])
  {
    var k := Due(s.timers, now);
    var b, t := s.timers[..k], s.timers[k..];
    assert s.timers == b + t;
    forall x, y | x in b && y in t ensures x != y {
      var i :| 0 <= i < |b| && b[i] == x;
      var j :| 0 <= j < |t| && t[j] == y;
      assert Before(s.timers[i], s.timers[k + j]);
    }
  }

  lemma KeysApart(s: State, now: int)
    requires IndexRight(s.memory, s.timers) && ActiveRight(s)
    requires forall e :: e in s.timers ==> e.addr in s.memory
    ensures ActiveRight(BeginStep(s, now))
  {
    hide Sorted, Due;
    BatchApart(s, now);
    var r := BeginStep(s, now);
    assert forall x :: x in s.timers ==> OnTime(s.memory, x);
    forall e | e in r.timers ensures KeyOf(r.memory, e) in r.active {
      assert OnTime(s.memory, e);
      forall x | x in r.batch ensures KeyOf(s.memory, x) != KeyOf(s.memory, e) {
        assert OnTime(s.memory, x);
      }
    }
    forall j | j in r.active
      ensures j.addr in r.memory && r.memory[j.addr].sequence == j.sequence && Entry(r.memory[j.addr].expiration, j.addr) in r.timers {
      var e := Entry(s.memory[j.addr].expiration, j.addr);
      assert KeyOf(s.memory, e) == j;
      assert e in r.batch ==> j !in r.active;
    }
  }

  lemma BeginKeepsStructure(s: State, now: int)
    requires Structure(s) && !s.calling
    ensures forall e :: e in s.timers ==> e.addr in s.memory
    ensures Structure(BeginStep(s, now))
  {
    hide Sorted, Due, KeySet, ActiveRight, SequencesRight;
    forall e | e in s.timers ensures e.addr in s.memory {
      assert OnTime(s.memory, e);
    }
    var r := BeginStep(s, now);
    KeysApart(s, now);
    BatchApart(s, now);
    forall a | a in r.memory ensures OwnedOnce(r, a) {
      assert OwnedOnce(s, a);
    }
    BeginKeepsSequences(s, r);
  }

  lemma BeginKeepsSequences(s: State, r: State)
    requires SequencesRight(s) && r.memory == s.memory && r.freed == s.freed && r.created == s.created
    ensures SequencesRight(r)
  {
  }

  lemma BatchRest(s: State)
    requires Structure(s) && s.batch != []
    ensures s.batch[0].addr in s.memory && InBatch(s, s.batch[0].addr) && OnTime(s.memory, s.batch[0])
    ensures Sorted(s.batch[1..])
    ensures forall x :: x in s.batch[1..] ==> x in s.batch && x.addr != s.batch[0].addr
    ensures forall x :: x in s.batch ==> x == s.batch[0] || x in s.batch[1..]
    ensures forall x :: x in s.timers ==> x.addr != s.batch[0].addr && OnTime(s.memory, x)
  {
    var e := s.batch[0];
    assert OnTime(s.memory, e);
    assert OwnedOnce(s, e.addr);
    var rest := s.batch[1..];
    forall x | x in rest ensures x in s.batch && x.addr != e.addr {
      var i :| 0 <= i < |rest| && rest[i] == x;
      assert Before(s.batch[0], s.batch[i + 1]);
      assert OnTime(s.memory, x);
    }
    forall x | x in s.timers ensures x.addr != e.addr && OnTime(s.memory, x) {
      assert OnTime(s.memory, x);
    }
  }

  /** `reset` handles the first timer of the batch: it is indexed again or freed, never both. */
  lemma ResetOneStructure(s: State)
    requires Structure(s) && s.batch != []
    ensures s.batch[0].addr in s.memory && Structure(ResetOne(s))
  {
    hide Structure, Indexed, Free;
    BatchRest(s);
    var a := s.batch[0].addr;
    var t := s.memory[a];
    if t.Repeats() && KeyOf(s.memory, s.batch[0]) !in s.canceling {
      ResetAgain(s, s.(batch := s.batch[1..]), a, t.(expiration := AddTime(s.now, t.interval)));
    } else {
      ResetFree(s, s.(batch := s.batch[1..]), a);
    }
  }

  lemma ResetFree(s: State, rest: State, a: nat)
    requires Structure(s) && s.batch != [] && s.batch[0].addr == a && rest == s.(batch := s.batch[1..])
    requires a in s.memory && InBatch(s, a) && Sorted(rest.batch)
    requires forall x :: x in rest.batch ==> x in s.batch && x.addr != a
    requires forall x :: x in s.batch ==> x == s.batch[0] || x in rest.batch
    requires forall x :: x in rest.timers ==> x.addr != a && OnTime(s.memory, x)
    ensures Structure(Free(rest, a))
  {
    var r := Free(rest, a);
    assert OwnedOnce(s, a);
    FreeSequences(rest, a);
    forall b | b in r.memory ensures OwnedOnce(r, b) {
      assert OwnedOnce(s, b);
    }
    forall x | x in r.batch ensures OnTime(r.memory, x) {
      assert OnTime(s.memory, x);
    }
  }

  /** The restarted timer has no owner, so indexing it again keeps the structure. */
  lemma ResetAgain(s: State, rest: State, a: nat, t: Timer)
    requires Structure(s) && s.batch != [] && s.batch[0].addr == a && rest == s.(batch := s.batch[1..])
    requires a in s.memory && InBatch(s, a) && t.sequence == s.memory[a].sequence && Sorted(rest.batch)
    requires forall x :: x in rest.batch ==> x in s.batch && x.addr != a
    requires forall x :: x in s.batch ==> x == s.batch[0] || x in rest.batch
    requires forall x :: x in rest.timers ==> x.addr != a && OnTime(s.memory, x)
    ensures Structure(Indexed(rest.(memory := s.memory[a := t]), a))
  {
    var m := rest.(memory := s.memory[a := t]);
    assert OwnedOnce(s, a);
    assert IndexRight(m.memory, m.timers);
    IndexUnowned(m, a);
    var r := Indexed(m, a);
    forall x | x in r.batch ensures OnTime(r.memory, x) {
      assert OnTime(s.memory, x);
    }
    RestartSequences(s, m, a, t);
    forall b | b in r.memory ensures OwnedOnce(r, b) {
      assert OwnedOnce(s, b);
      if b != a {
        assert Entry(s.memory[b].expiration, b) in s.batch ==> Entry(s.memory[b].expiration, b) in rest.batch;
      }
    }
  }

  lemma RestartSequences(s: State, m: State, a: nat, t: Timer)
    requires SequencesRight(s) && a in s.memory && t.sequence == s.memory[a].sequence
    requires m.memory == s.memory[a := t] && m.created == s.created && m.freed == s.freed
    ensures SequencesRight(m)
  {
    forall q | 1 <= q <= m.created ensures q in m.freed || Live(m.memory, q) {
      if q !in s.freed {
        assert Live(s.memory, q);
        var b :| b in s.memory && s.memory[b].sequence == q;
        assert m.memory[b].sequence == q;
      }
    }
  }

  // ----- the descriptor -----

  /** The loop will be woken no later than the earliest expiration. */
  ghost predicate WokenInTime(s: State)
    requires s.timers != []
  {
    s.fd.Fired? || (s.fd.Armed? && s.fd.at <= s.timers[0].when)
  }

  /** Outside handleRead this holds of every non-empty queue; inside, of the entries that the final
      re-arming skips because their expiration is not positive. */
  ghost predicate ArmedRight(s: State) {
    && (s.calling ==> s.now > 0)
    && (s.timers != [] && (!s.calling || s.timers[0].when <= 0) ==> WokenInTime(s))
  }

  ghost predicate Inv(s: State) {
    Structure(s) && ArmedRight(s)
  }

  lemma AddKeepsInv(s: State, addr: nat)
    requires Inv(s) && addr in s.pending
    ensures Inv(AddStep(s, addr))
  {
    AddKeepsStructure(s, addr);
  }

  lemma CancelKeepsInv(s: State, k: Key)
    requires Inv(s)
    ensures k in s.active ==> k.addr in s.memory
    ensures Inv(CancelStep(s, k))
  {
    CancelKeepsStructure(s, k);
    if k in s.active {
      EraseSorted(s.timers, Entry(s.memory[k.addr].expiration, k.addr));
    }
  }

  lemma BeginKeepsInv(s: State, now: int)
    requires Inv(s) && !s.calling && now > 0
    ensures forall e :: e in s.timers ==> e.addr in s.memory
    ensures Inv(BeginStep(s, now))
  {
    BeginKeepsStructure(s, now);
    DueSplits(s.timers, now);
  }

  lemma ResetOneKeepsInv(s: State)
    requires Inv(s) && s.batch != []
    ensures s.batch[0].addr in s.memory && Inv(ResetOne(s))
    ensures ResetOne(s).calling == s.calling && ResetOne(s).batch == s.batch[1..]
  {
    ResetOneStructure(s);
    var e := s.batch[0];
    var t := s.memory[e.addr];
    assert OnTime(s.memory, e) && OwnedOnce(s, e.addr);
    if t.Repeats() && KeyOf(s.memory, e) !in s.canceling {
      var x := Entry(AddTime(s.now, t.interval), e.addr);
      assert x.when >= s.now;
      forall y | y in s.timers ensures y != x {
        assert OnTime(s.memory, y);
      }
      InsertSorted(s.timers, x);
    }
  }

  lemma EndKeepsInv(s: State)
    requires Inv(s) && s.calling
    ensures Inv(EndStep(s)) && !EndStep(s).calling
    decreases |s.batch|
  {
    if s.batch != [] {
      ResetOneKeepsInv(s);
      EndKeepsInv(ResetOne(s));
    } else {
      var r := Rearm(s);
      forall a | a in r.memory ensures OwnedOnce(r, a) {
        assert OwnedOnce(s, a);
      }
    }
  }

  // ----- runs -----

  /** Any thread creates timers; the loop thread inserts, cancels and handles expirations; the kernel
      fires the descriptor. What a callback does are the insertions and cancellations after its
      Call. */
  datatype Step =
    | Create(addr: nat, when: int, interval: real)
    | Add(addr: nat)
    | Cancel(key: Key)
    | Fire
    | Begin(now: int)
    | Call
    | End

  predicate Enabled(s: State, a: Step) {
    match a
    case Create(addr, _, _) => addr !in s.memory
    case Add(addr) => addr in s.pending
    case Cancel(_) => true
    case Fire => s.fd.Armed?
    case Begin(now) => !s.calling && now > 0
    case Call => s.calling && s.called < |s.batch|
    case End => s.calling && s.called >= |s.batch|
  }

  /** One step; a step that is not enabled does not happen. */
  ghost function Apply(s: State, a: Step): (r: State)
    requires Inv(s)
    ensures Inv(r)
  {
    if !Enabled(s, a) then s else
    match a
    case Create(addr, when, interval) => AllocFresh(s, addr, when, interval); CreateStep(s, addr, when, interval)
    case Add(addr) => AddKeepsInv(s, addr); AddStep(s, addr)
    case Cancel(k) => CancelKeepsInv(s, k); CancelStep(s, k)
    case Fire => FireKeepsInv(s); s.(fd := Fired)
    case Begin(now) => BeginKeepsInv(s, now); BeginStep(s, now)
    case Call => CallKeepsInv(s); CallStep(s)
    case End => EndKeepsInv(s); EndStep(s)
  }

  /** A callback is called on a timer that is still in memory. */
  lemma CallKeepsInv(s: State)
    requires Inv(s) && s.called < |s.batch|
    ensures s.batch[s.called].addr in s.memory && Inv(CallStep(s))
  {
    assert OnTime(s.memory, s.batch[s.called]);
    var r := CallStep(s);
    forall a | a in r.memory ensures OwnedOnce(r, a) {
      assert OwnedOnce(s, a);
    }
  }

  lemma FireKeepsInv(s: State)
    requires Inv(s)
    ensures Inv(s.(fd := Fired))
  {
    var r := s.(fd := Fired);
    forall a | a in r.memory ensures OwnedOnce(r, a) {
      assert OwnedOnce(s, a);
    }
  }

  ghost function RunFrom(s: State, acts: seq<Step>): (r: State)
    requires Inv(s)
    ensures Inv(r)
  {
    if acts == [] then s else Apply(RunFrom(s, acts[..|acts| - 1]), acts[|acts| - 1])
  }

  lemma InitInv()
    ensures Inv(INIT)
  {
  }

  // ----- what every run guarantees -----

  /** Outside handleRead the descriptor has fired or is armed no later than every timer, and the
      two indexes hold the same timers under their current expirations. */
  lemma QueueServed(acts: seq<Step>, e: Entry)
    ensures Inv(INIT)
    ensures var s := RunFrom(INIT, acts);
      && (e in s.timers && !s.calling ==> s.fd.Fired? || (s.fd.Armed? && s.fd.at <= e.when))
      && (e in s.timers ==> e.addr in s.memory && s.memory[e.addr].expiration == e.when
                            && Key(e.addr, s.memory[e.addr].sequence) in s.active)
      && |s.timers| == |s.active|
  {
    InitInv();
    var s := RunFrom(INIT, acts);
    if e in s.timers {
      assert OnTime(s.memory, e);
      var i :| 0 <= i < |s.timers| && s.timers[i] == e;
      assert i > 0 ==> Before(s.timers[0], s.timers[i]);
    }
    ActiveCount(s);
  }

  lemma LastKeyNew(s: State, front: seq<Entry>, last: Entry)
    requires IndexRight(s.memory, front + [last])
    ensures last.addr in s.memory && KeyOf(s.memory, last) !in KeySet(s.memory, front)
  {
    var ts := front + [last];
    assert last in ts && OnTime(s.memory, last);
    forall e | e in front && e.addr in s.memory ensures KeyOf(s.memory, e) != KeyOf(s.memory, last) {
      var i :| 0 <= i < |front| && front[i] == e;
      assert Before(ts[i], ts[|front|]);
      assert OnTime(s.memory, e);
    }
  }

  lemma {:induction false} CountKeys(s: State, ts: seq<Entry>)
    requires IndexRight(s.memory, ts)
    ensures forall e :: e in ts ==> e.addr in s.memory
    ensures |KeySet(s.memory, ts)| == |ts|
  {
    forall e | e in ts ensures e.addr in s.memory {
      assert OnTime(s.memory, e);
    }
    if ts != [] {
      var front, last := ts[..|ts| - 1], ts[|ts| - 1];
      CountKeys(s, front);
      assert ts == front + [last];
      LastKeyNew(s, front, last);
      KeySetSnoc(s.memory, front, last);
    } else {
      assert KeySet(s.memory, ts) == {};
    }
  }

  lemma ActiveCount(s: State)
    requires Structure(s)
    ensures |s.timers| == |s.active|
  {
    CountKeys(s, s.timers);
    forall k | k in s.active ensures k in KeySet(s.memory, s.timers) {
      var e := Entry(s.memory[k.addr].expiration, k.addr);
      assert KeyOf(s.memory, e) == k;
    }
    assert KeySet(s.memory, s.timers) == s.active;
  }

  /** Every timer ever created is in memory under one owner, or was freed, and that once. */
  lemma FreedOnce(acts: seq<Step>, q: int)
    ensures Inv(INIT)
    ensures var s := RunFrom(INIT, acts);
      && (1 <= q <= s.created <==> q in s.freed || Live(s.memory, q))
      && !(q in s.freed && Live(s.memory, q))
      && (forall i, j :: 0 <= i < j < |s.freed| ==> s.freed[i] != s.freed[j])
      && (forall a :: a in s.memory ==> OwnedOnce(s, a))
  {
    InitInv();
  }

  /** The batch of a handleRead is exactly the due entries, in order, and leaves exactly the rest. */
  lemma BatchIsDue(s: State, now: int)
    requires Inv(s) && Enabled(s, Begin(now))
    ensures var r := Apply(s, Begin(now));
      && r.batch + r.timers == s.timers
      && (forall e :: e in r.batch <==> e in s.timers && e.when <= now)
      && (forall e :: e in r.timers <==> e in s.timers && e.when > now)
  {
    hide Structure, ArmedRight;
    BeginKeepsInv(s, now);
    assert Sorted(s.timers) by { TimersSorted(s); }
    DueSplits(s.timers, now);
    SplitMembers(s.timers, Due(s.timers, now), now);
  }

  lemma TimersSorted(s: State)
    requires Structure(s)
    ensures Sorted(s.timers)
  {
  }

  lemma SplitMembers(ts: seq<Entry>, k: nat, now: int)
    requires k <= |ts| && forall i :: 0 <= i < |ts| ==> (i < k <==> ts[i].when <= now)
    ensures ts[..k] + ts[k..] == ts
    ensures forall e :: e in ts[..k] <==> e in ts && e.when <= now
    ensures forall e :: e in ts[k..] <==> e in ts && e.when > now
  {
    forall e | e in ts ensures (e in ts[..k] <==> e.when <= now) && (e in ts[k..] <==> e.when > now) {
      var i :| 0 <= i < |ts| && ts[i] == e;
      if i < k {
        assert ts[..k][i] == e;
      } else {
        assert ts[k..][i - k] == e;
      }
    }
  }

  // ----- cancellation -----

  /** The timer named `k` is gone, or belongs to the running batch and is marked. */
  ghost predicate Doomed(s: State, k: Key) {
    && 1 <= k.sequence <= s.created
    && (k.sequence in s.freed
        || (s.calling && k in s.canceling && k.addr in s.memory && s.memory[k.addr].sequence == k.sequence && InBatch(s, k.addr)))
  }

  /** Once cancelled, from a callback of its own batch or elsewhere, a timer stays out for good. */
  lemma DoomedIsOut(s: State, k: Key)
    requires Inv(s) && Doomed(s, k)
    ensures k !in s.active
    ensures forall a :: a in s.memory && s.memory[a].sequence == k.sequence ==> s.calling && a == k.addr && InBatch(s, a)
  {
    assert k.addr in s.memory ==> OwnedOnce(s, k.addr);
  }

  lemma CancelDooms(s: State, k: Key)
    requires Inv(s) && k.addr in s.memory && s.memory[k.addr].sequence == k.sequence && k.addr !in s.pending
    ensures Doomed(Apply(s, Cancel(k)), k)
  {
    CancelKeepsInv(s, k);
    assert OwnedOnce(s, k.addr);
    var r := Apply(s, Cancel(k));
    if k in s.active {
      assert r.freed[|r.freed| - 1] == k.sequence;
    } else {
      assert InBatch(s, k.addr);
      assert s.batch != [];
    }
  }

  lemma ResetOneKeepsDoom(s: State, k: Key)
    requires Inv(s) && s.batch != [] && Doomed(s, k)
    ensures s.batch[0].addr in s.memory && Doomed(ResetOne(s), k)
  {
    ResetOneKeepsInv(s);
    BatchRest(s);
    hide Inv, Structure, ActiveRight, SequencesRight;
    var r := ResetOne(s);
    if k.sequence in s.freed {
      assert forall q :: q in s.freed ==> q in r.freed;
    } else if s.batch[0].addr == k.addr {
      assert KeyOf(s.memory, s.batch[0]) == k;
      assert r.freed[|r.freed| - 1] == k.sequence;
    } else {
      assert Entry(s.memory[k.addr].expiration, k.addr) in r.batch;
    }
  }

  lemma EndFreesDoomed(s: State, k: Key)
    requires Inv(s) && s.calling && Doomed(s, k)
    ensures Structure(s) && k.sequence in EndStep(s).freed && EndStep(s).created == s.created
    decreases |s.batch|
  {
    if s.batch != [] {
      ResetOneKeepsInv(s);
      ResetOneKeepsDoom(s, k);
      EndFreesDoomed(ResetOne(s), k);
    }
  }

  lemma DoomedStays(s: State, a: Step, k: Key)
    requires Inv(s) && Doomed(s, k)
    ensures Doomed(Apply(s, a), k)
  {
    var r := Apply(s, a);
    if Enabled(s, a) {
      match a
      case Create(addr, _, _) =>
      case Add(addr) =>
        assert OwnedOnce(s, addr);
      case Cancel(j) =>
        CancelKeepsInv(s, j);
        assert forall q :: q in s.freed ==> q in r.freed;
        if j in s.active && k.addr in s.memory {
          assert OwnedOnce(s, k.addr);
        }
      case Fire =>
      case Begin(now) =>
        BeginKeepsInv(s, now);
      case Call =>
        CallKeepsInv(s);
      case End =>
        EndFreesDoomed(s, k);
    }
  }

  /** A timer cancelled by any callback of its batch, or while indexed, is never indexed again,
      whatever happens later. */
  lemma {:induction false} CancelledNeverReturns(s: State, k: Key, acts: seq<Step>)
    requires Inv(s) && k.addr in s.memory && s.memory[k.addr].sequence == k.sequence && k.addr !in s.pending
    ensures var t := RunFrom(Apply(s, Cancel(k)), acts);
      Doomed(t, k) && k !in t.active
  {
    var c := Apply(s, Cancel(k));
    if acts == [] {
      CancelDooms(s, k);
    } else {
      CancelledNeverReturns(s, k, acts[..|acts| - 1]);
      DoomedStays(RunFrom(c, acts[..|acts| - 1]), acts[|acts| - 1], k);
    }
    DoomedIsOut(RunFrom(c, acts), k);
  }

  /** How often the callback of a timer has been called. */
  function Runs(ran: seq<Key>, k: Key): nat {
    if ran == [] then 0 else Runs(ran[..|ran| - 1], k) + if ran[|ran| - 1] == k then 1 else 0
  }

  /** The timer stands in the running batch behind the callbacks already called. */
  ghost predicate Ahead(s: State, k: Key) {
    && s.calling && k.addr in s.memory && s.memory[k.addr].sequence == k.sequence
    && exists i :: s.called <= i < |s.batch| && s.batch[i].addr == k.addr
  }

  ghost function RunsInAll(s: State, k: Key): nat {
    Runs(s.ran, k) + if Ahead(s, k) then 1 else 0
  }

  lemma BatchAddressesDiffer(s: State, i: nat, j: nat)
    requires Structure(s) && i < j < |s.batch|
    ensures s.batch[i].addr != s.batch[j].addr
  {
    assert Before(s.batch[i], s.batch[j]);
    assert OnTime(s.memory, s.batch[i]) && OnTime(s.memory, s.batch[j]);
  }

  lemma CallCounts(s: State, k: Key)
    requires Inv(s) && s.calling && s.called < |s.batch|
    ensures s.batch[s.called].addr in s.memory && RunsInAll(CallStep(s), k) == RunsInAll(s, k)
  {
    CallKeepsInv(s);
    var r := CallStep(s);
    assert r.ran[..|s.ran|] == s.ran;
    forall i: nat | s.called < i < |s.batch| ensures s.batch[i].addr != s.batch[s.called].addr {
      BatchAddressesDiffer(s, s.called, i);
    }
    if i :| s.called <= i < |s.batch| && s.batch[i].addr == k.addr {
      assert i > s.called ==> r.called <= i < |r.batch|;
    }
  }

  lemma EndKeepsRan(s: State)
    requires Structure(s)
    ensures EndStep(s).ran == s.ran && !EndStep(s).calling
    decreases |s.batch|
  {
    if s.batch != [] {
      ResetOneStructure(s);
      EndKeepsRan(ResetOne(s));
    }
  }

  lemma BatchInMemory(s: State, i: nat)
    requires Structure(s) && i < |s.batch|
    ensures InBatch(s, s.batch[i].addr) && OwnedOnce(s, s.batch[i].addr)
  {
    assert OnTime(s.memory, s.batch[i]);
  }

  /** No step changes how often a cancelled timer runs in all. */
  lemma DoomedRunsStep(s: State, a: Step, k: Key)
    requires Inv(s) && Doomed(s, k)
    ensures RunsInAll(Apply(s, a), k) == RunsInAll(s, k)
  {
    hide ArmedRight;
    if Enabled(s, a) {
      match a
      case Create(addr, _, _) =>
        assert Ahead(Apply(s, a), k) <==> Ahead(s, k);
      case Add(addr) => AddKeepsInv(s, addr);
      case Cancel(j) =>
        CancelKeepsInv(s, j);
        CancelOtherAhead(s, j, k);
      case Fire =>
      case Begin(now) => BeginKeepsInv(s, now);
      case Call => CallCounts(s, k);
      case End => EndKeepsRan(s);
    }
  }

  lemma CancelOtherAhead(s: State, j: Key, k: Key)
    requires Inv(s)
    ensures j in s.active ==> j.addr in s.memory
    ensures CancelStep(s, j).ran == s.ran && (Ahead(CancelStep(s, j), k) <==> Ahead(s, k))
  {
    CancelKeepsInv(s, j);
    if j in s.active {
      assert OwnedOnce(s, j.addr);
      if i :| s.called <= i < |s.batch| && s.batch[i].addr == k.addr {
        BatchInMemory(s, i);
      }
    }
  }

  lemma {:induction false} DoomedRuns(s: State, k: Key, acts: seq<Step>)
    requires Inv(s) && Doomed(s, k)
    ensures Doomed(RunFrom(s, acts), k) && RunsInAll(RunFrom(s, acts), k) == RunsInAll(s, k)
  {
    hide Inv, Doomed, Apply, RunsInAll;
    if acts != [] {
      DoomedRuns(s, k, acts[..|acts| - 1]);
      DoomedStays(RunFrom(s, acts[..|acts| - 1]), acts[|acts| - 1], k);
      DoomedRunsStep(RunFrom(s, acts[..|acts| - 1]), acts[|acts| - 1], k);
    }
  }

  /** A cancelled timer may still run once, in the batch in progress, if it stands behind the
      canceller there; it has done so when the batch is over. Otherwise it never runs again. */
  lemma CancelledRuns(s: State, k: Key, acts: seq<Step>)
    requires Inv(s) && k.addr in s.memory && s.memory[k.addr].sequence == k.sequence && k.addr !in s.pending
    ensures var t := RunFrom(Apply(s, Cancel(k)), acts);
      && Runs(s.ran, k) <= Runs(t.ran, k) <= Runs(s.ran, k) + (if Ahead(s, k) then 1 else 0)
      && (!t.calling ==> Runs(t.ran, k) == Runs(s.ran, k) + (if Ahead(s, k) then 1 else 0))
  {
    var c := Apply(s, Cancel(k));
    CancelDooms(s, k);
    CancelOtherAhead(s, k, k);
    DoomedRuns(c, k, acts);
    RanGrows(c, k, acts);
  }

  lemma {:induction false} RanGrows(s: State, k: Key, acts: seq<Step>)
    requires Inv(s)
    ensures Runs(s.ran, k) <= Runs(RunFrom(s, acts).ran, k)
  {
    hide Inv, Apply;
    if acts != [] {
      RanGrows(s, k, acts[..|acts| - 1]);
      StepRanGrows(RunFrom(s, acts[..|acts| - 1]), k, acts[|acts| - 1]);
    }
  }

  lemma StepRanGrows(s: State, k: Key, a: Step)
    requires Inv(s)
    ensures Runs(s.ran, k) <= Runs(Apply(s, a).ran, k)
  {
    hide Structure, ArmedRight;
    if Enabled(s, a) {
      match a
      case Call =>
        CallKeepsInv(s);
        assert CallStep(s).ran[..|s.ran|] == s.ran;
      case End => InvIsStructure(s); EndKeepsRan(s);
      case _ =>
    }
  }

  function Calls(n: nat): (r: seq<Step>)
    ensures |r| == n && forall i :: 0 <= i < n ==> r[i] == Call
  {
    seq(n, _ => Call)
  }

  lemma {:induction false} RunCalls(s: State, n: nat)
    requires Inv(s) && s.calling && s.called + n <= |s.batch|
    ensures var t := RunFrom(s, Calls(n));
      t.calling && t.batch == s.batch && t.called == s.called + n
  {
    hide Inv;
    if n > 0 {
      assert Calls(n)[..n - 1] == Calls(n - 1);
      RunCalls(s, n - 1);
    } else {
      assert Calls(0) == [];
    }
  }

  /** Cancelling a live timer that is not waiting for its insertion stops it at once, in every
      continuation, exactly when it does not stand in the running batch behind the canceller. */
  lemma CancelledRunsIff(s: State, k: Key)
    requires Inv(s) && k.addr in s.memory && s.memory[k.addr].sequence == k.sequence && k.addr !in s.pending
    ensures (forall acts :: Runs(RunFrom(Apply(s, Cancel(k)), acts).ran, k) == Runs(s.ran, k)) <==> !Ahead(s, k)
  {
    hide Inv, Structure, Runs;
    var c := Apply(s, Cancel(k));
    forall acts | !Ahead(s, k) ensures Runs(RunFrom(c, acts).ran, k) == Runs(s.ran, k) {
      CancelledRuns(s, k, acts);
    }
    if Ahead(s, k) {
      AheadRuns(s, k);
    }
  }

  lemma AheadRuns(s: State, k: Key)
    requires Inv(s) && k.addr in s.memory && s.memory[k.addr].sequence == k.sequence && k.addr !in s.pending && Ahead(s, k)
    ensures exists acts :: Runs(RunFrom(Apply(s, Cancel(k)), acts).ran, k) == Runs(s.ran, k) + 1
  {
    hide Inv, Structure, Runs, Doomed;
    var c := Apply(s, Cancel(k));
    CancelDooms(s, k);
    CancelKeepsInv(s, k);
    CancelOtherAhead(s, k, k);
    var acts := Calls(|c.batch| - c.called);
    RunCalls(c, |c.batch| - c.called);
    DoomedRuns(c, k, acts);
    assert Runs(RunFrom(c, acts).ran, k) == Runs(s.ran, k) + 1;
  }

  /** Two timers that expire together. */
  function TwoAdded(): seq<Step> {
    [Create(0, 1, 0.0)] + [Create(1, 1, 0.0)] + [Add(0)] + [Add(1)]
  }

  lemma TwoAddedState()
    ensures Inv(INIT)
    ensures var s := RunFrom(INIT, TwoAdded());
      && s.memory == map[0 := Timer(1, 0.0, 1), 1 := Timer(1, 0.0, 2)] && s.pending == {}
      && s.timers == [Entry(1, 0), Entry(1, 1)] && !s.calling && s.ran == []
  {
    InitInv();
    hide Inv;
    var a1, a2, a3, a4 := Create(0, 1, 0.0), Create(1, 1, 0.0), Add(0), Add(1);
    RunOne(INIT, a1);
    RunSnoc(INIT, [a1], a2);
    RunSnoc(INIT, [a1] + [a2], a3);
    RunSnoc(INIT, [a1] + [a2] + [a3], a4);
  }

  /** Reachable: both fall due, the callback of the first cancels the second, and the second runs all
      the same. */
  lemma StillRunsReachable()
    ensures Inv(INIT)
    ensures var s := RunFrom(INIT, TwoAdded() + [Begin(5)] + [Call]);
      var k := Key(1, 2);
      && 1 in s.memory && s.memory[1].sequence == k.sequence && 1 !in s.pending
      && Runs(s.ran, k) == 0 && Runs(RunFrom(Apply(s, Cancel(k)), [Call]).ran, k) == 1
  {
    hide Inv, RunFrom, TwoAdded, Apply, Runs;
    TwoAddedState();
    var s0 := RunFrom(INIT, TwoAdded());
    RunSnoc(INIT, TwoAdded(), Begin(5));
    RunSnoc(INIT, TwoAdded() + [Begin(5)], Call);
    TwoBegun(s0);
    var s := RunFrom(INIT, TwoAdded() + [Begin(5)] + [Call]);
    NoRuns(Key(1, 2));
    RunsSnoc([], Key(0, 1), Key(1, 2));
    assert [] + [Key(0, 1)] == [Key(0, 1)];
    var c := Apply(s, Cancel(Key(1, 2)));
    TwoStillThere(s, c);
    CallSecond(c);
    RunOne(c, Call);
    RunsSnoc(s.ran, Key(1, 2), Key(1, 2));
  }

  lemma NoRuns(k: Key)
    ensures Runs([], k) == 0
  {
  }

  lemma TwoBegun(s: State)
    requires Inv(s) && s.memory == map[0 := Timer(1, 0.0, 1), 1 := Timer(1, 0.0, 2)] && s.pending == {}
    requires s.timers == [Entry(1, 0), Entry(1, 1)] && !s.calling && s.ran == []
    ensures var t := Apply(Apply(s, Begin(5)), Call);
      && t.memory == s.memory && t.pending == {} && t.batch == s.timers && t.called == 1 && t.calling && t.ran == [Key(0, 1)]
  {
    BeginKeepsInv(s, 5);
    hide Inv, Structure, KeySet, Due;
    TwoAreDue(s.timers);
    assert s.timers[..2] == s.timers;
    CallFirst(Apply(s, Begin(5)));
  }

  lemma CallFirst(s: State)
    requires Inv(s) && s.memory == map[0 := Timer(1, 0.0, 1), 1 := Timer(1, 0.0, 2)] && s.ran == []
    requires s.batch == [Entry(1, 0), Entry(1, 1)] && s.called == 0 && s.calling
    ensures Apply(s, Call) == s.(called := 1, ran := [Key(0, 1)])
  {
    hide Inv;
  }

  lemma CallSecond(c: State)
    requires Inv(c) && Enabled(c, Call) && c.called == 1 && c.batch[1] == Entry(1, 1) && 1 in c.memory && c.memory[1].sequence == 2
    ensures Apply(c, Call).ran == c.ran + [Key(1, 2)]
  {
    hide Inv;
  }

  lemma TwoStillThere(s: State, c: State)
    requires Inv(s) && c == Apply(s, Cancel(Key(1, 2))) && s.calling && s.called == 1 && |s.batch| == 2
    requires s.batch[1] == Entry(1, 1) && 1 in s.memory && s.memory[1].sequence == 2
    ensures Enabled(c, Call) && c.batch == s.batch && c.called == 1 && c.ran == s.ran && 1 in c.memory && c.memory[1].sequence == 2
  {
    BatchInMemory(s, 1);
  }

  lemma RunsSnoc(ran: seq<Key>, j: Key, k: Key)
    ensures Runs(ran + [j], k) == Runs(ran, k) + if j == k then 1 else 0
  {
    assert (ran + [j])[..|ran|] == ran;
  }

  lemma TwoAreDue(ts: seq<Entry>)
    requires ts == [Entry(1, 0), Entry(1, 1)]
    ensures Due(ts, 5) == 2
  {
    assert ts[1..] == [Entry(1, 1)] && ts[1..][1..] == [];
  }

  lemma RunSnoc(s: State, acts: seq<Step>, a: Step)
    requires Inv(s)
    ensures RunFrom(s, acts + [a]) == Apply(RunFrom(s, acts), a)
  {
    assert (acts + [a])[..|acts|] == acts;
  }

  /** The two states differ at most in whether `k` is marked for cancellation. */
  ghost predicate SameButMark(s: State, t: State, k: Key) {
    s == t.(canceling := s.canceling) && s.canceling - {k} == t.canceling - {k}
  }

  lemma EndIgnoresStale(s: State, t: State, k: Key)
    requires Inv(s) && Inv(t) && s.calling && SameButMark(s, t, k) && k.sequence in s.freed
    ensures Structure(s) && Structure(t) && SameButMark(EndStep(s), EndStep(t), k)
    decreases |s.batch|
  {
    if s.batch != [] {
      ResetOneKeepsInv(s);
      ResetOneKeepsInv(t);
      assert OnTime(s.memory, s.batch[0]);
      assert KeyOf(s.memory, s.batch[0]) != k;
      assert KeyOf(s.memory, s.batch[0]) in s.canceling <==> KeyOf(s.memory, s.batch[0]) in s.canceling - {k};
      assert KeyOf(s.memory, s.batch[0]) in t.canceling <==> KeyOf(s.memory, s.batch[0]) in t.canceling - {k};
      assert forall q :: q in s.freed ==> q in ResetOne(s).freed;
      EndIgnoresStale(ResetOne(s), ResetOne(t), k);
    }
  }

  lemma EndKeepsFreed(s: State)
    requires Inv(s) && s.calling
    ensures Structure(s) && forall q :: q in s.freed ==> q in EndStep(s).freed
    decreases |s.batch|
  {
    if s.batch != [] {
      ResetOneKeepsInv(s);
      assert forall q :: q in s.freed ==> q in ResetOne(s).freed;
      EndKeepsFreed(ResetOne(s));
    }
  }

  lemma StaleCancelStep(s: State, t: State, k: Key, j: Key)
    requires SameButMark(s, t, k) && k.sequence in s.freed
    requires j in s.active ==> j.addr in s.memory
    ensures SameButMark(CancelStep(s, j), CancelStep(t, j), k) && k.sequence in CancelStep(s, j).freed
  {
    var x, y := CancelStep(s, j), CancelStep(t, j);
    assert s.canceling - {k} == t.canceling - {k};
    forall i ensures i in x.canceling - {k} <==> i in y.canceling - {k} {
      assert i in s.canceling - {k} <==> i in t.canceling - {k};
    }
    assert x.canceling - {k} == y.canceling - {k};
    assert x == y.(canceling := x.canceling);
  }

  lemma StaleStep(s: State, t: State, k: Key, a: Step)
    requires Inv(s) && Inv(t) && SameButMark(s, t, k) && k.sequence in s.freed
    ensures SameButMark(Apply(s, a), Apply(t, a), k) && k.sequence in Apply(s, a).freed
  {
    hide Inv, Structure, CancelStep;
    if Enabled(s, a) {
      match a
      case Create(_, _, _) =>
      case Add(_) =>
        AddKeepsInv(s, a.addr);
      case Cancel(j) =>
        CancelKeepsInv(s, j);
        CancelKeepsInv(t, j);
        StaleCancelStep(s, t, k, j);
      case Fire =>
      case Begin(now) =>
        BeginKeepsInv(s, now);
        BeginKeepsInv(t, now);
      case Call =>
        CallKeepsInv(s);
        CallKeepsInv(t);
      case End =>
        EndIgnoresStale(s, t, k);
        EndKeepsFreed(s);
    }
  }

  /** Cancelling a stale id, even one whose address now holds another timer, has no effect on any
      timer, now or in any continuation. */
  lemma {:induction false} StaleCancelHarmless(s: State, k: Key, acts: seq<Step>)
    requires Inv(s) && k.sequence in s.freed
    ensures SameButMark(RunFrom(Apply(s, Cancel(k)), acts), RunFrom(s, acts), k)
    ensures k.sequence in RunFrom(s, acts).freed
  {
    var c := Apply(s, Cancel(k));
    if acts == [] {
      CancelKeepsInv(s, k);
      assert k !in s.active;
    } else {
      StaleCancelHarmless(s, k, acts[..|acts| - 1]);
      var s1, c1 := RunFrom(s, acts[..|acts| - 1]), RunFrom(c, acts[..|acts| - 1]);
      StaleStep(s1, c1, k, acts[|acts| - 1]);
    }
  }

  /** A cancellation that overtakes the queued insertion of its timer is lost: the timer is
      inserted all the same. */
  lemma EarlyCancelIsLost(s: State, k: Key)
    requires Inv(s) && k.addr in s.pending && s.memory[k.addr].sequence == k.sequence
    ensures k in Apply(Apply(s, Cancel(k)), Add(k.addr)).active
  {
    assert OwnedOnce(s, k.addr);
    CancelKeepsInv(s, k);
    var c := Apply(s, Cancel(k));
    AddKeepsInv(c, k.addr);
  }

  /** Cancelling a live timer keeps it out of the index for good, in every continuation, exactly
      when its insertion is not still queued. */
  lemma CancelWorksIff(s: State, k: Key)
    requires Inv(s) && k.addr in s.memory && s.memory[k.addr].sequence == k.sequence
    ensures (forall acts :: k !in RunFrom(Apply(s, Cancel(k)), acts).active) <==> k.addr !in s.pending
  {
    var c := Apply(s, Cancel(k));
    if k.addr in s.pending {
      EarlyCancelIsLost(s, k);
      RunOne(c, Add(k.addr));
      assert k in RunFrom(c, [Add(k.addr)]).active;
    } else {
      forall acts ensures k !in RunFrom(c, acts).active {
        CancelledNeverReturns(s, k, acts);
      }
    }
  }

  lemma RunOne(s: State, a: Step)
    requires Inv(s)
    ensures RunFrom(s, [a]) == Apply(s, a)
  {
    assert [a][..0] == [];
  }

  /** A cancellation does overtake the insertion: right after a timer is created. */
  lemma EarlyCancelReachable(addr: nat, when: int, interval: real)
    ensures Inv(INIT)
    ensures var s := RunFrom(INIT, [Create(addr, when, interval)]);
      var k := Key(addr, 1);
      && addr in s.memory && s.memory[addr].sequence == k.sequence && addr in s.pending
      && k in Apply(Apply(s, Cancel(k)), Add(addr)).active
  {
    InitInv();
    RunOne(INIT, Create(addr, when, interval));
    EarlyCancelIsLost(RunFrom(INIT, [Create(addr, when, interval)]), Key(addr, 1));
  }

  // ----- after the batch -----

  /** What `reset` does to the timer `e`: back in the queue, due one interval after the batch's time
      cut down to a microsecond, or freed. */
  ghost predicate Settled(s: State, r: State, e: Entry)
    requires e.addr in s.memory
  {
    var t := s.memory[e.addr];
    if t.Repeats() && KeyOf(s.memory, e) !in s.canceling then
      && e.addr in r.memory && r.memory[e.addr].sequence == t.sequence && r.memory[e.addr].interval == t.interval
      && CutDown(s.now, t.interval, r.memory[e.addr].expiration)
      && InTimers(r, e.addr)
    else t.sequence in r.freed
  }

  lemma EndKeepsOthers(s: State, a: nat)
    requires Inv(s) && s.calling && InTimers(s, a)
    ensures Structure(s) && InTimers(EndStep(s), a) && EndStep(s).memory[a] == s.memory[a]
    decreases |s.batch|
  {
    if s.batch != [] {
      ResetOneKeepsInv(s);
      assert OwnedOnce(s, a);
      EndKeepsOthers(ResetOne(s), a);
    }
  }

  /** Every timer of the batch is settled one way or the other when handleRead ends. */
  lemma {:induction false} BatchSettled(s: State, e: Entry)
    requires Inv(s) && s.calling && e in s.batch
    ensures Structure(s) && e.addr in s.memory && Settled(s, EndStep(s), e)
    decreases |s.batch|
  {
    ResetOneKeepsInv(s);
    var r := ResetOne(s);
    var b := s.batch[0];
    assert OnTime(s.memory, e) && OnTime(s.memory, b);
    if e == b {
      if s.memory[b.addr].Repeats() && KeyOf(s.memory, b) !in s.canceling {
        assert InTimers(r, b.addr);
        AddTimeRight(s.now, s.memory[b.addr].interval);
        EndKeepsOthers(r, b.addr);
      } else {
        assert r.freed[|r.freed| - 1] == s.memory[b.addr].sequence;
        EndKeepsFreed(r);
      }
    } else {
      var i :| 0 <= i < |s.batch| && s.batch[i] == e;
      assert r.batch[i - 1] == e;
      BatchSettled(r, e);
    }
  }

  /** A repeating timer with an interval of `n` seconds or more is not due again before `n` seconds
      have passed since the time of its batch; with exactly `n` seconds it is due right then. */
  lemma NotDueEarly(s: State, e: Entry, n: int)
    requires Inv(s) && s.calling && e in s.batch
    ensures Structure(s) && e.addr in s.memory
    ensures var t := s.memory[e.addr];
      t.Repeats() && KeyOf(s.memory, e) !in s.canceling ==>
        && e.addr in EndStep(s).memory
        && (t.interval >= n as real ==> EndStep(s).memory[e.addr].expiration >= s.now + 1000000 * n)
        && (t.interval == n as real ==> EndStep(s).memory[e.addr].expiration == s.now + 1000000 * n)
  {
    BatchSettled(s, e);
    var t := s.memory[e.addr];
    if t.Repeats() && KeyOf(s.memory, e) !in s.canceling {
      var x := EndStep(s).memory[e.addr].expiration;
      WholeSeconds(s.now, t.interval, x, n);
    }
  }

  lemma WholeSeconds(t: int, seconds: real, x: int, n: int)
    requires CutDown(t, seconds, x)
    ensures seconds >= n as real ==> x >= t + 1000000 * n
    ensures seconds == n as real ==> x == t + 1000000 * n
  {
    if seconds >= n as real {
      assert seconds * 1000000.0 >= (n * 1000000) as real;
      assert (x - t) as real + 1.0 == (x - t + 1) as real;
    }
  }

  // ----- what callers asked for -----

  /** A new timer is indexed under the expiration, interval and sequence number it was given. */
  lemma CreatedAsAsked(s: State, addr: nat, when: int, interval: real)
    requires Inv(s) && addr !in s.memory
    ensures var t := Apply(Apply(s, Create(addr, when, interval)), Add(addr));
      && Entry(when, addr) in t.timers && Key(addr, s.created + 1) in t.active
      && addr in t.memory && t.memory[addr] == Timer(when, interval, s.created + 1)
      && (forall a :: a in s.memory ==> a in t.memory && t.memory[a] == s.memory[a])
  {
    InvIsStructure(s);
    AllocFresh(s, addr, when, interval);
    hide Structure, ArmedRight, Inv, AddStep;
    var c := Apply(s, Create(addr, when, interval));
    AddedAsAsked(c, addr);
  }

  lemma AddedAsAsked(s: State, addr: nat)
    requires Inv(s) && addr in s.pending
    ensures addr in s.memory
    ensures var t := Apply(s, Add(addr));
      && t.memory == s.memory && Entry(s.memory[addr].expiration, addr) in t.timers
      && Key(addr, s.memory[addr].sequence) in t.active
  {
    AddKeepsInv(s, addr);
    hide Inv;
  }

  /** The descriptor is set exactly when the earliest expiration changes or a batch ends, and then to
      the earliest expiration. */
  lemma ArmedForEarliest(s: State, a: Step)
    requires Inv(s) && Enabled(s, a)
    ensures var t := Apply(s, a);
      && (a.Add? ==> t.timers != [] && t.fd == if s.timers == [] || t.timers[0].when < s.timers[0].when
                                                then Armed(t.timers[0].when) else s.fd)
      && (a.End? && t.timers != [] && t.timers[0].when > 0 ==> t.fd == Armed(t.timers[0].when))
      && (a.End? && t.timers == [] ==> t.fd == s.fd)
      && (a.Create? || a.Cancel? || a.Call? ==> t.fd == s.fd)
      && (a.Begin? ==> t.fd == if s.fd.Fired? then Disarmed else s.fd)
  {
    match a
    case Add(addr) => AddKeepsStructure(s, addr);
    case End => EndArms(s);
    case Cancel(k) => CancelKeepsInv(s, k);
    case Call => CallKeepsInv(s);
    case _ =>
  }

  lemma EndArms(s: State)
    requires Structure(s)
    ensures var t := EndStep(s);
      && (t.timers != [] && t.timers[0].when > 0 ==> t.fd == Armed(t.timers[0].when))
      && (t.timers == [] ==> t.fd == s.fd)
    decreases |s.batch|
  {
    if s.batch != [] {
      ResetOneStructure(s);
      EndArms(ResetOne(s));
    }
  }

  predicate NoEnd(acts: seq<Step>) {
    forall a :: a in acts ==> !a.End?
  }

  /** Only cancellations made during the batch are marked, so a repeating timer that nobody cancels
      during its batch comes back. */
  lemma {:induction false} MarksAreCancels(s: State, now: int, acts: seq<Step>, k: Key)
    requires Inv(s) && Enabled(s, Begin(now)) && NoEnd(acts) && Cancel(k) !in acts
    ensures var t := RunFrom(Apply(s, Begin(now)), acts);
      && t.calling && t.now == now && t.batch == Apply(s, Begin(now)).batch && k !in t.canceling
  {
    hide Inv;
    BeginFacts(s, now);
    if acts != [] {
      var front, a := acts[..|acts| - 1], acts[|acts| - 1];
      assert forall x :: x in front ==> x in acts;
      assert a in acts;
      MarksAreCancels(s, now, front, k);
      StepKeepsMarks(RunFrom(Apply(s, Begin(now)), front), a, k);
    }
  }

  lemma BeginFacts(s: State, now: int)
    requires Inv(s) && Enabled(s, Begin(now))
    ensures var t := Apply(s, Begin(now)); t.calling && t.now == now && t.canceling == {}
  {
  }

  lemma StepKeepsMarks(s: State, a: Step, k: Key)
    requires Inv(s) && s.calling && !a.End? && a != Cancel(k) && k !in s.canceling
    ensures var t := Apply(s, a); t.calling && t.now == s.now && t.batch == s.batch && k !in t.canceling
  {
    hide Structure, ArmedRight;
    if Enabled(s, a) {
      match a
      case Cancel(j) => CancelKeepsInv(s, j);
      case Call => CallKeepsInv(s);
      case _ =>
    }
  }

  // ----- the class -----

  lemma InsertIsNew(s: State, addr: nat)
    requires Structure(s) && addr in s.pending
    ensures Entry(s.memory[addr].expiration, addr) !in s.timers && KeyOf(s.memory, Entry(s.memory[addr].expiration, addr)) !in s.active
  {
    assert OwnedOnce(s, addr);
  }

  lemma PendingInMemory(s: State, addr: nat)
    requires Structure(s) && addr in s.pending
    ensures addr in s.memory
  {
  }

  lemma CancelFindsEntry(s: State, k: Key)
    requires Structure(s) && k in s.active
    ensures k.addr in s.memory
    ensures |Erase(s.timers, Entry(s.memory[k.addr].expiration, k.addr))| == |s.timers| - 1
  {
    EraseSorted(s.timers, Entry(s.memory[k.addr].expiration, k.addr));
  }

  class Queue {
    var memory: map<nat, Timer>
    var numCreated: int
    var timers: seq<Entry>
    var activeTimers: set<Key>
    var callingExpiredTimers: bool
    var cancelingTimers: set<Key>
    var timerfd: Descriptor
    ghost var batch: seq<Entry>
    ghost var called: nat
    ghost var now: int
    ghost var pending: set<nat>
    ghost var freed: seq<int>
    ghost var ran: seq<Key>

    ghost function View(): State
      reads this
    {
      State(memory, numCreated, timers, activeTimers, callingExpiredTimers, cancelingTimers, batch, called, now, timerfd, pending, freed, ran)
    }

    ghost predicate Valid()
      reads this
    {
      Inv(View())
    }

    constructor ()
      ensures Valid() && View() == INIT
    {
      memory, numCreated, timers, activeTimers := map[], 0, [], {};
      callingExpiredTimers, cancelingTimers, timerfd := false, {}, Disarmed;
      batch, called, now, pending, freed, ran := [], 0, 0, {}, [], [];
    }

    /** `addr` is where the allocator puts the timer. */
    method AddTimer(addr: nat, when: int, interval: real) returns (id: Key)
      requires Valid() && addr !in memory
      modifies this
      ensures Valid() && View() == Apply(old(View()), Create(addr, when, interval))
      ensures id == Key(addr, numCreated) && addr in pending && memory[addr] == Timer(when, interval, numCreated)
    {
      hide Structure;
      AllocFresh(View(), addr, when, interval);
      numCreated := numCreated + 1;
      memory := memory[addr := Timer(when, interval, numCreated)];
      pending := pending + {addr};
      id := Key(addr, numCreated);
    }

    method InsertTimer(addr: nat) returns (earliestChanged: bool)
      requires addr in memory
      modifies this`timers, this`activeTimers
      ensures earliestChanged <==> old(timers) == [] || memory[addr].expiration < old(timers)[0].when
      ensures View() == Indexed(old(View()), addr)
    {
      var when := memory[addr].expiration;
      earliestChanged := timers == [] || when < timers[0].when;
      timers := Insert(timers, Entry(when, addr));
      activeTimers := activeTimers + {Key(addr, memory[addr].sequence)};
    }

    method AddTimerInLoop(addr: nat)
      requires Valid() && addr in pending
      modifies this
      ensures Valid() && View() == Apply(old(View()), Add(addr))
      ensures |timers| == |activeTimers|
    {
      hide Inv, Structure, Indexed;
      InvIsStructure(View());
      PendingInMemory(View(), addr);
      AddKeepsInv(View(), addr);
      InsertIsNew(View(), addr);
      ghost var r := AddStep(View(), addr);
      InvIsStructure(r);
      ActiveCount(r);
      var earliestChanged := InsertTimer(addr);
      if earliestChanged {
        timerfd := Armed(memory[addr].expiration);
      }
      pending := pending - {addr};
      assert View() == r;
    }

    method CancelInLoop(k: Key)
      requires Valid()
      modifies this
      ensures Valid() && View() == Apply(old(View()), Cancel(k))
      ensures |timers| == |activeTimers|
    {
      hide Inv, Structure;
      InvIsStructure(View());
      CancelKeepsInv(View(), k);
      ghost var r := CancelStep(View(), k);
      InvIsStructure(r);
      ActiveCount(r);
      if k in activeTimers {
        CancelFindsEntry(View(), k);
        timers := Erase(timers, Entry(memory[k.addr].expiration, k.addr));
        freed := freed + [memory[k.addr].sequence];
        memory := memory - {k.addr};
        activeTimers := activeTimers - {k};
      } else if callingExpiredTimers {
        cancelingTimers := cancelingTimers + {k};
      }
      assert View() == r;
    }

    /** `lower_bound` of the sentry (t, MAX): how many entries are due. */
    method LowerBound(t: int) returns (end: nat)
      requires Sorted(timers)
      ensures end == Due(timers, t)
    {
      DueSplits(timers, t);
      end := 0;
      while end < |timers| && timers[end].when <= t
        invariant 0 <= end <= Due(timers, t)
      {
        end := end + 1;
      }
    }

    /** Moves the due entries out of both indexes. */
    method GetExpired(t: int) returns (expired: seq<Entry>)
      requires Valid() && !callingExpiredTimers
      modifies this`timers, this`activeTimers
      ensures forall e :: e in old(timers) ==> e.addr in memory
      ensures expired == old(timers)[..Due(old(timers), t)] && timers == old(timers)[Due(old(timers), t)..]
      ensures activeTimers == old(activeTimers) - KeySet(memory, expired)
    {
      hide Inv, Sorted, KeySet, Due;
      TimersInMemory(View());
      NoKeys(memory);
      var end := LowerBound(t);
      expired := timers[..end];
      timers := timers[end..];
      var i := 0;
      while i < |expired|
        invariant 0 <= i <= |expired| && timers == old(timers)[end..]
        invariant activeTimers == old(activeTimers) - KeySet(memory, expired[..i])
      {
        assert expired[i] == old(timers)[i] && old(timers)[i] in old(timers);
        assert expired[..i + 1] == expired[..i] + [expired[i]];
        KeySetSnoc(memory, expired[..i], expired[i]);
        activeTimers := activeTimers - {Key(expired[i].addr, memory[expired[i].addr].sequence)};
        i := i + 1;
      }
      assert expired[..i] == expired;
    }

    /** `handleRead` up to its callbacks, which run before `HandleReadEnd`. */
    method HandleReadBegin(t: int) returns (expired: seq<Entry>)
      requires Valid() && !callingExpiredTimers && t > 0
      modifies this
      ensures Valid() && View() == Apply(old(View()), Begin(t)) && expired == batch
    {
      hide Inv, Structure, KeySet, Due;
      BeginKeepsInv(View(), t);
      expired := GetExpired(t);
      if timerfd.Fired? {
        timerfd := Disarmed;
      }
      callingExpiredTimers := true;
      cancelingTimers := {};
      batch, called, now := expired, 0, t;
    }

    /** The next callback of the batch; what it does follows. */
    method RunCallback(expired: seq<Entry>, i: nat)
      requires Valid() && callingExpiredTimers && expired == batch && i == called < |expired|
      modifies this`called, this`ran
      ensures Valid() && View() == Apply(old(View()), Call)
      ensures expired[i].addr in memory && called == i + 1
    {
      CallKeepsInv(View());
      hide Inv;
      called, ran := called + 1, ran + [KeyOf(memory, expired[i])];
    }

    method HandleReadEnd(expired: seq<Entry>, t: int)
      requires Valid() && callingExpiredTimers && expired == batch && t == now && called >= |expired|
      modifies this
      ensures Valid() && View() == Apply(old(View()), End)
    {
      EndKeepsInv(View());
      Reset(expired, t);
    }

    method Reset(expired: seq<Entry>, t: int)
      requires Valid() && callingExpiredTimers && expired == batch && t == now
      modifies this
      ensures old(Structure(View())) && View() == EndStep(old(View()))
    {
      InvIsStructure(View());
      hide Structure, Inv, ResetOne, EndStep;
      var i := 0;
      while i < |expired|
        invariant 0 <= i <= |expired| && batch == expired[i..] && Valid() && callingExpiredTimers && now == old(now)
        invariant Structure(View()) && EndStep(View()) == EndStep(old(View()))
      {
        ResetOneKeepsInv(View());
        EndUnfold(View());
        ghost var s := View();
        InvIsStructure(ResetOne(s));
        ResetTimer(expired[i], t);
        i := i + 1;
      }
      EndUnfold(View());
      callingExpiredTimers := false;
      if timers != [] && timers[0].when > 0 {
        timerfd := Armed(timers[0].when);
      }
    }

    method ResetTimer(e: Entry, t: int)
      requires t == now && batch != [] && e == batch[0] && e.addr in memory
      modifies this
      ensures View() == ResetOne(old(View()))
    {
      var timer := memory[e.addr];
      batch := batch[1..];
      if timer.Repeats() && Key(e.addr, timer.sequence) !in cancelingTimers {
        memory := memory[e.addr := timer.(expiration := AddTime(t, timer.interval))];
        var _ := InsertTimer(e.addr);
      } else {
        freed := freed + [timer.sequence];
        memory := memory - {e.addr};
      }
    }
  }

  lemma NoKeys(memory: map<nat, Timer>)
    ensures KeySet(memory, []) == {}
  {
  }

  lemma TimersInMemory(s: State)
    requires Inv(s)
    ensures Sorted(s.timers) && forall e :: e in s.timers ==> e.addr in s.memory
  {
    forall e | e in s.timers ensures e.addr in s.memory {
      assert OnTime(s.memory, e);
    }
  }

  lemma InvIsStructure(s: State)
    requires Inv(s)
    ensures Structure(s)
  {
  }

  lemma EndUnfold(s: State)
    requires Structure(s)
    ensures s.batch == [] ==> EndStep(s) == Rearm(s)
    ensures s.batch != [] ==> s.batch[0].addr in s.memory && Structure(ResetOne(s)) && EndStep(s) == EndStep(ResetOne(s))
  {
    if s.batch != [] {
      ResetOneStructure(s);
    }
  }
}
