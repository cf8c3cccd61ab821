/** Two pollers, one over the array that poll takes and one over the kernel's epoll set. Both keep
    the same map from descriptors to interests. */
module Pollers {

  // ----- the interest map both refine -----

  /** What the owner of a channel asks for, and calls of poll with the events the kernel returns for
      the entries of the array. The events of `Update` are the channel's current ones. */
  datatype Op = Update(fd: nat, events: nat) | Remove(gone: nat) | Wait(answers: seq<int>)

  /** A channel is removed only when it is registered and asks for nothing. */
  predicate Allowed(m: map<nat, nat>, op: Op) {
    op.Remove? ==> op.gone in m && m[op.gone] == 0
  }

  function Asked(m: map<nat, nat>, op: Op): map<nat, nat> {
    match op
    case Update(fd, events) => m[fd := events]
    case Remove(gone) => m - {gone}
    case Wait(_) => m
  }

  function Interests(ops: seq<Op>): map<nat, nat> {
    if ops == [] then map[] else Asked(Interests(ops[..|ops| - 1]), ops[|ops| - 1])
  }

  predicate AllowedRun(ops: seq<Op>) {
    ops == [] || (AllowedRun(ops[..|ops| - 1]) && Allowed(Interests(ops[..|ops| - 1]), ops[|ops| - 1]))
  }

  /** No channel is registered before it asks for something. */
  predicate AsksFirst(ops: seq<Op>) {
    ops == [] ||
    (AsksFirst(ops[..|ops| - 1]) &&
     var op := ops[|ops| - 1];
     (op.Update? && op.fd !in Interests(ops[..|ops| - 1]) ==> op.events != 0))
  }

  /** The descriptors somebody wants events of. */
  function Wanted(m: map<nat, nat>): map<nat, nat> {
    map fd | fd in m && m[fd] != 0 :: m[fd]
  }

  // ----- the array of poll -----

  /** The descriptor of an entry that poll shall ignore. */
  function Negated(fd: nat): (r: int)
    ensures r < 0 && r != fd
  {
    var x: int := fd;
    -x - 1
  }

  datatype PollFd = PollFd(fd: int, events: nat, revents: int) {
    /** An ignored entry holds its descriptor negated. */
    function Named(): nat {
      if fd < 0 then -fd - 1 else fd
    }
  }

  /** The array, and each registered channel's index. */
  datatype PollState = PollState(pollfds: seq<PollFd>, index: map<nat, int>)

  ghost predicate Indexed(s: PollState) {
    && (forall i :: 0 <= i < |s.pollfds| ==> s.pollfds[i].Named() in s.index && s.index[s.pollfds[i].Named()] == i)
    && (forall fd :: fd in s.index ==> 0 <= s.index[fd] < |s.pollfds| && s.pollfds[s.index[fd]].Named() == fd)
  }

  function Stored(s: PollState): map<nat, nat>
    requires Indexed(s)
  {
    map fd | fd in s.index :: s.pollfds[s.index[fd]].events
  }

  /** Exactly the entries without interest are negated. */
  ghost predicate Quiet(s: PollState) {
    forall i :: 0 <= i < |s.pollfds| ==> (s.pollfds[i].fd < 0 <==> s.pollfds[i].events == 0)
  }

  function PollUpdate(s: PollState, fd: nat, events: nat): PollState
    requires Indexed(s)
  {
    if fd !in s.index then
      PollState(s.pollfds + [PollFd(fd, events, 0)], s.index[fd := |s.pollfds|])
    else
      s.(pollfds := s.pollfds[s.index[fd] := PollFd(if events == 0 then Negated(fd) else fd, events, 0)])
  }

  function PollRemove(s: PollState, fd: nat): PollState
    requires Indexed(s) && fd in s.index
  {
    var i, n := s.index[fd], |s.pollfds|;
    if i == n - 1 then PollState(s.pollfds[..n - 1], s.index - {fd})
    else PollState(s.pollfds[i := s.pollfds[n - 1]][..n - 1], (s.index - {fd})[s.pollfds[n - 1].Named() := i])
  }

  lemma PollUpdateIndexed(s: PollState, fd: nat, events: nat)
    requires Indexed(s)
    ensures Indexed(PollUpdate(s, fd, events))
  {
    var t := PollUpdate(s, fd, events);
    forall j | 0 <= j < |t.pollfds| ensures t.pollfds[j].Named() in t.index && t.index[t.pollfds[j].Named()] == j {
      if j < |s.pollfds| {
        assert s.pollfds[j].Named() in s.index && s.index[s.pollfds[j].Named()] == j;
      }
    }
    forall g | g in t.index ensures 0 <= t.index[g] < |t.pollfds| && t.pollfds[t.index[g]].Named() == g {
      if g in s.index {
        assert s.pollfds[s.index[g]].Named() == g;
      }
    }
  }

  lemma PollUpdateRefines(s: PollState, fd: nat, events: nat)
    requires Indexed(s)
    ensures Indexed(PollUpdate(s, fd, events))
    ensures Stored(PollUpdate(s, fd, events)) == Stored(s)[fd := events]
  {
    PollUpdateIndexed(s, fd, events);
    var t := PollUpdate(s, fd, events);
    forall g | g in t.index && g != fd ensures g in s.index && t.pollfds[t.index[g]] == s.pollfds[s.index[g]] {
      assert s.pollfds[s.index[g]].Named() == g;
    }
  }

  /** An update leaves no returned events of an earlier wait at the entry, and no other entry alone. */
  lemma UpdateClearsEvents(s: PollState, fd: nat, events: nat)
    requires Indexed(s)
    ensures var t := PollUpdate(s, fd, events);
      && fd in t.index && 0 <= t.index[fd] < |t.pollfds| && t.pollfds[t.index[fd]].revents == 0
      && forall g :: g in s.index && g != fd ==>
           g in t.index && t.index[g] == s.index[g] && t.pollfds[t.index[g]] == s.pollfds[s.index[g]]
  {
    PollUpdateIndexed(s, fd, events);
  }

  /** The entry swapped into the hole keeps its channel's index right. */
  lemma PollRemoveIndexed(s: PollState, fd: nat)
    requires Indexed(s) && fd in s.index
    ensures Indexed(PollRemove(s, fd))
  {
    var t := PollRemove(s, fd);
    var n := |s.pollfds|;
    forall j | 0 <= j < |t.pollfds| ensures t.pollfds[j].Named() in t.index && t.index[t.pollfds[j].Named()] == j {
      assert t.pollfds[j] == s.pollfds[if j == s.index[fd] then n - 1 else j];
    }
    forall g | g in t.index ensures 0 <= t.index[g] < |t.pollfds| && t.pollfds[t.index[g]].Named() == g {
      assert g in s.index && s.pollfds[s.index[g]].Named() == g;
    }
  }

  lemma PollRemoveRefines(s: PollState, fd: nat)
    requires Indexed(s) && fd in s.index
    ensures Indexed(PollRemove(s, fd)) && Stored(PollRemove(s, fd)) == Stored(s) - {fd}
  {
    PollRemoveIndexed(s, fd);
    var t := PollRemove(s, fd);
    var n := |s.pollfds|;
    forall g ensures g in t.index <==> g in s.index && g != fd {
      assert s.pollfds[n - 1].Named() in s.index;
    }
    forall g | g in t.index ensures t.pollfds[t.index[g]] == s.pollfds[s.index[g]] {
      assert g in s.index;
    }
  }

  /** An update leaves exactly the entries without interest negated, unless it registers a channel
      that asks for nothing. */
  lemma UpdateKeepsQuietIff(s: PollState, fd: nat, events: nat)
    requires Indexed(s) && Quiet(s)
    ensures Quiet(PollUpdate(s, fd, events)) <==> fd in s.index || events != 0
  {
    var t := PollUpdate(s, fd, events);
    if fd !in s.index && events == 0 {
      assert t.pollfds[|s.pollfds|].fd >= 0;
    }
  }

  lemma RemoveKeepsQuiet(s: PollState, fd: nat)
    requires Indexed(s) && Quiet(s) && fd in s.index
    ensures Quiet(PollRemove(s, fd))
  {
    var t := PollRemove(s, fd);
    forall j | 0 <= j < |t.pollfds| ensures t.pollfds[j].fd < 0 <==> t.pollfds[j].events == 0 {
      assert t.pollfds[j] == s.pollfds[if j == s.index[fd] then |s.pollfds| - 1 else j];
    }
  }

  /** The kernel answers every entry, and returns no events for a negated one. */
  predicate AnswersRight(pollfds: seq<PollFd>, answers: seq<int>) {
    |answers| == |pollfds| && forall i :: 0 <= i < |answers| ==> pollfds[i].fd < 0 ==> answers[i] <= 0
  }

  function Answered(pollfds: seq<PollFd>, answers: seq<int>): (r: seq<PollFd>)
    requires AnswersRight(pollfds, answers)
    ensures |r| == |pollfds| && forall i :: 0 <= i < |r| ==> r[i] == pollfds[i].(revents := answers[i])
    ensures forall i :: 0 <= i < |r| && r[i].revents > 0 ==> r[i].fd >= 0
  {
    seq(|pollfds|, i requires 0 <= i < |pollfds| => pollfds[i].(revents := answers[i]))
  }

  /** Waiting changes neither interests nor indexes nor which entries are negated. */
  lemma WaitKeeps(s: PollState, answers: seq<int>)
    requires Indexed(s) && AnswersRight(s.pollfds, answers)
    ensures var t := s.(pollfds := Answered(s.pollfds, answers));
      Indexed(t) && Stored(t) == Stored(s) && (Quiet(t) <==> Quiet(s))
  {
    var t := s.(pollfds := Answered(s.pollfds, answers));
    forall i | 0 <= i < |t.pollfds| ensures t.pollfds[i].Named() == s.pollfds[i].Named() {
    }
    if Quiet(t) {
      forall i | 0 <= i < |s.pollfds| ensures s.pollfds[i].fd < 0 <==> s.pollfds[i].events == 0 {
        assert t.pollfds[i].fd == s.pollfds[i].fd;
      }
    }
  }

  function PollApply(s: PollState, op: Op): (t: PollState)
    requires Indexed(s)
    ensures Indexed(t)
  {
    match op
    case Update(fd, events) => PollUpdateRefines(s, fd, events); PollUpdate(s, fd, events)
    case Remove(gone) => if gone in s.index then PollRemoveIndexed(s, gone); PollRemove(s, gone) else s
    case Wait(answers) =>
      if AnswersRight(s.pollfds, answers) then
        WaitKeeps(s, answers);
        s.(pollfds := Answered(s.pollfds, answers))
      else s
  }

  function PollRun(ops: seq<Op>): (t: PollState)
    ensures Indexed(t)
  {
    if ops == [] then PollState([], map[]) else PollApply(PollRun(ops[..|ops| - 1]), ops[|ops| - 1])
  }

  /** What poll watches: the entries that are not negated. */
  function Watched(s: PollState): map<nat, nat>
    requires Indexed(s)
  {
    map fd | fd in s.index && s.pollfds[s.index[fd]].fd >= 0 :: s.pollfds[s.index[fd]].events
  }

  // ----- the epoll set -----

  datatype Call = Add(fd: nat, events: nat) | Mod(m: nat, changed: nat) | Del(gone: nat)

  const ADDED := 1
  const DELETED := 2

  /** The registered channels' indexes and the calls made so far. */
  datatype EpollState = EpollState(index: map<nat, int>, calls: seq<Call>)

  function Called(kernel: map<nat, nat>, c: Call): map<nat, nat> {
    match c
    case Add(fd, events) => kernel[fd := events]
    case Mod(fd, events) => kernel[fd := events]
    case Del(fd) => kernel - {fd}
  }

  /** The kernel's set after a sequence of calls. */
  function Kernel(calls: seq<Call>): map<nat, nat> {
    if calls == [] then map[] else Called(Kernel(calls[..|calls| - 1]), calls[|calls| - 1])
  }

  /** Adding needs a descriptor that is absent, changing and deleting one that is present. */
  predicate Legal(kernel: map<nat, nat>, c: Call) {
    match c
    case Add(fd, _) => fd !in kernel
    case Mod(fd, _) => fd in kernel
    case Del(fd) => fd in kernel
  }

  predicate AllLegal(calls: seq<Call>) {
    calls == [] || (AllLegal(calls[..|calls| - 1]) && Legal(Kernel(calls[..|calls| - 1]), calls[|calls| - 1]))
  }

  ghost predicate EpollInv(s: EpollState) {
    var k := Kernel(s.calls);
    && AllLegal(s.calls)
    && (forall fd :: fd in k ==> fd in s.index)
    && (forall fd :: fd in s.index ==> (s.index[fd] == ADDED && fd in k) || (s.index[fd] == DELETED && fd !in k))
  }

  function EpollUpdate(s: EpollState, fd: nat, events: nat): EpollState {
    if fd !in s.index || s.index[fd] == DELETED then
      EpollState(s.index[fd := ADDED], s.calls + [Add(fd, events)])
    else if events == 0 then EpollState(s.index[fd := DELETED], s.calls + [Del(fd)])
    else s.(calls := s.calls + [Mod(fd, events)])
  }

  function EpollRemove(s: EpollState, fd: nat): EpollState
    requires fd in s.index
  {
    EpollState(s.index - {fd}, if s.index[fd] == ADDED then s.calls + [Del(fd)] else s.calls)
  }

  /** The interests as the poller knows them. */
  function Known(s: EpollState): map<nat, nat> {
    map fd | fd in s.index :: if fd in Kernel(s.calls) then Kernel(s.calls)[fd] else 0
  }

  lemma KernelSnoc(calls: seq<Call>, c: Call)
    ensures Kernel(calls + [c]) == Called(Kernel(calls), c)
    ensures AllLegal(calls + [c]) <==> AllLegal(calls) && Legal(Kernel(calls), c)
  {
    assert (calls + [c])[..|calls|] == calls;
  }

  lemma EpollUpdateRefines(s: EpollState, fd: nat, events: nat)
    requires EpollInv(s)
    ensures EpollInv(EpollUpdate(s, fd, events)) && Known(EpollUpdate(s, fd, events)) == Known(s)[fd := events]
  {
    hide Kernel, AllLegal;
    KernelSnoc(s.calls, Add(fd, events));
    KernelSnoc(s.calls, Mod(fd, events));
    KernelSnoc(s.calls, Del(fd));
  }

  lemma EpollRemoveRefines(s: EpollState, fd: nat)
    requires EpollInv(s) && fd in s.index
    ensures EpollInv(EpollRemove(s, fd)) && Known(EpollRemove(s, fd)) == Known(s) - {fd}
  {
    hide Kernel, AllLegal;
    KernelSnoc(s.calls, Del(fd));
  }

  function EpollApply(s: EpollState, op: Op): EpollState {
    match op
    case Update(fd, events) => EpollUpdate(s, fd, events)
    case Remove(gone) => if gone in s.index then EpollRemove(s, gone) else s
    case Wait(_) => s
  }

  function EpollRun(ops: seq<Op>): EpollState {
    if ops == [] then EpollState(map[], []) else EpollApply(EpollRun(ops[..|ops| - 1]), ops[|ops| - 1])
  }

  lemma EpollIndexAt(s: EpollState, fd: nat)
    requires EpollInv(s)
    ensures fd in Kernel(s.calls) ==> fd in s.index
    ensures fd in s.index ==> (s.index[fd] == ADDED && fd in Kernel(s.calls)) || (s.index[fd] == DELETED && fd !in Kernel(s.calls))
  {
  }

  // ----- both pollers over whole runs -----

  /** Under every sequence of updates and removals both pollers know exactly the interests asked
      for, and every epoll call is legal. */
  lemma {:induction false} BothRefine(ops: seq<Op>)
    requires AllowedRun(ops)
    ensures Stored(PollRun(ops)) == Interests(ops) == Known(EpollRun(ops))
    ensures EpollInv(EpollRun(ops))
  {
    hide EpollInv, Known, Kernel, AllLegal, PollUpdate, PollRemove, EpollUpdate, EpollRemove, Indexed;
    if ops == [] {
      EmptyRefines();
    } else {
      var front, op := ops[..|ops| - 1], ops[|ops| - 1];
      BothRefine(front);
      var p, e := PollRun(front), EpollRun(front);
      StoredKeys(p);
      KnownKeys(e);
      match op
      case Update(fd, events) =>
        PollUpdateRefines(p, fd, events);
        EpollUpdateRefines(e, fd, events);
      case Remove(gone) =>
        PollRemoveRefines(p, gone);
        EpollRemoveRefines(e, gone);
      case Wait(answers) =>
        if AnswersRight(p.pollfds, answers) {
          WaitKeeps(p, answers);
        }
    }
  }

  lemma EmptyRefines()
    ensures Indexed(PollState([], map[])) && Stored(PollState([], map[])) == map[]
    ensures EpollInv(EpollState(map[], [])) && Known(EpollState(map[], [])) == map[]
  {
  }

  lemma StoredKeys(s: PollState)
    requires Indexed(s)
    ensures Stored(s).Keys == s.index.Keys
  {
  }

  lemma KnownKeys(s: EpollState)
    ensures Known(s).Keys == s.index.Keys
  {
  }

  /** The entries are negated rightly after every step of the run. */
  ghost predicate QuietThroughout(ops: seq<Op>) {
    Quiet(PollRun(ops)) && (ops == [] || QuietThroughout(ops[..|ops| - 1]))
  }

  /** In every run, exactly the entries without interest are negated after every step, if and only
      if every channel asked for something when it was registered. */
  lemma {:induction false} QuietThroughoutIff(ops: seq<Op>)
    requires AllowedRun(ops)
    ensures QuietThroughout(ops) <==> AsksFirst(ops)
  {
    hide Quiet, Indexed, PollUpdate, PollRemove;
    if ops == [] {
      EmptyQuiet();
    } else {
      var front, op := ops[..|ops| - 1], ops[|ops| - 1];
      var s := PollRun(front);
      QuietThroughoutIff(front);
      BothRefine(front);
      StoredKeys(s);
      if QuietThroughout(front) {
        match op
        case Update(fd, events) => UpdateKeepsQuietIff(s, fd, events);
        case Remove(gone) => RemoveKeepsQuiet(s, gone);
        case Wait(answers) =>
          if AnswersRight(s.pollfds, answers) {
            WaitKeeps(s, answers);
          }
      }
    }
  }

  lemma EmptyQuiet()
    ensures Quiet(PollRun([]))
  {
  }

  /** When channels ask for something before they are registered, both kernels watch exactly the
      wanted descriptors for the wanted events, and every removed channel's entry is negated. */
  lemma BothWatchWanted(ops: seq<Op>)
    requires AllowedRun(ops) && AsksFirst(ops)
    ensures Watched(PollRun(ops)) == Wanted(Interests(ops)) == Wanted(Kernel(EpollRun(ops).calls))
    ensures forall fd :: fd in Interests(ops) && Interests(ops)[fd] == 0 ==>
      fd in PollRun(ops).index && PollRun(ops).pollfds[PollRun(ops).index[fd]].fd == Negated(fd)
  {
    BothRefine(ops);
    QuietThroughoutIff(ops);
    WatchedIsWanted(PollRun(ops));
    KernelIsWanted(EpollRun(ops));
  }

  lemma WatchedIsWanted(s: PollState)
    requires Indexed(s) && Quiet(s)
    ensures Watched(s) == Wanted(Stored(s))
    ensures forall fd :: fd in Stored(s) && Stored(s)[fd] == 0 ==> fd in s.index && s.pollfds[s.index[fd]].fd == Negated(fd)
  {
  }

  lemma KernelIsWanted(s: EpollState)
    requires EpollInv(s)
    ensures Wanted(Kernel(s.calls)) == Wanted(Known(s))
  {
    hide Kernel, AllLegal;
  }

  /** The converse: a channel registered without interest is watched all the same, and the check
      that `removeChannel` makes of its entry fails. */
  lemma SilentRegistrationShows(s: PollState, fd: nat)
    requires Indexed(s) && Quiet(s) && fd !in s.index
    ensures var t := PollUpdate(s, fd, 0);
      Indexed(t) && fd in Watched(t) && fd !in Wanted(Stored(t)) && t.pollfds[t.index[fd]].fd != Negated(fd)
  {
    PollUpdateRefines(s, fd, 0);
  }

  // ----- active channels -----

  /** The descriptors with returned events, in array order. */
  function Active(pollfds: seq<PollFd>): seq<nat> {
    if pollfds == [] then [] else
    (if pollfds[0].revents > 0 then [pollfds[0].Named()] else []) + Active(pollfds[1..])
  }

  lemma EntryAt(s: PollState, i: nat)
    requires Indexed(s) && i < |s.pollfds|
    ensures s.pollfds[i].Named() in s.index && s.index[s.pollfds[i].Named()] == i
  {
  }

  lemma NegatedAt(s: PollState, fd: nat)
    requires Indexed(s) && Quiet(s) && fd in s.index && Stored(s)[fd] == 0
    ensures s.pollfds[s.index[fd]].fd == Negated(fd) && s.pollfds[s.index[fd]].events == 0
  {
  }

  lemma IndexAt(s: PollState, fd: nat)
    requires Indexed(s) && fd in s.index
    ensures 0 <= s.index[fd] < |s.pollfds| && s.pollfds[s.index[fd]].Named() == fd
  {
  }

  lemma {:induction false} ActiveSnoc(pollfds: seq<PollFd>, p: PollFd)
    ensures Active(pollfds + [p]) == Active(pollfds) + if p.revents > 0 then [p.Named()] else []
  {
    if pollfds == [] {
      assert [p][1..] == [];
    } else {
      assert (pollfds + [p])[1..] == pollfds[1..] + [p];
      ActiveSnoc(pollfds[1..], p);
    }
  }

  lemma {:induction false} NoMoreActive(pollfds: seq<PollFd>, i: nat)
    requires i <= |pollfds| && |Active(pollfds[..i])| == |Active(pollfds)|
    ensures Active(pollfds[..i]) == Active(pollfds)
    decreases |pollfds| - i
  {
    if i == |pollfds| {
      assert pollfds[..i] == pollfds;
    } else {
      assert pollfds[..i + 1] == pollfds[..i] + [pollfds[i]];
      ActiveSnoc(pollfds[..i], pollfds[i]);
      ActiveShort(pollfds, i + 1);
      NoMoreActive(pollfds, i + 1);
    }
  }

  lemma {:induction false} ActiveShort(pollfds: seq<PollFd>, i: nat)
    requires i <= |pollfds|
    ensures |Active(pollfds[..i])| <= |Active(pollfds)|
    decreases |pollfds| - i
  {
    if i == |pollfds| {
      assert pollfds[..i] == pollfds;
    } else {
      assert pollfds[..i + 1] == pollfds[..i] + [pollfds[i]];
      ActiveSnoc(pollfds[..i], pollfds[i]);
      ActiveShort(pollfds, i + 1);
    }
  }

  // ----- the classes -----

  class Channel {
    const fd: nat
    var events: nat
    var revents: int
    var index: int

    constructor (fd: nat)
      ensures this.fd == fd && events == 0 && revents == 0 && index == -1
    {
      this.fd := fd;
      events, revents, index := 0, 0, -1;
    }

    predicate IsNoneEvent()
      reads this
    {
      events == 0
    }
  }

  class PollPoller {
    var pollfds: seq<PollFd>
    var channels: map<nat, Channel>

    ghost function View(): PollState
      reads this, channels.Values
    {
      PollState(pollfds, map fd | fd in channels :: channels[fd].index)
    }

    ghost predicate Valid()
      reads this, channels.Values
    {
      (forall fd :: fd in channels ==> channels[fd].fd == fd) && Indexed(View())
    }

    constructor ()
      ensures Valid() && View() == PollRun([])
    {
      pollfds, channels := [], map[];
    }

    method UpdateChannel(channel: Channel)
      requires Valid()
      requires if channel.index < 0 then channel.fd !in channels else channel.fd in channels && channels[channel.fd] == channel
      modifies this, channel`index
      ensures Valid() && View() == PollUpdate(old(View()), channel.fd, channel.events)
      ensures channels == old(channels)[channel.fd := channel] && channel.index >= 0
    {
      hide Indexed;
      ghost var s := View();
      PollUpdateRefines(s, channel.fd, channel.events);
      if channel.fd in s.index {
        IndexAt(s, channel.fd);
      }
      if channel.index < 0 {
        pollfds := pollfds + [PollFd(channel.fd, channel.events, 0)];
        var idx := |pollfds| - 1;
        channel.index := idx;
        channels := channels[channel.fd := channel];
      } else {
        var idx := channel.index;
        assert s.index[channel.fd] == idx;
        assert 0 <= idx < |pollfds|;
        assert pollfds[idx].fd == channel.fd || pollfds[idx].fd == Negated(channel.fd);
        pollfds := pollfds[idx := PollFd(channel.fd, channel.events, 0)];
        if channel.IsNoneEvent() {
          pollfds := pollfds[idx := pollfds[idx].(fd := Negated(channel.fd))];
        }
        assert channels[channel.fd := channel] == channels;
      }
      assert View() == PollUpdate(s, channel.fd, channel.events);
    }

    method RemoveChannel(channel: Channel)
      requires Valid() && Quiet(View())
      requires channel.fd in channels && channels[channel.fd] == channel && channel.IsNoneEvent()
      requires Stored(View())[channel.fd] == channel.events
      modifies this, channels.Values`index
      ensures Valid() && View() == PollRemove(old(View()), channel.fd) && Quiet(View())
      ensures channels == old(channels) - {channel.fd}
    {
      ghost var s := View();
      hide Indexed, Quiet, Stored;
      PollRemoveIndexed(s, channel.fd);
      RemoveKeepsQuiet(s, channel.fd);
      IndexAt(s, channel.fd);
      NegatedAt(s, channel.fd);
      EntryAt(s, |pollfds| - 1);
      var idx := channel.index;
      assert s.index[channel.fd] == idx;
      assert 0 <= idx < |pollfds|;
      assert pollfds[idx].fd == Negated(channel.fd) && pollfds[idx].events == channel.events;
      channels := channels - {channel.fd};
      if idx == |pollfds| - 1 {
        pollfds := pollfds[..|pollfds| - 1];
      } else {
        var channelAtEnd := pollfds[|pollfds| - 1].fd;
        pollfds := pollfds[idx := pollfds[|pollfds| - 1]][|pollfds| - 1 := pollfds[idx]];
        if channelAtEnd < 0 {
          channelAtEnd := -channelAtEnd - 1;
        }
        assert s.pollfds[|pollfds| - 1].Named() == channelAtEnd;
        channels[channelAtEnd].index := idx;
        pollfds := pollfds[..|pollfds| - 1];
      }
      assert View() == PollRemove(s, channel.fd);
    }

    /** Waits, and returns the channels with events, told what they are. */
    method Poll(answers: seq<int>) returns (activeChannels: seq<Channel>)
      requires Valid() && AnswersRight(pollfds, answers)
      modifies this`pollfds, channels.Values`revents
      ensures Valid() && pollfds == Answered(old(pollfds), answers)
      ensures View() == PollApply(old(View()), Wait(answers))
      ensures |activeChannels| == |Active(pollfds)|
      ensures forall k :: 0 <= k < |activeChannels| ==> ChannelOf(Active(pollfds)[k], activeChannels[k])
      ensures forall j :: 0 <= j < |pollfds| && pollfds[j].revents > 0 ==> Told(pollfds[j])
    {
      hide Indexed, Active;
      ghost var s := View();
      WaitKeeps(s, answers);
      pollfds := Answered(pollfds, answers);
      assert View() == s.(pollfds := pollfds);
      activeChannels := FillActiveChannels(|Active(pollfds)|);
    }

    /** After poll: it returns how many entries have events, and none for negated entries. */
    method FillActiveChannels(numEvents: nat) returns (activeChannels: seq<Channel>)
      requires Valid() && numEvents == |Active(pollfds)|
      requires forall i :: 0 <= i < |pollfds| && pollfds[i].revents > 0 ==> pollfds[i].fd >= 0
      modifies channels.Values`revents
      ensures Valid() && View() == old(View())
      ensures |activeChannels| == |Active(pollfds)|
      ensures forall k :: 0 <= k < |activeChannels| ==> ChannelOf(Active(pollfds)[k], activeChannels[k])
      ensures forall j :: 0 <= j < |pollfds| && pollfds[j].revents > 0 ==> Told(pollfds[j])
    {
      hide Indexed, Active;
      activeChannels := [];
      var left := numEvents;
      var i := 0;
      NoneActive();
      while i < |pollfds| && left > 0
        invariant 0 <= i <= |pollfds| && Valid() && View() == old(View())
        invariant |activeChannels| == |Active(pollfds[..i])| == numEvents - left
        invariant forall k :: 0 <= k < |activeChannels| ==> ChannelOf(Active(pollfds[..i])[k], activeChannels[k])
        invariant forall j :: 0 <= j < i && pollfds[j].revents > 0 ==> Told(pollfds[j])
        modifies channels.Values`revents
      {
        var pfd := pollfds[i];
        assert pollfds[..i + 1] == pollfds[..i] + [pfd];
        ActiveSnoc(pollfds[..i], pfd);
        ActiveShort(pollfds, i + 1);
        if pfd.revents > 0 {
          left := left - 1;
          EntryAt(View(), i);
          Tell(pfd, i);
          activeChannels := activeChannels + [channels[pfd.fd]];
        }
        i := i + 1;
      }
      assert pollfds[..|pollfds|] == pollfds;
      NoMoreActive(pollfds, i);
      ActiveFrom(pollfds, i);
    }

    ghost predicate ChannelOf(fd: nat, channel: Channel)
      reads this
    {
      fd in channels && channels[fd] == channel
    }

    /** The entry's channel has been told its events. */
    ghost predicate Told(pfd: PollFd)
      reads this, channels.Values
    {
      pfd.Named() in channels && channels[pfd.Named()].revents == pfd.revents
    }

    method Tell(pfd: PollFd, i: nat)
      requires Valid() && i < |pollfds| && pollfds[i] == pfd && pfd.fd in channels
      modifies channels.Values`revents
      ensures Valid() && View() == old(View()) && Told(pfd)
      ensures forall j :: 0 <= j < i && old(Told(pollfds[j])) ==> Told(pollfds[j])
    {
      ghost var s := View();
      hide Indexed;
      channels[pfd.fd].revents := pfd.revents;
      assert View() == s;
      forall j | 0 <= j < i && old(Told(pollfds[j])) ensures Told(pollfds[j]) {
        EntryAt(s, i);
        EntryAt(s, j);
      }
    }
  }

  lemma NoneActive()
    ensures Active([]) == []
  {
  }

  lemma {:induction false} ActiveFrom(pollfds: seq<PollFd>, i: nat)
    requires i <= |pollfds| && |Active(pollfds[..i])| == |Active(pollfds)|
    ensures forall j :: i <= j < |pollfds| ==> pollfds[j].revents <= 0
    decreases |pollfds| - i
  {
    if i < |pollfds| {
      assert pollfds[..i + 1] == pollfds[..i] + [pollfds[i]];
      ActiveSnoc(pollfds[..i], pollfds[i]);
      ActiveShort(pollfds, i + 1);
      ActiveFrom(pollfds, i + 1);
    }
  }

  class EPollPoller {
    var channels: map<nat, Channel>
    var kernel: map<nat, nat>
    ghost var calls: seq<Call>

    ghost function View(): EpollState
      reads this, channels.Values
    {
      EpollState(map fd | fd in channels :: channels[fd].index, calls)
    }

    ghost predicate Valid()
      reads this, channels.Values
    {
      && (forall fd :: fd in channels ==> channels[fd].fd == fd)
      && EpollInv(View()) && kernel == Kernel(calls)
    }

    constructor ()
      ensures Valid() && View() == EpollRun([])
    {
      channels, kernel, calls := map[], map[], [];
    }

    /** `epoll_ctl`, which fails on an illegal call. */
    method Control(c: Call)
      requires kernel == Kernel(calls) && Legal(kernel, c)
      modifies this`kernel, this`calls
      ensures calls == old(calls) + [c] && kernel == Kernel(calls)
    {
      KernelSnoc(calls, c);
      kernel := match c
        case Add(fd, events) => kernel[fd := events]
        case Mod(fd, events) => kernel[fd := events]
        case Del(fd) => kernel - {fd};
      calls := calls + [c];
    }

    method UpdateChannel(channel: Channel)
      requires Valid()
      requires if channel.index < 0 then channel.fd !in channels else channel.fd in channels && channels[channel.fd] == channel
      modifies this, channel`index
      ensures Valid() && View() == EpollUpdate(old(View()), channel.fd, channel.events)
      ensures channels == old(channels)[channel.fd := channel]
    {
      hide Kernel, AllLegal, EpollInv, Known;
      ghost var s := View();
      EpollUpdateRefines(s, channel.fd, channel.events);
      EpollIndexAt(s, channel.fd);
      if channel.index < 0 || channel.index == DELETED {
        if channel.index < 0 {
          channels := channels[channel.fd := channel];
        }
        channel.index := ADDED;
        Control(Add(channel.fd, channel.events));
      } else {
        assert s.index[channel.fd] == channel.index;
        assert channel.index == ADDED;
        if channel.IsNoneEvent() {
          Control(Del(channel.fd));
          channel.index := DELETED;
        } else {
          Control(Mod(channel.fd, channel.events));
        }
      }
      assert channels == old(channels)[channel.fd := channel];
      assert View() == EpollUpdate(s, channel.fd, channel.events);
    }

    method RemoveChannel(channel: Channel)
      requires Valid() && channel.fd in channels && channels[channel.fd] == channel && channel.IsNoneEvent()
      modifies this, channel`index
      ensures Valid() && View() == EpollRemove(old(View()), channel.fd)
      ensures channels == old(channels) - {channel.fd} && channel.index == -1
    {
      hide Kernel, AllLegal, EpollInv, Known;
      ghost var s := View();
      EpollRemoveRefines(s, channel.fd);
      EpollIndexAt(s, channel.fd);
      var index := channel.index;
      assert s.index[channel.fd] == index;
      assert index == ADDED || index == DELETED;
      channels := channels - {channel.fd};
      if index == ADDED {
        Control(Del(channel.fd));
      }
      channel.index := -1;
      assert View() == EpollRemove(s, channel.fd);
    }
  }
}
