/** Per-second statistics of the Sudoku server over a sliding window of at most 60 seconds, under a
    clock that may jump in both directions. */
module SudokuStatistics {

  const SECONDS := 60

  /** A response in a second of the clock, with its latency in microseconds. */
  datatype Response = Response(second: int, elapsed: int)

  /** The last second seen, and the two circular buffers, oldest second first. */
  datatype Window = Window(last: int, requests: seq<int>, latencies: seq<int>) {
    function Start(): int {
      last - |requests| + 1
    }
  }

  const EMPTY := Window(0, [], [])

  /** A circular buffer drops its oldest element when it is full. */
  function Push(b: seq<int>, x: int): seq<int> {
    (if |b| >= SECONDS then b[1..] else b) + [x]
  }

  function NextSecond(w: Window): Window {
    Window(w.last + 1, Push(w.requests, 0), Push(w.latencies, 0))
  }

  function Advance(w: Window, n: nat): Window {
    if n == 0 then w else NextSecond(Advance(w, n - 1))
  }

  predicate Aligned(w: Window) {
    |w.requests| == |w.latencies| <= SECONDS
  }

  function Bump(w: Window, i: int, elapsed: int): Window
    requires 0 <= i < |w.requests| == |w.latencies|
  {
    w.(requests := w.requests[i := w.requests[i] + 1], latencies := w.latencies[i := w.latencies[i] + elapsed])
  }

  function BumpLast(w: Window, elapsed: int): Window
    requires 0 < |w.requests| == |w.latencies|
  {
    Bump(w, |w.requests| - 1, elapsed)
  }

  lemma {:induction false} AdvanceAligned(w: Window, n: nat)
    requires Aligned(w) && w.requests != []
    ensures Aligned(Advance(w, n)) && Advance(w, n).requests != [] && Advance(w, n).last == w.last + n
  {
    if n > 0 {
      AdvanceAligned(w, n - 1);
    }
  }

  /** The first response of all must not fall into second 0: the empty buffers have no last element
      to count it in. */
  predicate Defined(w: Window, second: int) {
    w.requests == [] ==> second != 0
  }

  /** The window after a response with a latency that is not negative. */
  function Record(w: Window, r: Response): Window
    requires Aligned(w) && (w.requests == [] ==> w.last == 0) && Defined(w, r.second)
  {
    if w.last == r.second then BumpLast(w, r.elapsed)
    else if w.last + 1 == r.second || w.last == 0 then
      BumpLast(Window(r.second, Push(w.requests, 0), Push(w.latencies, 0)), r.elapsed)
    else if r.second > w.last then
      if r.second < w.last + SECONDS then
        AdvanceAligned(w, r.second - w.last);
        BumpLast(Advance(w, r.second - w.last), r.elapsed)
      else BumpLast(Window(r.second, [0], [0]), r.elapsed)
    else if r.second >= w.Start() then Bump(w, r.second - w.Start(), r.elapsed)
    else w
  }

  // ----- the history -----

  function Count(h: seq<Response>, second: int): nat {
    if h == [] then 0 else Count(h[..|h| - 1], second) + if h[|h| - 1].second == second then 1 else 0
  }

  function Latency(h: seq<Response>, second: int): int {
    if h == [] then 0 else Latency(h[..|h| - 1], second) + if h[|h| - 1].second == second then h[|h| - 1].elapsed else 0
  }

  lemma Snoc(h: seq<Response>, r: Response, second: int)
    ensures Count(h + [r], second) == Count(h, second) + if r.second == second then 1 else 0
    ensures Latency(h + [r], second) == Latency(h, second) + if r.second == second then r.elapsed else 0
  {
    assert (h + [r])[..|h|] == h;
  }

  lemma {:induction false} NoneAt(h: seq<Response>, second: int)
    requires forall r :: r in h ==> r.second != second
    ensures Count(h, second) == 0 && Latency(h, second) == 0
  {
    if h != [] {
      assert h[|h| - 1] in h && forall r :: r in h[..|h| - 1] ==> r in h;
      NoneAt(h[..|h| - 1], second);
    }
  }

  predicate EntryRight(w: Window, h: seq<Response>, i: int)
    requires Aligned(w) && 0 <= i < |w.requests|
  {
    w.requests[i] == Count(h, w.Start() + i) && w.latencies[i] == Latency(h, w.Start() + i)
  }

  /** Every second of the window shows exactly the responses of the history for that second. */
  ghost predicate Shows(w: Window, h: seq<Response>) {
    && Aligned(w)
    && (w.requests == [] ==> w.last == 0 && h == [])
    && (forall r :: r in h ==> r.second <= w.last)
    && (forall i :: 0 <= i < |w.requests| ==> EntryRight(w, h, i))
  }

  lemma NextSecondShows(w: Window, h: seq<Response>)
    requires Shows(w, h) && w.requests != []
    ensures Shows(NextSecond(w), h) && NextSecond(w).Start() >= w.Start()
  {
    var t := NextSecond(w);
    NoneAt(h, t.last);
    forall i | 0 <= i < |t.requests| ensures EntryRight(t, h, i) {
      if i < |t.requests| - 1 {
        var j := if |w.requests| >= SECONDS then i + 1 else i;
        assert EntryRight(w, h, j);
        assert t.requests[i] == w.requests[j] && t.Start() + i == w.Start() + j;
      }
    }
  }

  lemma {:induction false} AdvanceShows(w: Window, h: seq<Response>, n: nat)
    requires Shows(w, h) && w.requests != []
    ensures Shows(Advance(w, n), h) && Advance(w, n).requests != []
    ensures Advance(w, n).last == w.last + n && Advance(w, n).Start() >= w.Start()
  {
    if n > 0 {
      AdvanceShows(w, h, n - 1);
      NextSecondShows(Advance(w, n - 1), h);
    }
  }

  lemma BumpShows(w: Window, h: seq<Response>, i: int, elapsed: int)
    requires Shows(w, h) && 0 <= i < |w.requests|
    ensures Shows(Bump(w, i, elapsed), h + [Response(w.Start() + i, elapsed)])
  {
    var t := Bump(w, i, elapsed);
    var r := Response(w.Start() + i, elapsed);
    forall j | 0 <= j < |t.requests| ensures EntryRight(t, h + [r], j) {
      assert EntryRight(w, h, j);
      Snoc(h, r, w.Start() + j);
    }
  }

  lemma OldShows(w: Window, h: seq<Response>, r: Response)
    requires Shows(w, h) && r.second < w.Start() && r.second <= w.last && w.requests != []
    ensures Shows(w, h + [r])
  {
    forall j | 0 <= j < |w.requests| ensures EntryRight(w, h + [r], j) {
      assert EntryRight(w, h, j);
      Snoc(h, r, w.Start() + j);
    }
  }

  lemma FreshShows(second: int, h: seq<Response>)
    requires forall r :: r in h ==> r.second < second
    ensures Shows(Window(second, [0], [0]), h)
  {
    NoneAt(h, second);
  }

  /** The code takes a last second of 0 for "no response yet". That is harmless exactly when there
      was none, or the next response is in second 0 or 1. */
  predicate Steady(w: Window, second: int) {
    if w.requests == [] then second != 0 else w.last == 0 ==> second == 0 || second == 1
  }

  /** The newest second of the window has had a response. */
  ghost predicate Seen(w: Window, h: seq<Response>) {
    w.requests != [] ==> Count(h, w.last) >= 1
  }

  /** A response keeps the window exact, whichever way the clock jumped, and the window never
      starts earlier than before. */
  lemma RecordShows(w: Window, h: seq<Response>, r: Response)
    requires Shows(w, h) && Steady(w, r.second)
    ensures Aligned(w) && (w.requests == [] ==> w.last == 0) && Defined(w, r.second)
    ensures Shows(Record(w, r), h + [r])
    ensures w.requests != [] ==> Record(w, r).Start() >= w.Start()
  {
    hide Shows, Advance;
    ShowsAligned(w, h);
    assert Push([], 0) == [0];
    if w.last == r.second {
      BumpShows(w, h, |w.requests| - 1, r.elapsed);
    } else if w.requests == [] {
      FreshShows(r.second, h);
      BumpShows(Window(r.second, [0], [0]), h, 0, r.elapsed);
    } else if w.last + 1 == r.second {
      NextSecondShows(w, h);
      BumpShows(NextSecond(w), h, |NextSecond(w).requests| - 1, r.elapsed);
    } else if r.second > w.last {
      if r.second < w.last + SECONDS {
        AdvanceShows(w, h, r.second - w.last);
        BumpShows(Advance(w, r.second - w.last), h, |Advance(w, r.second - w.last).requests| - 1, r.elapsed);
      } else {
        FreshShows(r.second, h);
        BumpShows(Window(r.second, [0], [0]), h, 0, r.elapsed);
      }
    } else if r.second >= w.Start() {
      BumpShows(w, h, r.second - w.Start(), r.elapsed);
    } else {
      OldShows(w, h, r);
    }
  }

  /** How far the window reaches: after a step forward of less than 60 seconds as far back as before,
      but at most 60 seconds; after a longer one only to the new second; after a step back it is the
      same window. */
  lemma RecordReach(w: Window, r: Response)
    requires Aligned(w) && (w.requests == [] ==> w.last == 0) && Steady(w, r.second)
    ensures Defined(w, r.second)
    ensures var t := Record(w, r);
      if w.requests == [] then t.last == r.second == t.Start()
      else if r.second <= w.last then t.last == w.last && t.Start() == w.Start()
      else if r.second < w.last + SECONDS then
        t.last == r.second && t.Start() == if w.Start() >= r.second - SECONDS + 1 then w.Start() else r.second - SECONDS + 1
      else t.last == r.second == t.Start()
  {
    if w.requests != [] && w.last < r.second < w.last + SECONDS {
      AdvanceReach(w, r.second - w.last);
      AdvanceAligned(w, r.second - w.last);
    }
  }

  lemma {:induction false} AdvanceReach(w: Window, n: nat)
    requires Aligned(w) && w.requests != []
    ensures Advance(w, n).last == w.last + n
    ensures Advance(w, n).Start() == if w.Start() >= w.last + n - SECONDS + 1 then w.Start() else w.last + n - SECONDS + 1
  {
    if n > 0 {
      AdvanceReach(w, n - 1);
      AdvanceAligned(w, n - 1);
    }
  }

  lemma RecordSeen(w: Window, h: seq<Response>, r: Response)
    requires Shows(w, h) && Seen(w, h) && Steady(w, r.second)
    ensures Aligned(w) && (w.requests == [] ==> w.last == 0) && Defined(w, r.second)
    ensures Seen(Record(w, r), h + [r])
  {
    hide Advance;
    Snoc(h, r, w.last);
    Snoc(h, r, r.second);
    if w.requests != [] && r.second > w.last {
      AdvanceAligned(w, r.second - w.last);
    }
  }

  /** Past second 0 by any other step, an old count ends up under a wrong second, or a response lies
      beyond the window's end. */
  lemma UnsteadyBreaks(w: Window, h: seq<Response>, r: Response)
    requires Shows(w, h) && Seen(w, h) && Defined(w, r.second) && !Steady(w, r.second)
    ensures !Shows(Record(w, r), h + [r])
  {
    var t := Record(w, r);
    if r.second > 1 {
      var i := |t.requests| - 2;
      assert t.requests[i] == w.requests[|w.requests| - 1];
      assert EntryRight(w, h, |w.requests| - 1);
      NoneAt(h, r.second - 1);
      Snoc(h, r, r.second - 1);
      assert !EntryRight(t, h + [r], i);
    } else if forall x :: x in h ==> x.second != 0 {
      NoneAt(h, 0);
    } else {
      var x :| x in h && x.second == 0;
      assert x in h + [r];
    }
  }

  /** A response is counted, and the window stays exact, exactly when it is steady. */
  lemma RecordShowsIff(w: Window, h: seq<Response>, r: Response)
    requires Shows(w, h) && Seen(w, h)
    ensures Aligned(w) && (w.requests == [] ==> w.last == 0)
    ensures Defined(w, r.second) && Shows(Record(w, r), h + [r]) <==> Steady(w, r.second)
  {
    hide Shows, Seen, Record;
    ShowsAligned(w, h);
    if Steady(w, r.second) {
      RecordShows(w, h, r);
    } else if Defined(w, r.second) {
      UnsteadyBreaks(w, h, r);
    }
  }

  /** Reachable: seconds -1, 0 and 10. The responses of the first two are then shown under seconds
      8 and 9. */
  lemma JumpFromSecondZero()
    ensures var w := Record(Record(EMPTY, Response(-1, 3)), Response(0, 5));
      && w == Window(0, [1, 1], [3, 5]) && Shows(w, [Response(-1, 3), Response(0, 5)])
      && Record(w, Response(10, 7)) == Window(10, [1, 1, 1], [3, 5, 7])
  {
    assert Record(EMPTY, Response(-1, 3)) == Window(-1, [1], [3]);
    RecordShows(EMPTY, [], Response(-1, 3));
    assert [] + [Response(-1, 3)] == [Response(-1, 3)];
    RecordShows(Window(-1, [1], [3]), [Response(-1, 3)], Response(0, 5));
    assert [Response(-1, 3)] + [Response(0, 5)] == [Response(-1, 3), Response(0, 5)];
  }

  lemma RecordAligned(w: Window, r: Response)
    requires Aligned(w) && (w.requests == [] ==> w.last == 0) && Defined(w, r.second)
    ensures Aligned(Record(w, r)) && Record(w, r).requests != []
    ensures Record(w, r).last == r.second || (w.requests != [] && Record(w, r).last == w.last)
  {
    if w.requests != [] && r.second > w.last {
      AdvanceAligned(w, r.second - w.last);
    }
  }

  /** The window after a sequence of responses; one that is not defined is skipped. */
  function WindowAfter(h: seq<Response>): (w: Window)
    ensures Aligned(w) && (w.requests == [] ==> w.last == 0)
  {
    if h == [] then EMPTY else
    var w, r := WindowAfter(h[..|h| - 1]), h[|h| - 1];
    if Defined(w, r.second) then
      RecordAligned(w, r);
      Record(w, r)
    else w
  }

  /** Every response of the sequence was defined and left the window exact. */
  ghost predicate ExactThroughout(h: seq<Response>) {
    h == [] ||
    (ExactThroughout(h[..|h| - 1]) && Defined(WindowAfter(h[..|h| - 1]), h[|h| - 1].second) && Shows(WindowAfter(h), h))
  }

  predicate SteadyThroughout(h: seq<Response>) {
    h == [] || (SteadyThroughout(h[..|h| - 1]) && Steady(WindowAfter(h[..|h| - 1]), h[|h| - 1].second))
  }

  lemma {:induction false} SteadyIsExact(h: seq<Response>)
    requires SteadyThroughout(h)
    ensures Shows(WindowAfter(h), h) && Seen(WindowAfter(h), h)
  {
    hide Record, Shows, Seen, Steady;
    if h == [] {
      EmptyShows();
    } else {
      var front, r := h[..|h| - 1], h[|h| - 1];
      SteadyIsExact(front);
      RecordShows(WindowAfter(front), front, r);
      RecordSeen(WindowAfter(front), front, r);
      assert front + [r] == h;
    }
  }

  lemma EmptyShows()
    ensures Shows(EMPTY, []) && Seen(EMPTY, [])
  {
  }

  /** For every sequence of responses: all of them are defined and the window is exact after each
      exactly when, each time the newest second of the window is 0, the next response is in second 0
      or 1, and the first response is not in second 0. */
  lemma {:induction false} ExactThroughoutIff(h: seq<Response>)
    ensures ExactThroughout(h) <==> SteadyThroughout(h)
  {
    hide Record, Shows, Seen, Steady, Defined;
    if h != [] {
      var front, r := h[..|h| - 1], h[|h| - 1];
      ExactThroughoutIff(front);
      if SteadyThroughout(front) {
        SteadyIsExact(front);
        RecordShowsIff(WindowAfter(front), front, r);
        assert front + [r] == h;
      }
    }
  }

  predicate NeverSecondZero(h: seq<Response>) {
    forall r :: r in h ==> r.second != 0
  }

  lemma {:induction false} NeverZeroIsSteady(h: seq<Response>)
    requires NeverSecondZero(h)
    ensures SteadyThroughout(h) && (WindowAfter(h).requests != [] ==> WindowAfter(h).last != 0)
  {
    hide Record;
    if h != [] {
      var front, r := h[..|h| - 1], h[|h| - 1];
      assert r in h && forall x :: x in front ==> x in h;
      NeverZeroIsSteady(front);
      RecordAligned(WindowAfter(front), r);
    }
  }

  /** In particular the window is exact after any sequence of responses none of which is in second 0. */
  lemma NeverZeroIsExact(h: seq<Response>)
    requires NeverSecondZero(h)
    ensures ExactThroughout(h) && Shows(WindowAfter(h), h)
  {
    NeverZeroIsSteady(h);
    ExactThroughoutIff(h);
    SteadyIsExact(h);
  }

  // ----- what the report adds up -----

  function Sum(xs: seq<int>): int {
    if xs == [] then 0 else Sum(xs[..|xs| - 1]) + xs[|xs| - 1]
  }

  /** Responses of the history in the seconds from `from` up to but not including `to`. */
  function CountBetween(h: seq<Response>, from: int, to: int): nat {
    if h == [] then 0 else
    CountBetween(h[..|h| - 1], from, to) + if from <= h[|h| - 1].second < to then 1 else 0
  }

  lemma {:induction false} CountSplits(h: seq<Response>, from: int, to: int)
    requires from <= to
    ensures CountBetween(h, from, to + 1) == CountBetween(h, from, to) + Count(h, to)
  {
    if h != [] {
      CountSplits(h[..|h| - 1], from, to);
    }
  }

  lemma {:induction false} NoneBetween(h: seq<Response>, from: int)
    ensures CountBetween(h, from, from) == 0
  {
    if h != [] {
      NoneBetween(h[..|h| - 1], from);
    }
  }

  lemma {:induction false} SumIsCount(w: Window, h: seq<Response>, n: nat)
    requires Shows(w, h) && n <= |w.requests|
    ensures Sum(w.requests[..n]) == CountBetween(h, w.Start(), w.Start() + n)
  {
    if n == 0 {
      NoneBetween(h, w.Start());
    } else {
      SumIsCount(w, h, n - 1);
      assert w.requests[..n][..n - 1] == w.requests[..n - 1];
      assert EntryRight(w, h, n - 1);
      CountSplits(h, w.Start(), w.Start() + n - 1);
    }
  }

  /** The latencies of those responses. */
  function LatencyBetween(h: seq<Response>, from: int, to: int): int {
    if h == [] then 0 else
    LatencyBetween(h[..|h| - 1], from, to) + if from <= h[|h| - 1].second < to then h[|h| - 1].elapsed else 0
  }

  lemma {:induction false} LatencySplits(h: seq<Response>, from: int, to: int)
    requires from <= to
    ensures LatencyBetween(h, from, to + 1) == LatencyBetween(h, from, to) + Latency(h, to)
    ensures LatencyBetween(h, from, from) == 0
  {
    if h != [] {
      LatencySplits(h[..|h| - 1], from, to);
    }
  }

  lemma {:induction false} SumIsLatency(w: Window, h: seq<Response>, n: nat)
    requires Shows(w, h) && n <= |w.requests|
    ensures Sum(w.latencies[..n]) == LatencyBetween(h, w.Start(), w.Start() + n)
  {
    if n == 0 {
      LatencySplits(h, w.Start(), w.Start());
    } else {
      SumIsLatency(w, h, n - 1);
      assert w.latencies[..n][..n - 1] == w.latencies[..n - 1];
      assert EntryRight(w, h, n - 1);
      LatencySplits(h, w.Start(), w.Start() + n - 1);
    }
  }

  /** The reported totals of the window count and add up exactly the responses from its start on. */
  lemma WindowTotal(w: Window, h: seq<Response>)
    requires Shows(w, h)
    ensures Sum(w.requests) == CountBetween(h, w.Start(), w.last + 1)
    ensures Sum(w.latencies) == LatencyBetween(h, w.Start(), w.last + 1)
  {
    SumIsCount(w, h, |w.requests|);
    SumIsLatency(w, h, |w.requests|);
    assert w.requests[..|w.requests|] == w.requests && w.latencies[..|w.requests|] == w.latencies;
  }

  // ----- the class -----

  class SudokuStat {
    var lastSecond: int
    var requests: seq<int>
    var latencies: seq<int>
    var totalResponses: int
    var totalSolved: int
    var totalLatency: int
    var badLatency: int
    /** The responses since the last reset whose latency was not negative. */
    ghost var history: seq<Response>

    ghost function View(): Window
      reads this
    {
      Window(lastSecond, requests, latencies)
    }

    ghost predicate Valid()
      reads this
    {
      && Shows(View(), history) && Seen(View(), history) && TotalsRight()
    }

    ghost predicate TotalsRight()
      reads this
    {
      totalResponses == |history| + badLatency && totalLatency == TotalLatency(history)
    }

    constructor ()
      ensures Valid() && View() == EMPTY && history == [] && badLatency == 0
    {
      lastSecond, requests, latencies := 0, [], [];
      totalResponses, totalSolved, totalLatency, badLatency := 0, 0, 0, 0;
      history := [];
    }

    method Reset()
      modifies this
      ensures Valid() && View() == EMPTY && history == [] && badLatency == 0
    {
      lastSecond, requests, latencies := 0, [], [];
      totalResponses, totalSolved, totalLatency, badLatency := 0, 0, 0, 0;
      history := [];
    }

    /** `second` is the clock's second, `elapsed` the latency. The window stays exact exactly when
        the response is not counted or steady. */
    method RecordResponse(second: int, elapsed: int, solved: bool)
      requires Valid() && (elapsed >= 0 ==> Defined(View(), second))
      modifies this
      ensures Valid() <==> elapsed < 0 || Steady(old(View()), second)
      ensures TotalsRight()
      ensures elapsed < 0 ==> View() == old(View()) && history == old(history) && badLatency == old(badLatency) + 1
      ensures elapsed >= 0 ==> Aligned(old(View())) && (old(requests) == [] ==> old(lastSecond) == 0)
                               && View() == Record(old(View()), Response(second, elapsed))
      ensures elapsed >= 0 ==> history == old(history) + [Response(second, elapsed)] && badLatency == old(badLatency)
      ensures Valid() && old(requests) != [] ==> View().Start() >= old(View()).Start()
      ensures totalSolved == old(totalSolved) + if solved then 1 else 0
    {
      hide Shows, Seen, Advance, Record;
      ShowsAligned(View(), history);
      totalResponses := totalResponses + 1;
      if solved {
        totalSolved := totalSolved + 1;
      }
      if elapsed < 0 {
        badLatency := badLatency + 1;
        return;
      }
      ghost var r := Response(second, elapsed);
      RecordShowsIff(View(), history, r);
      if Steady(View(), second) {
        RecordShows(View(), history, r);
        RecordSeen(View(), history, r);
      }
      totalLatency := totalLatency + elapsed;
      TotalSnoc(history, r);
      history := history + [r];
      UpdateWindow(second, elapsed);
    }

    method UpdateWindow(second: int, elapsed: int)
      requires Aligned(View()) && (requests == [] ==> lastSecond == 0) && Defined(View(), second)
      modifies this`lastSecond, this`requests, this`latencies
      ensures View() == Record(old(View()), Response(second, elapsed))
    {
      hide Advance;
      var firstSecond := lastSecond - |requests| + 1;
      if lastSecond == second {
        AddToLast(elapsed);
      } else if lastSecond + 1 == second || lastSecond == 0 {
        lastSecond := second;
        requests, latencies := Push(requests, 0), Push(latencies, 0);
        AddToLast(elapsed);
      } else if second > lastSecond {
        if second < lastSecond + SECONDS {
          JumpAhead(second);
        } else {
          requests, latencies := [], [];
          lastSecond := second;
          requests, latencies := Push(requests, 0), Push(latencies, 0);
        }
        AddToLast(elapsed);
      } else if second >= firstSecond {
        var idx := second - firstSecond;
        assert idx < |requests|;
        requests, latencies := requests[idx := requests[idx] + 1], latencies[idx := latencies[idx] + elapsed];
      } else {
        assert second < firstSecond;
      }
    }

    method AddToLast(elapsed: int)
      requires 0 < |requests| == |latencies|
      modifies this`requests, this`latencies
      ensures View() == BumpLast(old(View()), elapsed)
    {
      var i := |requests| - 1;
      requests, latencies := requests[i := requests[i] + 1], latencies[i := latencies[i] + elapsed];
    }

    method JumpAhead(second: int)
      requires Aligned(View()) && requests != [] && second >= lastSecond
      modifies this`lastSecond, this`requests, this`latencies
      ensures View() == Advance(old(View()), second - old(lastSecond))
      ensures Aligned(View()) && requests != []
    {
      while lastSecond < second
        invariant old(lastSecond) <= lastSecond <= second
        invariant View() == Advance(old(View()), lastSecond - old(lastSecond))
        invariant Aligned(View()) && requests != []
      {
        requests, latencies := Push(requests, 0), Push(latencies, 0);
        lastSecond := lastSecond + 1;
      }
    }
  }

  function TotalLatency(h: seq<Response>): int {
    if h == [] then 0 else TotalLatency(h[..|h| - 1]) + h[|h| - 1].elapsed
  }

  lemma TotalSnoc(h: seq<Response>, r: Response)
    ensures TotalLatency(h + [r]) == TotalLatency(h) + r.elapsed
  {
    assert (h + [r])[..|h|] == h;
  }

  lemma ShowsAligned(w: Window, h: seq<Response>)
    requires Shows(w, h)
    ensures Aligned(w) && (w.requests == [] ==> w.last == 0 && h == [])
    ensures forall r :: r in h ==> r.second <= w.last
  {
  }
}
