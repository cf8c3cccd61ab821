/** The link structure of the Sudoku solver: four-way circular lists kept as indices into one
    node table. This module holds the value-level theory: what one removal and one restoration
    do, what covering a column does, and why uncovering is its exact inverse. */
module DancingLinks {

  /** One entry of the node table. A column header points to itself in `col`. */
  datatype Node = Node(left: nat, right: nat, up: nat, down: nat, col: nat, name: int, size: int)

  /** Index of the root header. It is never a column, so 0 also plays the null pointer. */
  const ROOT: nat := 0

  type Table = seq<Node>

  /** Every link stays inside the table. */
  ghost predicate Ranged(s: Table) {
    && 0 < |s|
    && forall n {:trigger s[n]} :: 0 <= n < |s| ==>
         s[n].left < |s| && s[n].right < |s| && s[n].up < |s| && s[n].down < |s| && s[n].col < |s|
  }

  // ----- single steps, statement by statement -----

  /** Bypass node `j` in its column and take it off the column's size. */
  ghost function Unlink(s: Table, j: nat): (r: Table)
    requires Ranged(s) && j < |s|
    ensures |r| == |s| && Ranged(r)
  {
    var s1 := s[s[j].down := s[s[j].down].(up := s[j].up)];
    var s2 := s1[s1[j].up := s1[s1[j].up].(down := s1[j].down)];
    s2[s2[j].col := s2[s2[j].col].(size := s2[s2[j].col].size - 1)]
  }

  /** Put node `j` back between its vertical neighbours and count it again. */
  ghost function Relink(s: Table, j: nat): (r: Table)
    requires Ranged(s) && j < |s|
    ensures |r| == |s| && Ranged(r)
  {
    var s1 := s[s[j].col := s[s[j].col].(size := s[s[j].col].size + 1)];
    var s2 := s1[s1[j].down := s1[s1[j].down].(up := j)];
    s2[s2[j].up := s2[s2[j].up].(down := j)]
  }

  /** Bypass header `c` in the header ring. */
  ghost function UnlinkHeader(s: Table, c: nat): (r: Table)
    requires Ranged(s) && c < |s|
    ensures |r| == |s| && Ranged(r)
  {
    var s1 := s[s[c].right := s[s[c].right].(left := s[c].left)];
    s1[s1[c].left := s1[s1[c].left].(right := s1[c].right)]
  }

  /** Put header `c` back between its neighbours. */
  ghost function RelinkHeader(s: Table, c: nat): (r: Table)
    requires Ranged(s) && c < |s|
    ensures |r| == |s| && Ranged(r)
  {
    var s1 := s[s[c].right := s[s[c].right].(left := c)];
    s1[s1[c].left := s1[s1[c].left].(right := c)]
  }

  /** Node `j` sits properly between its two vertical neighbours. */
  ghost predicate Seated(s: Table, j: nat)
    requires Ranged(s)
  {
    && j < |s|
    && s[j].down != j && s[j].up != j
    && s[s[j].down].up == j && s[s[j].up].down == j
  }

  ghost predicate SeatedHeader(s: Table, c: nat)
    requires Ranged(s)
  {
    && c < |s|
    && s[c].right != c && s[c].left != c
    && s[s[c].right].left == c && s[s[c].left].right == c
  }

  /** Fields after a removal. */
  lemma UnlinkFields(s: Table, j: nat)
    requires Ranged(s) && Seated(s, j)
    ensures var r := Unlink(s, j);
      forall n :: 0 <= n < |s| ==>
        && r[n].left == s[n].left && r[n].right == s[n].right && r[n].col == s[n].col && r[n].name == s[n].name
        && r[n].up == (if n == s[j].down then s[j].up else s[n].up)
        && r[n].down == (if n == s[j].up then s[j].down else s[n].down)
        && r[n].size == (if n == s[j].col then s[n].size - 1 else s[n].size)
  {
  }

  /** Fields after taking a header out of the header ring. */
  lemma UnlinkHeaderFields(s: Table, c: nat)
    requires Ranged(s) && SeatedHeader(s, c)
    ensures var r := UnlinkHeader(s, c);
      forall n :: 0 <= n < |s| ==>
        && r[n].up == s[n].up && r[n].down == s[n].down && r[n].col == s[n].col
        && r[n].name == s[n].name && r[n].size == s[n].size
        && r[n].left == (if n == s[c].right then s[c].left else s[n].left)
        && r[n].right == (if n == s[c].left then s[c].right else s[n].right)
  {
  }

  /** The dancing step: putting a removed node back restores the table exactly. */
  lemma RelinkUndoesUnlink(s: Table, j: nat)
    requires Ranged(s) && Seated(s, j)
    ensures Relink(Unlink(s, j), j) == s
  {
    var r := Relink(Unlink(s, j), j);
    UnlinkFields(s, j);
    forall n | 0 <= n < |s| ensures r[n] == s[n] {
    }
  }

  lemma RelinkHeaderUndoesUnlinkHeader(s: Table, c: nat)
    requires Ranged(s) && SeatedHeader(s, c)
    ensures RelinkHeader(UnlinkHeader(s, c), c) == s
  {
    var r := RelinkHeader(UnlinkHeader(s, c), c);
    UnlinkHeaderFields(s, c);
    forall n | 0 <= n < |s| ensures r[n] == s[n] {
    }
  }

  // ----- rings -----

  ghost predicate Distinct(xs: seq<nat>) {
    forall i, j :: 0 <= i < j < |xs| ==> xs[i] != xs[j]
  }

  /** The head `c` followed by `xs` is one circular list through `next` and, backwards, `prev`. */
  ghost predicate Ring(next: seq<nat>, prev: seq<nat>, c: nat, xs: seq<nat>) {
    && |next| == |prev|
    && c < |next| && c !in xs && Distinct(xs)
    && (forall i {:trigger xs[i]} :: 0 <= i < |xs| ==> xs[i] < |next|)
    && next[c] == (if xs == [] then c else xs[0])
    && prev[c] == (if xs == [] then c else xs[|xs| - 1])
    && (forall i {:trigger next[xs[i]]} :: 0 <= i < |xs| ==> next[xs[i]] == if i + 1 < |xs| then xs[i + 1] else c)
    && (forall i {:trigger prev[xs[i]]} :: 0 <= i < |xs| ==> prev[xs[i]] == if i > 0 then xs[i - 1] else c)
  }

  ghost function Drop(xs: seq<nat>, k: nat): seq<nat>
    requires k < |xs|
  {
    xs[..k] + xs[k + 1..]
  }

  /** `next2` and `prev2` are `next` and `prev` with `j` bypassed. */
  ghost predicate Bypassed(next: seq<nat>, prev: seq<nat>, next2: seq<nat>, prev2: seq<nat>, j: nat) {
    && |next| == |prev| == |next2| == |prev2| && j < |next|
    && (forall n :: 0 <= n < |next| ==> next2[n] == if n == prev[j] then next[j] else next[n])
    && (forall n :: 0 <= n < |prev| ==> prev2[n] == if n == next[j] then prev[j] else prev[n])
  }

  lemma RingSeats(next: seq<nat>, prev: seq<nat>, c: nat, xs: seq<nat>, k: nat)
    requires Ring(next, prev, c, xs) && k < |xs|
    ensures var j := xs[k];
      && next[j] < |next| && prev[j] < |next| && next[j] != j && prev[j] != j
      && prev[next[j]] == j && next[prev[j]] == j
      && (next[j] == c || next[j] in xs) && (prev[j] == c || prev[j] in xs)
  {
    assert next[xs[k]] == if k + 1 < |xs| then xs[k + 1] else c;
    assert prev[xs[k]] == if k > 0 then xs[k - 1] else c;
    if k + 1 < |xs| { assert prev[xs[k + 1]] == xs[k]; }
    if k > 0 { assert next[xs[k - 1]] == xs[k]; }
  }

  lemma BypassedNext(next: seq<nat>, prev: seq<nat>, next2: seq<nat>, prev2: seq<nat>,
                     c: nat, xs: seq<nat>, k: nat, i: nat)
    requires Ring(next, prev, c, xs) && k < |xs| && Bypassed(next, prev, next2, prev2, xs[k])
    requires i < |xs| - 1
    ensures var ys := Drop(xs, k); next2[ys[i]] == if i + 1 < |ys| then ys[i + 1] else c
  {
    assert prev[xs[k]] == if k > 0 then xs[k - 1] else c;
    assert next[xs[k]] == if k + 1 < |xs| then xs[k + 1] else c;
    var t := if i < k then i else i + 1;
    assert Drop(xs, k)[i] == xs[t];
    assert next[xs[t]] == if t + 1 < |xs| then xs[t + 1] else c;
  }

  lemma BypassedPrev(next: seq<nat>, prev: seq<nat>, next2: seq<nat>, prev2: seq<nat>,
                     c: nat, xs: seq<nat>, k: nat, i: nat)
    requires Ring(next, prev, c, xs) && k < |xs| && Bypassed(next, prev, next2, prev2, xs[k])
    requires i < |xs| - 1
    ensures var ys := Drop(xs, k); prev2[ys[i]] == if i > 0 then ys[i - 1] else c
  {
    assert prev[xs[k]] == if k > 0 then xs[k - 1] else c;
    assert next[xs[k]] == if k + 1 < |xs| then xs[k + 1] else c;
    var t := if i < k then i else i + 1;
    assert Drop(xs, k)[i] == xs[t];
    assert prev[xs[t]] == if t > 0 then xs[t - 1] else c;
  }

  lemma DropMembers(xs: seq<nat>, k: nat)
    requires Distinct(xs) && k < |xs|
    ensures Distinct(Drop(xs, k)) && xs[k] !in Drop(xs, k)
    ensures forall x :: x in Drop(xs, k) <==> x in xs && x != xs[k]
  {
    var ys := Drop(xs, k);
    forall x | x in xs && x != xs[k] ensures x in ys {
      var t :| 0 <= t < |xs| && xs[t] == x;
      assert ys[if t < k then t else t - 1] == x;
    }
  }

  /** Bypassing the k-th node of a ring leaves the ring of the others. */
  lemma BypassShortensRing(next: seq<nat>, prev: seq<nat>, next2: seq<nat>, prev2: seq<nat>,
                           c: nat, xs: seq<nat>, k: nat)
    requires Ring(next, prev, c, xs) && k < |xs| && Bypassed(next, prev, next2, prev2, xs[k])
    ensures Ring(next2, prev2, c, Drop(xs, k))
  {
    var ys := Drop(xs, k);
    DropMembers(xs, k);
    assert next[xs[k]] == if k + 1 < |xs| then xs[k + 1] else c;
    assert prev[xs[k]] == if k > 0 then xs[k - 1] else c;
    forall i | 0 <= i < |ys|
      ensures next2[ys[i]] == if i + 1 < |ys| then ys[i + 1] else c
      ensures prev2[ys[i]] == if i > 0 then ys[i - 1] else c
    {
      BypassedNext(next, prev, next2, prev2, c, xs, k, i);
      BypassedPrev(next, prev, next2, prev2, c, xs, k, i);
    }
  }

  /** A ring that shares no node with the one of the bypassed node is untouched. */
  lemma BypassKeepsOtherRing(next: seq<nat>, prev: seq<nat>, next2: seq<nat>, prev2: seq<nat>,
                             c: nat, xs: seq<nat>, k: nat, d: nat, ys: seq<nat>)
    requires Ring(next, prev, c, xs) && k < |xs| && Bypassed(next, prev, next2, prev2, xs[k])
    requires Ring(next, prev, d, ys)
    requires c != d && d !in xs && c !in ys && (forall y :: y in ys ==> y !in xs)
    ensures Ring(next2, prev2, d, ys)
  {
    RingSeats(next, prev, c, xs, k);
    forall i | 0 <= i < |ys|
      ensures next2[ys[i]] == next[ys[i]] && prev2[ys[i]] == prev[ys[i]]
    {
      assert ys[i] in ys;
    }
  }

  ghost function Downs(s: Table): (r: seq<nat>)
    ensures |r| == |s| && forall n :: 0 <= n < |s| ==> r[n] == s[n].down
  {
    seq(|s|, n requires 0 <= n < |s| => s[n].down)
  }

  ghost function Ups(s: Table): (r: seq<nat>)
    ensures |r| == |s| && forall n :: 0 <= n < |s| ==> r[n] == s[n].up
  {
    seq(|s|, n requires 0 <= n < |s| => s[n].up)
  }

  ghost function Rights(s: Table): (r: seq<nat>)
    ensures |r| == |s| && forall n :: 0 <= n < |s| ==> r[n] == s[n].right
  {
    seq(|s|, n requires 0 <= n < |s| => s[n].right)
  }

  ghost function Lefts(s: Table): (r: seq<nat>)
    ensures |r| == |s| && forall n :: 0 <= n < |s| ==> r[n] == s[n].left
  {
    seq(|s|, n requires 0 <= n < |s| => s[n].left)
  }

  /** Header `c` and the nodes of `xs`, top to bottom, form one vertical ring. */
  ghost predicate VRing(s: Table, c: nat, xs: seq<nat>) {
    Ring(Downs(s), Ups(s), c, xs)
  }

  /** The root and the headers of `xs`, left to right, form one horizontal ring. */
  ghost predicate HRing(s: Table, xs: seq<nat>) {
    Ring(Rights(s), Lefts(s), ROOT, xs)
  }

  lemma VRingSeated(s: Table, c: nat, xs: seq<nat>, k: nat)
    requires Ranged(s) && VRing(s, c, xs) && k < |xs|
    ensures Seated(s, xs[k])
    ensures Bypassed(Downs(s), Ups(s), Downs(Unlink(s, xs[k])), Ups(Unlink(s, xs[k])), xs[k])
  {
    RingSeats(Downs(s), Ups(s), c, xs, k);
    UnlinkFields(s, xs[k]);
  }

  lemma HRingSeated(s: Table, xs: seq<nat>, k: nat)
    requires Ranged(s) && HRing(s, xs) && k < |xs|
    ensures SeatedHeader(s, xs[k])
    ensures Bypassed(Rights(s), Lefts(s), Rights(UnlinkHeader(s, xs[k])), Lefts(UnlinkHeader(s, xs[k])), xs[k])
  {
    RingSeats(Rights(s), Lefts(s), ROOT, xs, k);
    UnlinkHeaderFields(s, xs[k]);
  }

  // ----- sublists -----

  /** The elements of `xs` outside `gone`, in order. */
  ghost function Without(xs: seq<nat>, gone: set<nat>): (r: seq<nat>)
    ensures forall x :: x in r <==> x in xs && x !in gone
  {
    if xs == [] then [] else
    var front := Without(xs[..|xs| - 1], gone);
    if xs[|xs| - 1] in gone then front else front + [xs[|xs| - 1]]
  }

  lemma WithoutDistinct(xs: seq<nat>, gone: set<nat>)
    requires Distinct(xs)
    ensures Distinct(Without(xs, gone))
  {
    if xs != [] {
      WithoutDistinct(xs[..|xs| - 1], gone);
      assert xs[|xs| - 1] !in xs[..|xs| - 1];
    }
  }

  lemma {:induction false} WithoutAgree(xs: seq<nat>, a: set<nat>, b: set<nat>)
    requires forall x :: x in xs ==> (x in a <==> x in b)
    ensures Without(xs, a) == Without(xs, b)
  {
    if xs != [] {
      assert xs[|xs| - 1] in xs;
      WithoutAgree(xs[..|xs| - 1], a, b);
    }
  }

  lemma {:induction false} WithoutNothing(xs: seq<nat>)
    ensures Without(xs, {}) == xs
  {
    if xs != [] {
      WithoutNothing(xs[..|xs| - 1]);
    }
  }

  /** Excluding one more element drops exactly its position. */
  lemma {:induction false} WithoutOneMore(xs: seq<nat>, gone: set<nat>, j: nat) returns (k: nat)
    requires Distinct(xs) && j in xs && j !in gone
    ensures k < |Without(xs, gone)| && Without(xs, gone)[k] == j
    ensures Without(xs, gone + {j}) == Drop(Without(xs, gone), k)
  {
    var front := xs[..|xs| - 1];
    var last := xs[|xs| - 1];
    assert xs == front + [last];
    if last == j {
      k := |Without(front, gone)|;
      WithoutAgree(front, gone, gone + {j});
    } else {
      k := WithoutOneMore(front, gone, j);
    }
  }
}
