/** How the constructor grows the node table: fresh nodes, appended to rings at their end. */
module TableGrowth {
  import opened DancingLinks
  import opened ExactCover
  import opened DancingSearch

  // ----- the statements, on values -----

  /** `put_left(h, x)` */
  ghost function PutLeft(s: Table, h: nat, x: nat): (r: Table)
    requires Ranged(s) && h < |s| && x < |s|
    ensures |r| == |s| && Ranged(r)
  {
    var s1 := s[x := s[x].(left := s[h].left)];
    var s2 := s1[x := s1[x].(right := h)];
    var s3 := s2[s2[h].left := s2[s2[h].left].(right := x)];
    s3[h := s3[h].(left := x)]
  }

  /** `put_up(h, x)` */
  ghost function PutUp(s: Table, h: nat, x: nat): (r: Table)
    requires Ranged(s) && h < |s| && x < |s|
    ensures |r| == |s| && Ranged(r)
  {
    var s1 := s[x := s[x].(up := s[h].up)];
    var s2 := s1[x := s1[x].(down := h)];
    var s3 := s2[s2[h].up := s2[s2[h].up].(down := x)];
    var s4 := s3[h := s3[h].(up := x)];
    var s5 := s4[h := s4[h].(size := s4[h].size + 1)];
    s5[x := s5[x].(col := h)]
  }

  /** A fresh node, linked to itself in all four directions. */
  ghost function Fresh(s: Table, x: nat, col: nat, name: int): (r: Table)
    requires Ranged(s) && x < |s| && col < |s|
    ensures |r| == |s| && Ranged(r)
  {
    s[x := Node(x, x, x, x, col, name, 0)]
  }

  /** `new_row(col)`: a fresh node at the bottom of column `c`. */
  ghost function NewRowNode(s: Table, x: nat, c: nat, name: int): (r: Table)
    requires Ranged(s) && x < |s| && c < |s|
    ensures |r| == |s| && Ranged(r)
  {
    PutUp(Fresh(s, x, c, name), c, x)
  }

  lemma NewRowFields(s: Table, x: nat, c: nat, name: int)
    requires Ranged(s) && x < |s| && c < |s| && x != c && s[c].up != x
    ensures var r := NewRowNode(s, x, c, name);
      && r[x] == Node(x, x, s[c].up, c, c, name, 0)
      && forall n :: 0 <= n < |s| && n != x ==>
           && r[n].left == s[n].left && r[n].right == s[n].right && r[n].col == s[n].col && r[n].name == s[n].name
           && r[n].up == (if n == c then x else s[n].up)
           && r[n].down == (if n == s[c].up then x else s[n].down)
           && r[n].size == (if n == c then s[n].size + 1 else s[n].size)
  {
  }

  lemma PutLeftFields(s: Table, h: nat, x: nat)
    requires Ranged(s) && h < |s| && x < |s| && x != h && s[h].left != x
    ensures var r := PutLeft(s, h, x);
      && r[x] == s[x].(left := s[h].left, right := h)
      && forall n :: 0 <= n < |s| && n != x ==>
           && r[n].up == s[n].up && r[n].down == s[n].down && r[n].col == s[n].col
           && r[n].name == s[n].name && r[n].size == s[n].size
           && r[n].left == (if n == h then x else s[n].left)
           && r[n].right == (if n == s[h].left then x else s[n].right)
  {
  }

  // ----- rings grow at their end -----

  ghost predicate Appended(next: seq<nat>, prev: seq<nat>, next2: seq<nat>, prev2: seq<nat>, h: nat, x: nat) {
    && |next| == |prev| == |next2| == |prev2| && h < |next| && x < |next|
    && next2[x] == h && prev2[x] == prev[h]
    && (forall n :: 0 <= n < |next| && n != x ==> next2[n] == if n == prev[h] then x else next[n])
    && (forall n :: 0 <= n < |prev| && n != x ==> prev2[n] == if n == h then x else prev[n])
  }

  lemma AppendGrowsRing(next: seq<nat>, prev: seq<nat>, next2: seq<nat>, prev2: seq<nat>, h: nat, xs: seq<nat>, x: nat)
    requires Ring(next, prev, h, xs) && x != h && x !in xs && Appended(next, prev, next2, prev2, h, x)
    ensures Ring(next2, prev2, h, xs + [x])
  {
    var ys := xs + [x];
    forall i | 0 <= i < |ys|
      ensures next2[ys[i]] == if i + 1 < |ys| then ys[i + 1] else h
      ensures prev2[ys[i]] == if i > 0 then ys[i - 1] else h
    {
      if i < |xs| {
        assert ys[i] in xs && ys[i] != x;
        assert next[xs[i]] == if i + 1 < |xs| then xs[i + 1] else h;
        assert prev[xs[i]] == if i > 0 then xs[i - 1] else h;
        if i + 1 < |xs| {
          assert xs[i] != xs[|xs| - 1];
        }
      }
    }
    assert |xs| > 0 ==> xs[0] in xs && xs[|xs| - 1] in xs;
  }

  lemma AppendKeepsOtherRing(next: seq<nat>, prev: seq<nat>, next2: seq<nat>, prev2: seq<nat>,
                             h: nat, xs: seq<nat>, x: nat, d: nat, ys: seq<nat>)
    requires Ring(next, prev, h, xs) && Appended(next, prev, next2, prev2, h, x) && Ring(next, prev, d, ys)
    requires d != h && d !in xs && h !in ys && (forall y :: y in ys ==> y !in xs) && d != x && x !in ys
    ensures Ring(next2, prev2, d, ys)
  {
    assert prev[h] == h || prev[h] in xs;
    forall i | 0 <= i < |ys|
      ensures next2[ys[i]] == next[ys[i]] && prev2[ys[i]] == prev[ys[i]]
    {
      assert ys[i] in ys;
    }
  }

  // ----- columns with their lists -----

  ghost predicate ListRight(s: Table, lists: map<nat, seq<nat>>, d: nat) {
    d in lists && VRing(s, d, lists[d]) && s[d].size == |lists[d]|
  }

  ghost predicate ListsRight(s: Table, lists: map<nat, seq<nat>>) {
    forall d {:trigger ListRight(s, lists, d)} :: d in lists ==> ListRight(s, lists, d)
  }

  /** Headers and listed nodes lie below `bound`; `col` tells whose list a node is on. */
  ghost predicate ListApart(lists: map<nat, seq<nat>>, col: map<nat, nat>, bound: nat, d: nat) {
    && d in lists && ROOT < d < bound && d !in col
    && forall n :: n in lists[d] ==> n < bound && n in col && col[n] == d
  }

  ghost predicate Apart(lists: map<nat, seq<nat>>, col: map<nat, nat>, bound: nat) {
    && (forall d {:trigger ListApart(lists, col, bound, d)} :: d in lists ==> ListApart(lists, col, bound, d))
    && (forall n :: n in col ==> n < bound)
  }

  lemma NewRowAppends(s: Table, lists: map<nat, seq<nat>>, col: map<nat, nat>, x: nat, c: nat, name: int)
    requires Ranged(s) && x < |s| && ListRight(s, lists, c) && ListApart(lists, col, x, c)
    ensures c < x && s[c].up != x && x !in lists[c]
    ensures Appended(Downs(s), Ups(s), Downs(NewRowNode(s, x, c, name)), Ups(NewRowNode(s, x, c, name)), c, x)
    ensures forall n :: 0 <= n < |s| && n != x ==> NewRowNode(s, x, c, name)[n].size == if n == c then s[n].size + 1 else s[n].size
  {
    RingStart(Downs(s), Ups(s), c, lists[c]);
    assert Ups(s)[c] == s[c].up;
    assert x !in lists[c] && (s[c].up == c || s[c].up in lists[c]);
    NewRowFields(s, x, c, name);
  }

  lemma NewRowLists(s: Table, lists: map<nat, seq<nat>>, col: map<nat, nat>, x: nat, c: nat, name: int)
    requires Ranged(s) && ListsRight(s, lists) && Apart(lists, col, x) && x < |s| && c in lists
    ensures c < x && s[c].up != x
    ensures ListsRight(NewRowNode(s, x, c, name), lists[c := lists[c] + [x]])
  {
    var xs := lists[c];
    assert ListRight(s, lists, c) && ListApart(lists, col, x, c);
    NewRowAppends(s, lists, col, x, c, name);
    var r := NewRowNode(s, x, c, name);
    var lists2 := lists[c := xs + [x]];
    hide Ring, Appended, NewRowNode, Ranged;
    forall d | d in lists2 ensures ListRight(r, lists2, d) {
      assert ListRight(s, lists, d) && ListApart(lists, col, x, d);
      if d == c {
        AppendGrowsRing(Downs(s), Ups(s), Downs(r), Ups(r), c, xs, x);
      } else {
        AppendKeepsOtherRing(Downs(s), Ups(s), Downs(r), Ups(r), c, xs, x, d, lists[d]);
      }
    }
  }

  lemma NewRowApart(lists: map<nat, seq<nat>>, col: map<nat, nat>, x: nat, c: nat)
    requires Apart(lists, col, x) && c in lists
    ensures Apart(lists[c := lists[c] + [x]], col[x := c], x + 1)
  {
    var lists2 := lists[c := lists[c] + [x]];
    forall d | d in lists2 ensures ListApart(lists2, col[x := c], x + 1, d) {
      assert ListApart(lists, col, x, d);
    }
  }

  /** A table under construction: `T` describes its first `cur` nodes, nothing is covered. */
  ghost predicate Grown(s: Table, T: Matrix, cur: nat) {
    && Ranged(s) && 0 < cur <= |s|
    && WellFormed(T, cur) && RowsRight(s, T) && HRing(s, T.cols) && ListsRight(s, T.lists)
  }

  lemma GrownApart(s: Table, T: Matrix, cur: nat)
    requires Grown(s, T, cur)
    ensures Apart(T.lists, T.col, cur)
  {
    forall d | d in T.lists ensures ListApart(T.lists, T.col, cur, d) {
      assert ColumnFacts(T, cur, d);
      forall n | n in T.lists[d] ensures n < cur {
        assert NodeFacts(T, cur, n);
      }
    }
    forall n | n in T.col ensures n < cur {
      assert NodeFacts(T, cur, n);
    }
  }

  /** A finished table satisfies the invariant of the search with nothing covered. */
  lemma GrownIsInv(s: Table, T: Matrix, cur: nat)
    requires Grown(s, T, cur)
    ensures Inv(s, T, [])
  {
    assert WellFormed(T, |s|) by {
      forall c | c in T.cols ensures ColumnFacts(T, |s|, c) {
        assert ColumnFacts(T, cur, c);
      }
      forall n | n in T.col ensures NodeFacts(T, |s|, n) {
        assert NodeFacts(T, cur, n);
      }
    }
    WithoutNothing(T.cols);
    assert ToSet([]) == {};
    assert Dead(T, []) + {} == {};
    forall d | d in T.lists ensures ColumnRight(s, T, [], {}, d) {
      assert ListRight(s, T.lists, d);
      WithoutNothing(T.lists[d]);
    }
  }

  // ----- a new column -----

  ghost function AddColumn(T: Matrix, c: nat): Matrix {
    T.(cols := T.cols + [c], lists := T.lists[c := []])
  }

  lemma AddColumnRing(s: Table, T: Matrix, c: nat, name: int)
    requires Ranged(s) && HRing(s, T.cols) && 0 < c < |s| && forall d :: d in T.cols ==> d < c
    ensures s[ROOT].left != c
    ensures HRing(PutLeft(Fresh(s, c, c, name), ROOT, c), T.cols + [c])
  {
    var f := Fresh(s, c, c, name);
    var r := PutLeft(f, ROOT, c);
    RingStart(Rights(s), Lefts(s), ROOT, T.cols);
    assert Lefts(s)[ROOT] == s[ROOT].left;
    assert s[ROOT].left == ROOT || s[ROOT].left in T.cols;
    PutLeftFields(f, ROOT, c);
    assert Appended(Rights(s), Lefts(s), Rights(r), Lefts(r), ROOT, c);
    AppendGrowsRing(Rights(s), Lefts(s), Rights(r), Lefts(r), ROOT, T.cols, c);
  }

  lemma NoMembers(xs: seq<nat>)
    ensures xs == [] || exists x :: x in xs
  {
    if xs != [] {
      var x := xs[0];
      assert x in xs;
    }
  }

  /** Before the first row all lists are empty. */
  lemma ListEmpty(T: Matrix, c: nat, d: nat)
    requires WellFormed(T, c) && |T.col| == 0 && d in T.cols
    ensures d < c && d in T.lists && T.lists[d] == []
  {
    assert T.col.Keys == {};
    assert ColumnFacts(T, c, d);
    NoMembers(T.lists[d]);
  }

  lemma NewColumnFacts(T: Matrix, c: nat, d: nat)
    requires WellFormed(T, c) && 0 < c && |T.col| == 0 && (d in T.cols || d == c)
    ensures ColumnFacts(AddColumn(T, c), c + 1, d)
  {
    assert T.col.Keys == {};
    if d != c {
      ListEmpty(T, c, d);
      assert ColumnFacts(T, c, d);
    }
  }

  lemma SnocKeys(xs: seq<nat>, lists: map<nat, seq<nat>>, c: nat)
    requires lists.Keys == ToSet(xs)
    ensures lists[c := []].Keys == ToSet(xs + [c])
  {
    assert lists[c := []].Keys == lists.Keys + {c};
    assert ToSet(xs + [c]) == ToSet(xs) + {c};
  }

  lemma AddColumnFacts(T: Matrix, c: nat)
    requires WellFormed(T, c) && 0 < c && |T.col| == 0
    ensures WellFormed(AddColumn(T, c), c + 1)
    ensures forall d :: d in T.cols ==> d < c && d in T.lists && T.lists[d] == []
  {
    hide ColumnFacts;
    var T2 := AddColumn(T, c);
    forall d | d in T.cols ensures d < c && d in T.lists && T.lists[d] == [] {
      ListEmpty(T, c, d);
    }
    forall d | d in T2.cols ensures ColumnFacts(T2, c + 1, d) {
      NewColumnFacts(T, c, d);
    }
    DistinctSnoc(T.cols, c, c);
    SnocKeys(T.cols, T.lists, c);
    assert T.col.Keys == {};
  }

  lemma AddColumnGrown(s: Table, T: Matrix, c: nat, name: int)
    requires Grown(s, T, c) && c < |s| && |T.col| == 0
    ensures s[ROOT].left != c
    ensures Grown(PutLeft(Fresh(s, c, c, name), ROOT, c), AddColumn(T, c), c + 1)
    ensures |AddColumn(T, c).col| == 0
  {
    var f := Fresh(s, c, c, name);
    var r := PutLeft(f, ROOT, c);
    var T2 := AddColumn(T, c);
    AddColumnFacts(T, c);
    AddColumnRing(s, T, c, name);
    PutLeftFields(f, ROOT, c);
    hide WellFormed, HRing;
    forall d | d in T2.lists ensures ListRight(r, T2.lists, d) {
      if d != c {
        assert ListRight(s, T.lists, d);
        assert d in T.cols by { ListsAreColumns(T, c); }
      }
    }
    assert T2.col.Keys == {};
  }

  lemma ListsAreColumns(T: Matrix, size: nat)
    requires WellFormed(T, size)
    ensures forall d :: d in T.lists <==> d in T.cols
  {
  }

  // ----- a new row of four nodes -----

  /** The four columns and names of a row. */
  datatype Four = Four(c0: nat, c1: nat, c2: nat, c3: nat, n0: int, n1: int, n2: int, n3: int)

  ghost function FourNodes(s: Table, x: nat, q: Four): (r: Table)
    requires Ranged(s) && x + 3 < |s| && q.c0 < |s| && q.c1 < |s| && q.c2 < |s| && q.c3 < |s|
    ensures |r| == |s| && Ranged(r)
  {
    NewRowNode(NewRowNode(NewRowNode(NewRowNode(s, x, q.c0, q.n0), x + 1, q.c1, q.n1), x + 2, q.c2, q.n2), x + 3, q.c3, q.n3)
  }

  ghost function LinkFour(s: Table, x: nat): (r: Table)
    requires Ranged(s) && x + 3 < |s|
    ensures |r| == |s| && Ranged(r)
  {
    PutLeft(PutLeft(PutLeft(s, x, x + 1), x, x + 2), x, x + 3)
  }

  ghost function FourLists(lists: map<nat, seq<nat>>, x: nat, q: Four): map<nat, seq<nat>>
    requires q.c0 in lists && q.c1 in lists && q.c2 in lists && q.c3 in lists
  {
    var l1 := lists[q.c0 := lists[q.c0] + [x]];
    var l2 := l1[q.c1 := l1[q.c1] + [x + 1]];
    var l3 := l2[q.c2 := l2[q.c2] + [x + 2]];
    l3[q.c3 := l3[q.c3] + [x + 3]]
  }

  /** Four distinct columns of the matrix. */
  ghost predicate FourFit(T: Matrix, q: Four) {
    && q.c0 in T.cols && q.c1 in T.cols && q.c2 in T.cols && q.c3 in T.cols
    && q.c0 in T.lists && q.c1 in T.lists && q.c2 in T.lists && q.c3 in T.lists
    && q.c0 != q.c1 && q.c0 != q.c2 && q.c0 != q.c3 && q.c1 != q.c2 && q.c1 != q.c3 && q.c2 != q.c3
  }

  ghost function AddRow(T: Matrix, x: nat, q: Four, r: nat): Matrix
    requires FourFit(T, q)
  {
    T.(lists := FourLists(T.lists, x, q),
       col := T.col[x := q.c0][x + 1 := q.c1][x + 2 := q.c2][x + 3 := q.c3],
       row := T.row[x := r][x + 1 := r][x + 2 := r][x + 3 := r],
       others := T.others[x := [x + 1, x + 2, x + 3]][x + 1 := [x + 2, x + 3, x]]
                 [x + 2 := [x + 3, x, x + 1]][x + 3 := [x, x + 1, x + 2]],
       name := T.name[x := q.n0][x + 1 := q.n1][x + 2 := q.n2][x + 3 := q.n3])
  }

  lemma NewRowSides(s: Table, x: nat, c: nat, name: int)
    requires Ranged(s) && x < |s| && c < |s|
    ensures var r := NewRowNode(s, x, c, name);
      && r[x].left == x && r[x].right == x && r[x].col == c && r[x].name == name
      && forall n :: 0 <= n < |s| && n != x ==>
           r[n].left == s[n].left && r[n].right == s[n].right && r[n].col == s[n].col && r[n].name == s[n].name
  {
  }

  ghost predicate Loose(n: Node, x: nat, c: nat, name: int) {
    n.left == x && n.right == x && n.col == c && n.name == name
  }

  lemma FourNodesSides(s: Table, x: nat, q: Four)
    requires Ranged(s) && x + 3 < |s| && q.c0 < x && q.c1 < x && q.c2 < x && q.c3 < x
    ensures var r := FourNodes(s, x, q);
      && Loose(r[x], x, q.c0, q.n0) && Loose(r[x + 1], x + 1, q.c1, q.n1)
      && Loose(r[x + 2], x + 2, q.c2, q.n2) && Loose(r[x + 3], x + 3, q.c3, q.n3)
      && forall n :: 0 <= n < x ==>
           r[n].left == s[n].left && r[n].right == s[n].right && r[n].col == s[n].col && r[n].name == s[n].name
  {
    hide NewRowNode, Ranged;
    var s1 := NewRowNode(s, x, q.c0, q.n0);
    NewRowSides(s, x, q.c0, q.n0);
    var s2 := NewRowNode(s1, x + 1, q.c1, q.n1);
    NewRowSides(s1, x + 1, q.c1, q.n1);
    var s3 := NewRowNode(s2, x + 2, q.c2, q.n2);
    NewRowSides(s2, x + 2, q.c2, q.n2);
    NewRowSides(s3, x + 3, q.c3, q.n3);
  }

  lemma HeaderBelow(lists: map<nat, seq<nat>>, col: map<nat, nat>, x: nat, c: nat)
    requires Apart(lists, col, x) && c in lists
    ensures c < x
  {
    assert ListApart(lists, col, x, c);
  }

  lemma TwoNodesGrown(s: Table, lists: map<nat, seq<nat>>, col: map<nat, nat>, x: nat, c: nat, n: int, d: nat, m: int)
    requires Ranged(s) && ListsRight(s, lists) && Apart(lists, col, x) && x + 1 < |s| && c in lists && d in lists
    ensures c < x && d < x
    ensures var lists2 := lists[c := lists[c] + [x]];
      && ListsRight(NewRowNode(NewRowNode(s, x, c, n), x + 1, d, m), lists2[d := lists2[d] + [x + 1]])
      && Apart(lists2[d := lists2[d] + [x + 1]], col[x := c][x + 1 := d], x + 2)
  {
    HeaderBelow(lists, col, x, c);
    HeaderBelow(lists, col, x, d);
    hide ListsRight, Apart, NewRowNode, Ranged, ListApart, ListRight;
    NewRowLists(s, lists, col, x, c, n);
    NewRowApart(lists, col, x, c);
    var lists2 := lists[c := lists[c] + [x]];
    NewRowLists(NewRowNode(s, x, c, n), lists2, col[x := c], x + 1, d, m);
    NewRowApart(lists2, col[x := c], x + 1, d);
  }

  lemma FourNodesGrown(s: Table, lists: map<nat, seq<nat>>, col: map<nat, nat>, x: nat, q: Four)
    requires Ranged(s) && ListsRight(s, lists) && Apart(lists, col, x) && x + 3 < |s|
    requires q.c0 in lists && q.c1 in lists && q.c2 in lists && q.c3 in lists
    ensures q.c0 < x && q.c1 < x && q.c2 < x && q.c3 < x
    ensures ListsRight(FourNodes(s, x, q), FourLists(lists, x, q))
  {
    hide ListsRight, Apart, NewRowNode, Ranged, ListApart, ListRight;
    TwoNodesGrown(s, lists, col, x, q.c2, q.n2, q.c3, q.n3);
    TwoNodesGrown(s, lists, col, x, q.c0, q.n0, q.c1, q.n1);
    var l1 := lists[q.c0 := lists[q.c0] + [x]];
    var l2 := l1[q.c1 := l1[q.c1] + [x + 1]];
    var s2 := NewRowNode(NewRowNode(s, x, q.c0, q.n0), x + 1, q.c1, q.n1);
    TwoNodesGrown(s2, l2, col[x := q.c0][x + 1 := q.c1], x + 2, q.c2, q.n2, q.c3, q.n3);
  }

  lemma LinkFourFields(s: Table, x: nat)
    requires Ranged(s) && x + 3 < |s|
    requires s[x].left == x && s[x].right == x && s[x + 1].left == x + 1 && s[x + 2].left == x + 2 && s[x + 3].left == x + 3
    ensures var r := LinkFour(s, x);
      && r[x].right == x + 1 && r[x + 1].right == x + 2 && r[x + 2].right == x + 3 && r[x + 3].right == x
      && r[x].left == x + 3 && r[x + 1].left == x && r[x + 2].left == x + 1 && r[x + 3].left == x + 2
      && (forall n :: 0 <= n < |s| ==> r[n].up == s[n].up && r[n].down == s[n].down && r[n].col == s[n].col
                                       && r[n].name == s[n].name && r[n].size == s[n].size)
      && (forall n :: 0 <= n < x || x + 4 <= n < |s| ==> r[n].left == s[n].left && r[n].right == s[n].right)
  {
    var s1 := PutLeft(s, x, x + 1);
    PutLeftFields(s, x, x + 1);
    var s2 := PutLeft(s1, x, x + 2);
    PutLeftFields(s1, x, x + 2);
    PutLeftFields(s2, x, x + 3);
  }

  lemma AddRowLists(s: Table, r: Table, lists: map<nat, seq<nat>>)
    requires ListsRight(s, lists) && |r| == |s|
    requires forall n :: 0 <= n < |s| ==> r[n].up == s[n].up && r[n].down == s[n].down && r[n].size == s[n].size
    ensures ListsRight(r, lists)
  {
    assert Downs(r) == Downs(s) && Ups(r) == Ups(s);
    forall d | d in lists ensures ListRight(r, lists, d) {
      assert ListRight(s, lists, d);
    }
  }

  lemma HeadersKept(s: Table, r: Table, xs: seq<nat>, x: nat)
    requires HRing(s, xs) && |r| == |s| && 0 < x && forall c :: c in xs ==> c < x
    requires forall n :: 0 <= n < x && n < |s| ==> r[n].left == s[n].left && r[n].right == s[n].right
    ensures HRing(r, xs)
  {
    forall i | 0 <= i < |xs|
      ensures Rights(r)[xs[i]] == Rights(s)[xs[i]] && Lefts(r)[xs[i]] == Lefts(s)[xs[i]]
    {
      assert xs[i] in xs;
    }
  }

  // ----- the new row in the matrix -----

  ghost predicate NewNode(T2: Matrix, n: nat, c: nat, name: int, r: nat, o: seq<nat>) {
    && n in T2.col && T2.col[n] == c
    && n in T2.row && T2.row[n] == r
    && n in T2.others && T2.others[n] == o
    && n in T2.name && T2.name[n] == name
  }

  /** Node `n` is the same in both. */
  ghost predicate OldNode(T: Matrix, T2: Matrix, n: nat) {
    && n in T.col && n in T.row && n in T.others && n in T.name
    && NewNode(T2, n, T.col[n], T.name[n], T.row[n], T.others[n])
  }

  ghost predicate SameKeys(T: Matrix) {
    T.col.Keys == T.row.Keys == T.others.Keys
  }

  ghost predicate NewRowMaps(T: Matrix, T2: Matrix, x: nat, q: Four, r: nat) {
    && T2.cols == T.cols && SameKeys(T2)
    && (forall n :: n in T2.col <==> n in T.col || x <= n < x + 4)
    && (forall n :: n in T.col ==> OldNode(T, T2, n))
    && NewNode(T2, x, q.c0, q.n0, r, [x + 1, x + 2, x + 3])
    && NewNode(T2, x + 1, q.c1, q.n1, r, [x + 2, x + 3, x])
    && NewNode(T2, x + 2, q.c2, q.n2, r, [x + 3, x, x + 1])
    && NewNode(T2, x + 3, q.c3, q.n3, r, [x, x + 1, x + 2])
  }

  ghost predicate NewRowLists4(T: Matrix, T2: Matrix, x: nat, q: Four) {
    && T2.cols == T.cols && T2.lists.Keys == T.lists.Keys
    && forall c {:trigger T2.lists[c]} :: c in T2.lists ==>
         T2.lists[c] == if c == q.c0 then T.lists[c] + [x] else if c == q.c1 then T.lists[c] + [x + 1]
                        else if c == q.c2 then T.lists[c] + [x + 2] else if c == q.c3 then T.lists[c] + [x + 3]
                        else T.lists[c]
  }

  lemma AddRowParts(T: Matrix, x: nat, q: Four, r: nat)
    requires WellFormed(T, x) && FourFit(T, q)
    ensures NewRowMaps(T, AddRow(T, x, q, r), x, q, r)
    ensures NewRowLists4(T, AddRow(T, x, q, r), x, q)
  {
    NodesBelow(T, x);
    AddRowListsParts(T, x, q, r);
    AddRowMapsParts(T, x, q, r);
  }

  lemma AddRowListsParts(T: Matrix, x: nat, q: Four, r: nat)
    requires FourFit(T, q)
    ensures NewRowLists4(T, AddRow(T, x, q, r), x, q)
  {
    hide FourLists;
    FourListsParts(T.lists, x, q);
  }

  lemma AddRowMapsParts(T: Matrix, x: nat, q: Four, r: nat)
    requires FourFit(T, q) && SameKeys(T) && forall n :: n in T.col ==> n < x && n in T.name
    ensures NewRowMaps(T, AddRow(T, x, q, r), x, q, r)
  {
    hide FourLists, FourFit;
    var T2 := AddRow(T, x, q, r);
    var four := {x, x + 1, x + 2, x + 3};
    assert T2.col.Keys == T.col.Keys + four;
    assert T2.row.Keys == T.row.Keys + four;
    assert T2.others.Keys == T.others.Keys + four;
    forall n | n in T.col ensures OldNode(T, T2, n) {
    }
  }

  lemma FourListsParts(lists: map<nat, seq<nat>>, x: nat, q: Four)
    requires q.c0 in lists && q.c1 in lists && q.c2 in lists && q.c3 in lists
    requires q.c0 != q.c1 && q.c0 != q.c2 && q.c0 != q.c3 && q.c1 != q.c2 && q.c1 != q.c3 && q.c2 != q.c3
    ensures var l := FourLists(lists, x, q);
      l.Keys == lists.Keys && forall c :: c in l ==>
         l[c] == if c == q.c0 then lists[c] + [x] else if c == q.c1 then lists[c] + [x + 1]
                 else if c == q.c2 then lists[c] + [x + 2] else if c == q.c3 then lists[c] + [x + 3]
                 else lists[c]
  {
  }

  lemma OldNodeKept(T: Matrix, T2: Matrix, x: nat, q: Four, r: nat, n: nat)
    requires WellFormed(T, x) && NewRowMaps(T, T2, x, q, r) && T2.lists.Keys == T.lists.Keys
    requires (forall m :: m in T.row ==> T.row[m] != r) && n in T.col
    ensures NodeFacts(T2, x + 4, n)
  {
    assert NodeFacts(T, x, n);
    forall m | m in T.others[n] ensures m in T2.col && T2.col[m] != T2.col[n] && SameRow(T2, n, m) {
      assert NodeFacts(T, x, m);
      assert SameRow(T, n, m);
    }
    forall m | SameRow(T2, n, m) && m != n ensures m in T2.others[n] {
      assert m in T.row && NodeFacts(T, x, m);
      assert SameRow(T, n, m);
    }
  }

  lemma NewNodeFits(T: Matrix, T2: Matrix, x: nat, q: Four, r: nat, n: nat)
    requires WellFormed(T, x) && NewRowMaps(T, T2, x, q, r) && T2.lists.Keys == T.lists.Keys && FourFit(T, q)
    requires (forall m :: m in T.row ==> T.row[m] != r) && x <= n < x + 4 && 0 < x
    ensures NodeFacts(T2, x + 4, n)
  {
    hide NodeFacts, ColumnFacts;
    NodesBelow(T, x);
    forall m: nat | SameRow(T2, n, m) && m != n ensures m in T2.others[n] {
      assert m in T2.row && T2.row[m] == r;
      assert m in T.row ==> m < x;
      assert x <= m < x + 4;
    }
    NewNodeShape(T, T2, x, q, r, n);
  }

  lemma NewNodeShape(T: Matrix, T2: Matrix, x: nat, q: Four, r: nat, n: nat)
    requires NewRowMaps(T, T2, x, q, r) && T2.lists.Keys == T.lists.Keys && FourFit(T, q) && x <= n < x + 4 && 0 < x
    requires forall m :: SameRow(T2, n, m) && m != n ==> m in T2.others[n]
    ensures NodeFacts(T2, x + 4, n)
  {
    var o := T2.others[n];
    assert T2.col[n] in T2.cols && T2.row[n] == r;
    assert Distinct(o);
    forall m | m in o ensures m in T2.col && m != n && T2.col[m] != T2.col[n] && SameRow(T2, n, m) {
      assert x <= m < x + 4;
    }
  }

  lemma NodesBelow(T: Matrix, x: nat)
    requires WellFormed(T, x)
    ensures forall n :: n in T.col ==> n < x && n in T.name
    ensures forall n :: n in T.row ==> n < x
    ensures SameKeys(T)
  {
    forall n | n in T.col ensures n < x && n in T.name {
      assert NodeFacts(T, x, n);
    }
  }

  lemma ColumnOf(T: Matrix, x: nat, c: nat)
    requires WellFormed(T, x) && c in T.cols
    ensures ColumnFacts(T, x, c) && forall n :: n in T.lists[c] ==> n < x
  {
    assert ColumnFacts(T, x, c);
    NodesBelow(T, x);
  }

  /** A list with a larger node appended, or not, stays free of repeats. */
  lemma DistinctSnoc(xs: seq<nat>, x: nat, y: nat)
    requires Distinct(xs) && (forall n :: n in xs ==> n < x) && x <= y
    ensures Distinct(xs + [y])
  {
    DistinctConcat(xs, [y]);
  }

  lemma AddRowColumn(T: Matrix, T2: Matrix, x: nat, q: Four, r: nat, c: nat)
    requires WellFormed(T, x) && NewRowMaps(T, T2, x, q, r) && NewRowLists4(T, T2, x, q) && FourFit(T, q) && c in T.cols
    ensures ColumnFacts(T2, x + 4, c)
  {
    hide WellFormed, NodeFacts, Distinct, FourFit;
    NodesBelow(T, x);
    ColumnOf(T, x, c);
    var xs, ys := T.lists[c], T2.lists[c];
    DistinctSnoc(xs, x, x);
    DistinctSnoc(xs, x, x + 1);
    DistinctSnoc(xs, x, x + 2);
    DistinctSnoc(xs, x, x + 3);
    forall n | n in ys ensures n in T2.col && n in T2.row && T2.col[n] == c {
      assert n in xs || x <= n < x + 4;
      assert n in xs ==> OldNode(T, T2, n);
    }
    forall n: nat, p: nat | HitBy(T2, p, c, n) ensures n in ys {
      if n in T.col {
        assert OldNode(T, T2, n);
        assert HitBy(T, p, c, n);
      } else {
        assert x <= n < x + 4;
        NewNodeListed(T, T2, x, q, r, c, n);
      }
    }
  }

  lemma NewNodeColumn(T: Matrix, T2: Matrix, x: nat, q: Four, r: nat, n: nat)
    requires NewRowMaps(T, T2, x, q, r) && x <= n < x + 4
    ensures n in T2.col
    ensures T2.col[n] == if n == x then q.c0 else if n == x + 1 then q.c1 else if n == x + 2 then q.c2 else q.c3
  {
  }

  lemma NewNodeListed(T: Matrix, T2: Matrix, x: nat, q: Four, r: nat, c: nat, n: nat)
    requires NewRowMaps(T, T2, x, q, r) && NewRowLists4(T, T2, x, q) && FourFit(T, q) && x <= n < x + 4
    requires c in T2.lists && n in T2.col && T2.col[n] == c
    ensures n in T2.lists[c]
  {
    hide NewNode, OldNode;
    var ys := T2.lists[c];
    NewNodeColumn(T, T2, x, q, r, n);
    assert ys[|ys| - 1] == n;
  }

  lemma KeysKept(T: Matrix, T2: Matrix, x: nat, q: Four, r: nat)
    requires WellFormed(T, x) && NewRowMaps(T, T2, x, q, r) && NewRowLists4(T, T2, x, q)
    ensures T2.cols == T.cols && Distinct(T2.cols) && SameKeys(T2)
    ensures T2.lists.Keys == T.lists.Keys == ToSet(T2.cols)
    ensures forall n :: n in T2.col ==> n in T.col || x <= n < x + 4
  {
  }

  lemma AddRowWellFormed(T: Matrix, x: nat, q: Four, r: nat)
    requires WellFormed(T, x) && FourFit(T, q) && 0 < x && (forall m :: m in T.row ==> T.row[m] != r)
    ensures WellFormed(AddRow(T, x, q, r), x + 4)
  {
    hide AddRow, ColumnFacts, NodeFacts, NewRowMaps, NewRowLists4, FourFit;
    var T2 := AddRow(T, x, q, r);
    AddRowParts(T, x, q, r);
    KeysKept(T, T2, x, q, r);
    forall c | c in T2.cols ensures ColumnFacts(T2, x + 4, c) {
      AddRowColumn(T, T2, x, q, r, c);
    }
    forall n | n in T2.col ensures NodeFacts(T2, x + 4, n) {
      if n in T.col {
        OldNodeKept(T, T2, x, q, r, n);
      } else {
        NewNodeFits(T, T2, x, q, r, n);
      }
    }
  }

  /** The new row hits its four columns; nothing else changes. */
  lemma AddRowHits(T: Matrix, x: nat, q: Four, r: nat, p: nat, c: nat)
    requires WellFormed(T, x) && FourFit(T, q)
    ensures Hits(AddRow(T, x, q, r), p, c) <==>
            Hits(T, p, c) || (p == r && (c == q.c0 || c == q.c1 || c == q.c2 || c == q.c3))
  {
    hide AddRow, WellFormed, NewRowLists4, FourFit;
    var T2 := AddRow(T, x, q, r);
    AddRowParts(T, x, q, r);
    NodesBelow(T, x);
    if Hits(T2, p, c) {
      var m: nat :| HitBy(T2, p, c, m);
      if m < x {
        assert HitBy(T, p, c, m);
      } else {
        assert x <= m < x + 4;
      }
    }
    if Hits(T, p, c) {
      var m: nat :| HitBy(T, p, c, m);
      assert HitBy(T2, p, c, m);
    }
    if p == r {
      assert HitBy(T2, r, q.c0, x) && HitBy(T2, r, q.c1, x + 1);
      assert HitBy(T2, r, q.c2, x + 2) && HitBy(T2, r, q.c3, x + 3);
    }
  }

  lemma NewRowRight(s: Table, T: Matrix, x: nat, q: Four, r: nat, n: nat)
    requires FourFit(T, q) && x + 3 < |s| && x <= n < x + 4
    requires s[x].right == x + 1 && s[x + 1].right == x + 2 && s[x + 2].right == x + 3 && s[x + 3].right == x
    requires s[x].left == x + 3 && s[x + 1].left == x && s[x + 2].left == x + 1 && s[x + 3].left == x + 2
    requires s[x].col == q.c0 && s[x + 1].col == q.c1 && s[x + 2].col == q.c2 && s[x + 3].col == q.c3
    requires s[x].name == q.n0 && s[x + 1].name == q.n1 && s[x + 2].name == q.n2 && s[x + 3].name == q.n3
    ensures RowRight(s, AddRow(T, x, q, r), n)
  {
  }

  lemma OldRowRight(s: Table, t: Table, T: Matrix, x: nat, q: Four, r: nat, n: nat)
    requires WellFormed(T, x) && FourFit(T, q) && n in T.col && RowRight(s, T, n) && |t| == |s|
    requires forall n :: 0 <= n < x && n < |s| ==>
      t[n].left == s[n].left && t[n].right == s[n].right && t[n].col == s[n].col && t[n].name == s[n].name
    ensures RowRight(t, AddRow(T, x, q, r), n)
  {
    assert NodeFacts(T, x, n);
    var xs := T.others[n];
    forall i | 0 <= i < |xs|
      ensures Rights(t)[xs[i]] == Rights(s)[xs[i]] && Lefts(t)[xs[i]] == Lefts(s)[xs[i]]
    {
      assert xs[i] in xs;
      assert NodeFacts(T, x, xs[i]);
    }
  }

  lemma AddRowRows(s: Table, t: Table, T: Matrix, x: nat, q: Four, r: nat)
    requires WellFormed(T, x) && RowsRight(s, T) && FourFit(T, q) && x + 4 <= |s| == |t|
    requires forall n :: 0 <= n < x ==>
      t[n].left == s[n].left && t[n].right == s[n].right && t[n].col == s[n].col && t[n].name == s[n].name
    requires t[x].right == x + 1 && t[x + 1].right == x + 2 && t[x + 2].right == x + 3 && t[x + 3].right == x
    requires t[x].left == x + 3 && t[x + 1].left == x && t[x + 2].left == x + 1 && t[x + 3].left == x + 2
    requires t[x].col == q.c0 && t[x + 1].col == q.c1 && t[x + 2].col == q.c2 && t[x + 3].col == q.c3
    requires t[x].name == q.n0 && t[x + 1].name == q.n1 && t[x + 2].name == q.n2 && t[x + 3].name == q.n3
    ensures RowsRight(t, AddRow(T, x, q, r))
  {
    var T2 := AddRow(T, x, q, r);
    AddRowParts(T, x, q, r);
    hide WellFormed, RowRight;
    forall n | n in T2.col ensures RowRight(t, T2, n) {
      if n in T.col {
        assert RowRight(s, T, n);
        OldRowRight(s, t, T, x, q, r, n);
      } else {
        NewRowRight(t, T, x, q, r, n);
      }
    }
  }

  /** Appending a candidate row keeps the table well grown. */
  lemma AddRowGrown(s: Table, T: Matrix, x: nat, q: Four, r: nat)
    requires Grown(s, T, x) && FourFit(T, q) && x + 4 <= |s| && (forall m :: m in T.row ==> T.row[m] != r)
    ensures q.c0 < x && q.c1 < x && q.c2 < x && q.c3 < x
    ensures Grown(LinkFour(FourNodes(s, x, q), x), AddRow(T, x, q, r), x + 4)
  {
    forall c | c in T.cols ensures c < x {
      assert ColumnFacts(T, x, c);
    }
    GrownApart(s, T, x);
    hide WellFormed, HRing, RowsRight, ListsRight, FourNodes, LinkFour, Apart;
    FourNodesGrown(s, T.lists, T.col, x, q);
    FourNodesSides(s, x, q);
    var f := FourNodes(s, x, q);
    LinkFourFields(f, x);
    var t := LinkFour(f, x);
    AddRowWellFormed(T, x, q, r);
    HeadersKept(s, t, T.cols, x);
    AddRowLists(f, t, AddRow(T, x, q, r).lists);
    AddRowRows(s, t, T, x, q, r);
  }
}
