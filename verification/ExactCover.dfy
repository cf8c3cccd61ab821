/** Exact covers and the tables that represent them. A table state is described by the sequence
    of columns covered so far: which nodes hang in which ring is a function of that sequence. */
module ExactCover {
  import opened DancingLinks

  /** The structure that covering and uncovering never change: the headers in ring order, the
      nodes of each column in ring order, and for each row node its column, its row, the rest of
      its row from its right neighbour on, and its name. */
  datatype Matrix = Matrix(cols: seq<nat>, lists: map<nat, seq<nat>>, col: map<nat, nat>,
                           row: map<nat, nat>, others: map<nat, seq<nat>>, name: map<nat, int>)

  ghost function ToSet(xs: seq<nat>): (r: set<nat>)
    ensures forall x :: x in r <==> x in xs
  {
    set x | x in xs
  }

  /** Node `m` belongs to row `r` and column `c`. */
  ghost predicate HitBy(T: Matrix, r: nat, c: nat, m: nat) {
    m in T.row && m in T.col && T.row[m] == r && T.col[m] == c
  }

  ghost predicate SameRow(T: Matrix, n: nat, m: nat) {
    n in T.row && m in T.row && T.row[n] == T.row[m]
  }

  ghost predicate NodeFacts(T: Matrix, size: nat, n: nat) {
    && n < size && n != ROOT
    && n in T.col && n in T.row && n in T.others && n in T.name
    && T.col[n] in T.cols && T.col[n] in T.lists
    && Distinct(T.others[n])
    && (forall m :: m in T.others[n] ==> m in T.col && m != n && T.col[m] != T.col[n] && SameRow(T, n, m))
    && (forall m {:trigger SameRow(T, n, m)} :: SameRow(T, n, m) && m != n ==> m in T.others[n])
  }

  ghost predicate ColumnFacts(T: Matrix, size: nat, c: nat) {
    && c < size && c != ROOT && c !in T.col && c in T.lists
    && Distinct(T.lists[c])
    && (forall n :: n in T.lists[c] ==> n in T.col && n in T.row && T.col[n] == c)
    && (forall n, r {:trigger HitBy(T, r, c, n)} :: HitBy(T, r, c, n) ==> n in T.lists[c])
  }

  ghost predicate WellFormed(T: Matrix, size: nat) {
    && Distinct(T.cols)
    && T.lists.Keys == ToSet(T.cols)
    && T.col.Keys == T.row.Keys == T.others.Keys
    && (forall c {:trigger ColumnFacts(T, size, c)} :: c in T.cols ==> ColumnFacts(T, size, c))
    && (forall n {:trigger NodeFacts(T, size, n)} :: n in T.col ==> NodeFacts(T, size, n))
  }

  // ----- exact covers -----

  /** Row `r` has a node in column `c`. */
  ghost predicate Hits(T: Matrix, r: nat, c: nat) {
    exists m :: HitBy(T, r, c, m)
  }

  /** Row `r` has a node in one of the columns `K`. */
  ghost predicate Touches(T: Matrix, r: nat, K: seq<nat>) {
    exists c :: c in K && Hits(T, r, c)
  }

  /** Column `c` is hit by one of the rows `E`. */
  ghost predicate HitIn(T: Matrix, E: set<nat>, c: nat) {
    exists r :: r in E && Hits(T, r, c)
  }

  /** The rows `E` avoid the columns `K` and hit every other column exactly once. */
  ghost predicate Covers(T: Matrix, K: seq<nat>, E: set<nat>) {
    && (forall r {:trigger Touches(T, r, K)} :: r in E ==> !Touches(T, r, K))
    && (forall c {:trigger HitIn(T, E, c)} :: c in T.cols && c !in K ==> HitIn(T, E, c))
    && (forall r1, r2, c {:trigger Hits(T, r1, c), Hits(T, r2, c)} ::
          r1 in E && r2 in E && Hits(T, r1, c) && Hits(T, r2, c) ==> r1 == r2)
  }

  ghost predicate Solvable(T: Matrix, K: seq<nat>) {
    exists E :: Covers(T, K, E)
  }

  /** The columns of the row of node `v`, its own first, then rightwards. */
  ghost function Picked(T: Matrix, size: nat, v: nat): (r: seq<nat>)
    requires NodeFacts(T, size, v)
  {
    [T.col[v]] + OtherCols(T, size, v)
  }

  ghost function OtherCols(T: Matrix, size: nat, v: nat): (r: seq<nat>)
    requires NodeFacts(T, size, v)
    ensures |r| == |T.others[v]| && forall i :: 0 <= i < |r| ==> T.others[v][i] in T.col && r[i] == T.col[T.others[v][i]]
  {
    seq(|T.others[v]|, i requires 0 <= i < |T.others[v]| => T.col[T.others[v][i]])
  }

  lemma PickedAreHit(T: Matrix, size: nat, v: nat)
    requires WellFormed(T, size) && NodeFacts(T, size, v)
    ensures forall c :: c in Picked(T, size, v) <==> Hits(T, T.row[v], c)
  {
    var p := Picked(T, size, v);
    forall c | c in p ensures Hits(T, T.row[v], c) {
      var i :| 0 <= i < |p| && p[i] == c;
      if i == 0 {
        assert HitBy(T, T.row[v], c, v);
      } else {
        var m := T.others[v][i - 1];
        assert m in T.others[v];
        assert HitBy(T, T.row[v], c, m);
      }
    }
    forall c | Hits(T, T.row[v], c) ensures c in p {
      var m :| HitBy(T, T.row[v], c, m);
      if m == v {
        assert p[0] == c;
      } else {
        assert SameRow(T, v, m);
        var i :| 0 <= i < |T.others[v]| && T.others[v][i] == m;
        assert p[i + 1] == c;
      }
    }
  }

  lemma PickedDistinct(T: Matrix, size: nat, v: nat)
    requires WellFormed(T, size) && NodeFacts(T, size, v)
    ensures Distinct(Picked(T, size, v))
    ensures forall c :: c in Picked(T, size, v) ==> c in T.cols
  {
    var p := Picked(T, size, v);
    var o := T.others[v];
    forall c | c in p ensures c in T.cols {
      var i :| 0 <= i < |p| && p[i] == c;
      assert NodeFacts(T, size, if i == 0 then v else o[i - 1]);
    }
    forall i, j | 0 <= i < j < |p| ensures p[i] != p[j] {
      var n, m := if i == 0 then v else o[i - 1], o[j - 1];
      assert m in o && (i > 0 ==> n in o);
      assert NodeFacts(T, size, n);
      assert SameRow(T, n, m);
      assert m in T.others[n];
    }
  }

  lemma TouchesAfter(T: Matrix, size: nat, K: seq<nat>, v: nat, r: nat)
    requires WellFormed(T, size) && NodeFacts(T, size, v)
    ensures Touches(T, r, K + Picked(T, size, v)) <==>
            Touches(T, r, K) || exists c :: Hits(T, T.row[v], c) && Hits(T, r, c)
  {
    PickedAreHit(T, size, v);
    var K2 := K + Picked(T, size, v);
    if Touches(T, r, K2) {
      var c :| c in K2 && Hits(T, r, c);
    }
    if Touches(T, r, K) {
      var c :| c in K && Hits(T, r, c);
      assert c in K2;
    }
    if c :| Hits(T, T.row[v], c) && Hits(T, r, c) {
      assert c in K2;
    }
  }

  /** Choosing row `v`: a cover that holds it is that row and a cover of what it leaves. */
  lemma ChooseRow(T: Matrix, size: nat, K: seq<nat>, v: nat, E: set<nat>)
    requires WellFormed(T, size) && NodeFacts(T, size, v) && T.row[v] in E && Covers(T, K, E)
    ensures Covers(T, K + Picked(T, size, v), E - {T.row[v]})
  {
    var r0 := T.row[v];
    var K2 := K + Picked(T, size, v);
    var E2 := E - {r0};
    PickedAreHit(T, size, v);
    forall r | r in E2 ensures !Touches(T, r, K2) {
      TouchesAfter(T, size, K, v, r);
    }
    forall c | c in T.cols && c !in K2 ensures HitIn(T, E2, c) {
      assert c !in K && c !in Picked(T, size, v);
      assert HitIn(T, E, c);
      var r :| r in E && Hits(T, r, c);
      assert r in E2;
    }
  }

  /** The converse: an untouched row completes every cover of what it leaves. */
  lemma UseRow(T: Matrix, size: nat, K: seq<nat>, v: nat, E: set<nat>)
    requires WellFormed(T, size) && NodeFacts(T, size, v) && !Touches(T, T.row[v], K)
    requires Covers(T, K + Picked(T, size, v), E)
    ensures Covers(T, K, E + {T.row[v]})
  {
    var r0 := T.row[v];
    var K2 := K + Picked(T, size, v);
    var E2 := E + {r0};
    PickedAreHit(T, size, v);
    forall r | r in E
      ensures !Touches(T, r, K)
      ensures forall c :: Hits(T, r0, c) ==> !Hits(T, r, c)
    {
      assert !Touches(T, r, K2);
      TouchesAfter(T, size, K, v, r);
    }
    forall c | c in T.cols && c !in K ensures HitIn(T, E2, c) {
      if c in Picked(T, size, v) {
        assert r0 in E2 && Hits(T, r0, c);
      } else {
        assert c !in K2;
        assert HitIn(T, E, c);
        var r :| r in E && Hits(T, r, c);
        assert r in E2;
      }
    }
  }

  /** A set that holds an untouched row is a cover exactly when the rest covers what the row leaves. */
  lemma RowChoiceIff(T: Matrix, size: nat, K: seq<nat>, v: nat, E: set<nat>)
    requires WellFormed(T, size) && NodeFacts(T, size, v) && T.row[v] in E && !Touches(T, T.row[v], K)
    ensures Covers(T, K, E) <==> Covers(T, K + Picked(T, size, v), E - {T.row[v]})
  {
    hide WellFormed, Touches, Covers;
    var rest := E - {T.row[v]};
    if Covers(T, K, E) {
      ChooseRow(T, size, K, v, E);
    }
    if Covers(T, K + Picked(T, size, v), rest) {
      UseRow(T, size, K, v, rest);
      assert rest + {T.row[v]} == E;
    }
  }

  /** With no column left the empty set is a cover. */
  lemma NothingToCover(T: Matrix, K: seq<nat>)
    requires forall c :: c in T.cols ==> c in K
    ensures Covers(T, K, {})
  {
  }

  // ----- which nodes hang where -----

  /** Nodes whose row touches `K`. */
  ghost function Dead(T: Matrix, K: seq<nat>): (r: set<nat>)
    ensures forall n :: n in r <==> n in T.row && Touches(T, T.row[n], K)
  {
    set n | n in T.row && Touches(T, T.row[n], K)
  }

  /** What was covered before column `d` was; all of `K` if `d` is still active. */
  ghost function Before(K: seq<nat>, d: nat): seq<nat> {
    if K == [] || d !in K then K
    else if K[|K| - 1] == d then K[..|K| - 1]
    else Before(K[..|K| - 1], d)
  }

  /** The nodes in the ring of column `d` once `K` is covered and `X` is removed besides. */
  ghost function RingOf(T: Matrix, K: seq<nat>, X: set<nat>, d: nat): seq<nat>
    requires d in T.lists
  {
    Without(T.lists[d], Dead(T, Before(K, d)) + X)
  }

  ghost predicate ColumnRight(s: Table, T: Matrix, K: seq<nat>, X: set<nat>, d: nat)
    requires d in T.lists
  {
    && VRing(s, d, RingOf(T, K, X, d))
    && s[d].size == |RingOf(T, K, X, d)|
  }

  ghost predicate RowRight(s: Table, T: Matrix, n: nat) {
    && n in T.col && n in T.others && n in T.name
    && n < |s| && s[n].col == T.col[n] && s[n].name == T.name[n] && Ring(Rights(s), Lefts(s), n, T.others[n])
  }

  ghost predicate RowsRight(s: Table, T: Matrix) {
    forall n {:trigger RowRight(s, T, n)} :: n in T.col ==> RowRight(s, T, n)
  }

  /** `s` is the table after covering `K`, less the further nodes `X`; its header ring shows `H`. */
  ghost predicate Stage(s: Table, T: Matrix, K: seq<nat>, X: set<nat>, H: seq<nat>) {
    && Ranged(s) && WellFormed(T, |s|) && RowsRight(s, T)
    && HRing(s, H)
    && forall d {:trigger ColumnRight(s, T, K, X, d)} :: d in T.lists ==> ColumnRight(s, T, K, X, d)
  }

  ghost function Active(T: Matrix, K: seq<nat>): seq<nat> {
    Without(T.cols, ToSet(K))
  }

  /** The invariant between covers: rings, sizes and header ring are those of `K`. */
  ghost predicate Inv(s: Table, T: Matrix, K: seq<nat>) {
    && Distinct(K) && (forall c :: c in K ==> c in T.cols)
    && Stage(s, T, K, {}, Active(T, K))
  }

  // ----- covering one column -----

  /** The nodes covering visits, in order: per row of the column, the rest of the row. */
  ghost function Order(T: Matrix, vs: seq<nat>): (r: seq<nat>)
    requires forall v :: v in vs ==> v in T.others
    ensures forall j :: j in r <==> exists v :: v in vs && j in T.others[v]
  {
    if vs == [] then [] else
    assert vs == vs[..|vs| - 1] + [vs[|vs| - 1]];
    Order(T, vs[..|vs| - 1]) + T.others[vs[|vs| - 1]]
  }

  lemma DistinctConcat(a: seq<nat>, b: seq<nat>)
    requires Distinct(a) && Distinct(b) && forall x :: x in a ==> x !in b
    ensures Distinct(a + b)
  {
    forall i, j | 0 <= i < j < |a + b| ensures (a + b)[i] != (a + b)[j] {
      if i < |a| <= j {
        assert a[i] in a && b[j - |a|] in b;
      }
    }
  }

  lemma OrderDistinct(T: Matrix, size: nat, c: nat, vs: seq<nat>)
    requires WellFormed(T, size) && Distinct(vs)
    requires forall v :: v in vs ==> v in T.others
    requires forall v :: v in vs ==> NodeFacts(T, size, v) && T.col[v] == c
    ensures Distinct(Order(T, vs))
  {
    if vs != [] {
      var front := vs[..|vs| - 1];
      var last := vs[|vs| - 1];
      assert last in vs && last !in front;
      OrderDistinct(T, size, c, front);
      assert NodeFacts(T, size, last);
      forall x | x in Order(T, front) ensures x !in T.others[last] {
        var v :| v in front && x in T.others[v];
        assert v in vs && NodeFacts(T, size, v);
        assert !SameRow(T, v, last);
        assert SameRow(T, v, x);
      }
      DistinctConcat(Order(T, front), T.others[last]);
    }
  }

  /** The rows covering `c` visits: alive, one per node of the column, each in its own row. */
  lemma RingFacts(T: Matrix, size: nat, K: seq<nat>, c: nat)
    requires WellFormed(T, size) && c in T.cols && c !in K
    ensures ColumnFacts(T, size, c) && Before(K, c) == K && Before(K + [c], c) == K
    ensures var vs := RingOf(T, K, {}, c);
      && Distinct(vs)
      && (forall v :: v in vs ==> NodeFacts(T, size, v) && T.col[v] == c && !Touches(T, T.row[v], K))
  {
    assert ColumnFacts(T, size, c);
    WithoutDistinct(T.lists[c], Dead(T, K) + {});
    forall v | v in RingOf(T, K, {}, c)
      ensures NodeFacts(T, size, v) && T.col[v] == c && !Touches(T, T.row[v], K)
    {
      assert v in T.lists[c];
    }
  }

  /** What covering `c` removes: nodes of alive rows that hit `c`, in other active columns. */
  lemma OrderFacts(T: Matrix, size: nat, K: seq<nat>, c: nat)
    requires WellFormed(T, size) && c in T.cols && c !in K
    ensures ColumnFacts(T, size, c)
    ensures var vs := RingOf(T, K, {}, c);
      && (forall v :: v in vs ==> NodeFacts(T, size, v))
      && Distinct(Order(T, vs))
      && (forall j :: j in Order(T, vs) ==>
            NodeFacts(T, size, j) && T.col[j] !in K && T.col[j] != c && !Touches(T, T.row[j], K) && Hits(T, T.row[j], c))
  {
    RingFacts(T, size, K, c);
    var vs := RingOf(T, K, {}, c);
    OrderDistinct(T, size, c, vs);
    forall j | j in Order(T, vs)
      ensures NodeFacts(T, size, j) && T.col[j] !in K && T.col[j] != c && !Touches(T, T.row[j], K) && Hits(T, T.row[j], c)
    {
      var v :| v in vs && j in T.others[v];
      assert NodeFacts(T, size, v) && NodeFacts(T, size, j);
      assert SameRow(T, v, j);
      assert HitBy(T, T.row[j], c, v);
      assert HitBy(T, T.row[j], T.col[j], j);
    }
  }

  lemma RowsRightKept(s: Table, r: Table, T: Matrix)
    requires WellFormed(T, |s|) && RowsRight(s, T) && |r| == |s|
    requires forall n :: n in T.col && n < |s| ==> r[n].left == s[n].left && r[n].right == s[n].right && r[n].col == s[n].col && r[n].name == s[n].name
    ensures RowsRight(r, T)
  {
    forall n | n in T.col ensures RowRight(r, T, n) {
      assert RowRight(s, T, n) && NodeFacts(T, |s|, n);
      var xs := T.others[n];
      forall i | 0 <= i < |xs|
        ensures Rights(r)[xs[i]] == Rights(s)[xs[i]] && Lefts(r)[xs[i]] == Lefts(s)[xs[i]]
      {
        assert xs[i] in xs;
      }
    }
  }

  /** Removing `j` keeps the rings of the columns it is not in. */
  lemma UnlinkOtherColumn(s: Table, r: Table, T: Matrix, K: seq<nat>, X: set<nat>, j: nat, k: nat, d: nat)
    requires Ranged(s) && r == (if j < |s| then Unlink(s, j) else s) && WellFormed(T, |s|)
    requires NodeFacts(T, |s|, j) && d in T.cols && d in T.lists && d != T.col[j]
    requires ColumnRight(s, T, K, X, d) && ColumnRight(s, T, K, X, T.col[j])
    requires k < |RingOf(T, K, X, T.col[j])| && RingOf(T, K, X, T.col[j])[k] == j
    requires s[j].col == T.col[j]
    ensures ColumnRight(r, T, K, X + {j}, d)
  {
    var c := T.col[j];
    var xs, ys := RingOf(T, K, X, c), RingOf(T, K, X, d);
    var gone := Dead(T, Before(K, d));
    assert ColumnFacts(T, |s|, d) && ColumnFacts(T, |s|, c);
    WithoutAgree(T.lists[d], gone + X, gone + (X + {j}));
    VRingSeated(s, c, xs, k);
    UnlinkFields(s, j);
    BypassKeepsOtherRing(Downs(s), Ups(s), Downs(r), Ups(r), c, xs, k, d, ys);
  }

  lemma UnlinkOwnColumn(s: Table, r: Table, T: Matrix, K: seq<nat>, X: set<nat>, j: nat) returns (k: nat)
    requires Ranged(s) && r == (if j < |s| then Unlink(s, j) else s) && WellFormed(T, |s|)
    requires NodeFacts(T, |s|, j) && T.col[j] !in K && !Touches(T, T.row[j], K) && j !in X
    requires ColumnRight(s, T, K, X, T.col[j]) && s[j].col == T.col[j]
    ensures Seated(s, j)
    ensures k < |RingOf(T, K, X, T.col[j])| && RingOf(T, K, X, T.col[j])[k] == j
    ensures ColumnRight(r, T, K, X + {j}, T.col[j])
  {
    var c := T.col[j];
    var xs := RingOf(T, K, X, c);
    assert ColumnFacts(T, |s|, c);
    assert HitBy(T, T.row[j], c, j);
    k := WithoutOneMore(T.lists[c], Dead(T, K) + X, j);
    assert Dead(T, K) + (X + {j}) == Dead(T, K) + X + {j};
    VRingSeated(s, c, xs, k);
    UnlinkFields(s, j);
    BypassShortensRing(Downs(s), Ups(s), Downs(r), Ups(r), c, xs, k);
  }

  /** One more removal of an alive node moves from one stage to the next. */
  lemma UnlinkStage(s: Table, T: Matrix, K: seq<nat>, X: set<nat>, H: seq<nat>, j: nat)
    requires Stage(s, T, K, X, H)
    requires NodeFacts(T, |s|, j) && T.col[j] !in K && !Touches(T, T.row[j], K) && j !in X
    ensures Seated(s, j) && Stage(Unlink(s, j), T, K, X + {j}, H)
  {
    var r := Unlink(s, j);
    assert ColumnRight(s, T, K, X, T.col[j]) && RowRight(s, T, j);
    var k := UnlinkOwnColumn(s, r, T, K, X, j);
    UnlinkFields(s, j);
    RowsRightKept(s, r, T);
    assert Rights(r) == Rights(s) && Lefts(r) == Lefts(s);
    forall d | d in T.lists ensures ColumnRight(r, T, K, X + {j}, d) {
      assert ColumnRight(s, T, K, X, d);
      if d != T.col[j] {
        UnlinkOtherColumn(s, r, T, K, X, j, k, d);
      }
    }
  }

  lemma HeaderRingShortens(s: Table, T: Matrix, K: seq<nat>, c: nat)
    requires Ranged(s) && Distinct(T.cols) && HRing(s, Active(T, K)) && c in T.cols && c !in K
    ensures c < |s| && SeatedHeader(s, c)
    ensures HRing(UnlinkHeader(s, c), Active(T, K + [c]))
    ensures s[c].left == ROOT || s[c].left in T.cols
    ensures s[c].right == ROOT || s[c].right in T.cols
  {
    var xs := Active(T, K);
    var k := WithoutOneMore(T.cols, ToSet(K), c);
    assert ToSet(K + [c]) == ToSet(K) + {c};
    HRingSeated(s, xs, k);
    var r := UnlinkHeader(s, c);
    BypassShortensRing(Rights(s), Lefts(s), Rights(r), Lefts(r), ROOT, xs, k);
    RingSeats(Rights(s), Lefts(s), ROOT, xs, k);
  }

  lemma HeaderKeepsRows(s: Table, T: Matrix, c: nat)
    requires Ranged(s) && WellFormed(T, |s|) && RowsRight(s, T) && c < |s| && SeatedHeader(s, c)
    requires s[c].left == ROOT || s[c].left in T.cols
    requires s[c].right == ROOT || s[c].right in T.cols
    ensures RowsRight(UnlinkHeader(s, c), T)
  {
    UnlinkHeaderFields(s, c);
    assert s[c].left in T.cols ==> ColumnFacts(T, |s|, s[c].left);
    assert s[c].right in T.cols ==> ColumnFacts(T, |s|, s[c].right);
    forall n | n in T.col ensures n != s[c].left && n != s[c].right {
      assert NodeFacts(T, |s|, n);
    }
    RowsRightKept(s, UnlinkHeader(s, c), T);
  }

  lemma HeaderKeepsColumn(s: Table, r: Table, T: Matrix, K: seq<nat>, d: nat)
    requires d in T.lists && ColumnRight(s, T, K, {}, d)
    requires |r| == |s| && Downs(r) == Downs(s) && Ups(r) == Ups(s)
    requires forall n :: 0 <= n < |s| ==> r[n].size == s[n].size
    ensures ColumnRight(r, T, K, {}, d)
  {
  }

  /** Taking the header out keeps every column ring. */
  lemma UnlinkHeaderStage(s: Table, T: Matrix, K: seq<nat>, c: nat)
    requires Inv(s, T, K) && c in T.cols && c !in K
    ensures c < |s| && SeatedHeader(s, c)
    ensures Stage(UnlinkHeader(s, c), T, K, {}, Active(T, K + [c]))
  {
    HeaderRingShortens(s, T, K, c);
    HeaderKeepsRows(s, T, c);
    UnlinkHeaderFields(s, c);
    var r := UnlinkHeader(s, c);
    assert Downs(r) == Downs(s) && Ups(r) == Ups(s);
    forall d | d in T.lists ensures ColumnRight(r, T, K, {}, d) {
      assert ColumnRight(s, T, K, {}, d);
      HeaderKeepsColumn(s, r, T, K, d);
    }
  }

  /** The nodes that covering `c` removes, in order. */
  ghost function Visits(T: Matrix, size: nat, K: seq<nat>, c: nat): seq<nat>
    requires WellFormed(T, size) && c in T.cols && c !in K
  {
    OrderFacts(T, size, K, c);
    Order(T, RingOf(T, K, {}, c))
  }

  lemma VisitFacts(T: Matrix, size: nat, K: seq<nat>, c: nat, n: nat)
    requires WellFormed(T, size) && c in T.cols && c !in K && n < |Visits(T, size, K, c)|
    ensures var js := Visits(T, size, K, c);
      && NodeFacts(T, size, js[n]) && T.col[js[n]] !in K && !Touches(T, T.row[js[n]], K) && js[n] !in js[..n]
  {
    OrderFacts(T, size, K, c);
    var js := Visits(T, size, K, c);
    assert js[n] in js;
  }

  /** The table when covering `c` has made its first `n` removals. */
  ghost function CoverPart(s: Table, T: Matrix, K: seq<nat>, c: nat, n: nat): (r: Table)
    requires Ranged(s) && WellFormed(T, |s|) && c in T.cols && c !in K && n <= |Visits(T, |s|, K, c)|
    ensures |r| == |s| && Ranged(r)
  {
    if n == 0 then
      assert ColumnFacts(T, |s|, c);
      UnlinkHeader(s, c)
    else
      VisitFacts(T, |s|, K, c, n - 1);
      Unlink(CoverPart(s, T, K, c, n - 1), Visits(T, |s|, K, c)[n - 1])
  }

  lemma CoverPartStep(s: Table, T: Matrix, K: seq<nat>, c: nat, n: nat)
    requires Ranged(s) && WellFormed(T, |s|) && c in T.cols && c !in K && n < |Visits(T, |s|, K, c)|
    requires Stage(CoverPart(s, T, K, c, n), T, K, ToSet(Visits(T, |s|, K, c)[..n]), Active(T, K + [c]))
    ensures var js := Visits(T, |s|, K, c); var p := CoverPart(s, T, K, c, n);
      && js[n] < |s| && Seated(p, js[n])
      && Stage(Unlink(p, js[n]), T, K, ToSet(js[..n + 1]), Active(T, K + [c]))
  {
    hide *;
    var js := Visits(T, |s|, K, c);
    VisitFacts(T, |s|, K, c, n);
    UnlinkStage(CoverPart(s, T, K, c, n), T, K, ToSet(js[..n]), Active(T, K + [c]), js[n]);
    assert ToSet(js[..n + 1]) == ToSet(js[..n]) + {js[n]};
  }

  lemma CoverPartStage(s: Table, T: Matrix, K: seq<nat>, c: nat, n: nat)
    requires Inv(s, T, K) && c in T.cols && c !in K && n <= |Visits(T, |s|, K, c)|
    ensures Stage(CoverPart(s, T, K, c, n), T, K, ToSet(Visits(T, |s|, K, c)[..n]), Active(T, K + [c]))
  {
    hide WellFormed, NodeFacts, RowsRight, HRing, ColumnRight, Touches, Active, Visits, Ranged;
    if n == 0 {
      UnlinkHeaderStage(s, T, K, c);
      assert ToSet(Visits(T, |s|, K, c)[..0]) == {};
    } else {
      CoverPartStage(s, T, K, c, n - 1);
      CoverPartStep(s, T, K, c, n - 1);
    }
  }

  /** The table when `c` has been covered. */
  ghost function CoverOf(s: Table, T: Matrix, K: seq<nat>, c: nat): (r: Table)
    requires Inv(s, T, K) && c in T.cols && c !in K
    ensures |r| == |s| && Inv(r, T, K + [c])
  {
    CoverDone(s, T, K, c);
    CoverPart(s, T, K, c, |Visits(T, |s|, K, c)|)
  }

  lemma BeforeSnoc(K: seq<nat>, c: nat, d: nat)
    requires c !in K
    ensures Before(K + [c], d) == if d == c || d in K then Before(K, d) else K + [c]
  {
    assert (K + [c])[..|K|] == K;
  }

  /** A node is alive after covering `c` iff it was before and covering `c` did not remove it. */
  lemma DeadSnoc(T: Matrix, size: nat, K: seq<nat>, c: nat, n: nat)
    requires WellFormed(T, size) && c in T.cols && c !in K && NodeFacts(T, size, n) && T.col[n] != c
    ensures n in Dead(T, K + [c]) <==> n in Dead(T, K) || n in Visits(T, size, K, c)
  {
    RingFacts(T, size, K, c);
    OrderFacts(T, size, K, c);
    var r := T.row[n];
    if n in Dead(T, K) {
      var d :| d in K && Hits(T, r, d);
      assert d in K + [c];
    } else if n in Dead(T, K + [c]) {
      var d :| d in K + [c] && Hits(T, r, d);
      assert d == c;
      var m :| HitBy(T, r, c, m);
      assert NodeFacts(T, size, m);
      assert SameRow(T, m, n);
      assert m in T.lists[c] && m in RingOf(T, K, {}, c);
      assert n in T.others[m];
    }
    if n in Visits(T, size, K, c) {
      assert c in K + [c] && Hits(T, r, c);
    }
  }

  lemma CoveredRing(T: Matrix, size: nat, K: seq<nat>, c: nat, d: nat)
    requires WellFormed(T, size) && c in T.cols && c !in K && d in T.lists && d in T.cols
    ensures RingOf(T, K, ToSet(Visits(T, size, K, c)), d) == RingOf(T, K + [c], {}, d)
  {
    var X := ToSet(Visits(T, size, K, c));
    OrderFacts(T, size, K, c);
    BeforeSnoc(K, c, d);
    assert ColumnFacts(T, size, d);
    forall n | n in T.lists[d]
      ensures n in Dead(T, Before(K, d)) + X <==> n in Dead(T, Before(K + [c], d)) + {}
    {
      assert NodeFacts(T, size, n);
      if d !in K && d != c {
        assert Before(K, d) == K;
        DeadSnoc(T, size, K, c, n);
      }
    }
    WithoutAgree(T.lists[d], Dead(T, Before(K, d)) + X, Dead(T, Before(K + [c], d)) + {});
  }

  lemma CoverDone(s: Table, T: Matrix, K: seq<nat>, c: nat)
    requires Inv(s, T, K) && c in T.cols && c !in K
    ensures Inv(CoverPart(s, T, K, c, |Visits(T, |s|, K, c)|), T, K + [c])
  {
    var js := Visits(T, |s|, K, c);
    var r := CoverPart(s, T, K, c, |js|);
    assert js[..|js|] == js;
    CoverPartStage(s, T, K, c, |js|);
    forall d | d in T.lists ensures ColumnRight(r, T, K + [c], {}, d) {
      assert ColumnRight(r, T, K, ToSet(js), d);
      CoveredRing(T, |s|, K, c, d);
    }
  }

  /** Every removal of a cover finds its node seated, so each can be undone. */
  lemma CoverPartSeats(s: Table, T: Matrix, K: seq<nat>, c: nat, n: nat)
    requires Inv(s, T, K) && c in T.cols && c !in K && n < |Visits(T, |s|, K, c)|
    ensures var j := Visits(T, |s|, K, c)[n]; var p := CoverPart(s, T, K, c, n); var q := CoverPart(s, T, K, c, n + 1);
      j < |s| && q == Unlink(p, j) && Relink(q, j) == p
  {
    var js := Visits(T, |s|, K, c);
    var p := CoverPart(s, T, K, c, n);
    CoverPartStage(s, T, K, c, n);
    VisitFacts(T, |s|, K, c, n);
    UnlinkStage(p, T, K, ToSet(js[..n]), Active(T, K + [c]), js[n]);
    RelinkUndoesUnlink(p, js[n]);
  }

  /** Position `k` of the rest of the `i`-th row, in the order of visits. */
  lemma {:induction false} OrderAt(T: Matrix, vs: seq<nat>, i: nat)
    requires i < |vs| && forall v :: v in vs ==> v in T.others
    ensures vs[i] in T.others
    ensures forall v :: v in vs[..i] ==> v in T.others
    ensures forall v :: v in vs[..i + 1] ==> v in T.others
    ensures Order(T, vs[..i + 1]) == Order(T, vs[..i]) + T.others[vs[i]]
    ensures Order(T, vs[..i + 1]) <= Order(T, vs)
  {
    assert vs[i] in vs;
    assert vs[..i + 1][..i] == vs[..i];
    var front := vs[..|vs| - 1];
    if i + 1 < |vs| {
      OrderAt(T, front, i);
      assert front[..i + 1] == vs[..i + 1];
    } else {
      assert vs[..i + 1] == vs;
    }
  }

  /** The ring of a column being covered keeps its nodes throughout. */
  lemma CoverPartColumn(s: Table, T: Matrix, K: seq<nat>, c: nat, n: nat)
    requires Inv(s, T, K) && c in T.cols && c !in K && n <= |Visits(T, |s|, K, c)|
    ensures VRing(CoverPart(s, T, K, c, n), c, RingOf(T, K, {}, c))
  {
    OrderFacts(T, |s|, K, c);
    var js := Visits(T, |s|, K, c);
    assert ColumnFacts(T, |s|, c);
    CoverPartStage(s, T, K, c, n);
    assert ColumnRight(CoverPart(s, T, K, c, n), T, K, ToSet(js[..n]), c);
    WithoutAgree(T.lists[c], Dead(T, Before(K, c)) + ToSet(js[..n]), Dead(T, Before(K, c)) + {});
  }

  // ----- covering several columns -----

  /** `cs` are further columns that can be covered one after the other. */
  ghost predicate Coverable(T: Matrix, K: seq<nat>, cs: seq<nat>) {
    Distinct(K + cs) && forall c :: c in cs ==> c in T.cols
  }

  lemma CoverableSnoc(T: Matrix, K: seq<nat>, cs: seq<nat>, k: nat)
    requires Coverable(T, K, cs) && k < |cs|
    ensures Coverable(T, K, cs[..k]) && cs[k] in T.cols && cs[k] !in K + cs[..k]
    ensures (K + cs[..k]) + [cs[k]] == K + cs[..k + 1]
  {
    var all := K + cs;
    assert cs[k] == all[|K| + k];
    forall i | 0 <= i < |K| + k ensures (K + cs[..k])[i] == all[i] {
    }
    assert cs[k] in cs;
  }

  ghost function CoverMany(s: Table, T: Matrix, K: seq<nat>, cs: seq<nat>, k: nat): (r: Table)
    requires Inv(s, T, K) && Coverable(T, K, cs) && k <= |cs|
    ensures |r| == |s| && Inv(r, T, K + cs[..k])
  {
    if k == 0 then
      assert K + cs[..0] == K;
      s
    else
      CoverableSnoc(T, K, cs, k - 1);
      CoverOf(CoverMany(s, T, K, cs, k - 1), T, K + cs[..k - 1], cs[k - 1])
  }

  lemma ConcatAssoc(a: seq<nat>, b: nat, c: seq<nat>)
    ensures (a + [b]) + c == a + ([b] + c)
  {
  }

  /** The other columns of an alive row can be covered after its own. */
  lemma OthersCoverable(T: Matrix, size: nat, K: seq<nat>, v: nat)
    requires WellFormed(T, size) && Distinct(K) && NodeFacts(T, size, v) && !Touches(T, T.row[v], K)
    ensures Coverable(T, K + [T.col[v]], OtherCols(T, size, v))
    ensures (K + [T.col[v]]) + OtherCols(T, size, v) == K + Picked(T, size, v)
  {
    PickedAreHit(T, size, v);
    PickedDistinct(T, size, v);
    var p := Picked(T, size, v);
    DistinctConcat(K, p);
    ConcatAssoc(K, T.col[v], OtherCols(T, size, v));
    forall d | d in OtherCols(T, size, v) ensures d in T.cols {
      assert d in p;
    }
  }

  /** Branching on column `c` is complete: a cover must use one of the alive rows that hit it. */
  lemma BranchComplete(T: Matrix, size: nat, K: seq<nat>, c: nat)
    requires WellFormed(T, size) && c in T.cols && c !in K
    ensures c in T.lists
    ensures forall v :: v in RingOf(T, K, {}, c) ==> NodeFacts(T, size, v) && T.col[v] == c && !Touches(T, T.row[v], K)
    ensures Solvable(T, K) <==> exists v :: v in RingOf(T, K, {}, c) && Solvable(T, K + Picked(T, size, v))
  {
    RingFacts(T, size, K, c);
    if Solvable(T, K) {
      var E :| Covers(T, K, E);
      assert HitIn(T, E, c);
      var r :| r in E && Hits(T, r, c);
      var m :| HitBy(T, r, c, m);
      assert ColumnFacts(T, size, c);
      assert m in RingOf(T, K, {}, c);
      ChooseRow(T, size, K, m, E);
      assert Solvable(T, K + Picked(T, size, m));
    }
    if v :| v in RingOf(T, K, {}, c) && Solvable(T, K + Picked(T, size, v)) {
      var E :| Covers(T, K + Picked(T, size, v), E);
      UseRow(T, size, K, v, E);
    }
  }

  // ----- walking the rings -----

  /** Position `k` of a ring: its k-th node, and the head before and after them. */
  ghost function At(head: nat, xs: seq<nat>, k: int): nat {
    if 0 <= k < |xs| then xs[k] else head
  }

  lemma RingStart(next: seq<nat>, prev: seq<nat>, c: nat, xs: seq<nat>)
    requires Ring(next, prev, c, xs)
    ensures c < |next| && next[c] == At(c, xs, 0) && prev[c] == At(c, xs, |xs| - 1)
  {
  }

  lemma RingStep(next: seq<nat>, prev: seq<nat>, c: nat, xs: seq<nat>, k: nat)
    requires Ring(next, prev, c, xs) && k < |xs|
    ensures xs[k] < |next| && xs[k] != c && next[xs[k]] == At(c, xs, k + 1) && prev[xs[k]] == At(c, xs, k - 1)
  {
    assert next[xs[k]] == if k + 1 < |xs| then xs[k + 1] else c;
  }

  /** Row links never change, whatever has been covered. */
  lemma RowStart(s: Table, T: Matrix, K: seq<nat>, X: set<nat>, H: seq<nat>, v: nat)
    requires Stage(s, T, K, X, H) && NodeFacts(T, |s|, v)
    ensures s[v].right == At(v, T.others[v], 0) && s[v].left == At(v, T.others[v], |T.others[v]| - 1)
    ensures s[v].col == T.col[v] && s[v].name == T.name[v]
  {
    assert RowRight(s, T, v);
    RingStart(Rights(s), Lefts(s), v, T.others[v]);
  }

  lemma RowStep(s: Table, T: Matrix, K: seq<nat>, X: set<nat>, H: seq<nat>, v: nat, k: nat)
    requires Stage(s, T, K, X, H) && NodeFacts(T, |s|, v) && k < |T.others[v]|
    ensures NodeFacts(T, |s|, T.others[v][k]) && T.others[v][k] != v
    ensures var n := s[T.others[v][k]];
      && n.right == At(v, T.others[v], k + 1) && n.left == At(v, T.others[v], k - 1)
      && n.col == T.col[T.others[v][k]] && n.name == T.name[T.others[v][k]]
  {
    var m := T.others[v][k];
    assert m in T.others[v];
    assert RowRight(s, T, v) && RowRight(s, T, m);
    RingStep(Rights(s), Lefts(s), v, T.others[v], k);
    assert NodeFacts(T, |s|, m);
  }

  /** How far covering `c` is when the first `i` rows of its ring are done. */
  ghost function Done(T: Matrix, size: nat, K: seq<nat>, c: nat, i: nat): nat
    requires WellFormed(T, size) && c in T.cols && c !in K && c in T.lists && i <= |RingOf(T, K, {}, c)|
  {
    if i == 0 then 0 else
    RingFacts(T, size, K, c);
    OrderAt(T, RingOf(T, K, {}, c), i - 1);
    |Order(T, RingOf(T, K, {}, c)[..i])|
  }

  lemma DoneBounds(T: Matrix, size: nat, K: seq<nat>, c: nat, i: nat)
    requires WellFormed(T, size) && c in T.cols && c !in K && c in T.lists && i <= |RingOf(T, K, {}, c)|
    ensures Done(T, size, K, c, i) <= |Visits(T, size, K, c)|
    ensures i == |RingOf(T, K, {}, c)| ==> Done(T, size, K, c, i) == |Visits(T, size, K, c)|
  {
    var vs := RingOf(T, K, {}, c);
    RingFacts(T, size, K, c);
    assert vs[..|vs|] == vs;
    if i > 0 {
      OrderAt(T, vs, i - 1);
    }
  }

  /** Where the k-th node of the rest of the i-th row stands among the visits. */
  lemma VisitAt(T: Matrix, size: nat, K: seq<nat>, c: nat, i: nat)
    requires WellFormed(T, size) && c in T.cols && c !in K && c in T.lists && i < |RingOf(T, K, {}, c)|
    ensures NodeFacts(T, size, RingOf(T, K, {}, c)[i])
    ensures var o := T.others[RingOf(T, K, {}, c)[i]]; var n := Done(T, size, K, c, i); var js := Visits(T, size, K, c);
      n + |o| == Done(T, size, K, c, i + 1) <= |js| && js[n..n + |o|] == o
  {
    var vs := RingOf(T, K, {}, c);
    RingFacts(T, size, K, c);
    OrderAt(T, vs, i);
    assert vs[i] in vs && vs[..0] == [];
    DoneBounds(T, size, K, c, i + 1);
    var n := Done(T, size, K, c, i);
    var o := T.others[vs[i]];
    var js := Visits(T, size, K, c);
    assert Order(T, vs[..i + 1])[n..] == o;
    assert js[..n + |o|] == Order(T, vs[..i + 1]);
    assert js[n..n + |o|] == js[..n + |o|][n..];
  }

  lemma VisitIndex(T: Matrix, size: nat, K: seq<nat>, c: nat, i: nat, k: nat, v: nat)
    requires WellFormed(T, size) && c in T.cols && c !in K && c in T.lists
    requires i < |RingOf(T, K, {}, c)| && v == RingOf(T, K, {}, c)[i] && v in T.others && k < |T.others[v]|
    ensures Done(T, size, K, c, i) + k < |Visits(T, size, K, c)|
    ensures Visits(T, size, K, c)[Done(T, size, K, c, i) + k] == T.others[v][k]
  {
    hide *;
    VisitAt(T, size, K, c, i);
    var n := Done(T, size, K, c, i);
    var js := Visits(T, size, K, c);
    assert js[n + k] == js[n..n + |T.others[v]|][k];
  }

  // The table in the middle of a cover, and the facts one move of the two loops needs.

  /** `t` is `s` with column `c` covered as far as the first `i` rows and `k` nodes of the next. */
  ghost predicate Partway(t: Table, s: Table, T: Matrix, K: seq<nat>, c: nat, i: nat, k: nat) {
    && Inv(s, T, K) && c in T.cols && c !in K && c in T.lists
    && i <= |RingOf(T, K, {}, c)| && Done(T, |s|, K, c, i) + k <= |Visits(T, |s|, K, c)|
    && t == CoverPart(s, T, K, c, Done(T, |s|, K, c, i) + k)
  }

  lemma ColumnStart(t: Table, s: Table, T: Matrix, K: seq<nat>, c: nat, i: nat, vs: seq<nat>)
    requires Partway(t, s, T, K, c, i, 0) && vs == RingOf(T, K, {}, c)
    ensures i <= |vs| && c !in vs && c < |t| == |s|
    ensures t[c].down == At(c, vs, 0) && t[c].up == At(c, vs, |vs| - 1)
  {
    CoverPartColumn(s, T, K, c, Done(T, |s|, K, c, i));
    RingStart(Downs(t), Ups(t), c, vs);
  }

  lemma ColumnStep(t: Table, s: Table, T: Matrix, K: seq<nat>, c: nat, i: nat, vs: seq<nat>, m: nat)
    requires Partway(t, s, T, K, c, i, 0) && vs == RingOf(T, K, {}, c) && m < |vs|
    ensures i <= |vs| && vs[m] < |t| == |s|
    ensures t[vs[m]].down == At(c, vs, m + 1) && t[vs[m]].up == At(c, vs, m - 1)
  {
    CoverPartColumn(s, T, K, c, Done(T, |s|, K, c, i));
    RingStep(Downs(t), Ups(t), c, vs, m);
  }

  lemma RowEntered(t: Table, s: Table, T: Matrix, K: seq<nat>, c: nat, i: nat, k: nat, v: nat)
    requires Partway(t, s, T, K, c, i, k) && i < |RingOf(T, K, {}, c)| && v == RingOf(T, K, {}, c)[i]
    ensures v < |t| == |s| && v in T.others && v !in T.others[v]
    ensures t[v].right == At(v, T.others[v], 0) && t[v].left == At(v, T.others[v], |T.others[v]| - 1)
  {
    VisitAt(T, |s|, K, c, i);
    CoverPartStage(s, T, K, c, Done(T, |s|, K, c, i) + k);
    RowStart(t, T, K, ToSet(Visits(T, |s|, K, c)[..Done(T, |s|, K, c, i) + k]), Active(T, K + [c]), v);
  }

  lemma RowMoved(t: Table, s: Table, T: Matrix, K: seq<nat>, c: nat, i: nat, k: nat, v: nat, m: nat)
    requires Partway(t, s, T, K, c, i, k) && i < |RingOf(T, K, {}, c)| && v == RingOf(T, K, {}, c)[i]
    requires v in T.others && m < |T.others[v]|
    ensures T.others[v][m] < |t| == |s|
    ensures t[T.others[v][m]].right == At(v, T.others[v], m + 1) && t[T.others[v][m]].left == At(v, T.others[v], m - 1)
  {
    VisitAt(T, |s|, K, c, i);
    CoverPartStage(s, T, K, c, Done(T, |s|, K, c, i) + k);
    RowStep(t, T, K, ToSet(Visits(T, |s|, K, c)[..Done(T, |s|, K, c, i) + k]), Active(T, K + [c]), v, m);
  }

  /** One removal moves on by one node; putting that node back moves back by one. */
  lemma NodeMove(t: Table, s: Table, T: Matrix, K: seq<nat>, c: nat, i: nat, k: nat, v: nat)
    requires Partway(t, s, T, K, c, i, k) && i < |RingOf(T, K, {}, c)| && v == RingOf(T, K, {}, c)[i]
    requires v in T.others && k < |T.others[v]|
    ensures T.others[v][k] < |t| && Ranged(t)
    ensures Partway(Unlink(t, T.others[v][k]), s, T, K, c, i, k + 1)
    ensures Relink(Unlink(t, T.others[v][k]), T.others[v][k]) == t
  {
    hide WellFormed, HRing, RowsRight, ColumnRight, CoverPart, Visits, RingOf, Done, Unlink, Relink, Ranged, NodeFacts;
    VisitIndex(T, |s|, K, c, i, k, v);
    CoverPartSeats(s, T, K, c, Done(T, |s|, K, c, i) + k);
  }

  lemma PartwayBack(t: Table, s: Table, T: Matrix, K: seq<nat>, c: nat, i: nat, k: nat, v: nat) returns (p: Table)
    requires Partway(t, s, T, K, c, i, k) && i < |RingOf(T, K, {}, c)| && v == RingOf(T, K, {}, c)[i]
    requires v in T.others && 0 < k <= |T.others[v]|
    ensures T.others[v][k - 1] < |t| && Ranged(t)
    ensures p == Relink(t, T.others[v][k - 1]) && Partway(p, s, T, K, c, i, k - 1)
  {
    hide WellFormed, HRing, RowsRight, ColumnRight, Visits, RingOf, Done, Unlink, Relink, Ranged;
    p := CoverPart(s, T, K, c, Done(T, |s|, K, c, i) + k - 1);
    NodeMove(p, s, T, K, c, i, k - 1, v);
  }

  lemma RowFits(T: Matrix, size: nat, K: seq<nat>, c: nat, i: nat, v: nat)
    requires WellFormed(T, size) && c in T.cols && c !in K && c in T.lists
    requires i < |RingOf(T, K, {}, c)| && v == RingOf(T, K, {}, c)[i]
    ensures v in T.others
    ensures Done(T, size, K, c, i) + |T.others[v]| == Done(T, size, K, c, i + 1) <= |Visits(T, size, K, c)|
  {
    VisitAt(T, size, K, c, i);
  }

  lemma RowFinished(t: Table, s: Table, T: Matrix, K: seq<nat>, c: nat, i: nat, v: nat)
    requires Inv(s, T, K) && WellFormed(T, |s|) && c in T.cols && c !in K && c in T.lists
    requires i < |RingOf(T, K, {}, c)| && v == RingOf(T, K, {}, c)[i]
    ensures v in T.others
    ensures Partway(t, s, T, K, c, i, |T.others[v]|) <==> Partway(t, s, T, K, c, i + 1, 0)
  {
    hide WellFormed, CoverPart, Visits, RingOf, Done, Inv, Ranged;
    RowFits(T, |s|, K, c, i, v);
  }

  /** The first and the last step of covering, and what undoes the first. */
  lemma CoverEnds(s: Table, T: Matrix, K: seq<nat>, c: nat)
    requires Inv(s, T, K) && c in T.cols && c !in K
    ensures Ranged(s) && WellFormed(T, |s|) && c < |s| && c in T.lists
    ensures Partway(UnlinkHeader(s, c), s, T, K, c, 0, 0)
    ensures RelinkHeader(UnlinkHeader(s, c), c) == s
    ensures Partway(CoverOf(s, T, K, c), s, T, K, c, |RingOf(T, K, {}, c)|, 0)
  {
    hide RowsRight, ColumnRight, HRing;
    assert ColumnFacts(T, |s|, c);
    UnlinkHeaderStage(s, T, K, c);
    RelinkHeaderUndoesUnlinkHeader(s, c);
    DoneBounds(T, |s|, K, c, 0);
    DoneBounds(T, |s|, K, c, |RingOf(T, K, {}, c)|);
  }

  /** Where the cover stands determines the table. */
  lemma PartwayUnique(t: Table, u: Table, s: Table, T: Matrix, K: seq<nat>, c: nat, i: nat, k: nat)
    requires Partway(t, s, T, K, c, i, k) && Partway(u, s, T, K, c, i, k)
    ensures t == u
  {
  }

  // ----- covering the rest of a chosen row -----

  /** `t` is `s` with the first `k` of the other columns of node `v`'s row covered. */
  ghost predicate Deeper(t: Table, s: Table, T: Matrix, K: seq<nat>, v: nat, k: nat) {
    && Inv(s, T, K) && NodeFacts(T, |s|, v) && Coverable(T, K, OtherCols(T, |s|, v))
    && k <= |OtherCols(T, |s|, v)|
    && t == CoverMany(s, T, K, OtherCols(T, |s|, v), k)
  }

  lemma DeeperRow(t: Table, s: Table, T: Matrix, K: seq<nat>, v: nat, k: nat)
    requires Deeper(t, s, T, K, v, k)
    ensures v in T.others && v < |t| && v !in T.others[v]
    ensures t[v].right == At(v, T.others[v], 0) && t[v].left == At(v, T.others[v], |T.others[v]| - 1)
  {
    hide WellFormed, RowsRight, HRing, ColumnRight, CoverMany;
    var K2 := K + OtherCols(T, |s|, v)[..k];
    RowStart(t, T, K2, {}, Active(T, K2), v);
  }

  lemma DeeperNode(t: Table, s: Table, T: Matrix, K: seq<nat>, v: nat, k: nat, m: nat)
    requires Deeper(t, s, T, K, v, k) && v in T.others && m < |T.others[v]|
    ensures T.others[v][m] < |t| && T.others[v][m] in T.col
    ensures t[T.others[v][m]].right == At(v, T.others[v], m + 1)
    ensures t[T.others[v][m]].left == At(v, T.others[v], m - 1)
    ensures t[T.others[v][m]].col == T.col[T.others[v][m]]
  {
    hide WellFormed, RowsRight, HRing, ColumnRight, CoverMany;
    var K2 := K + OtherCols(T, |s|, v)[..k];
    RowStep(t, T, K2, {}, Active(T, K2), v, m);
  }

  /** One column deeper: from `t` the cover of that column; back by uncovering it. */
  lemma DeeperMove(s: Table, T: Matrix, K: seq<nat>, v: nat, k: nat) returns (t: Table, K2: seq<nat>)
    requires Inv(s, T, K) && NodeFacts(T, |s|, v) && Coverable(T, K, OtherCols(T, |s|, v)) && k < |T.others[v]|
    ensures T.others[v][k] in T.col
    ensures Deeper(t, s, T, K, v, k)
    ensures Inv(t, T, K2) && T.col[T.others[v][k]] in T.cols && T.col[T.others[v][k]] !in K2
    ensures Deeper(CoverOf(t, T, K2, T.col[T.others[v][k]]), s, T, K, v, k + 1)
  {
    hide WellFormed, RowsRight, HRing, ColumnRight, Stage;
    var cs := OtherCols(T, |s|, v);
    CoverableSnoc(T, K, cs, k);
    t := CoverMany(s, T, K, cs, k);
    K2 := K + cs[..k];
  }

  lemma DeeperStart(t: Table, s: Table, T: Matrix, K: seq<nat>, v: nat)
    requires Inv(s, T, K) && NodeFacts(T, |s|, v) && Coverable(T, K, OtherCols(T, |s|, v))
    ensures Deeper(t, s, T, K, v, 0) <==> t == s
  {
  }

  lemma DeeperDone(t: Table, s: Table, T: Matrix, K: seq<nat>, v: nat)
    requires NodeFacts(T, |s|, v) && Deeper(t, s, T, K, v, |T.others[v]|)
    ensures Inv(t, T, K + OtherCols(T, |s|, v)) && |t| == |s|
  {
    hide WellFormed, RowsRight, HRing, ColumnRight, Stage;
    var cs := OtherCols(T, |s|, v);
    assert cs[..|cs|] == cs;
  }

  /** One column deeper, with the right neighbour to go on to. */
  lemma Down(t: Table, s: Table, T: Matrix, K: seq<nat>, v: nat, k: nat) returns (K2: seq<nat>)
    requires Deeper(t, s, T, K, v, k) && v in T.others && k < |T.others[v]|
    ensures T.others[v][k] < |t| && Inv(t, T, K2)
    ensures t[T.others[v][k]].col in T.cols && t[T.others[v][k]].col !in K2
    ensures var u := CoverOf(t, T, K2, t[T.others[v][k]].col);
      Deeper(u, s, T, K, v, k + 1) && u[T.others[v][k]].right == At(v, T.others[v], k + 1)
  {
    var w;
    w, K2 := DeeperMove(s, T, K, v, k);
    assert w == t;
    DeeperNode(t, s, T, K, v, k, k);
    hide Inv, Deeper, CoverOf, NodeFacts;
    DeeperNode(CoverOf(t, T, K2, t[T.others[v][k]].col), s, T, K, v, k + 1, k);
  }

  /** One column back up: `u` was reached from `t` by covering one column. */
  lemma Up(u: Table, s: Table, T: Matrix, K: seq<nat>, v: nat, k: nat) returns (t: Table, K2: seq<nat>)
    requires Deeper(u, s, T, K, v, k) && v in T.others && 0 < k <= |T.others[v]|
    ensures T.others[v][k - 1] < |u| == |t| && Inv(t, T, K2)
    ensures u[T.others[v][k - 1]].col in T.cols && u[T.others[v][k - 1]].col !in K2
    ensures u == CoverOf(t, T, K2, u[T.others[v][k - 1]].col)
    ensures Deeper(t, s, T, K, v, k - 1) && t[T.others[v][k - 1]].left == At(v, T.others[v], k - 2)
  {
    t, K2 := DeeperMove(s, T, K, v, k - 1);
    assert u == CoverOf(t, T, K2, T.col[T.others[v][k - 1]]);
    DeeperNode(u, s, T, K, v, k, k - 1);
    hide Inv, Deeper, CoverOf, NodeFacts;
    DeeperNode(t, s, T, K, v, k - 1, k - 1);
  }

  // ----- the header ring and the base case -----

  lemma HeaderStart(s: Table, T: Matrix, K: seq<nat>)
    requires Inv(s, T, K)
    ensures 0 < |s| && s[ROOT].right == At(ROOT, Active(T, K), 0)
    ensures s[ROOT].left == At(ROOT, Active(T, K), |Active(T, K)| - 1)
    ensures forall c :: c in Active(T, K) <==> c in T.cols && c !in K
    ensures ROOT !in Active(T, K)
  {
    RingStart(Rights(s), Lefts(s), ROOT, Active(T, K));
  }

  lemma HeaderStep(s: Table, T: Matrix, K: seq<nat>, k: nat)
    requires Inv(s, T, K) && k < |Active(T, K)|
    ensures Active(T, K)[k] < |s| && s[Active(T, K)[k]].right == At(ROOT, Active(T, K), k + 1)
  {
    RingStep(Rights(s), Lefts(s), ROOT, Active(T, K), k);
  }

  /** The size of every column is the length of its ring, which holds the nodes of the rows that
      were alive when the column was covered, or are alive if it is open. */
  lemma SizeIsRingLength(s: Table, T: Matrix, K: seq<nat>, c: nat)
    requires Inv(s, T, K) && c in T.cols
    ensures c in T.lists && c < |s| && s[c].size == |RingOf(T, K, {}, c)| && VRing(s, c, RingOf(T, K, {}, c))
    ensures Distinct(RingOf(T, K, {}, c))
    ensures forall n :: n in RingOf(T, K, {}, c) <==>
      n in T.col && n in T.row && T.col[n] == c && !Touches(T, T.row[n], Before(K, c))
    ensures c !in K ==> Before(K, c) == K
  {
    assert ColumnFacts(T, |s|, c);
    assert ColumnRight(s, T, K, {}, c);
    WithoutDistinct(T.lists[c], Dead(T, Before(K, c)) + {});
    forall n ensures n in RingOf(T, K, {}, c) <==>
      n in T.col && n in T.row && T.col[n] == c && !Touches(T, T.row[n], Before(K, c)) {
      if n in T.col && n in T.row && T.col[n] == c {
        assert HitBy(T, T.row[n], c, n);
      }
      if n in T.lists[c] {
        assert NodeFacts(T, |s|, n);
      }
    }
  }

  lemma ActiveShrinks(T: Matrix, K: seq<nat>, cs: seq<nat>)
    requires Distinct(T.cols) && Distinct(K + cs) && (forall c :: c in K + cs ==> c in T.cols)
    ensures |K| + |cs| <= |T.cols|
  {
    DistinctFits(K + cs, T.cols);
  }

  lemma DistinctFits(xs: seq<nat>, ys: seq<nat>)
    requires Distinct(xs) && forall x :: x in xs ==> x in ys
    ensures |xs| <= |ys|
  {
    if xs != [] {
      var last := xs[|xs| - 1];
      assert last in xs;
      var k :| 0 <= k < |ys| && ys[k] == last;
      var front := xs[..|xs| - 1];
      forall x | x in front ensures x in Drop(ys, k) {
        assert x in xs;
        var i :| 0 <= i < |ys| && ys[i] == x;
        assert Drop(ys, k)[if i < k then i else i - 1] == x;
      }
      DistinctFits(front, Drop(ys, k));
    }
  }
}
