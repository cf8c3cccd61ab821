/** The dancing-links search itself, on the node table in place. */
module DancingSearch {
  import opened DancingLinks
  import opened ExactCover

  /** Cell and value of a row; the construction numbers rows `cell * 10 + value`. */
  function CellOf(r: nat): nat { r / 10 }
  function ValueOf(r: nat): nat { r % 10 }

  /** The row of node `v` from `v` on rightwards. */
  ghost function RowRing(T: Matrix, v: nat): seq<nat>
    requires v in T.others
  {
    [v] + T.others[v]
  }

  ghost predicate NamesCell(T: Matrix, m: nat) {
    m in T.name && T.name[m] < 100
  }

  /** Names below 100 are cells, the others carry the value in their last digit. */
  ghost predicate NamedFor(T: Matrix, r: nat, m: nat) {
    && m in T.name && 0 <= T.name[m]
    && if T.name[m] < 100 then T.name[m] == CellOf(r) else T.name[m] % 10 == ValueOf(r)
  }

  /** The names of the row of `v` spell its cell and value, each at least once. */
  ghost predicate Labelled(T: Matrix, v: nat) {
    && v in T.row && v in T.others
    && CellOf(T.row[v]) < 81
    && (forall m :: m in RowRing(T, v) ==> NamedFor(T, T.row[v], m))
    && (exists m :: m in RowRing(T, v) && NamesCell(T, m))
    && (exists m :: m in RowRing(T, v) && !NamesCell(T, m))
  }

  ghost predicate AllLabelled(T: Matrix) {
    forall n {:trigger Labelled(T, n)} :: n in T.col ==> Labelled(T, n)
  }

  ghost function RowsOf(T: Matrix, st: seq<nat>): set<nat>
    requires forall n :: n in st ==> n in T.row
  {
    set n | n in st :: T.row[n]
  }

  /** The board after the rows of the stacked nodes are written into it. */
  ghost function Written(T: Matrix, b: seq<int>, st: seq<nat>): (r: seq<int>)
    requires |b| == 81 && forall n :: n in st ==> Labelled(T, n)
    ensures |r| == 81
  {
    if st == [] then b else
    var n := st[|st| - 1];
    assert n in st && Labelled(T, n);
    Written(T, b, st[..|st| - 1])[CellOf(T.row[n]) := ValueOf(T.row[n])]
  }

  /** The rows pushed since `before` cover exactly the columns that `K` leaves. */
  ghost predicate Found(T: Matrix, K: seq<nat>, before: seq<nat>, after: seq<nat>) {
    && before <= after
    && (forall n :: n in after ==> n in T.col && n in T.row && Labelled(T, n))
    && Covers(T, K, RowsOf(T, after[|before|..]))
  }

  /** Choosing the row of `v` leads nowhere. */
  ghost predicate Refuted(T: Matrix, size: nat, K: seq<nat>, v: nat) {
    NodeFacts(T, size, v) && !Solvable(T, K + Picked(T, size, v))
  }

  lemma BaseFound(T: Matrix, s: Table, K: seq<nat>, st: seq<nat>)
    requires Inv(s, T, K) && AllLabelled(T) && forall n :: n in st ==> n in T.col
    requires s[ROOT].left == ROOT
    ensures Found(T, K, st, st) && Solvable(T, K)
    ensures forall n :: n in st ==> Labelled(T, n)
  {
    HeaderStart(s, T, K);
    forall n | n in st ensures n in T.row && Labelled(T, n) {
      assert NodeFacts(T, |s|, n);
    }
    forall c | c in T.cols ensures c in K {
      assert c in K || c in Active(T, K);
    }
    NothingToCover(T, K);
    assert RowsOf(T, st[|st|..]) == {};
  }

  /** What the row loop may rely on: the covered table and its ring of candidate rows. */
  lemma CoveredStart(t: Table, s: Table, T: Matrix, K: seq<nat>, c: nat, vs: seq<nat>)
    requires Inv(s, T, K) && c in T.cols && c !in K && c in T.lists && vs == RingOf(T, K, {}, c)
    requires t == CoverOf(s, T, K, c)
    ensures WellFormed(T, |s|) && c < |t| == |s| && Inv(t, T, K + [c]) && c !in vs
    ensures t[c].down == At(c, vs, 0)
  {
    CoverPartColumn(s, T, K, c, |Visits(T, |s|, K, c)|);
    RingStart(Downs(t), Ups(t), c, vs);
  }

  lemma CoveredStep(t: Table, s: Table, T: Matrix, K: seq<nat>, c: nat, vs: seq<nat>, i: nat)
    requires Inv(s, T, K) && c in T.cols && c !in K && c in T.lists && vs == RingOf(T, K, {}, c)
    requires t == CoverOf(s, T, K, c) && i < |vs|
    ensures vs[i] < |t| == |s| && t[vs[i]].down == At(c, vs, i + 1)
    ensures NodeFacts(T, |s|, vs[i]) && vs[i] in T.col && vs[i] in T.row && T.col[vs[i]] == c
    ensures !Touches(T, T.row[vs[i]], K)
    ensures Coverable(T, K + [c], OtherCols(T, |s|, vs[i]))
    ensures (K + [c]) + OtherCols(T, |s|, vs[i]) == K + Picked(T, |s|, vs[i])
    ensures |K + Picked(T, |s|, vs[i])| <= |T.cols| && |K| < |K + Picked(T, |s|, vs[i])|
  {
    CoverPartColumn(s, T, K, c, |Visits(T, |s|, K, c)|);
    RingStep(Downs(t), Ups(t), c, vs, i);
    RingFacts(T, |s|, K, c);
    assert vs[i] in vs;
    OthersCoverable(T, |s|, K, vs[i]);
    ActiveShrinks(T, K + [c], OtherCols(T, |s|, vs[i]));
  }

  lemma StepFound(T: Matrix, size: nat, K: seq<nat>, v: nat, before: seq<nat>, after: seq<nat>)
    requires WellFormed(T, size) && NodeFacts(T, size, v) && !Touches(T, T.row[v], K)
    requires Found(T, K + Picked(T, size, v), before + [v], after)
    ensures Found(T, K, before, after) && Solvable(T, K)
  {
    var more := after[|before| + 1..];
    assert after[|before|..] == [v] + more;
    assert RowsOf(T, after[|before|..]) == RowsOf(T, more) + {T.row[v]};
    UseRow(T, size, K, v, RowsOf(T, more));
  }

  lemma AllRefuted(T: Matrix, size: nat, K: seq<nat>, c: nat, vs: seq<nat>)
    requires WellFormed(T, size) && c in T.cols && c !in K && c in T.lists && vs == RingOf(T, K, {}, c)
    requires forall m :: 0 <= m < |vs| ==> Refuted(T, size, K, vs[m])
    ensures !Solvable(T, K)
  {
    BranchComplete(T, size, K, c);
  }

  class SudokuSolver {
    const nodes: array<Node>
    const inout: array<int>
    var stack: seq<nat>
    ghost const T: Matrix

    constructor (nodes: array<Node>, inout: array<int>, ghost T: Matrix)
      ensures this.nodes == nodes && this.inout == inout && this.T == T && stack == []
    {
      this.nodes := nodes;
      this.inout := inout;
      this.T := T;
      stack := [];
    }

    // The statements of one removal and one restoration, of a node and of a header.

    method UnlinkNode(j: nat)
      requires Ranged(nodes[..]) && j < nodes.Length
      modifies nodes
      ensures nodes[..] == Unlink(old(nodes[..]), j)
    {
      nodes[nodes[j].down] := nodes[nodes[j].down].(up := nodes[j].up);
      nodes[nodes[j].up] := nodes[nodes[j].up].(down := nodes[j].down);
      nodes[nodes[j].col] := nodes[nodes[j].col].(size := nodes[nodes[j].col].size - 1);
    }

    method RelinkNode(j: nat)
      requires Ranged(nodes[..]) && j < nodes.Length
      modifies nodes
      ensures nodes[..] == Relink(old(nodes[..]), j)
    {
      nodes[nodes[j].col] := nodes[nodes[j].col].(size := nodes[nodes[j].col].size + 1);
      nodes[nodes[j].down] := nodes[nodes[j].down].(up := j);
      nodes[nodes[j].up] := nodes[nodes[j].up].(down := j);
    }

    method UnlinkHeaderNode(c: nat)
      requires Ranged(nodes[..]) && c < nodes.Length
      modifies nodes
      ensures nodes[..] == UnlinkHeader(old(nodes[..]), c)
    {
      nodes[nodes[c].right] := nodes[nodes[c].right].(left := nodes[c].left);
      nodes[nodes[c].left] := nodes[nodes[c].left].(right := nodes[c].right);
    }

    method RelinkHeaderNode(c: nat)
      requires Ranged(nodes[..]) && c < nodes.Length
      modifies nodes
      ensures nodes[..] == RelinkHeader(old(nodes[..]), c)
    {
      nodes[nodes[c].right] := nodes[nodes[c].right].(left := c);
      nodes[nodes[c].left] := nodes[nodes[c].left].(right := c);
    }

    // The inner loops: the rest of one row, rightwards to remove and leftwards to restore.

    method UnlinkRow(row: nat, ghost s: Table, ghost K: seq<nat>, ghost c: nat, ghost i: nat)
      requires Inv(s, T, K) && WellFormed(T, |s|) && c in T.cols && c !in K && c in T.lists
      requires Partway(nodes[..], s, T, K, c, i, 0) && i < |RingOf(T, K, {}, c)| && row == RingOf(T, K, {}, c)[i]
      modifies nodes
      ensures Partway(nodes[..], s, T, K, c, i + 1, 0)
    {
      hide Partway, RingOf, Unlink, Relink, Inv, WellFormed;
      RowEntered(nodes[..], s, T, K, c, i, 0, row);
      ghost var o := T.others[row];
      ghost var k: nat := 0;
      var j := nodes[row].right;
      while j != row
        invariant 0 <= k <= |o| && j == At(row, o, k)
        invariant Partway(nodes[..], s, T, K, c, i, k)
        decreases |o| - k
      {
        NodeMove(nodes[..], s, T, K, c, i, k, row);
        UnlinkNode(j);
        RowMoved(nodes[..], s, T, K, c, i, k + 1, row, k);
        k := k + 1;
        j := nodes[j].right;
      }
      RowFinished(nodes[..], s, T, K, c, i, row);
    }

    method RelinkRow(row: nat, ghost s: Table, ghost K: seq<nat>, ghost c: nat, ghost i: nat)
      requires Inv(s, T, K) && WellFormed(T, |s|) && c in T.cols && c !in K && c in T.lists
      requires Partway(nodes[..], s, T, K, c, i + 1, 0) && i < |RingOf(T, K, {}, c)| && row == RingOf(T, K, {}, c)[i]
      modifies nodes
      ensures Partway(nodes[..], s, T, K, c, i, 0)
    {
      hide Partway, RingOf, Unlink, Relink, Inv, WellFormed;
      RowFinished(nodes[..], s, T, K, c, i, row);
      ghost var o := T.others[row];
      ghost var k: nat := |o|;
      RowEntered(nodes[..], s, T, K, c, i, k, row);
      var j := nodes[row].left;
      while j != row
        invariant 0 <= k <= |o| && j == At(row, o, k - 1)
        invariant Partway(nodes[..], s, T, K, c, i, k)
        decreases k
      {
        ghost var p := PartwayBack(nodes[..], s, T, K, c, i, k, row);
        k := k - 1;
        RelinkNode(j);
        RowMoved(nodes[..], s, T, K, c, i, k, row, k);
        j := nodes[j].left;
      }
    }

    method Cover(c: nat, ghost s: Table, ghost K: seq<nat>)
      requires Inv(s, T, K) && c in T.cols && c !in K
      requires nodes[..] == s
      modifies nodes
      ensures nodes[..] == CoverOf(s, T, K, c)
    {
      hide Inv, Partway, RingOf, UnlinkHeader, CoverOf, RelinkHeader, WellFormed, Ranged;
      CoverEnds(s, T, K, c);
      ghost var vs := RingOf(T, K, {}, c);
      UnlinkHeaderNode(c);
      ColumnStart(nodes[..], s, T, K, c, 0, vs);
      ghost var i: nat := 0;
      var row := nodes[c].down;
      while row != c
        invariant 0 <= i <= |vs| && row == At(c, vs, i)
        invariant Partway(nodes[..], s, T, K, c, i, 0)
        decreases |vs| - i
      {
        UnlinkRow(row, s, K, c, i);
        ColumnStep(nodes[..], s, T, K, c, i + 1, vs, i);
        i := i + 1;
        row := nodes[row].down;
      }
      PartwayUnique(nodes[..], CoverOf(s, T, K, c), s, T, K, c, i, 0);
    }

    // Up the ring of the column; the body of uncover() before its last two statements.
    method RelinkRows(c: nat, ghost s: Table, ghost K: seq<nat>, ghost vs: seq<nat>)
      requires Inv(s, T, K) && WellFormed(T, |s|) && c in T.cols && c !in K && c in T.lists
      requires vs == RingOf(T, K, {}, c) && Partway(nodes[..], s, T, K, c, |vs|, 0)
      modifies nodes
      ensures Partway(nodes[..], s, T, K, c, 0, 0)
    {
      hide Inv, Partway, RingOf, WellFormed;
      ghost var i: nat := |vs|;
      ColumnStart(nodes[..], s, T, K, c, i, vs);
      var row := nodes[c].up;
      while row != c
        invariant 0 <= i <= |vs| && row == At(c, vs, i - 1)
        invariant Partway(nodes[..], s, T, K, c, i, 0)
        decreases i
      {
        i := i - 1;
        RelinkRow(row, s, K, c, i);
        ColumnStep(nodes[..], s, T, K, c, i, vs, i);
        row := nodes[row].up;
      }
    }

    method Uncover(c: nat, ghost s: Table, ghost K: seq<nat>)
      requires Inv(s, T, K) && c in T.cols && c !in K
      requires nodes[..] == CoverOf(s, T, K, c)
      modifies nodes
      ensures nodes[..] == s
    {
      hide Inv, Partway, RingOf, UnlinkHeader, CoverOf, RelinkHeader, WellFormed, Ranged;
      CoverEnds(s, T, K, c);
      ghost var vs := RingOf(T, K, {}, c);
      RelinkRows(c, s, K, vs);
      PartwayUnique(nodes[..], UnlinkHeader(s, c), s, T, K, c, 0, 0);
      RelinkHeaderNode(c);
    }

    // The loops of solve() over the rest of the chosen row.

    method CoverOthers(row: nat, ghost s: Table, ghost K: seq<nat>)
      requires Inv(s, T, K) && NodeFacts(T, |s|, row) && Coverable(T, K, OtherCols(T, |s|, row))
      requires nodes[..] == s
      modifies nodes
      ensures row in T.others && Deeper(nodes[..], s, T, K, row, |T.others[row]|)
    {
      hide Inv, Deeper, CoverOf, Coverable, NodeFacts, OtherCols;
      DeeperStart(nodes[..], s, T, K, row);
      DeeperRow(nodes[..], s, T, K, row, 0);
      ghost var o := T.others[row];
      ghost var k: nat := 0;
      var j := nodes[row].right;
      while j != row
        invariant 0 <= k <= |o| && j == At(row, o, k)
        invariant Deeper(nodes[..], s, T, K, row, k)
        decreases |o| - k
      {
        ghost var t := nodes[..];
        ghost var K2 := Down(t, s, T, K, row, k);
        Cover(nodes[j].col, t, K2);
        k := k + 1;
        j := nodes[j].right;
      }
    }

    method UncoverOthers(row: nat, ghost s: Table, ghost K: seq<nat>)
      requires Inv(s, T, K) && NodeFacts(T, |s|, row) && Coverable(T, K, OtherCols(T, |s|, row))
      requires row in T.others && Deeper(nodes[..], s, T, K, row, |T.others[row]|)
      modifies nodes
      ensures nodes[..] == s
    {
      hide Inv, Deeper, CoverOf, Coverable, NodeFacts, OtherCols;
      ghost var o := T.others[row];
      ghost var k: nat := |o|;
      DeeperRow(nodes[..], s, T, K, row, k);
      var j := nodes[row].left;
      while j != row
        invariant 0 <= k <= |o| && j == At(row, o, k - 1)
        invariant Deeper(nodes[..], s, T, K, row, k)
        decreases k
      {
        ghost var t, K2 := Up(nodes[..], s, T, K, row, k);
        Uncover(nodes[j].col, t, K2);
        k := k - 1;
        j := nodes[j].left;
      }
      DeeperStart(nodes[..], s, T, K, row);
    }

    /** The first column of least size; scanning stops early at a size of at most one. */
    method GetMinColumn(ghost K: seq<nat>) returns (c: nat, ghost at: nat)
      requires Inv(nodes[..], T, K) && nodes[ROOT].left != ROOT
      ensures at < |Active(T, K)| && c == Active(T, K)[at] && c in T.cols && c !in K && c < nodes.Length
      ensures forall d :: d in Active(T, K) ==> d < nodes.Length
      ensures nodes[c].size <= 1 || forall d :: d in Active(T, K) ==> nodes[c].size <= nodes[d].size
      ensures forall i :: 0 <= i < at ==> nodes[c].size < nodes[Active(T, K)[i]].size
    {
      hide Inv, Active;
      ghost var H := Active(T, K);
      HeaderStart(nodes[..], T, K);
      forall i | 0 <= i < |H| ensures H[i] < nodes.Length {
        HeaderStep(nodes[..], T, K, i);
      }
      HeaderStep(nodes[..], T, K, 0);
      c := nodes[ROOT].right;
      at := 0;
      var minSize := nodes[c].size;
      if minSize > 1 {
        ghost var k: nat := 1;
        var cc := nodes[c].right;
        while cc != ROOT
          invariant 1 <= k <= |H| && cc == At(ROOT, H, k)
          invariant at < k && c == H[at] && minSize == nodes[c].size && minSize > 1
          invariant forall i :: 0 <= i < k ==> minSize <= nodes[H[i]].size
          invariant forall i :: 0 <= i < at ==> minSize < nodes[H[i]].size
          decreases |H| - k
        {
          HeaderStep(nodes[..], T, K, k);
          if minSize > nodes[cc].size {
            c := cc;
            at := k;
            minSize := nodes[cc].size;
            if minSize <= 1 {
              break;
            }
          }
          k := k + 1;
          cc := nodes[cc].right;
        }
      }
    }

    /** Writes the chosen rows into the board. */
    method WriteBoard(ghost K: seq<nat>)
      requires Inv(nodes[..], T, K) && AllLabelled(T) && inout.Length == 81
      requires forall n :: n in stack ==> n in T.col
      modifies inout
      ensures forall n :: n in stack ==> Labelled(T, n)
      ensures inout[..] == Written(T, old(inout[..]), stack)
    {
      forall n | n in stack ensures Labelled(T, n) {
      }
      var i := 0;
      while i < |stack|
        invariant 0 <= i <= |stack|
        invariant inout[..] == Written(T, old(inout[..]), stack[..i])
      {
        var cell, val := CellAndValue(stack[i], K);
        assert stack[..i + 1][..i] == stack[..i];
        inout[cell] := val;
        i := i + 1;
      }
      assert stack[..i] == stack;
    }

    /** The search. `K` lists the columns covered so far; on failure nothing has changed, on
        success the rows pushed on the stack cover exactly what `K` leaves. */
    method Solve(ghost K: seq<nat>) returns (ok: bool)
      requires Inv(nodes[..], T, K) && AllLabelled(T) && inout.Length == 81
      requires forall n :: n in stack ==> n in T.col
      modifies nodes, inout, this`stack
      ensures ok <==> Solvable(T, K)
      ensures !ok ==> nodes[..] == old(nodes[..]) && inout[..] == old(inout[..]) && stack == old(stack)
      ensures ok ==> Found(T, K, old(stack), stack) && inout[..] == Written(T, old(inout[..]), stack)
      decreases |T.cols| - |K|
    {
      hide Inv, Labelled, Covers, Found, Solvable, CoverOf, Touches, Active, WellFormed, Deeper, Coverable, NodeFacts, RingOf;
      ghost var s := nodes[..];
      ghost var size := |s|;
      HeaderStart(s, T, K);
      if nodes[ROOT].left == ROOT {
        BaseFound(T, s, K, stack);
        WriteBoard(K);
        return true;
      }
      var c, _ := GetMinColumn(K);
      SizeIsRingLength(s, T, K, c);
      ghost var vs := RingOf(T, K, {}, c);
      Cover(c, s, K);
      ghost var t := nodes[..];
      ghost var K1 := K + [c];
      ghost var i: nat := 0;
      CoveredStart(t, s, T, K, c, vs);
      var row := nodes[c].down;
      while row != c
        invariant 0 <= i <= |vs| && row == At(c, vs, i)
        invariant nodes[..] == t && inout[..] == old(inout[..]) && stack == old(stack)
        invariant forall m :: 0 <= m < i ==> Refuted(T, size, K, vs[m])
        decreases |vs| - i
      {
        CoveredStep(t, s, T, K, c, vs, i);
        stack := stack + [row];
        CoverOthers(row, t, K1);
        DeeperDone(nodes[..], t, T, K1, row);
        ghost var K2 := K + Picked(T, size, row);
        ok := Solve(K2);
        if ok {
          StepFound(T, size, K, row, old(stack), stack);
          return true;
        }
        stack := stack[..|stack| - 1];
        UncoverOthers(row, t, K1);
        row := nodes[row].down;
        i := i + 1;
      }
      Uncover(c, s, K);
      AllRefuted(T, size, K, c, vs);
      return false;
    }

    /** Goes right from a node of the row until both the cell and the value are known. */
    method CellAndValue(start: nat, ghost K: seq<nat>) returns (cell: int, val: int)
      requires Inv(nodes[..], T, K) && start in T.col && Labelled(T, start)
      ensures start in T.row && cell == CellOf(T.row[start]) && val == ValueOf(T.row[start])
    {
      hide Inv;
      ghost var ring := RowRing(T, start);
      cell, val := -1, -1;
      var n := start;
      ghost var k: nat := 0;
      while cell == -1 || val == -1
        invariant 0 <= k <= |ring|
        invariant k < |ring| ==> n == ring[k]
        invariant cell == -1 || cell == CellOf(T.row[start])
        invariant val == -1 || val == ValueOf(T.row[start])
        invariant cell == -1 ==> forall i :: 0 <= i < k ==> !NamesCell(T, ring[i])
        invariant val == -1 ==> forall i :: 0 <= i < k ==> NamesCell(T, ring[i])
        decreases |ring| - k
      {
        RowName(T, nodes[..], K, start, k);
        if nodes[n].name < 100 {
          cell := nodes[n].name;
        } else {
          val := nodes[n].name % 10;
        }
        n := nodes[n].right;
        k := k + 1;
      }
    }
  }

  lemma RowName(T: Matrix, s: Table, K: seq<nat>, v: nat, i: nat)
    requires Inv(s, T, K) && v in T.col && Labelled(T, v) && i <= |T.others[v]|
    ensures var m := RowRing(T, v)[i];
      && m < |s| && NamedFor(T, T.row[v], m) && s[m].name == T.name[m]
      && (i < |T.others[v]| ==> s[m].right == RowRing(T, v)[i + 1])
  {
    var m := RowRing(T, v)[i];
    assert m in RowRing(T, v);
    assert NodeFacts(T, |s|, v);
    hide WellFormed, RowsRight, HRing, ColumnRight, NamedFor;
    if i == 0 {
      RowStart(s, T, K, {}, Active(T, K), v);
    } else {
      RowStep(s, T, K, {}, Active(T, K), v, i - 1);
    }
  }
}
