/** The constructor of the solver and the entry point: from 81 characters to a solved Sudoku. */
module Sudoku {
  import opened DancingLinks
  import opened ExactCover
  import opened DancingSearch
  import opened SudokuRules
  import opened SudokuCover
  import opened TableGrowth
  import opened BoardMatrix

  const CELLS := 81
  const MAX_NODES := 1 + 81 * 4 + 9 * 9 * 9 * 4

  const EMPTY: Matrix := Matrix([], map[], map[], map[], map[], map[])

  class TableBuilder {
    const nodes: array<Node>
    const columns: array<nat>
    var curNode: nat
    ghost var T: Matrix

    ghost predicate Valid()
      reads this, nodes
    {
      && nodes.Length == MAX_NODES && columns.Length == 400
      && Grown(nodes[..], T, curNode)
    }

    /** Allocates the node table and the root header. */
    constructor ()
      ensures Valid() && fresh(nodes) && fresh(columns)
      ensures T == EMPTY && curNode == 1
      ensures forall i :: 0 <= i < 400 ==> columns[i] == 0
    {
      nodes := new Node[MAX_NODES](_ => Node(0, 0, 0, 0, 0, 0, 0));
      columns := new nat[400](_ => 0);
      curNode := 1;
      T := EMPTY;
      new;
      var s := nodes[..];
      assert forall n :: 0 <= n < |s| ==> s[n] == Node(0, 0, 0, 0, 0, 0, 0);
      assert HRing(s, []);
    }

    method NewColumn(name: int) returns (c: nat)
      requires curNode < nodes.Length && Ranged(nodes[..])
      modifies nodes, this`curNode
      ensures c == old(curNode) && curNode == c + 1
      ensures nodes[..] == Fresh(old(nodes[..]), c, c, name)
    {
      c := curNode;
      curNode := curNode + 1;
      nodes[c] := Node(c, c, c, c, c, name, 0);
    }

    method PutLeftNode(h: nat, x: nat)
      requires Ranged(nodes[..]) && h < nodes.Length && x < nodes.Length
      modifies nodes
      ensures nodes[..] == PutLeft(old(nodes[..]), h, x)
    {
      nodes[x] := nodes[x].(left := nodes[h].left);
      nodes[x] := nodes[x].(right := h);
      nodes[nodes[h].left] := nodes[nodes[h].left].(right := x);
      nodes[h] := nodes[h].(left := x);
    }

    method PutUpNode(h: nat, x: nat)
      requires Ranged(nodes[..]) && h < nodes.Length && x < nodes.Length
      modifies nodes
      ensures nodes[..] == PutUp(old(nodes[..]), h, x)
    {
      nodes[x] := nodes[x].(up := nodes[h].up);
      nodes[x] := nodes[x].(down := h);
      nodes[nodes[h].up] := nodes[nodes[h].up].(down := x);
      nodes[h] := nodes[h].(up := x);
      nodes[h] := nodes[h].(size := nodes[h].size + 1);
      nodes[x] := nodes[x].(col := h);
    }

    method AppendColumn(n: int)
      requires Valid() && 0 <= n < 400 && columns[n] == 0 && |T.col| == 0 && curNode < nodes.Length
      modifies this`curNode, this`T, nodes, columns
      ensures Valid() && curNode == old(curNode) + 1 && T == AddColumn(old(T), old(curNode))
      ensures columns[..] == old(columns[..])[n := old(curNode)]
    {
      AddColumnGrown(nodes[..], T, curNode, n);
      hide Grown, Fresh, PutLeft;
      GrownRanged(nodes[..], T, curNode);
      var c := NewColumn(n);
      PutLeftNode(ROOT, c);
      columns[n] := c;
      T := AddColumn(T, c);
    }

    method NewRow(name: int) returns (r: nat)
      requires Ranged(nodes[..]) && curNode < nodes.Length
      requires columns.Length == 400 && 0 <= name < 400 && columns[name] != 0 && columns[name] < nodes.Length
      modifies nodes, this`curNode
      ensures r == old(curNode) && curNode == r + 1
      ensures nodes[..] == NewRowNode(old(nodes[..]), r, columns[name], name)
    {
      r := curNode;
      curNode := curNode + 1;
      nodes[r] := Node(r, r, r, r, columns[name], name, 0);
      PutUpNode(nodes[r].col, r);
    }

    // ----- the loops of the constructor -----

    method AppendCells(b: seq<int>)
      requires Valid() && Digits(b) && T == EMPTY && curNode == 1 && forall i :: 0 <= i < 400 ==> columns[i] == 0
      modifies this`curNode, this`T, nodes, columns
      ensures Valid() && curNode <= 82 && ColumnsTo(T, columns[..], b, 81)
    {
      hide Grown, Wanted, AddColumn;
      StartColumns(columns[..], b);
      var i := 0;
      while i < CELLS
        invariant 0 <= i <= 81 && Valid() && curNode <= 1 + i
        invariant ColumnsTo(T, columns[..], b, i)
      {
        if b[i] == 0 {
          CellWanted(b, i);
          AddNameFresh(nodes[..], T, curNode, columns[..], b, i, i);
          AppendColumn(i);
        } else {
          CellWanted(b, i);
          SkipName(T, columns[..], b, i, i);
        }
        i := i + 1;
      }
    }

    /** A column for the digit in one kind of unit, unless the digit is given there. */
    method AppendUnit(b: seq<int>, kind: int, u: int, v: int, seen: bool)
      requires Valid() && Digits(b) && 0 <= kind < 3 && 0 <= u < 9 && 1 <= v <= 9 && (seen <==> Holds(b, kind, u, v))
      requires ColumnsTo(T, columns[..], b, 81 + (u * 9 + (v - 1)) * 3 + kind) && curNode < nodes.Length
      modifies this`curNode, this`T, nodes, columns
      ensures Valid() && curNode <= old(curNode) + 1
      ensures ColumnsTo(T, columns[..], b, 81 + (u * 9 + (v - 1)) * 3 + kind + 1)
    {
      UnitWanted(b, kind, u, v);
      RankOfUnit(kind, u, v);
      hide Grown, Wanted, AddColumn, Rank, ColumnsTo, Holds, UnitName;
      ghost var p := 81 + (u * 9 + (v - 1)) * 3 + kind;
      var name := UnitName(kind, u, v);
      if !seen {
        AddNameFresh(nodes[..], T, curNode, columns[..], b, p, name);
        AppendColumn(name);
      } else {
        SkipName(T, columns[..], b, p, name);
      }
    }

    method AppendUnits(b: seq<int>, rows: array2<bool>, cols: array2<bool>, boxes: array2<bool>)
      requires Valid() && Digits(b) && curNode <= 82 && ColumnsTo(T, columns[..], b, 81)
      requires Marks(b, 0, rows) && Marks(b, 1, cols) && Marks(b, 2, boxes)
      modifies this`curNode, this`T, nodes, columns
      ensures Valid() && curNode <= 325 && ColumnsTo(T, columns[..], b, 324)
    {
      hide Grown, ColumnsTo, Holds;
      var i := 0;
      while i < 9
        invariant 0 <= i <= 9 && Valid() && curNode <= 82 + 27 * i
        invariant ColumnsTo(T, columns[..], b, 81 + 27 * i)
      {
        var v := 1;
        while v < 10
          invariant 1 <= v <= 10 && Valid() && curNode <= 82 + 27 * i + 3 * (v - 1)
          invariant ColumnsTo(T, columns[..], b, 81 + 27 * i + 3 * (v - 1))
        {
          AppendUnit(b, 0, i, v, rows[i, v]);
          AppendUnit(b, 1, i, v, cols[i, v]);
          AppendUnit(b, 2, i, v, boxes[i, v]);
          v := v + 1;
        }
        i := i + 1;
      }
    }

    /** The four nodes of one candidate, joined into a row. */
    method AppendCandidate(b: seq<int>, i: int, v: int)
      requires Valid() && Digits(b) && 0 <= i < 81 && 1 <= v <= 9 && Candidate(b, i, v) && RowsTo(T, columns[..], b, RowCode(i, v)) && AllLabelled(T)
      requires curNode + 4 <= nodes.Length
      modifies this`curNode, this`T, nodes
      ensures Valid() && curNode == old(curNode) + 4
      ensures RowsTo(T, columns[..], b, RowCode(i, v) + 1) && AllLabelled(T)
    {
      hide Grown, RowsTo, Candidate, WellFormed, Ranged, AllLabelled, TableGrowth.AddRow, NewRowNode, PutLeft, FourFit, FourOf, UnitName;
      ghost var r := RowCode(i, v);
      ghost var cs := columns[..];
      ghost var q := FourOf(cs, i, v);
      ghost var x := curNode;
      ghost var s := nodes[..];
      GrownRanged(s, T, x);
      FourReady(s, T, x, cs, b, r, i, v);
      var row, col, box := i / 9, i % 9, i / 9 / 3 * 3 + i % 9 / 3;
      var n0 := NewRow(i);
      var nr := NewRow(UnitName(0, row, v));
      var nc := NewRow(UnitName(1, col, v));
      var nb := NewRow(UnitName(2, box, v));
      PutLeftNode(n0, nr);
      PutLeftNode(n0, nc);
      PutLeftNode(n0, nb);
      T := TableGrowth.AddRow(T, x, q, r);
    }

    method AppendRows(b: seq<int>, rows: array2<bool>, cols: array2<bool>, boxes: array2<bool>)
      requires Valid() && Digits(b) && curNode <= 325 && RowsTo(T, columns[..], b, 0) && AllLabelled(T)
      requires Marks(b, 0, rows) && Marks(b, 1, cols) && Marks(b, 2, boxes)
      modifies this`curNode, this`T, nodes
      ensures Valid() && Represents(T, columns[..], b) && AllLabelled(T)
    {
      hide Grown, RowsTo, Candidate, AllLabelled, Holds, UnitOf, CellOf, ValueOf, Represents;
      SkipZero(T, columns[..], b, 0);
      var i := 0;
      while i < CELLS
        invariant 0 <= i <= 81 && Valid() && curNode <= 325 + 36 * i && AllLabelled(T)
        invariant RowsTo(T, columns[..], b, if i < 81 then 10 * i + 1 else 810)
      {
        var row, col, box := i / 9, i % 9, i / 9 / 3 * 3 + i % 9 / 3;
        CellCoordinates(i);
        var v := 1;
        while v < 10
          invariant 1 <= v <= 10 && Valid() && curNode <= 325 + 36 * i + 4 * (v - 1) && AllLabelled(T)
          invariant RowsTo(T, columns[..], b, 10 * i + v)
        {
          RowCodeParts(i, v);
          CandidateTest(b, i, v);
          if b[i] == 0 && !(rows[row, v] || cols[col, v] || boxes[box, v]) {
            AppendCandidate(b, i, v);
          } else {
            SkipRow(T, columns[..], b, RowCode(i, v));
          }
          v := v + 1;
        }
        i := i + 1;
        if i < 81 {
          SkipZero(T, columns[..], b, i);
        }
      }
      RowsComplete(T, columns[..], b);
    }
  }

  /** `seen[u][w]` tells whether a cell of unit `u` holds `w`. */
  ghost predicate Marks(g: seq<int>, kind: int, seen: array2<bool>)
    reads seen
  {
    && seen.Length0 == 81 && seen.Length1 == 10
    && forall u, w :: 0 <= u < 9 && 0 <= w < 10 ==> (seen[u, w] <==> Holds(g, kind, u, w))
  }

  lemma StartColumns(cs: seq<nat>, b: seq<int>)
    requires |cs| == 400 && |b| == 81 && forall i :: 0 <= i < 400 ==> cs[i] == 0
    ensures ColumnsTo(EMPTY, cs, b, 0)
  {
    forall n | 0 <= n < 400 && Wanted(b, n) ensures Rank(n) >= 0 {
      WantedIsName(b, n);
      RankBound(n);
    }
  }

  lemma CellWanted(b: seq<int>, i: int)
    requires |b| == 81 && 0 <= i < 81
    ensures IsName(i) && Rank(i) == i && (Wanted(b, i) <==> b[i] == 0)
  {
  }

  lemma UnitWanted(b: seq<int>, kind: int, u: int, v: int)
    requires |b| == 81 && 0 <= kind < 3 && 0 <= u < 9 && 1 <= v <= 9
    ensures 100 <= UnitName(kind, u, v) < 400
    ensures Wanted(b, UnitName(kind, u, v)) <==> !Holds(b, kind, u, v)
  {
    UnitNameDigits(kind, u, v);
  }

  lemma AddNameFresh(s: Table, T: Matrix, c: nat, cs: seq<nat>, b: seq<int>, p: int, name: int)
    requires Grown(s, T, c) && ColumnsTo(T, cs, b, p) && Rank(name) == p && 0 <= name < 400 && Wanted(b, name)
    ensures cs[name] == 0 && |T.col| == 0
    ensures ColumnsTo(AddColumn(T, c), cs[name := c], b, p + 1)
  {
    forall d | d in T.cols ensures d < c {
      assert ColumnFacts(T, c, d);
    }
    AddName(T, cs, b, p, name, c);
  }

  /** The four columns of a candidate exist, and adding its row keeps all invariants. */
  lemma FourReady(s: Table, T: Matrix, x: nat, cs: seq<nat>, b: seq<int>, r: nat, i: int, v: int)
    requires Grown(s, T, x) && x + 4 <= |s| && RowsTo(T, cs, b, r) && AllLabelled(T) && |cs| == 400
    requires 0 <= i < 81 && 1 <= v <= 9 && Candidate(b, i, v) && r == RowCode(i, v)
    ensures FourFit(T, FourOf(cs, i, v))
    ensures var q := FourOf(cs, i, v); var T2 := TableGrowth.AddRow(T, x, q, r);
      && q.n0 == i && q.n1 == UnitName(0, i / 9, v) && q.n2 == UnitName(1, i % 9, v)
      && q.n3 == UnitName(2, i / 9 / 3 * 3 + i % 9 / 3, v)
      && StandsFor(cs, q.n0, q.c0) && StandsFor(cs, q.n1, q.c1) && StandsFor(cs, q.n2, q.c2) && StandsFor(cs, q.n3, q.c3)
      && q.c0 < x && q.c1 < x && q.c2 < x && q.c3 < x
      && Grown(LinkFour(FourNodes(s, x, q), x), T2, x + 4)
      && RowsTo(T2, cs, b, r + 1) && AllLabelled(T2)
  {
    hide WellFormed, TableGrowth.AddRow, FourFit, Candidate, AllLabelled, Grown, LinkFour, FourNodes;
    GrownRanged(s, T, x);
    FourIsFit(T, x, cs, b, r, i, v);
    AddCandidate(T, x, cs, b, r, i, v);
    AddRowLabelled(T, x, cs, b, i, v, r);
    AddRowGrown(s, T, x, FourOf(cs, i, v), r);
  }

  lemma SkipZero(T: Matrix, cs: seq<nat>, b: seq<int>, i: nat)
    requires RowsTo(T, cs, b, 10 * i)
    ensures RowsTo(T, cs, b, 10 * i + 1)
  {
    assert (10 * i) % 10 == 0;
    SkipRow(T, cs, b, 10 * i);
  }

  lemma CellCoordinates(i: int)
    requires 0 <= i < 81
    ensures UnitOf(0, i) == i / 9 && UnitOf(1, i) == i % 9 && UnitOf(2, i) == i / 9 / 3 * 3 + i % 9 / 3
    ensures 0 <= i / 9 < 9 && 0 <= i % 9 < 9 && 0 <= i / 9 / 3 * 3 + i % 9 / 3 < 9
  {
  }

  lemma CandidateTest(b: seq<int>, i: int, v: int)
    requires |b| == 81 && 0 <= i < 81 && 1 <= v <= 9
    ensures Candidate(b, i, v) <==> b[i] == 0 && !Holds(b, 0, UnitOf(0, i), v) && !Holds(b, 1, UnitOf(1, i), v) && !Holds(b, 2, UnitOf(2, i), v)
  {
  }

  lemma GrownRanged(s: Table, T: Matrix, cur: nat)
    requires Grown(s, T, cur)
    ensures Ranged(s) && WellFormed(T, cur) && 0 < cur <= |s|
  {
  }

  /** The flags of the constructor: which values the givens already put into each unit. */
  method MarkGivens(b: seq<int>) returns (rows: array2<bool>, cols: array2<bool>, boxes: array2<bool>)
    requires Digits(b)
    ensures Marks(b, 0, rows) && Marks(b, 1, cols) && Marks(b, 2, boxes)
    ensures fresh(rows) && fresh(cols) && fresh(boxes)
  {
    rows := new bool[CELLS, 10]((_, _) => false);
    cols := new bool[CELLS, 10]((_, _) => false);
    boxes := new bool[CELLS, 10]((_, _) => false);
    var i := 0;
    while i < CELLS
      invariant 0 <= i <= 81 && rows != cols && rows != boxes && cols != boxes
      invariant Marks(b[..i], 0, rows) && Marks(b[..i], 1, cols) && Marks(b[..i], 2, boxes)
    {
      var row, col, box := i / 9, i % 9, i / 9 / 3 * 3 + i % 9 / 3;
      var val := b[i];
      CellCoordinates(i);
      HoldsSnoc(b, i);
      hide UnitOf, Holds;
      rows[row, val] := true;
      cols[col, val] := true;
      boxes[box, val] := true;
      i := i + 1;
    }
    assert b[..i] == b;
  }

  lemma HoldsSnoc(b: seq<int>, i: nat)
    requires i < |b|
    ensures forall kind, u, w {:trigger Holds(b[..i + 1], kind, u, w)} ::
      Holds(b[..i + 1], kind, u, w) <==> Holds(b[..i], kind, u, w) || (UnitOf(kind, i) == u && b[i] == w)
  {
    forall kind, u, w
      ensures Holds(b[..i + 1], kind, u, w) <==> Holds(b[..i], kind, u, w) || (UnitOf(kind, i) == u && b[i] == w)
    {
      var c, d := b[..i + 1], b[..i];
      if Holds(d, kind, u, w) {
        var j :| 0 <= j < |d| && UnitOf(kind, j) == u && d[j] == w;
        assert c[j] == w;
      }
      if UnitOf(kind, i) == u && b[i] == w {
        assert c[i] == w;
      }
      if Holds(c, kind, u, w) {
        var j :| 0 <= j < |c| && UnitOf(kind, j) == u && c[j] == w;
        assert j < i ==> d[j] == w;
      }
    }
  }

  lemma NoRowsYet(T: Matrix, cs: seq<nat>, b: seq<int>)
    requires ColumnsTo(T, cs, b, 324)
    ensures AllLabelled(T)
  {
    assert T.col.Keys == {};
  }

  /** Builds the table for a board and runs the search: the answer is right either way. */
  method SolveBoard(board: array<int>) returns (ok: bool)
    requires board.Length == 81 && Digits(board[..])
    modifies board
    ensures ok <==> exists g :: Completion(old(board[..]), g)
    ensures ok ==> Completion(old(board[..]), board[..])
    ensures !ok ==> board[..] == old(board[..])
  {
    ghost var b := board[..];
    var rows, cols, boxes := MarkGivens(board[..]);
    var t := new TableBuilder();
    t.AppendCells(board[..]);
    t.AppendUnits(board[..], rows, cols, boxes);
    NoRowsYet(t.T, t.columns[..], b);
    AllColumns(t.T, t.curNode, t.columns[..], b);
    t.AppendRows(board[..], rows, cols, boxes);
    ghost var T, cs := t.T, t.columns[..];
    GrownIsInv(t.nodes[..], T, t.curNode);
    GrownRanged(t.nodes[..], T, t.curNode);
    ghost var size := t.curNode;
    hide Grown, Inv, AllLabelled, Represents, Completion, Solvable, WellFormed;
    var s := new SudokuSolver(t.nodes, board, T);
    ok := s.Solve([]);
    if ok {
      CoverGivesCompletion(T, size, cs, b, s.stack);
    } else if g :| Completion(b, g) {
      CompletionGivesCover(T, size, cs, b, g);
    }
  }

  const NO_SOLUTION := "NoSolution"

  ghost function BoardOf(puzzle: string): (b: seq<int>)
    ensures |b| == |puzzle|
  {
    seq(|puzzle|, i requires 0 <= i < |puzzle| => puzzle[i] as int - '0' as int)
  }

  /** A solvable puzzle of digits yields a completion of it; everything else "NoSolution". */
  method SolveSudoku(puzzle: string) returns (result: string)
    requires |puzzle| == CELLS
    ensures if Digits(BoardOf(puzzle)) && exists g :: Completion(BoardOf(puzzle), g)
            then Completion(BoardOf(puzzle), BoardOf(result))
            else result == NO_SOLUTION
  {
    result := NO_SOLUTION;
    var board := new int[CELLS](_ => 0);
    var valid := true;
    var i := 0;
    while i < CELLS
      invariant 0 <= i <= 81
      invariant forall j :: 0 <= j < i ==> board[j] == BoardOf(puzzle)[j]
      invariant valid <==> forall j :: 0 <= j < i ==> 0 <= board[j] <= 9
    {
      board[i] := puzzle[i] as int - '0' as int;
      valid := valid && 0 <= board[i] <= 9;
      i := i + 1;
    }
    assert board[..] == BoardOf(puzzle);
    if valid {
      var ok := SolveBoard(board);
      if ok {
        ghost var g := board[..];
        result := [];
        i := 0;
        while i < CELLS
          invariant 0 <= i <= 81 && |result| == i && board[..] == g
          invariant forall j :: 0 <= j < i ==> result[j] as int - '0' as int == g[j]
        {
          result := result + [(board[i] + '0' as int) as char];
          i := i + 1;
        }
        assert BoardOf(result) == g;
      }
    }
  }
}
