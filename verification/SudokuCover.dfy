/** Exact covers of a board's matrix are its completions. */
module SudokuCover {
  import opened DancingLinks
  import opened ExactCover
  import opened DancingSearch
  import opened SudokuRules

  /** Column `c` stands for the constraint `name`; `cs` is the name-to-header table, 0 meaning none. */
  ghost predicate StandsFor(cs: seq<nat>, name: int, c: nat) {
    |cs| == 400 && 0 <= name < 400 && cs[name] == c && c != 0
  }

  ghost predicate Fits(b: seq<int>, r: nat, name: int)
    requires |b| == 81
  {
    Candidate(b, CellOf(r), ValueOf(r)) && name in NamesOf(CellOf(r), ValueOf(r))
  }

  /** The columns are the wanted constraints and the rows the candidates, each hitting its names. */
  ghost predicate Represents(T: Matrix, cs: seq<nat>, b: seq<int>) {
    && |cs| == 400 && |b| == 81
    && (forall n {:trigger Wanted(b, n)} {:trigger cs[n]} :: 0 <= n < 400 ==> (cs[n] != 0 <==> Wanted(b, n)))
    && (forall n, c {:trigger StandsFor(cs, n, c)} :: StandsFor(cs, n, c) ==> c in T.cols)
    && (forall n, m, c {:trigger StandsFor(cs, n, c), StandsFor(cs, m, c)} ::
          StandsFor(cs, n, c) && StandsFor(cs, m, c) ==> n == m)
    && (forall c :: c in T.cols ==> exists n :: StandsFor(cs, n, c))
    && (forall r, n, c {:trigger StandsFor(cs, n, c), Hits(T, r, c)} ::
          StandsFor(cs, n, c) ==> (Hits(T, r, c) <==> Fits(b, r, n)))
  }

  lemma CandidateNamesWanted(b: seq<int>, i: int, v: int, name: int)
    requires |b| == 81 && Candidate(b, i, v) && name in NamesOf(i, v)
    ensures 0 <= name < 400 && Wanted(b, name)
  {
    NamesMeaning(i, v, name);
    if name >= 100 {
      UnitNameOf(name);
      CellUnits(name / 100 - 1, i);
    }
  }

  /** Row code of putting `v` into cell `i`. */
  function RowCode(i: int, v: int): nat
    requires 0 <= i && 0 <= v < 10
  {
    i * 10 + v
  }

  lemma RowCodeParts(i: int, v: int)
    requires 0 <= i && 0 <= v < 10
    ensures CellOf(RowCode(i, v)) == i && ValueOf(RowCode(i, v)) == v
  {
    Split(i, v, 10);
  }

  // ----- from a completion to a cover -----

  /** A completion never puts a value where a given forbids it. */
  lemma CompletionIsCandidate(b: seq<int>, g: seq<int>, i: int)
    requires Completion(b, g) && 0 <= i < 81 && b[i] == 0
    ensures Candidate(b, i, g[i])
  {
    forall kind, j | 0 <= kind < 3 && 0 <= j < 81 && UnitOf(kind, j) == UnitOf(kind, i)
      ensures b[j] != g[i]
    {
      assert b[j] != 0 ==> g[j] == b[j];
    }
  }

  ghost function Moves(b: seq<int>, g: seq<int>): (E: set<nat>)
    requires |b| == 81 && |g| == 81 && forall i :: 0 <= i < 81 ==> 1 <= g[i] <= 9
    ensures forall i :: 0 <= i < 81 && b[i] == 0 ==> RowCode(i, g[i]) in E
    ensures forall r :: r in E ==> exists i :: 0 <= i < 81 && b[i] == 0 && r == RowCode(i, g[i])
  {
    set i | 0 <= i < 81 && b[i] == 0 :: RowCode(i, g[i])
  }

  lemma MoveParts(b: seq<int>, g: seq<int>, r: nat) returns (i: int)
    requires Completion(b, g) && r in Moves(b, g)
    ensures 0 <= i < 81 && b[i] == 0 && r == RowCode(i, g[i]) && CellOf(r) == i && ValueOf(r) == g[i]
    ensures Candidate(b, i, g[i])
  {
    i :| 0 <= i < 81 && b[i] == 0 && r == RowCode(i, g[i]);
    RowCodeParts(i, g[i]);
    CompletionIsCandidate(b, g, i);
  }

  lemma MovesHitAll(T: Matrix, cs: seq<nat>, b: seq<int>, g: seq<int>, name: int, c: nat)
    requires Represents(T, cs, b) && Completion(b, g) && StandsFor(cs, name, c)
    ensures HitIn(T, Moves(b, g), c)
  {
    assert Wanted(b, name);
    var i := name;
    if name >= 81 {
      UnitNameOf(name);
      DistinctIffFull(g);
      var kind, u, v := name / 100 - 1, name % 100 / 10, name % 10;
      assert Holds(g, kind, u, v);
      i :| 0 <= i < |g| && UnitOf(kind, i) == u && g[i] == v;
      assert !Holds(b, kind, u, v);
      assert b[i] == 0;
    }
    var r := RowCode(i, g[i]);
    assert r in Moves(b, g);
    var i2 := MoveParts(b, g, r);
    RowCodeParts(i, g[i]);
    NamesMeaning(i, g[i], name);
    assert Fits(b, r, name);
    assert Hits(T, r, c);
  }

  lemma NameMetOnce(b: seq<int>, g: seq<int>, i: int, j: int, name: int)
    requires Completion(b, g) && 0 <= i < 81 && 0 <= j < 81
    requires name in NamesOf(i, g[i]) && name in NamesOf(j, g[j])
    ensures i == j
  {
    NamesMeaning(i, g[i], name);
    NamesMeaning(j, g[j], name);
    hide UnitOf, NamesOf, UnitName;
    if 100 <= name {
      var kind := name / 100 - 1;
      assert 0 <= kind < 3;
      assert UnitOf(kind, i) == UnitOf(kind, j);
      assert g[i] == g[j];
      assert UnitsDistinct(g);
    } else {
      assert 0 <= name < 81;
    }
  }

  lemma MovesHitOnce(T: Matrix, cs: seq<nat>, b: seq<int>, g: seq<int>, r1: nat, r2: nat, name: int, c: nat)
    requires Represents(T, cs, b) && Completion(b, g) && StandsFor(cs, name, c)
    requires r1 in Moves(b, g) && r2 in Moves(b, g) && Hits(T, r1, c) && Hits(T, r2, c)
    ensures r1 == r2
  {
    var i := MoveParts(b, g, r1);
    var j := MoveParts(b, g, r2);
    assert Fits(b, r1, name) && Fits(b, r2, name);
    NameMetOnce(b, g, i, j, name);
  }

  lemma CompletionGivesCover(T: Matrix, size: nat, cs: seq<nat>, b: seq<int>, g: seq<int>)
    requires WellFormed(T, size) && Represents(T, cs, b) && Completion(b, g)
    ensures Covers(T, [], Moves(b, g)) && Solvable(T, [])
  {
    var E := Moves(b, g);
    forall c | c in T.cols ensures HitIn(T, E, c) {
      var n :| StandsFor(cs, n, c);
      MovesHitAll(T, cs, b, g, n, c);
    }
    forall r1, r2, c | r1 in E && r2 in E && Hits(T, r1, c) && Hits(T, r2, c) ensures r1 == r2 {
      var m :| HitBy(T, r1, c, m);
      assert NodeFacts(T, size, m);
      var n :| StandsFor(cs, n, c);
      MovesHitOnce(T, cs, b, g, r1, r2, n, c);
    }
    forall r | r in E ensures !Touches(T, r, []) {
    }
    assert Covers(T, [], E);
  }

  // ----- from a cover to a completion -----

  /** Some stacked node has row `r`. */
  ghost predicate Stacked(T: Matrix, st: seq<nat>, r: nat) {
    exists n :: n in st && n in T.row && T.row[n] == r
  }

  /** What the writes leave in cell `i`: the given, or the value of a stacked row of that cell. */
  lemma WrittenAt(T: Matrix, b: seq<int>, st: seq<nat>, i: int)
    requires |b| == 81 && 0 <= i < 81 && forall n :: n in st ==> Labelled(T, n)
    ensures (exists r :: Stacked(T, st, r) && CellOf(r) == i && Written(T, b, st)[i] == ValueOf(r))
         || ((forall r :: Stacked(T, st, r) ==> CellOf(r) != i) && Written(T, b, st)[i] == b[i])
  {
    if st != [] {
      var front, last := st[..|st| - 1], st[|st| - 1];
      assert last in st && Labelled(T, last);
      WrittenAt(T, b, front, i);
      if CellOf(T.row[last]) == i {
        assert Stacked(T, st, T.row[last]);
      } else if r :| Stacked(T, front, r) && CellOf(r) == i && Written(T, b, front)[i] == ValueOf(r) {
        assert Stacked(T, st, r);
      } else {
        forall r | Stacked(T, st, r) ensures CellOf(r) != i {
          var n :| n in st && n in T.row && T.row[n] == r;
          if n != last {
            assert n in front;
            assert Stacked(T, front, r);
          }
        }
      }
    }
  }

  lemma StackedIsCandidate(T: Matrix, size: nat, cs: seq<nat>, b: seq<int>, st: seq<nat>, r: nat)
    requires WellFormed(T, size) && Represents(T, cs, b) && Stacked(T, st, r)
    ensures Candidate(b, CellOf(r), ValueOf(r))
  {
    var n :| n in st && n in T.row && T.row[n] == r;
    assert NodeFacts(T, size, n);
    var c := T.col[n];
    assert HitBy(T, r, c, n);
    var name :| StandsFor(cs, name, c);
    assert Hits(T, r, c);
    assert Fits(b, r, name);
  }

  /** Two rows of a cover never share a cell. */
  lemma OneRowPerCell(T: Matrix, cs: seq<nat>, b: seq<int>, E: set<nat>, r1: nat, r2: nat)
    requires Represents(T, cs, b) && Covers(T, [], E) && r1 in E && r2 in E && CellOf(r1) == CellOf(r2)
    requires Candidate(b, CellOf(r1), ValueOf(r1)) && Candidate(b, CellOf(r2), ValueOf(r2))
    ensures r1 == r2
  {
    var i := CellOf(r1);
    assert Wanted(b, i);
    var c := cs[i];
    assert StandsFor(cs, i, c);
    assert Fits(b, r1, i) && Fits(b, r2, i);
    assert Hits(T, r1, c) && Hits(T, r2, c);
  }

  /** A wanted constraint is met by a stacked row. */
  lemma MetByStack(T: Matrix, cs: seq<nat>, b: seq<int>, st: seq<nat>, name: int) returns (r: nat)
    requires Represents(T, cs, b) && (forall n :: n in st ==> n in T.row) && Covers(T, [], RowsOf(T, st))
    requires 0 <= name < 400 && Wanted(b, name)
    ensures r in RowsOf(T, st) && Stacked(T, st, r) && Fits(b, r, name)
  {
    var c := cs[name];
    assert StandsFor(cs, name, c);
    assert HitIn(T, RowsOf(T, st), c);
    r :| r in RowsOf(T, st) && Hits(T, r, c);
  }

  lemma CellWritten(T: Matrix, size: nat, cs: seq<nat>, b: seq<int>, st: seq<nat>, i: int)
    requires WellFormed(T, size) && Represents(T, cs, b) && Digits(b) && Found(T, [], [], st) && 0 <= i < 81
    ensures (forall n :: n in st ==> Labelled(T, n))
    ensures var g := Written(T, b, st);
      && 1 <= g[i] <= 9
      && (b[i] != 0 ==> g[i] == b[i])
      && (forall r :: Stacked(T, st, r) && CellOf(r) == i ==> g[i] == ValueOf(r))
  {
    var g := Written(T, b, st);
    assert st[0..] == st;
    forall r | Stacked(T, st, r)
      ensures r in RowsOf(T, st) && Candidate(b, CellOf(r), ValueOf(r))
    {
      StackedIsCandidate(T, size, cs, b, st, r);
    }
    hide Represents, Covers, WellFormed, Candidate, Labelled;
    WrittenAt(T, b, st, i);
    if b[i] == 0 {
      assert Wanted(b, i);
      var r := MetByStack(T, cs, b, st, i);
      CellOfFit(b, r, i);
    }
    forall r1, r2 | Stacked(T, st, r1) && Stacked(T, st, r2) && CellOf(r1) == CellOf(r2) ensures r1 == r2 {
      OneRowPerCell(T, cs, b, RowsOf(T, st), r1, r2);
    }
    forall r | Stacked(T, st, r) ensures b[CellOf(r)] == 0 && 1 <= ValueOf(r) <= 9 {
      CandidateEmpty(b, CellOf(r), ValueOf(r));
    }
  }

  lemma CandidateEmpty(b: seq<int>, i: int, v: int)
    requires |b| == 81 && Candidate(b, i, v)
    ensures 0 <= i < 81 && b[i] == 0 && 1 <= v <= 9
  {
  }

  lemma CellOfFit(b: seq<int>, r: nat, i: int)
    requires |b| == 81 && Fits(b, r, i) && 0 <= i < 81
    ensures CellOf(r) == i
  {
    NamesMeaning(CellOf(r), ValueOf(r), i);
  }

  lemma UnitOfFit(b: seq<int>, r: nat, kind: int, u: int, v: int)
    requires |b| == 81 && 0 <= kind < 3 && 0 <= u < 9 && 1 <= v <= 9 && Fits(b, r, UnitName(kind, u, v))
    ensures UnitOf(kind, CellOf(r)) == u && ValueOf(r) == v && 0 <= CellOf(r) < 81
  {
    UnitNameDigits(kind, u, v);
    NamesMeaning(CellOf(r), ValueOf(r), UnitName(kind, u, v));
  }

  /** Every value occurs in every unit: as a given, or through the row that meets the constraint. */
  lemma WrittenHolds(T: Matrix, size: nat, cs: seq<nat>, b: seq<int>, st: seq<nat>, kind: int, u: int, v: int)
    requires WellFormed(T, size) && Represents(T, cs, b) && Digits(b) && Found(T, [], [], st)
    requires 0 <= kind < 3 && 0 <= u < 9 && 1 <= v <= 9
    requires forall n :: n in st ==> Labelled(T, n)
    ensures Holds(Written(T, b, st), kind, u, v)
  {
    var g := Written(T, b, st);
    var name := UnitName(kind, u, v);
    UnitNameDigits(kind, u, v);
    assert st[0..] == st;
    var i;
    if Holds(b, kind, u, v) {
      i :| 0 <= i < |b| && UnitOf(kind, i) == u && b[i] == v;
      CellWritten(T, size, cs, b, st, i);
    } else {
      assert Wanted(b, name);
      var r := MetByStack(T, cs, b, st, name);
      UnitOfFit(b, r, kind, u, v);
      i := CellOf(r);
      CellWritten(T, size, cs, b, st, i);
    }
    assert 0 <= i < |g| && UnitOf(kind, i) == u && g[i] == v;
  }

  /** The rows of a cover, written into the board, complete it; contradictory givens, in
      particular, leave a constraint no row can meet. */
  lemma CoverGivesCompletion(T: Matrix, size: nat, cs: seq<nat>, b: seq<int>, st: seq<nat>)
    requires WellFormed(T, size) && Represents(T, cs, b) && Digits(b) && Found(T, [], [], st)
    ensures forall n :: n in st ==> Labelled(T, n)
    ensures Completion(b, Written(T, b, st))
  {
    var g := Written(T, b, st);
    forall i | 0 <= i < 81 ensures 1 <= g[i] <= 9 && (b[i] != 0 ==> g[i] == b[i]) {
      CellWritten(T, size, cs, b, st, i);
    }
    hide Represents, WellFormed, Found;
    forall kind, u, v | 0 <= kind < 3 && 0 <= u < 9 && 1 <= v <= 9 ensures Holds(g, kind, u, v) {
      WrittenHolds(T, size, cs, b, st, kind, u, v);
    }
    DistinctIffFull(g);
  }
}
