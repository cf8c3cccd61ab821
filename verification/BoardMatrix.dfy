/** Which columns and rows the constructor has appended so far, as claims about the matrix. */
module BoardMatrix {
  import opened DancingLinks
  import opened ExactCover
  import opened DancingSearch
  import opened SudokuRules
  import opened SudokuCover
  import opened TableGrowth

  /** Names that denote a cell or a unit-and-value constraint. */
  ghost predicate IsName(n: int) {
    0 <= n < 81 || (100 <= n < 400 && n % 100 / 10 < 9 && 1 <= n % 10)
  }

  /** The order in which the constructor considers the names. */
  ghost function Rank(n: int): int {
    if n < 81 then n else 81 + (n % 100 / 10 * 9 + (n % 10 - 1)) * 3 + (n / 100 - 1)
  }

  lemma RankOfUnit(kind: int, u: int, v: int)
    requires 0 <= kind < 3 && 0 <= u < 9 && 1 <= v <= 9
    ensures IsName(UnitName(kind, u, v)) && Rank(UnitName(kind, u, v)) == 81 + (u * 9 + (v - 1)) * 3 + kind
  {
    UnitNameDigits(kind, u, v);
  }

  lemma RankBound(n: int)
    requires IsName(n)
    ensures 0 <= Rank(n) < 324
  {
  }

  /** Two mixed-radix numerals with equal value have equal digits. */
  lemma Digits3(a: int, k: int, a2: int, k2: int)
    requires 0 <= k < 3 && 0 <= k2 < 3 && a * 3 + k == a2 * 3 + k2
    ensures a == a2 && k == k2
  {
  }

  lemma Digits9(u: int, w: int, u2: int, w2: int)
    requires 0 <= w < 9 && 0 <= w2 < 9 && u * 9 + w == u2 * 9 + w2
    ensures u == u2 && w == w2
  {
  }

  lemma RankInjective(n: int, m: int)
    requires IsName(n) && IsName(m) && Rank(n) == Rank(m)
    ensures n == m
  {
    if n >= 100 && m >= 100 {
      UnitNameOf(n);
      UnitNameOf(m);
      var k, u, w := n / 100 - 1, n % 100 / 10, n % 10 - 1;
      var k2, u2, w2 := m / 100 - 1, m % 100 / 10, m % 10 - 1;
      Digits3(u * 9 + w, k, u2 * 9 + w2, k2);
      Digits9(u, w, u2, w2);
    }
  }

  lemma WantedIsName(b: seq<int>, n: int)
    requires |b| == 81 && Wanted(b, n)
    ensures IsName(n) && 0 <= n < 400
  {
  }

  /** The names-to-headers table is a bijection onto the columns. */
  ghost predicate Matched(T: Matrix, cs: seq<nat>) {
    && |cs| == 400
    && (forall n, c {:trigger StandsFor(cs, n, c)} :: StandsFor(cs, n, c) ==> c in T.cols)
    && (forall n, m, c {:trigger StandsFor(cs, n, c), StandsFor(cs, m, c)} ::
          StandsFor(cs, n, c) && StandsFor(cs, m, c) ==> n == m)
    && (forall c :: c in T.cols ==> exists n :: StandsFor(cs, n, c))
  }

  /** The names of rank below `p` have been considered, and those wanted have a column. */
  ghost predicate ColumnsTo(T: Matrix, cs: seq<nat>, b: seq<int>, p: int) {
    && |b| == 81 && Matched(T, cs) && |T.col| == 0
    && forall n {:trigger Wanted(b, n)} {:trigger cs[n]} :: 0 <= n < 400 ==>
         (cs[n] != 0 <==> Wanted(b, n) && Rank(n) < p)
  }

  lemma SkipName(T: Matrix, cs: seq<nat>, b: seq<int>, p: int, name: int)
    requires ColumnsTo(T, cs, b, p) && IsName(name) && Rank(name) == p && !Wanted(b, name)
    ensures ColumnsTo(T, cs, b, p + 1)
  {
    forall n | 0 <= n < 400 && Wanted(b, n) ensures Rank(n) < p <==> Rank(n) < p + 1 {
      WantedIsName(b, n);
      if Rank(n) == p {
        RankInjective(n, name);
      }
    }
  }

  lemma AddName(T: Matrix, cs: seq<nat>, b: seq<int>, p: int, name: int, c: nat)
    requires ColumnsTo(T, cs, b, p) && Rank(name) == p && 0 <= name < 400 && Wanted(b, name)
    requires c != 0 && c !in T.cols
    ensures cs[name] == 0
    ensures ColumnsTo(AddColumn(T, c), cs[name := c], b, p + 1)
  {
    var T2, cs2 := AddColumn(T, c), cs[name := c];
    WantedIsName(b, name);
    forall n | 0 <= n < 400 && Wanted(b, n) && n != name ensures Rank(n) != p {
      WantedIsName(b, n);
      if Rank(n) == p {
        RankInjective(n, name);
      }
    }
    AddMatched(T, cs, name, c);
  }

  lemma AddMatched(T: Matrix, cs: seq<nat>, name: int, c: nat)
    requires Matched(T, cs) && 0 <= name < 400 && cs[name] == 0 && c != 0 && c !in T.cols
    ensures Matched(AddColumn(T, c), cs[name := c])
  {
    var T2, cs2 := AddColumn(T, c), cs[name := c];
    forall n, d | StandsFor(cs2, n, d) ensures d in T2.cols && (if d == c then n == name else StandsFor(cs, n, d)) {
      if n != name {
        assert StandsFor(cs, n, d);
      }
    }
    forall d | d in T2.cols ensures exists n :: StandsFor(cs2, n, d) {
      if d == c {
        assert StandsFor(cs2, name, c);
      } else {
        var n :| StandsFor(cs, n, d);
        assert StandsFor(cs2, n, d);
      }
    }
  }

  // ----- rows -----

  /** All columns are there; the candidate rows with code below `limit` are, and no others. */
  ghost predicate RowsTo(T: Matrix, cs: seq<nat>, b: seq<int>, limit: nat) {
    && |b| == 81 && Matched(T, cs)
    && (forall n {:trigger Wanted(b, n)} {:trigger cs[n]} :: 0 <= n < 400 ==> (cs[n] != 0 <==> Wanted(b, n)))
    && (forall m :: m in T.row ==> T.row[m] < limit)
    && (forall r: nat, n, c {:trigger StandsFor(cs, n, c), Hits(T, r, c)} ::
          StandsFor(cs, n, c) ==> (Hits(T, r, c) <==> Fits(b, r, n) && r < limit))
  }

  lemma AllColumns(T: Matrix, size: nat, cs: seq<nat>, b: seq<int>)
    requires ColumnsTo(T, cs, b, 324) && WellFormed(T, size)
    ensures RowsTo(T, cs, b, 0)
  {
    forall n | 0 <= n < 400 ensures cs[n] != 0 <==> Wanted(b, n) {
      if Wanted(b, n) {
        WantedIsName(b, n);
        RankBound(n);
      }
    }
    assert T.col.Keys == {};
    forall r: nat, n, c | StandsFor(cs, n, c) ensures !Hits(T, r, c) {
    }
  }

  lemma SkipRow(T: Matrix, cs: seq<nat>, b: seq<int>, r: nat)
    requires RowsTo(T, cs, b, r) && !Candidate(b, CellOf(r), ValueOf(r))
    ensures RowsTo(T, cs, b, r + 1)
  {
  }

  /** Past the last code, the loop's rows are all the candidates. */
  lemma RowsComplete(T: Matrix, cs: seq<nat>, b: seq<int>)
    requires RowsTo(T, cs, b, 810)
    ensures Represents(T, cs, b)
  {
  }

  /** The columns a candidate row goes into, with its names. */
  ghost function FourOf(cs: seq<nat>, i: int, v: int): Four
    requires |cs| == 400 && 0 <= i < 81 && 1 <= v <= 9
  {
    assert forall k :: 0 <= k < 3 ==> 0 <= UnitName(k, UnitOf(k, i), v) < 400 by {
      forall k | 0 <= k < 3 ensures 0 <= UnitName(k, UnitOf(k, i), v) < 400 {
        CellUnits(k, i);
        UnitNameDigits(k, UnitOf(k, i), v);
      }
    }
    var n0, n1, n2, n3 := i, UnitName(0, UnitOf(0, i), v), UnitName(1, UnitOf(1, i), v), UnitName(2, UnitOf(2, i), v);
    Four(cs[n0], cs[n1], cs[n2], cs[n3], n0, n1, n2, n3)
  }

  lemma FourNames(b: seq<int>, i: int, v: int)
    requires |b| == 81 && Candidate(b, i, v)
    ensures forall n :: n in NamesOf(i, v) ==> 0 <= n < 400 && Wanted(b, n)
    ensures forall k :: 0 <= k < 3 ==> UnitName(k, UnitOf(k, i), v) in NamesOf(i, v) && UnitName(k, UnitOf(k, i), v) >= 100
                                       && UnitName(k, UnitOf(k, i), v) / 100 == k + 1 && UnitName(k, UnitOf(k, i), v) % 10 == v
  {
    forall n | n in NamesOf(i, v) ensures 0 <= n < 400 && Wanted(b, n) {
      CandidateNamesWanted(b, i, v, n);
    }
    forall k | 0 <= k < 3
      ensures UnitName(k, UnitOf(k, i), v) in NamesOf(i, v) && UnitName(k, UnitOf(k, i), v) >= 100
              && UnitName(k, UnitOf(k, i), v) / 100 == k + 1 && UnitName(k, UnitOf(k, i), v) % 10 == v
    {
      assert NamesOf(i, v)[k + 1] == UnitName(k, UnitOf(k, i), v);
      CellUnits(k, i);
      UnitNameDigits(k, UnitOf(k, i), v);
    }
  }

  lemma FourIsFit(T: Matrix, size: nat, cs: seq<nat>, b: seq<int>, limit: nat, i: int, v: int)
    requires WellFormed(T, size) && RowsTo(T, cs, b, limit) && Candidate(b, i, v)
    ensures FourFit(T, FourOf(cs, i, v))
    ensures var q := FourOf(cs, i, v);
      && StandsFor(cs, q.n0, q.c0) && StandsFor(cs, q.n1, q.c1) && StandsFor(cs, q.n2, q.c2) && StandsFor(cs, q.n3, q.c3)
  {
    FourNames(b, i, v);
    var q := FourOf(cs, i, v);
    assert NamesOf(i, v)[0] == i && i in NamesOf(i, v);
    hide UnitName, UnitOf, NamesOf, Wanted, Candidate;
    assert q.n1 == UnitName(0, UnitOf(0, i), v) && q.n2 == UnitName(1, UnitOf(1, i), v) && q.n3 == UnitName(2, UnitOf(2, i), v);
    assert q.n0 < 100 <= q.n1 && q.n1 / 100 == 1 && q.n2 / 100 == 2 && q.n3 / 100 == 3;
    assert StandsFor(cs, q.n0, q.c0) && StandsFor(cs, q.n1, q.c1) && StandsFor(cs, q.n2, q.c2) && StandsFor(cs, q.n3, q.c3);
  }

  lemma AddedRowCodes(T: Matrix, T2: Matrix, x: nat, q: Four, r: nat)
    requires WellFormed(T, x) && NewRowMaps(T, T2, x, q, r) && forall m :: m in T.row ==> T.row[m] < r
    ensures forall m :: m in T2.row ==> T2.row[m] < r + 1
  {
    forall m | m in T2.row ensures T2.row[m] < r + 1 {
      if m in T.col {
        assert OldNode(T, T2, m);
      }
    }
  }

  lemma AddedRowHits(T: Matrix, size: nat, cs: seq<nat>, b: seq<int>, r: nat, q: Four)
    requires WellFormed(T, size) && RowsTo(T, cs, b, r) && FourFit(T, q) && Candidate(b, CellOf(r), ValueOf(r))
    requires NamesOf(CellOf(r), ValueOf(r)) == [q.n0, q.n1, q.n2, q.n3]
    requires StandsFor(cs, q.n0, q.c0) && StandsFor(cs, q.n1, q.c1) && StandsFor(cs, q.n2, q.c2) && StandsFor(cs, q.n3, q.c3)
    ensures forall p: nat, n, c {:trigger StandsFor(cs, n, c), Hits(TableGrowth.AddRow(T, size, q, r), p, c)} ::
      StandsFor(cs, n, c) ==> (Hits(TableGrowth.AddRow(T, size, q, r), p, c) <==> Fits(b, p, n) && p < r + 1)
  {
    hide WellFormed, TableGrowth.AddRow, FourFit, NamesOf, Candidate, Wanted, Fits, Hits;
    var T2 := TableGrowth.AddRow(T, size, q, r);
    forall p: nat, n, c | StandsFor(cs, n, c) ensures Hits(T2, p, c) <==> Fits(b, p, n) && p < r + 1 {
      AddRowHits(T, size, q, r, p, c);
      CandidateHit(cs, b, q, r, p, n, c);
    }
  }

  lemma FourOfNames(cs: seq<nat>, i: int, v: int)
    requires |cs| == 400 && 0 <= i < 81 && 1 <= v <= 9
    ensures var q := FourOf(cs, i, v); NamesOf(i, v) == [q.n0, q.n1, q.n2, q.n3]
  {
  }

  lemma AddCandidate(T: Matrix, size: nat, cs: seq<nat>, b: seq<int>, r: nat, i: int, v: int)
    requires WellFormed(T, size) && RowsTo(T, cs, b, r) && Candidate(b, i, v) && r == RowCode(i, v)
    ensures FourFit(T, FourOf(cs, i, v))
    ensures RowsTo(TableGrowth.AddRow(T, size, FourOf(cs, i, v), r), cs, b, r + 1)
  {
    hide WellFormed, TableGrowth.AddRow, FourOf, NamesOf, FourFit, Wanted, NewRowLists4, Fits, Hits, NewRowMaps;
    FourIsFit(T, size, cs, b, r, i, v);
    RowCodeParts(i, v);
    var q := FourOf(cs, i, v);
    FourOfNames(cs, i, v);
    var T2 := TableGrowth.AddRow(T, size, q, r);
    AddRowParts(T, size, q, r);
    AddedRowCodes(T, T2, size, q, r);
    AddedRowHits(T, size, cs, b, r, q);
    MatchedKept(T, T2, cs);
  }

  lemma MatchedKept(T: Matrix, T2: Matrix, cs: seq<nat>)
    requires Matched(T, cs) && T2.cols == T.cols
    ensures Matched(T2, cs)
  {
  }

  lemma CandidateHit(cs: seq<nat>, b: seq<int>, q: Four, r: nat, p: nat, n: int, c: nat)
    requires |b| == 81 && StandsFor(cs, n, c) && Candidate(b, CellOf(r), ValueOf(r))
    requires NamesOf(CellOf(r), ValueOf(r)) == [q.n0, q.n1, q.n2, q.n3]
    requires StandsFor(cs, q.n0, q.c0) && StandsFor(cs, q.n1, q.c1) && StandsFor(cs, q.n2, q.c2) && StandsFor(cs, q.n3, q.c3)
    requires forall n, m, c :: StandsFor(cs, n, c) && StandsFor(cs, m, c) ==> n == m
    ensures p == r ==> (Fits(b, p, n) <==> c == q.c0 || c == q.c1 || c == q.c2 || c == q.c3)
  {
    assert n in [q.n0, q.n1, q.n2, q.n3] <==> n == q.n0 || n == q.n1 || n == q.n2 || n == q.n3;
  }

  // ----- labels -----

  lemma AddRowLabelled(T: Matrix, size: nat, cs: seq<nat>, b: seq<int>, i: int, v: int, r: nat)
    requires WellFormed(T, size) && AllLabelled(T) && |b| == 81 && |cs| == 400 && Candidate(b, i, v) && r == RowCode(i, v)
    requires FourFit(T, FourOf(cs, i, v))
    ensures AllLabelled(AddRow(T, size, FourOf(cs, i, v), r))
  {
    var q := FourOf(cs, i, v);
    var T2 := AddRow(T, size, q, r);
    AddRowParts(T, size, q, r);
    FourNames(b, i, v);
    RowCodeParts(i, v);
    assert q.n0 == i && q.n1 >= 100 && q.n2 >= 100 && q.n3 >= 100;
    assert q.n1 % 10 == v && q.n2 % 10 == v && q.n3 % 10 == v;
    hide AddRow, FourOf, NamesOf, Candidate, FourFit, WellFormed, Labelled, UnitName, UnitOf, NewRowLists4;
    forall n | n in T2.col ensures Labelled(T2, n) {
      if n in T.col {
        assert Labelled(T, n);
        OldLabelled(T, T2, size, n);
      } else {
        NewLabelled(T, T2, size, q, r, n);
      }
    }
  }

  lemma OldLabelled(T: Matrix, T2: Matrix, size: nat, n: nat)
    requires WellFormed(T, size) && Labelled(T, n) && n in T.col && forall m :: m in T.col ==> OldNode(T, T2, m)
    ensures Labelled(T2, n)
  {
    assert OldNode(T, T2, n) && NodeFacts(T, size, n);
    assert RowRing(T2, n) == RowRing(T, n);
    forall m | m in RowRing(T, n) ensures m in T.col && NamedFor(T2, T2.row[n], m) && (NamesCell(T2, m) <==> NamesCell(T, m)) {
      assert m == n || m in T.others[n];
      assert OldNode(T, T2, m);
    }
  }

  lemma NewLabelled(T: Matrix, T2: Matrix, x: nat, q: Four, r: nat, n: nat)
    requires NewRowMaps(T, T2, x, q, r) && x <= n < x + 4 && CellOf(r) < 81
    requires q.n0 == CellOf(r) && q.n1 >= 100 && q.n2 >= 100 && q.n3 >= 100
    requires q.n1 % 10 == ValueOf(r) && q.n2 % 10 == ValueOf(r) && q.n3 % 10 == ValueOf(r)
    ensures Labelled(T2, n)
  {
    var ring := RowRing(T2, n);
    forall m | m in ring ensures x <= m < x + 4 && NamedFor(T2, r, m) {
    }
    assert x in ring by { assert ring[(x + 4 - n) % 4] == x; }
    assert x + 1 in ring by { assert ring[(x + 5 - n) % 4] == x + 1; }
    assert NamesCell(T2, x) && !NamesCell(T2, x + 1);
  }
}
