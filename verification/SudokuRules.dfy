/** Sudoku itself: units, completions of a board, and the constraint columns and candidate rows
    that stand for them in the exact-cover matrix. */
module SudokuRules {

  type Board = b: seq<int> | |b| == 81 witness seq(81, _ => 0)

  predicate Digits(b: seq<int>) {
    |b| == 81 && forall i :: 0 <= i < 81 ==> 0 <= b[i] <= 9
  }

  /** The unit of kind 0 (row), 1 (column) or 2 (box) that holds cell `i`. */
  function UnitOf(kind: int, i: int): int
  {
    if kind == 0 then i / 9 else if kind == 1 then i % 9 else i / 9 / 3 * 3 + i % 9 / 3
  }

  /** The `j`-th cell of a unit, and the place of a cell in its unit. */
  function CellAt(kind: int, u: int, j: int): int
  {
    if kind == 0 then u * 9 + j
    else if kind == 1 then j * 9 + u
    else (u / 3 * 3 + j / 3) * 9 + (u % 3 * 3 + j % 3)
  }

  function PlaceOf(kind: int, i: int): int
  {
    if kind == 0 then i % 9 else if kind == 1 then i / 9 else i / 9 % 3 * 3 + i % 9 % 3
  }

  lemma Split(q: int, r: int, n: int)
    requires n == 3 || n == 9 || n == 10 || n == 100
    requires 0 <= r < n
    ensures (q * n + r) / n == q && (q * n + r) % n == r
  {
    if n == 3 {
      assert (q * 3 + r) / 3 == q;
    } else if n == 9 {
      assert (q * 9 + r) / 9 == q;
    } else if n == 10 {
      assert (q * 10 + r) / 10 == q;
    } else {
      assert (q * 100 + r) / 100 == q;
    }
  }

  lemma UnitCells(kind: int, u: int, j: int)
    requires 0 <= kind < 3 && 0 <= u < 9 && 0 <= j < 9
    ensures 0 <= CellAt(kind, u, j) < 81
    ensures UnitOf(kind, CellAt(kind, u, j)) == u && PlaceOf(kind, CellAt(kind, u, j)) == j
  {
    if kind == 0 {
      Split(u, j, 9);
    } else if kind == 1 {
      Split(j, u, 9);
    } else {
      var a, b, c, d := u / 3, u % 3, j / 3, j % 3;
      Split(a * 3 + c, b * 3 + d, 9);
      Split(a, c, 3);
      Split(b, d, 3);
    }
  }

  lemma CellUnits(kind: int, i: int)
    requires 0 <= kind < 3 && 0 <= i < 81
    ensures 0 <= UnitOf(kind, i) < 9 && 0 <= PlaceOf(kind, i) < 9
    ensures CellAt(kind, UnitOf(kind, i), PlaceOf(kind, i)) == i
  {
    if kind == 2 {
      var a, c := i / 9 / 3, i / 9 % 3;
      var b, d := i % 9 / 3, i % 9 % 3;
      Split(a, b, 3);
      Split(c, d, 3);
    }
  }

  /** Two cells of one unit differ. */
  ghost predicate UnitsDistinct(g: seq<int>)
    requires |g| == 81
  {
    forall kind, i, j {:trigger UnitOf(kind, i), UnitOf(kind, j)} ::
      0 <= kind < 3 && 0 <= i < 81 && 0 <= j < 81 && i != j && UnitOf(kind, i) == UnitOf(kind, j) ==> g[i] != g[j]
  }

  /** `g` is a solved Sudoku that keeps every given of `b`. */
  ghost predicate Completion(b: seq<int>, g: seq<int>) {
    && |b| == 81 && |g| == 81
    && (forall i :: 0 <= i < 81 ==> 1 <= g[i] <= 9)
    && (forall i :: 0 <= i < 81 && b[i] != 0 ==> g[i] == b[i])
    && UnitsDistinct(g)
  }

  /** Some cell of the unit holds `v`. */
  ghost predicate Holds(g: seq<int>, kind: int, u: int, v: int) {
    exists i :: 0 <= i < |g| && UnitOf(kind, i) == u && g[i] == v
  }

  ghost predicate UnitsFull(g: seq<int>) {
    forall kind, u, v {:trigger Holds(g, kind, u, v)} ::
      0 <= kind < 3 && 0 <= u < 9 && 1 <= v <= 9 ==> Holds(g, kind, u, v)
  }

  // ----- nine values in nine places -----

  ghost function Values(f: seq<int>): (r: set<int>)
    ensures forall x :: x in r <==> x in f
  {
    set x | x in f
  }

  /** A sequence has as many values as places iff no value repeats. */
  lemma {:induction false} CountValues(f: seq<int>)
    ensures |Values(f)| <= |f|
    ensures |Values(f)| == |f| <==> forall i, j :: 0 <= i < j < |f| ==> f[i] != f[j]
  {
    if f == [] {
      assert Values(f) == {};
    } else {
      var front, last := f[..|f| - 1], f[|f| - 1];
      CountValues(front);
      assert f == front + [last];
      assert Values(f) == Values(front) + {last};
      if last in front {
        assert Values(f) == Values(front);
        var i :| 0 <= i < |front| && front[i] == last;
        assert f[i] == f[|f| - 1];
      } else {
        assert |Values(f)| == |Values(front)| + 1;
        if forall i, j :: 0 <= i < j < |front| ==> front[i] != front[j] {
          forall i, j | 0 <= i < j < |f| ensures f[i] != f[j] {
            if j < |front| {
              assert front[i] != front[j];
            } else {
              assert front[i] in front;
            }
          }
        } else {
          var i, j :| 0 <= i < j < |front| && front[i] == front[j];
          assert f[i] == f[j];
        }
      }
    }
  }

  /** Nine digits in nine places: none repeats iff all nine occur. */
  lemma NineInNine(f: seq<int>)
    requires |f| == 9 && forall i :: 0 <= i < 9 ==> 1 <= f[i] <= 9
    ensures (forall i, j :: 0 <= i < j < 9 ==> f[i] != f[j]) <==> (forall v :: 1 <= v <= 9 ==> v in f)
  {
    var nine := {1, 2, 3, 4, 5, 6, 7, 8, 9};
    CountValues(f);
    assert Values(f) <= nine;
    assert |nine| == 9;
    if |Values(f)| == 9 {
      SubsetOfSameSize(Values(f), nine);
    }
    if forall v :: 1 <= v <= 9 ==> v in f {
      assert nine <= Values(f);
      assert Values(f) == nine;
    }
  }

  lemma SubsetOfSameSize(a: set<int>, b: set<int>)
    requires a <= b && |a| == |b|
    ensures a == b
  {
    assert b == a + (b - a);
    assert |b| == |a| + |b - a|;
  }

  ghost function UnitValues(g: seq<int>, kind: int, u: int): (f: seq<int>)
    requires |g| == 81 && 0 <= kind < 3 && 0 <= u < 9
    ensures |f| == 9
    ensures forall j :: 0 <= j < 9 ==> 0 <= CellAt(kind, u, j) < 81 && f[j] == g[CellAt(kind, u, j)]
  {
    seq(9, j requires 0 <= j < 9 => UnitCells(kind, u, j); g[CellAt(kind, u, j)])
  }

  /** On a grid of digits, all units are free of repeats iff all units hold all nine digits. */
  lemma DistinctIffFull(g: seq<int>)
    requires |g| == 81 && forall i :: 0 <= i < 81 ==> 1 <= g[i] <= 9
    ensures UnitsDistinct(g) <==> UnitsFull(g)
  {
    if UnitsDistinct(g) {
      forall kind, u, v | 0 <= kind < 3 && 0 <= u < 9 && 1 <= v <= 9 ensures Holds(g, kind, u, v) {
        var f := UnitValues(g, kind, u);
        forall i, j | 0 <= i < j < 9 ensures f[i] != f[j] {
          UnitCells(kind, u, i);
          UnitCells(kind, u, j);
        }
        NineInNine(f);
        assert v in f;
        var j :| 0 <= j < 9 && f[j] == v;
        UnitCells(kind, u, j);
        var c := CellAt(kind, u, j);
        assert 0 <= c < |g| && UnitOf(kind, c) == u && g[c] == v;
      }
    }
    if UnitsFull(g) {
      forall kind, i, j | 0 <= kind < 3 && 0 <= i < 81 && 0 <= j < 81 && i != j && UnitOf(kind, i) == UnitOf(kind, j)
        ensures g[i] != g[j]
      {
        FullUnitDistinct(g, kind, i, j);
      }
    }
  }

  lemma FullUnitDistinct(g: seq<int>, kind: int, i: int, j: int)
    requires |g| == 81 && (forall c :: 0 <= c < 81 ==> 1 <= g[c] <= 9) && UnitsFull(g)
    requires 0 <= kind < 3 && 0 <= i < 81 && 0 <= j < 81 && i != j && UnitOf(kind, i) == UnitOf(kind, j)
    ensures g[i] != g[j]
  {
    CellUnits(kind, i);
    CellUnits(kind, j);
    var u := UnitOf(kind, i);
    var f := UnitValues(g, kind, u);
    forall v | 1 <= v <= 9 ensures v in f {
      assert Holds(g, kind, u, v);
      var c :| 0 <= c < |g| && UnitOf(kind, c) == u && g[c] == v;
      CellUnits(kind, c);
      assert f[PlaceOf(kind, c)] == v;
    }
    NineInNine(f);
    assert f[PlaceOf(kind, i)] == g[i] && f[PlaceOf(kind, j)] == g[j];
  }

  // ----- constraints and candidates -----

  /** Name of the constraint "unit `u` of this kind holds `v`"; cells are named 0..80. */
  function UnitName(kind: int, u: int, v: int): int {
    100 * (kind + 1) + u * 10 + v
  }

  /** The constraints not already met by a given. */
  ghost predicate Wanted(b: seq<int>, name: int)
    requires |b| == 81
  {
    if 0 <= name < 81 then b[name] == 0
    else
      && 100 <= name < 400 && name % 100 / 10 < 9 && 1 <= name % 10
      && !Holds(b, name / 100 - 1, name % 100 / 10, name % 10)
  }

  /** Value `v` may go into empty cell `i`: no given in its units has it. */
  ghost predicate Candidate(b: seq<int>, i: int, v: int)
    requires |b| == 81
  {
    && 0 <= i < 81 && b[i] == 0 && 1 <= v <= 9
    && forall kind :: 0 <= kind < 3 ==> !Holds(b, kind, UnitOf(kind, i), v)
  }

  /** The constraint names met by putting `v` into cell `i`. */
  function NamesOf(i: int, v: int): seq<int> {
    [i, UnitName(0, UnitOf(0, i), v), UnitName(1, UnitOf(1, i), v), UnitName(2, UnitOf(2, i), v)]
  }

  lemma UnitNameDigits(kind: int, u: int, v: int)
    requires 0 <= kind < 3 && 0 <= u < 9 && 0 <= v < 10
    ensures var n := UnitName(kind, u, v);
      100 <= n < 400 && n / 100 - 1 == kind && n % 100 / 10 == u && n % 10 == v
  {
    Split(kind + 1, u * 10 + v, 100);
    Split(u, v, 10);
    Split(10 * (kind + 1) + u, v, 10);
  }

  lemma UnitNameOf(n: int)
    requires 100 <= n < 400
    ensures 0 <= n / 100 - 1 < 3 && n == UnitName(n / 100 - 1, n % 100 / 10, n % 10)
  {
  }

  /** Which constraints a placement meets. */
  lemma NamesMeaning(i: int, v: int, name: int)
    requires 0 <= i < 81 && 1 <= v <= 9
    ensures name in NamesOf(i, v) <==>
      if 0 <= name < 81 then name == i
      else
        && 100 <= name < 400 && name % 10 == v
        && UnitOf(name / 100 - 1, i) == name % 100 / 10
  {
    var s := NamesOf(i, v);
    assert name in s <==> name == s[0] || name == s[1] || name == s[2] || name == s[3];
    forall k | 0 <= k < 3
      ensures s[k + 1] == UnitName(k, UnitOf(k, i), v) && 0 <= UnitOf(k, i) < 9
    {
      CellUnits(k, i);
    }
    hide UnitOf, UnitName;
    UnitNameDigits(0, UnitOf(0, i), v);
    UnitNameDigits(1, UnitOf(1, i), v);
    UnitNameDigits(2, UnitOf(2, i), v);
    if 100 <= name < 400 {
      UnitNameOf(name);
    }
  }
}
