// A source that arrives while it is the key of a row: the row loses its pivot but keeps its key
// and its scale.  What that does to the symbols found later, and a call that does not.

module StalePivots {
  import opened Fields
  import opened Keys
  import opened Rows
  import opened Elimination
  import opened Echelon
  import opened Recovery
  import opened Incremental
  import opened Equations

  // ---------------------------------------------------------------- one row

  // The payload of a solved row is its coefficient times the symbol: exact when the coefficient
  // is one, and otherwise only for the symbol zero.
  lemma SolvedPayload<T(!new)>(F: Field<T>, r: Row<T>, id: nat, x: Assignment<T>, p: nat)
    requires IsField(F) && p < |r.payload|
    requires Only(F, r.dense, id) && Residual(F, r, x, p) == F.zero
    ensures r.payload[p] == F.mul(Get(F, r.dense, id), x(id))
    ensures r.payload[p] == x(id) <==> Get(F, r.dense, id) == F.one || x(id) == F.zero
  {
    var c := Get(F, r.dense, id);
    DotOnly(F, r.dense, x, id, End(r.dense));
    SumZero(F, r.payload[p], F.mul(c, x(id)));
    if F.mul(c, x(id)) == x(id) && x(id) != F.zero {
      Laws(F, c, x(id), x(id));
      Cancel(F, x(id), c, F.one);
    }
  }

  // ---------------------------------------------------------------- three calls

  // s0 + a s1, over the ids 0 and 1.
  ghost function Pair<T>(F: Field<T>, a: T, s0: T, s1: T): Row<T> {
    Row(Dense(0, [F.one, a]), [F.add(s0, F.mul(a, s1))])
  }

  // The same row after source 0 has been moved to the payload side.
  ghost function Stale<T>(F: Field<T>, a: T, s1: T): Row<T> {
    Row(Dense(0, [F.zero, a]), [F.mul(a, s1)])
  }

  ghost function Single<T>(F: Field<T>, id: nat, s: T): Row<T> {
    Row(Dense(id, [F.one]), [s])
  }

  lemma SortedOne(k: nat)
    ensures Sorted({k}) == [k]
  {
    assert {k} - {Min({k})} == {};
  }

  lemma SortedTwo(j: nat, k: nat)
    requires j < k
    ensures Sorted({j, k}) == [j, k]
  {
    assert Min({j, k}) == j;
    assert {j, k} - {j} == {k};
    SortedOne(k);
  }

  lemma PairInserted<T(!new)>(F: Field<T>, a: T, s0: T, s1: T, maxRows: nat)
    requires IsField(F) && a != F.zero
    ensures AddRow(F, map[], maxRows, Pair(F, a, s0, s1), {}) == Outcome(map[0 := Pair(F, a, s0, s1)], [])
  {
    var r, none: Matrix<T> := Pair(F, a, s0, s1), map[];
    assert none.Keys == {};
    assert Forward(F, none, r) == r;
    assert IsSolved(F, r.dense).None? by {
      assert Get(F, r.dense, 0) == F.one && Get(F, r.dense, 1) == a;
    }
    var M: Matrix<T> := map[0 := r];
    assert InsertRow(F, none, maxRows, r) == M;
    assert M.Keys == {0};
    SortedOne(0);
    assert SolvedKeys(F, M, [0]) == [];
  }

  lemma PairReduced<T(!new)>(F: Field<T>, a: T, s0: T, s1: T)
    requires IsField(F) && a != F.zero
    ensures Reduced(F, map[0 := Pair(F, a, s0, s1)]) && Unsolved(F, map[0 := Pair(F, a, s0, s1)])
  {
    var d := Pair(F, a, s0, s1).dense;
    assert Get(F, d, 0) == F.one && Get(F, d, 1) == a;
  }

  lemma PairSpoiled<T(!new)>(F: Field<T>, a: T, s0: T, s1: T)
    requires IsField(F) && a != F.zero
    ensures Learn(F, map[0 := Pair(F, a, s0, s1)], 0, [s0], {0}) == Outcome(map[0 := Stale(F, a, s1)], [])
  {
    var M: Matrix<T> := map[0 := Pair(F, a, s0, s1)];
    PairReduced(F, a, s0, s1);
    StaleKey(F, M, 0, [s0], {});
    assert {} + {0} == {0};
    PairRows(F, a, s0, s1);
  }

  lemma PairRows<T(!new)>(F: Field<T>, a: T, s0: T, s1: T)
    requires IsField(F)
    ensures SubstituteRows(F, map[0 := Pair(F, a, s0, s1)], 0, [s0]) == map[0 := Stale(F, a, s1)]
  {
    PairSubstituted(F, a, s0, s1);
  }

  lemma PairSubstituted<T(!new)>(F: Field<T>, a: T, s0: T, s1: T)
    requires IsField(F)
    ensures Substitute(F, Pair(F, a, s0, s1), 0, [s0]) == Stale(F, a, s1)
  {
    var t := F.mul(a, s1);
    Laws(F, s0, t, s0);
    Laws(F, t, s0, s0);
  }

  lemma StaleExtracted<T(!new)>(F: Field<T>, a: T, s1: T, s2: T, maxRows: nat)
    requires IsField(F) && a != F.zero && maxRows >= 2
    ensures AddRow(F, map[0 := Stale(F, a, s1)], maxRows, Single(F, 2, s2), {0}).recovered
         == [Symbol(1, [F.mul(a, s1)]), Symbol(2, [s2])]
  {
    var M: Matrix<T>, r := map[0 := Stale(F, a, s1)], Single(F, 2, s2);
    assert M.Keys == {0};
    SortedOne(0);
    assert Get(F, r.dense, 0) == F.zero && Get(F, M[0].dense, 2) == F.zero;
    assert ForwardEliminate(F, M, [0], r) == r;
    var N: Matrix<T> := map[0 := M[0], 2 := r];
    assert InsertRow(F, M, maxRows, r) == N;
    assert N.Keys == {0, 2};
    StaleSolved(F, Outcome(N, []), {0}, 1);
  }

  lemma TakeSolved<T(!new)>(F: Field<T>, o: Outcome<T>, pid: nat, id: nat, known: set<nat>, n: nat)
    requires Shaped(o.rows, n) && SymbolsShaped(o.recovered, n)
    requires pid in o.rows && Only(F, o.rows[pid].dense, id) && Absent(F, o.rows - {pid}, id)
    ensures SolveOne(F, o, pid, known, n)
         == Outcome(o.rows - {pid}, o.recovered + [Symbol(id, o.rows[pid].payload)])
  {
    IsSolvedOnly(F, o.rows[pid].dense, id);
    AddKnownIdle(F, Cascade(o.rows - {pid}, [Symbol(id, o.rows[pid].payload)], []), known + Ids(o.recovered) + {id}, n);
  }

  lemma BothSolved<T(!new)>(F: Field<T>, N: Matrix<T>)
    requires N.Keys == {0, 2} && Only(F, N[0].dense, 1) && Only(F, N[2].dense, 2)
    ensures SolvedList(F, N) == [0, 2]
  {
    IsSolvedOnly(F, N[0].dense, 1);
    IsSolvedOnly(F, N[2].dense, 2);
    SortedTwo(0, 2);
    assert SolvedKeys(F, N, [0]) == [0];
    assert [0, 2][..1] == [0];
  }

  lemma NoneSolved<T(!new)>(F: Field<T>, o: Outcome<T>, known: set<nat>, n: nat)
    requires o.rows == map[] && SymbolsShaped(o.recovered, n)
    ensures Solve(F, o, known, n) == o
  {
    assert o.rows.Keys == {};
    assert SolvedList(F, o.rows) == [];
  }

  lemma TwoTurns<T(!new)>(F: Field<T>, start: Outcome<T>, mid: Outcome<T>, end: Outcome<T>, known: set<nat>, n: nat)
    requires Shaped(start.rows, n) && SymbolsShaped(start.recovered, n)
    requires Shaped(mid.rows, n) && SymbolsShaped(mid.recovered, n)
    requires Shaped(end.rows, n) && SymbolsShaped(end.recovered, n)
    requires SolvedList(F, start.rows) == [0, 2]
    requires SolveOne(F, start, 0, known, n) == mid && SolveOne(F, mid, 2, known, n) == end
    ensures Solve(F, start, known, n) == Solve(F, end, known, n)
  {
    assert [0, 2][..1] == [0] && [0][..0] == [];
    assert SolvePass(F, start, [0], known, n) == mid;
    assert SolvePass(F, start, [0, 2], known, n) == end;
    SolveTurn(F, start, known, n);
  }

  lemma FirstTaken<T(!new)>(F: Field<T>, start: Outcome<T>, mid: Outcome<T>, known: set<nat>, n: nat)
    requires start.rows.Keys == {0, 2} && Shaped(start.rows, n) && start.recovered == []
    requires Only(F, start.rows[0].dense, 1) && Only(F, start.rows[2].dense, 2)
    requires mid == Outcome(start.rows - {0}, [Symbol(1, start.rows[0].payload)])
    ensures SolveOne(F, start, 0, known, n) == mid
    ensures mid.rows.Keys == {2} && mid.rows[2] == start.rows[2]
    ensures Shaped(mid.rows, n) && SymbolsShaped(mid.recovered, n)
  {
    TakeSolved(F, start, 0, 1, known, n);
    assert (start.rows - {0}).Keys == {2};
  }

  lemma SecondTaken<T(!new)>(F: Field<T>, mid: Outcome<T>, end: Outcome<T>, known: set<nat>, n: nat)
    requires mid.rows.Keys == {2} && Shaped(mid.rows, n) && SymbolsShaped(mid.recovered, n)
    requires Only(F, mid.rows[2].dense, 2) && |mid.recovered| == 1
    requires end == Outcome(map[], [mid.recovered[0], Symbol(2, mid.rows[2].payload)])
    ensures SolveOne(F, mid, 2, known, n) == end && SymbolsShaped(end.recovered, n)
  {
    var rest := mid.rows - {2};
    assert rest.Keys == {};
    TakeSolved(F, mid, 2, 2, known, n);
    assert rest == map[];
  }

  lemma StaleSolved<T(!new)>(F: Field<T>, start: Outcome<T>, known: set<nat>, n: nat)
    requires start.rows.Keys == {0, 2} && Shaped(start.rows, n) && start.recovered == []
    requires Only(F, start.rows[0].dense, 1) && Only(F, start.rows[2].dense, 2)
    ensures Solve(F, start, known, n).recovered
         == [Symbol(1, start.rows[0].payload), Symbol(2, start.rows[2].payload)]
  {
    var mid := Outcome(start.rows - {0}, [Symbol(1, start.rows[0].payload)]);
    var end := Outcome(map[], [Symbol(1, start.rows[0].payload), Symbol(2, start.rows[2].payload)]);
    FirstTaken(F, start, mid, known, n);
    SecondTaken(F, mid, end, known, n);
    BothSolved(F, start.rows);
    TwoTurns(F, start, mid, end, known, n);
    NoneSolved(F, end, known, n);
  }

  // What an equation over 0 and 1, the late source 0 and an equation over 2 find.
  ghost function LateSource<T(!new)>(F: Field<T>, a: T, s0: T, s1: T, s2: T, maxRows: nat): seq<Symbol<T>>
    requires IsField(F)
  {
    var one := AddRow(F, map[], maxRows, Pair(F, a, s0, s1), {});
    var two := Learn(F, one.rows, 0, [s0], {0});
    AddRow(F, two.rows, maxRows, Single(F, 2, s2), {0}).recovered
  }

  // Source 1 comes out multiplied by its coefficient.
  lemma LateSourceScales<T(!new)>(F: Field<T>, a: T, s0: T, s1: T, s2: T, maxRows: nat)
    requires IsField(F) && a != F.zero && maxRows >= 2
    ensures LateSource(F, a, s0, s1, s2, maxRows) == [Symbol(1, [F.mul(a, s1)]), Symbol(2, [s2])]
    ensures LateSource(F, a, s0, s1, s2, maxRows) == [Symbol(1, [s1]), Symbol(2, [s2])]
       <==> a == F.one || s1 == F.zero
  {
    PairInserted(F, a, s0, s1, maxRows);
    PairSpoiled(F, a, s0, s1);
    StaleExtracted(F, a, s1, s2, maxRows);
    if F.mul(a, s1) == s1 && s1 != F.zero {
      Laws(F, a, s1, s1);
      Cancel(F, s1, a, F.one);
    }
  }

  // The coefficient of source 1 in coded packet 1 is not one.
  lemma ScaleOccurs<T(!new)>(F: Field<T>)
    requires IsGenerated(F)
    ensures Vandermonde(F, 1, 1) != F.one && Vandermonde(F, 1, 1) != F.zero
  {
    PowersOf(F, 1, 0);
  }

  // ---------------------------------------------------------------- the repair

  // A source that is the key of a row: take the row out and insert what is left of it anew.
  function Rekey<T(==,!new)>(
    F: Field<T>, M: Matrix<T>, maxRows: nat, id: nat, data: seq<T>, known: set<nat>): (o: Outcome<T>)
    requires IsField(F) && Shaped(M, |data|)
    ensures Shaped(o.rows, |data|) && SymbolsShaped(o.recovered, |data|)
  {
    if id in M then AddRow(F, M - {id}, maxRows, Substitute(F, M[id], id, data), known + {id})
    else Learn(F, M, id, data, known + {id})
  }

  lemma WithoutKey<T(!new)>(F: Field<T>, M: Matrix<T>, id: nat, known: set<nat>)
    requires Settled(F, M, known) && id in M
    ensures Settled(F, M - {id}, known + {id}) && |M - {id}| < |M|
  {
    var N := M - {id};
    assert N.Keys == M.Keys - {id};
    assert |N| == |N.Keys| && |M| == |M.Keys|;
  }

  lemma RestIsClean<T(!new)>(F: Field<T>, M: Matrix<T>, id: nat, data: seq<T>, known: set<nat>)
    requires Settled(F, M, known) && id in M && Shaped(M, |data|)
    ensures forall j :: j in known + {id} ==> Get(F, Substitute(F, M[id], id, data).dense, j) == F.zero
  {
    forall j | j in known ensures Get(F, M[id].dense, j) == F.zero {
      assert Absent(F, M, j);
    }
  }

  // Reduced form is kept for every source id.
  lemma RekeySettled<T(!new)>(F: Field<T>, M: Matrix<T>, maxRows: nat, id: nat, data: seq<T>, known: set<nat>)
    requires IsField(F) && Shaped(M, |data|) && Settled(F, M, known)
    ensures var o := Rekey(F, M, maxRows, id, data, known);
            Settled(F, o.rows, known + {id} + Ids(o.recovered))
  {
    if id in M {
      WithoutKey(F, M, id, known);
      RestIsClean(F, M, id, data, known);
      AddRowSettled(F, M - {id}, maxRows, Substitute(F, M[id], id, data), known + {id});
    } else {
      AddKnownSettled(F, M, id, data, known);
    }
  }

  // What held of the rows holds of the new rows and the symbols found.
  lemma RekeySound<T(!new)>(
    F: Field<T>, M: Matrix<T>, maxRows: nat, id: nat, data: seq<T>, known: set<nat>, x: Assignment<T>, p: nat)
    requires IsField(F) && Shaped(M, |data|) && Settled(F, M, known)
    requires p < |data| && x(id) == data[p] && Solves(F, M, x, p)
    ensures var o := Rekey(F, M, maxRows, id, data, known);
            Solves(F, o.rows, x, p) && Agrees(o.recovered, x, p)
  {
    if id in M {
      WithoutKey(F, M, id, known);
      ResidualSubstitute(F, M[id], id, data, x, p);
      AddRowSound(F, M - {id}, maxRows, Substitute(F, M[id], id, data), known + {id}, x, p);
    } else {
      AddKnownSolves(F, M, id, data, known, x, p);
    }
  }

  lemma PutBack<T(!new)>(F: Field<T>, M: Matrix<T>, id: nat, x: Assignment<T>, p: nat)
    requires forall k :: k in M ==> p < |M[k].payload|
    requires id in M && Solves(F, M - {id}, x, p) && Residual(F, M[id], x, p) == F.zero
    ensures Solves(F, M, x, p)
  {
    forall k | k in M ensures Residual(F, M[k], x, p) == F.zero {
      assert k != id ==> (M - {id})[k] == M[k];
    }
  }

  lemma ReaddComplete<T(!new)>(
    F: Field<T>, M: Matrix<T>, rest: Matrix<T>, maxRows: nat, id: nat, data: seq<T>, known: set<nat>,
    x0: Assignment<T>, x: Assignment<T>, p: nat)
    requires IsField(F) && Shaped(M, |data|) && id in M && rest == M - {id} && Reduced(F, rest) && |rest| < maxRows
    requires p < |data| && x0(id) == data[p] && x(id) == data[p] && Solves(F, M, x0, p)
    requires var o := AddRow(F, rest, maxRows, Substitute(F, M[id], id, data), known);
             Solves(F, o.rows, x, p) && Agrees(o.recovered, x, p)
    ensures Solves(F, M, x, p)
  {
    ResidualSubstitute(F, M[id], id, data, x0, p);
    ResidualSubstitute(F, M[id], id, data, x, p);
    AddRowComplete(F, rest, maxRows, Substitute(F, M[id], id, data), known, x0, x, p);
    PutBack(F, M, id, x, p);
  }

  // No solution is added either; x0 is what was sent.
  lemma RekeyComplete<T(!new)>(
    F: Field<T>, M: Matrix<T>, maxRows: nat, id: nat, data: seq<T>, known: set<nat>,
    x0: Assignment<T>, x: Assignment<T>, p: nat)
    requires IsField(F) && Shaped(M, |data|) && Settled(F, M, known) && |M| <= maxRows
    requires p < |data| && x0(id) == data[p] && x(id) == data[p] && Solves(F, M, x0, p)
    requires var o := Rekey(F, M, maxRows, id, data, known);
             Solves(F, o.rows, x, p) && Agrees(o.recovered, x, p)
    ensures Solves(F, M, x, p)
  {
    if id in M {
      WithoutKey(F, M, id, known);
      ReaddComplete(F, M, M - {id}, maxRows, id, data, known + {id}, x0, x, p);
    } else {
      AddKnownSolves(F, M, id, data, known, x, p);
    }
  }
}
