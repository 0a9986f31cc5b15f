// Incremental Gaussian elimination on a map from pivot id to row: the functions that
// the methods of DecodingMatrix.dfy compute.

module Elimination {
  import opened Fields
  import opened Keys
  import opened Rows

  type Matrix<T> = map<nat, Row<T>>

  // A symbol with its id.
  datatype Symbol<T> = Symbol(id: nat, data: seq<T>)

  datatype Outcome<T> = Outcome(rows: Matrix<T>, recovered: seq<Symbol<T>>)

  // The work of add_known_source: rows, symbols still to be substituted, symbols found.
  datatype Cascade<T> = Cascade(rows: Matrix<T>, queue: seq<Symbol<T>>, recovered: seq<Symbol<T>>)

  ghost predicate Shaped<T>(M: Matrix<T>, n: nat) {
    forall k :: k in M ==> |M[k].payload| == n
  }

  ghost predicate KnownShaped<T>(known: map<nat, seq<T>>, n: nat) {
    forall id :: id in known ==> |known[id]| == n
  }

  ghost predicate SymbolsShaped<T>(s: seq<Symbol<T>>, n: nat) {
    forall i :: 0 <= i < |s| ==> |s[i].data| == n
  }

  ghost predicate CascadeShaped<T>(c: Cascade<T>, n: nat) {
    Shaped(c.rows, n) && SymbolsShaped(c.queue, n) && SymbolsShaped(c.recovered, n)
  }

  function Ids<T>(s: seq<Symbol<T>>): set<nat> {
    set i | 0 <= i < |s| :: s[i].id
  }

  // ---------------------------------------------------------------- a new equation

  function SubstituteAll<T(==)>(F: Field<T>, r: Row<T>, known: map<nat, seq<T>>, ids: seq<nat>): (s: Row<T>)
    requires forall i :: 0 <= i < |ids| ==> ids[i] in known && |known[ids[i]]| == |r.payload|
    ensures |s.payload| == |r.payload|
  {
    if ids == [] then r
    else
      var id := ids[|ids| - 1];
      Substitute(F, SubstituteAll(F, r, known, ids[..|ids| - 1]), id, known[id])
  }

  function Reduce<T(==)>(F: Field<T>, r: Row<T>, pivot: nat, piv: Row<T>): (s: Row<T>)
    requires |r.payload| == |piv.payload|
    ensures |s.payload| == |r.payload|
  {
    var c := Get(F, r.dense, pivot);
    if c == F.zero then r else RowSubtract(F, r, piv, c)
  }

  function ForwardEliminate<T(==)>(F: Field<T>, M: Matrix<T>, pivots: seq<nat>, r: Row<T>): (s: Row<T>)
    requires Shaped(M, |r.payload|) && forall i :: 0 <= i < |pivots| ==> pivots[i] in M
    ensures |s.payload| == |r.payload|
  {
    if pivots == [] then r
    else
      var k := pivots[|pivots| - 1];
      Reduce(F, ForwardEliminate(F, M, pivots[..|pivots| - 1], r), k, M[k])
  }

  // forward_eliminate: against every row, in key order.
  function Forward<T(==)>(F: Field<T>, M: Matrix<T>, r: Row<T>): (s: Row<T>)
    requires Shaped(M, |r.payload|)
    ensures |s.payload| == |r.payload|
  {
    var keys := Sorted(M.Keys);
    SortedIn(M.Keys);
    ForwardEliminate(F, M, keys, r)
  }

  function BackSubstitute<T(==)>(F: Field<T>, M: Matrix<T>, pivot: nat, piv: Row<T>): (N: Matrix<T>)
    requires Shaped(M, |piv.payload|)
    ensures Shaped(N, |piv.payload|) && N.Keys == M.Keys
  {
    map k | k in M :: Reduce(F, M[k], pivot, piv)
  }

  // The row with the smallest pivot goes when the matrix is full.
  function Evict<T>(M: Matrix<T>, maxRows: nat): (N: Matrix<T>)
    ensures N.Keys <= M.Keys && forall k :: k in N ==> N[k] == M[k]
    ensures |M| < maxRows ==> N == M
    ensures |N| <= |M|
  {
    if |M| >= maxRows && M != map[] then
      var N := M - {Min(M.Keys)};
      assert N.Keys == M.Keys - {Min(M.Keys)};
      assert |N| == |N.Keys| && |M| == |M.Keys|;
      N
    else M
  }

  // ---------------------------------------------------------------- a known symbol

  function SubstituteRows<T(==)>(F: Field<T>, M: Matrix<T>, id: nat, data: seq<T>): (N: Matrix<T>)
    requires Shaped(M, |data|)
    ensures Shaped(N, |data|) && N.Keys == M.Keys && |N| == |M|
  {
    var N := map k | k in M :: Substitute(F, M[k], id, data);
    assert N.Keys == M.Keys;
    assert |N| == |N.Keys| && |M| == |M.Keys|;
    N
  }

  // The id that a substitution of `id` solves when it turns `before` into `after`.
  function SolvedHere<T(==)>(F: Field<T>, before: Row<T>, after: Row<T>, id: nat): seq<nat> {
    var s := IsSolved(F, after.dense);
    if Get(F, before.dense, id) != F.zero && s.Some? then [s.value] else []
  }

  // The ids found solved among the rows that mentioned `id`, in pivot order.
  function NewlySolved<T(==)>(F: Field<T>, M: Matrix<T>, N: Matrix<T>, keys: seq<nat>, id: nat): (r: seq<nat>)
    requires forall i :: 0 <= i < |keys| ==> keys[i] in M && keys[i] in N
  {
    if keys == [] then []
    else
      var k := keys[|keys| - 1];
      NewlySolved(F, M, N, keys[..|keys| - 1], id) + SolvedHere(F, M[k], N[k], id)
  }

  lemma NewlySolvedStep<T(!new)>(F: Field<T>, M: Matrix<T>, N: Matrix<T>, keys: seq<nat>, id: nat, i: nat)
    requires i < |keys| && forall j :: 0 <= j < |keys| ==> keys[j] in M && keys[j] in N
    ensures NewlySolved(F, M, N, keys[..i + 1], id)
         == NewlySolved(F, M, N, keys[..i], id) + SolvedHere(F, M[keys[i]], N[keys[i]], id)
  {
    assert keys[..i + 1][..i] == keys[..i];
  }

  // The ids that substituting a symbol solves.
  function SolvedBy<T(==)>(F: Field<T>, M: Matrix<T>, id: nat, data: seq<T>): seq<nat>
    requires Shaped(M, |data|)
  {
    var keys := Sorted(M.Keys);
    SortedIn(M.Keys);
    NewlySolved(F, M, SubstituteRows(F, M, id, data), keys, id)
  }

  // Take the rows keyed by the ids of `solved` out; queue the symbols that are new.
  function Extract<T>(c: Cascade<T>, solved: seq<nat>, known: set<nat>): (r: Cascade<T>)
    ensures |r.rows| + |r.queue| <= |c.rows| + |c.queue|
    ensures |r.rows| + |r.recovered| == |c.rows| + |c.recovered|
    ensures forall n: nat :: CascadeShaped(c, n) ==> CascadeShaped(r, n)
  {
    if solved == [] then c
    else
      var id := solved[|solved| - 1];
      var b := Extract(c, solved[..|solved| - 1], known);
      if id in b.rows then
        var sym := Symbol(id, b.rows[id].payload);
        var rows := b.rows - {id};
        assert rows.Keys == b.rows.Keys - {id};
        assert |rows| == |rows.Keys| && |b.rows| == |b.rows.Keys|;
        Cascade(rows, if id in known then b.queue else b.queue + [sym], b.recovered + [sym])
      else b
  }

  // The rows once the first symbol of the queue is substituted.
  function Substituted<T(==)>(F: Field<T>, c: Cascade<T>, n: nat): (r: Cascade<T>)
    requires c.queue != [] && CascadeShaped(c, n)
    ensures CascadeShaped(r, n)
    ensures |r.rows| == |c.rows| && r.rows.Keys == c.rows.Keys
    ensures |r.queue| < |c.queue| && r.recovered == c.recovered
  {
    Cascade(SubstituteRows(F, c.rows, c.queue[0].id, c.queue[0].data), c.queue[1..], c.recovered)
  }

  // One turn of the work queue.
  function Turn<T(==)>(F: Field<T>, c: Cascade<T>, known: set<nat>, n: nat): (r: Cascade<T>)
    requires c.queue != [] && CascadeShaped(c, n)
    ensures CascadeShaped(r, n)
    ensures |r.rows| + |r.queue| < |c.rows| + |c.queue|
    ensures |r.rows| + |r.recovered| == |c.rows| + |c.recovered|
  {
    var id := c.queue[0].id;
    Extract(Substituted(F, c, n), SolvedBy(F, c.rows, id, c.queue[0].data), known + {id})
  }

  function AddKnown<T(==)>(F: Field<T>, c: Cascade<T>, known: set<nat>, n: nat): (r: Outcome<T>)
    requires CascadeShaped(c, n)
    ensures Shaped(r.rows, n) && SymbolsShaped(r.recovered, n)
    ensures |r.rows| + |r.recovered| == |c.rows| + |c.recovered|
    decreases |c.rows| + |c.queue|
  {
    if c.queue == [] then Outcome(c.rows, c.recovered)
    else AddKnown(F, Turn(F, c, known, n), known + {c.queue[0].id}, n)
  }

  // add_known_source.
  function Learn<T(==)>(F: Field<T>, M: Matrix<T>, id: nat, data: seq<T>, known: set<nat>): (r: Outcome<T>)
    requires Shaped(M, |data|)
    ensures Shaped(r.rows, |data|) && SymbolsShaped(r.recovered, |data|)
    ensures |r.rows| + |r.recovered| == |M|
  {
    AddKnown(F, Cascade(M, [Symbol(id, data)], []), known, |data|)
  }

  // ---------------------------------------------------------------- solved rows

  function SolvedKeys<T(==)>(F: Field<T>, M: Matrix<T>, keys: seq<nat>): (r: seq<nat>)
    requires forall i :: 0 <= i < |keys| ==> keys[i] in M
    ensures forall k :: k in r <==> k in keys && IsSolved(F, M[k].dense).Some?
  {
    if keys == [] then []
    else
      var k := keys[|keys| - 1];
      var before := SolvedKeys(F, M, keys[..|keys| - 1]);
      assert forall j :: j in keys <==> j in keys[..|keys| - 1] || j == k;
      if IsSolved(F, M[k].dense).Some? then before + [k] else before
  }

  function SolvedList<T(==)>(F: Field<T>, M: Matrix<T>): (r: seq<nat>)
    ensures forall i :: 0 <= i < |r| ==> r[i] in M
    ensures r == [] ==> forall k :: k in M ==> IsSolved(F, M[k].dense).None?
  {
    SortedIn(M.Keys);
    SortedMembers(M.Keys);
    var r := SolvedKeys(F, M, Sorted(M.Keys));
    assert forall i :: 0 <= i < |r| ==> r[i] in r;
    assert r == [] ==> forall k :: k in M ==> k in Sorted(M.Keys) && k !in r;
    r
  }

  // Take one solved row out and substitute its symbol.
  function SolveOne<T(==)>(F: Field<T>, o: Outcome<T>, pid: nat, known: set<nat>, n: nat): (r: Outcome<T>)
    requires Shaped(o.rows, n) && SymbolsShaped(o.recovered, n)
    ensures Shaped(r.rows, n) && SymbolsShaped(r.recovered, n)
    ensures |r.rows| + |r.recovered| <= |o.rows| + |o.recovered|
    ensures |r.rows| <= |o.rows| && (pid in o.rows ==> |r.rows| < |o.rows|)
    ensures |o.recovered| <= |r.recovered|
  {
    if pid !in o.rows then o
    else
      var row := o.rows[pid];
      var rest := o.rows - {pid};
      assert rest.Keys == o.rows.Keys - {pid};
      assert |rest| == |rest.Keys| && |o.rows| == |o.rows.Keys|;
      match IsSolved(F, row.dense)
      case None => Outcome(rest, o.recovered)
      case Some(id) =>
        var sym := Symbol(id, row.payload);
        var more := AddKnown(F, Cascade(rest, [sym], []), known + Ids(o.recovered) + {id}, n);
        Outcome(more.rows, o.recovered + [sym] + more.recovered)
  }

  function SolvePass<T(==)>(F: Field<T>, o: Outcome<T>, solved: seq<nat>, known: set<nat>, n: nat): (r: Outcome<T>)
    requires Shaped(o.rows, n) && SymbolsShaped(o.recovered, n)
    ensures Shaped(r.rows, n) && SymbolsShaped(r.recovered, n)
    ensures |r.rows| + |r.recovered| <= |o.rows| + |o.recovered|
    ensures |r.rows| <= |o.rows| && (solved != [] && solved[0] in o.rows ==> |r.rows| < |o.rows|)
  {
    if solved == [] then o
    else SolveOne(F, SolvePass(F, o, solved[..|solved| - 1], known, n), solved[|solved| - 1], known, n)
  }

  function Solve<T(==)>(F: Field<T>, o: Outcome<T>, known: set<nat>, n: nat): (r: Outcome<T>)
    requires Shaped(o.rows, n) && SymbolsShaped(o.recovered, n)
    ensures Shaped(r.rows, n) && SymbolsShaped(r.recovered, n)
    ensures |r.rows| + |r.recovered| <= |o.rows| + |o.recovered|
    ensures forall k :: k in r.rows ==> IsSolved(F, r.rows[k].dense).None?
    decreases |o.rows|
  {
    var solved := SolvedList(F, o.rows);
    if solved == [] then o else Solve(F, SolvePass(F, o, solved, known, n), known, n)
  }

  lemma SolveTurn<T(!new)>(F: Field<T>, o: Outcome<T>, known: set<nat>, n: nat)
    requires Shaped(o.rows, n) && SymbolsShaped(o.recovered, n) && SolvedList(F, o.rows) != []
    ensures var next := SolvePass(F, o, SolvedList(F, o.rows), known, n);
            |next.rows| < |o.rows| && Solve(F, o, known, n) == Solve(F, next, known, n)
  {
  }

  // ---------------------------------------------------------------- add_coded

  function InsertRow<T(==)>(F: Field<T>, M: Matrix<T>, maxRows: nat, r: Row<T>): (N: Matrix<T>)
    requires PivotId(F, r.dense).Some? && Shaped(M, |r.payload|)
    ensures Shaped(N, |r.payload|)
  {
    var q := PivotId(F, r.dense).value;
    Evict(BackSubstitute(F, M, q, r), maxRows)[q := r]
  }

  // In a field the normalised row has a pivot, so neither error return of the source is reached.
  function AddRow<T(==,!new)>(F: Field<T>, M: Matrix<T>, maxRows: nat, r: Row<T>, known: set<nat>): (o: Outcome<T>)
    requires IsField(F) && Shaped(M, |r.payload|)
    ensures Shaped(o.rows, |r.payload|) && SymbolsShaped(o.recovered, |r.payload|)
  {
    if IsZero(F, r.dense) then Outcome(M, [])
    else
      var s := Forward(F, M, r);
      if IsZero(F, s.dense) then Outcome(M, [])
      else
        NormalizeCorrect(F, s);
        Solve(F, Outcome(InsertRow(F, M, maxRows, Normalize(F, s)), []), known, |r.payload|)
  }

  function AddCoded<T(==,!new)>(
    F: Field<T>, M: Matrix<T>, maxRows: nat, coefs: map<nat, T>, payload: seq<T>, known: map<nat, seq<T>>): Outcome<T>
    requires IsField(F) && Shaped(M, |payload|) && KnownShaped(known, |payload|)
  {
    SortedIn(known.Keys);
    AddRow(F, M, maxRows, SubstituteAll(F, Row(FromMap(F, coefs), payload), known, Sorted(known.Keys)), known.Keys)
  }
}
