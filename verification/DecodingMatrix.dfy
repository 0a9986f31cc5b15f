// The decoding matrix as the source keeps it: rows that change in place.  Every method
// computes a function of Elimination.dfy; what those functions achieve is in
// Incremental.dfy and Optimal.dfy.

module DecodingMatrices {
  import opened Fields
  import opened Keys
  import opened Rows
  import opened Elimination
  import opened Equations

  class DenseCoefs<T(==,!new)> {
    var baseId: nat
    var coefs: seq<T>

    ghost function Value(): Dense<T>
      reads this
    {
      Dense(baseId, coefs)
    }

    // from_map: a zero row from the smallest to the largest id, written entry by entry.
    constructor FromMap(F: Field<T>, m: map<nat, T>)
      ensures Value() == Rows.FromMap(F, m)
    {
      SortedEnumerates(m.Keys);
      var b, c := Filled(F, m, Sorted(m.Keys));
      baseId, coefs := b, c;
    }

    static method Filled(F: Field<T>, m: map<nat, T>, ids: seq<nat>) returns (b: nat, c: seq<T>)
      requires Enumerates(ids, m.Keys)
      ensures Dense(b, c) == FromEntries(F, m, ids)
    {
      if ids == [] {
        return 0, [];
      }
      b := ids[0];
      var n: nat := ids[|ids| - 1] + 1 - b;
      c := Zeros(F, n);
      for i := 0 to |ids|
        invariant c == Fill(F, m, ids[..i], b, n)
      {
        assert ids[..i + 1][..i] == ids[..i];
        c := c[ids[i] - b := m[ids[i]]];
      }
      assert ids[..|ids|] == ids;
    }

    method EnsureCovers(F: Field<T>, id: nat)
      modifies this
      ensures Value() == Rows.EnsureCovers(F, old(Value()), id)
    {
      if coefs == [] {
        baseId := id;
        coefs := coefs + [F.zero];
        return;
      }
      if id < baseId {
        var prepend := baseId - id;
        coefs := Zeros(F, prepend) + coefs;
        baseId := id;
      } else {
        var needed := id - baseId + 1;
        if needed > |coefs| {
          coefs := coefs + Zeros(F, needed - |coefs|);
        }
      }
    }

    method SubtractScaled(F: Field<T>, other: DenseCoefs<T>, factor: T)
      requires other != this
      modifies this
      ensures Value() == DenseSubtract(F, old(Value()), other.Value(), factor)
    {
      if other.coefs == [] || factor == F.zero {
        return;
      }
      var otherEnd := other.baseId + |other.coefs|;
      EnsureCovers(F, other.baseId);
      EnsureCovers(F, otherEnd - 1);
      assert Value() == Widen(F, old(Value()), other.Value());
      coefs := AccAt(F, coefs, other.baseId - baseId, other.coefs, factor);
    }

    method Scale(F: Field<T>, factor: T)
      modifies this
      ensures Value() == DenseScale(F, old(Value()), factor)
    {
      coefs := MulScale(F, coefs, factor);
    }

    method Remove(F: Field<T>, id: nat)
      modifies this
      ensures Value() == Rows.Remove(F, old(Value()), id)
    {
      if id < baseId {
        return;
      }
      var idx := id - baseId;
      if idx < |coefs| {
        coefs := coefs[idx := F.zero];
      }
    }

    method Get(F: Field<T>, id: nat) returns (c: T)
      ensures c == Rows.Get(F, Value(), id)
    {
      if id < baseId {
        return F.zero;
      }
      var idx := id - baseId;
      c := if idx < |coefs| then coefs[idx] else F.zero;
    }

    // One pass: stop at the second coefficient.
    method IsSolved(F: Field<T>) returns (r: Option<nat>)
      ensures r == Rows.IsSolved(F, Value())
    {
      r := None;
      for i := 0 to |coefs|
        invariant r.None? ==> Rows.PivotId(F, Value()) == NextNonzero(F, Value(), baseId + i)
        invariant r.Some? ==> Rows.PivotId(F, Value()) == r
        invariant r.Some? ==> NextNonzero(F, Value(), r.value + 1) == NextNonzero(F, Value(), baseId + i)
      {
        if coefs[i] != F.zero {
          if r.Some? {
            return None;
          }
          r := Some(baseId + i);
        }
      }
    }

    method PivotId(F: Field<T>) returns (r: Option<nat>)
      ensures r == Rows.PivotId(F, Value())
    {
      for i := 0 to |coefs|
        invariant Rows.PivotId(F, Value()) == NextNonzero(F, Value(), baseId + i)
      {
        if coefs[i] != F.zero {
          return Some(baseId + i);
        }
      }
      r := None;
    }
  }

  class MatrixRow<T(==,!new)> {
    const coefs: DenseCoefs<T>
    var payload: seq<T>

    ghost function Value(): Row<T>
      reads this, coefs
    {
      Row(coefs.Value(), payload)
    }

    constructor (coefs: DenseCoefs<T>, payload: seq<T>)
      ensures this.coefs == coefs && this.payload == payload
    {
      this.coefs := coefs;
      this.payload := payload;
    }

    method SubtractScaled(F: Field<T>, other: MatrixRow<T>, factor: T)
      requires other != this && other.coefs != coefs && |payload| == |other.payload|
      modifies this, coefs
      ensures Value() == RowSubtract(F, old(Value()), other.Value(), factor)
    {
      coefs.SubtractScaled(F, other.coefs, factor);
      payload := MulAcc(F, payload, other.payload, factor);
    }

    // Clear the coefficient of `pivot` with a row that leads there.
    method ReduceBy(F: Field<T>, pivot: nat, other: MatrixRow<T>)
      requires other != this && other.coefs != coefs && |payload| == |other.payload|
      modifies this, coefs
      ensures Value() == Reduce(F, old(Value()), pivot, other.Value())
    {
      var c := coefs.Get(F, pivot);
      if c != F.zero {
        SubtractScaled(F, other, c);
      }
    }

    // Move a symbol to the payload side; report the id this solves, if any.
    method SubstituteSymbol(F: Field<T>, id: nat, data: seq<T>) returns (solved: seq<nat>)
      requires |payload| == |data|
      modifies this, coefs
      ensures Value() == Substitute(F, old(Value()), id, data)
      ensures solved == SolvedHere(F, old(Value()), Value(), id)
    {
      solved := [];
      var c := coefs.Get(F, id);
      if c == F.zero {
        return;
      }
      coefs.Remove(F, id);
      payload := MulAcc(F, payload, data, c);
      var s := coefs.IsSolved(F);
      if s.Some? {
        solved := [s.value];
      }
    }

    method Normalize(F: Field<T>)
      requires Rows.PivotId(F, coefs.Value()).Some?
      modifies this, coefs
      ensures Value() == Rows.Normalize(F, old(Value()))
    {
      var q := coefs.PivotId(F);
      var c := coefs.Get(F, q.value);
      if c == F.one {
        return;
      }
      coefs.Scale(F, F.inv(c));
      payload := MulScale(F, payload, F.inv(c));
    }
  }

  // The substitution loop after n rows.
  ghost function PartRows<T>(F: Field<T>, M: Matrix<T>, id: nat, data: seq<T>, n: nat): Matrix<T>
    requires Shaped(M, |data|) && n <= |Sorted(M.Keys)|
  {
    SortedIn(M.Keys);
    Overlay(M, SubstituteRows(F, M, id, data), Sorted(M.Keys)[..n])
  }

  ghost function PartSolved<T>(F: Field<T>, M: Matrix<T>, id: nat, data: seq<T>, n: nat): seq<nat>
    requires Shaped(M, |data|) && n <= |Sorted(M.Keys)|
  {
    SortedIn(M.Keys);
    NewlySolved(F, M, SubstituteRows(F, M, id, data), Sorted(M.Keys)[..n], id)
  }

  lemma PartStep<T(!new)>(F: Field<T>, M: Matrix<T>, id: nat, data: seq<T>, n: nat)
    requires Shaped(M, |data|) && n < |Sorted(M.Keys)|
    ensures Sorted(M.Keys)[n] in M
    ensures var k, R := Sorted(M.Keys)[n], PartRows(F, M, id, data, n);
            var s := Substitute(F, M[k], id, data);
            && k in R && R[k] == M[k]
            && PartRows(F, M, id, data, n + 1) == R[k := s]
            && PartSolved(F, M, id, data, n + 1) == PartSolved(F, M, id, data, n) + SolvedHere(F, M[k], s, id)
  {
    SortedIn(M.Keys);
    OverlayStep(M, SubstituteRows(F, M, id, data), Sorted(M.Keys), n);
    NewlySolvedStep(F, M, SubstituteRows(F, M, id, data), Sorted(M.Keys), id, n);
  }

  lemma PartAll<T(!new)>(F: Field<T>, M: Matrix<T>, id: nat, data: seq<T>)
    requires Shaped(M, |data|)
    ensures PartRows(F, M, id, data, |Sorted(M.Keys)|) == SubstituteRows(F, M, id, data)
    ensures PartSolved(F, M, id, data, |Sorted(M.Keys)|) == SolvedBy(F, M, id, data)
  {
    var keys := Sorted(M.Keys);
    OverlayEnds(M, SubstituteRows(F, M, id, data), keys);
    assert keys[..|keys|] == keys;
  }

  lemma ForwardStep<T(!new)>(F: Field<T>, M: Matrix<T>, keys: seq<nat>, i: nat, r: Row<T>)
    requires Shaped(M, |r.payload|) && i < |keys| && forall j :: 0 <= j < |keys| ==> keys[j] in M
    ensures Elimination.ForwardEliminate(F, M, keys[..i + 1], r)
         == Reduce(F, Elimination.ForwardEliminate(F, M, keys[..i], r), keys[i], M[keys[i]])
  {
    assert keys[..i + 1][..i] == keys[..i];
  }

  class DecodingMatrix<T(==,!new)> {
    const F: Field<T>
    const symbolSize: nat
    const maxRows: nat
    var rows: map<nat, MatrixRow<T>>

    // The values of the rows, and their storage.
    ghost var view: Matrix<T>
    ghost var repr: set<object>

    constructor (F: Field<T>, symbolSize: nat, maxRows: nat)
      ensures this.F == F && this.symbolSize == symbolSize && this.maxRows == maxRows
      ensures Valid() && view == map[] && repr == {}
    {
      this.F, this.symbolSize, this.maxRows := F, symbolSize, maxRows;
      rows, view, repr := map[], map[], {};
    }

    // No two rows share storage.
    ghost predicate Separate()
      reads this`rows
    {
      forall i, j {:trigger rows[i], rows[j]} :: i in rows && j in rows && i != j ==>
        rows[i] != rows[j] && rows[i].coefs != rows[j].coefs
    }

    ghost predicate Valid()
      reads this, repr
    {
      && this !in repr
      && (forall k {:trigger rows[k]} :: k in rows ==> rows[k] in repr && rows[k].coefs in repr)
      && Separate()
      && view.Keys == rows.Keys
      && (forall k {:trigger rows[k]} :: k in rows ==> rows[k].Value() == view[k])
      && Shaped(view, symbolSize)
    }

    twostate lemma StaysValid()
      requires old(Valid()) && unchanged(this, old(repr))
      ensures Valid()
    {
    }

    // ------------------------------------------------------------ add_known_source

    // One row of the substitution loop.
    method SubstituteInto(k: nat, id: nat, data: seq<T>) returns (solved: seq<nat>)
      requires Valid() && |data| == symbolSize && k in rows
      modifies this`view, repr
      ensures Valid()
      ensures view == old(view)[k := Substitute(F, old(view)[k], id, data)]
      ensures solved == SolvedHere(F, old(view)[k], view[k], id)
    {
      var row := rows[k];
      solved := row.SubstituteSymbol(F, id, data);
      view := view[k := row.Value()];
    }

    // Substitute one symbol into every row, and report the ids of the rows it solves.
    method SubstituteEverywhere(id: nat, data: seq<T>) returns (solved: seq<nat>)
      requires Valid() && |data| == symbolSize
      modifies this`view, repr
      ensures Valid()
      ensures view == SubstituteRows(F, old(view), id, data)
      ensures solved == SolvedBy(F, old(view), id, data)
    {
      ghost var M := view;
      var keys := Sorted(rows.Keys);
      solved := [];
      for i := 0 to |keys|
        invariant Valid() && view == PartRows(F, M, id, data, i)
        invariant solved == PartSolved(F, M, id, data, i)
      {
        PartStep(F, M, id, data, i);
        var s := SubstituteInto(keys[i], id, data);
        solved := solved + s;
      }
      PartAll(F, M, id, data);
    }

    method TakeRow(k: nat) returns (row: MatrixRow<T>)
      requires Valid() && k in rows
      modifies this
      ensures Valid() && repr == old(repr)
      ensures row.Value() == old(view)[k] && view == old(view) - {k}
    {
      row := rows[k];
      rows := rows - {k};
      view := view - {k};
    }

    // Take the solved rows out; symbols that are new go to the back of the queue.
    method ExtractSolved(solved: seq<nat>, known: set<nat>, queue: seq<Symbol<T>>, recovered: seq<Symbol<T>>)
      returns (queue': seq<Symbol<T>>, recovered': seq<Symbol<T>>)
      requires Valid()
      modifies this
      ensures Valid() && repr == old(repr)
      ensures Cascade(view, queue', recovered') == Extract(Cascade(old(view), queue, recovered), solved, known)
    {
      queue', recovered' := queue, recovered;
      for i := 0 to |solved|
        invariant Valid() && repr == old(repr)
        invariant Cascade(view, queue', recovered')
               == Extract(Cascade(old(view), queue, recovered), solved[..i], known)
      {
        assert solved[..i + 1][..i] == solved[..i];
        var id := solved[i];
        if id in rows {
          var row := TakeRow(id);
          recovered' := recovered' + [Symbol(id, row.payload)];
          if id !in known {
            queue' := queue' + [Symbol(id, row.payload)];
          }
        }
      }
      assert solved[..|solved|] == solved;
    }

    // One turn of the work queue.
    method QueueTurn(queue: seq<Symbol<T>>, known: set<nat>, recovered: seq<Symbol<T>>)
      returns (queue': seq<Symbol<T>>, recovered': seq<Symbol<T>>)
      requires Valid() && queue != [] && CascadeShaped(Cascade(view, queue, recovered), symbolSize)
      modifies this, repr
      ensures Valid() && repr == old(repr)
      ensures Cascade(view, queue', recovered') == Turn(F, Cascade(old(view), queue, recovered), known, symbolSize)
    {
      ghost var c := Cascade(view, queue, recovered);
      var sym := queue[0];
      var solved := SubstituteEverywhere(sym.id, sym.data);
      assert Substituted(F, c, symbolSize) == Cascade(view, queue[1..], recovered);
      queue', recovered' := ExtractSolved(solved, known + {sym.id}, queue[1..], recovered);
    }

    method AddKnownSource(id: nat, data: seq<T>, known: set<nat>) returns (recovered: seq<Symbol<T>>)
      requires Valid() && |data| == symbolSize
      modifies this, repr
      ensures Valid() && repr == old(repr)
      ensures Outcome(view, recovered) == Learn(F, old(view), id, data, known)
    {
      recovered := [];
      var queue := [Symbol(id, data)];
      var localKnown := known;
      while queue != []
        invariant Valid() && repr == old(repr)
        invariant CascadeShaped(Cascade(view, queue, recovered), symbolSize)
        invariant AddKnown(F, Cascade(view, queue, recovered), localKnown, symbolSize)
               == Learn(F, old(view), id, data, known)
        decreases |view| + |queue|
      {
        var sym := queue[0];
        queue, recovered := QueueTurn(queue, localKnown, recovered);
        localKnown := localKnown + {sym.id};
      }
    }

    // ------------------------------------------------------------ add_coded

    method ForwardEliminate(row: MatrixRow<T>)
      requires Valid() && |row.payload| == symbolSize && row !in repr && row.coefs !in repr
      modifies row, row.coefs
      ensures row.Value() == Forward(F, view, old(row.Value()))
    {
      var keys := Sorted(rows.Keys);
      SortedIn(rows.Keys);
      for i := 0 to |keys|
        invariant Valid() && |row.payload| == symbolSize
        invariant row.Value() == Elimination.ForwardEliminate(F, view, keys[..i], old(row.Value()))
      {
        ForwardStep(F, view, keys, i, old(row.Value()));
        row.ReduceBy(F, keys[i], rows[keys[i]]);
      }
      assert keys[..|keys|] == keys;
    }

    // One row of the back-substitution loop.
    method ReduceRow(k: nat, pivot: nat, row: MatrixRow<T>)
      requires Valid() && |row.payload| == symbolSize && row !in repr && row.coefs !in repr && k in rows
      modifies this`view, repr
      ensures Valid()
      ensures view == old(view)[k := Reduce(F, old(view)[k], pivot, row.Value())]
    {
      rows[k].ReduceBy(F, pivot, row);
      view := view[k := rows[k].Value()];
    }

    method BackSubstitute(pivot: nat, row: MatrixRow<T>)
      requires Valid() && |row.payload| == symbolSize && row !in repr && row.coefs !in repr
      modifies this`view, repr
      ensures Valid()
      ensures view == Elimination.BackSubstitute(F, old(view), pivot, row.Value())
    {
      ghost var M, N := view, Elimination.BackSubstitute(F, view, pivot, row.Value());
      var keys := Sorted(rows.Keys);
      SortedIn(rows.Keys);
      for i := 0 to |keys|
        invariant Valid() && view == Overlay(M, N, keys[..i])
      {
        OverlayStep(M, N, keys, i);
        ReduceRow(keys[i], pivot, row);
      }
      OverlayEnds(M, N, keys);
    }

    // The oldest row goes when the matrix is full.
    method MakeRoom()
      requires Valid()
      modifies this
      ensures Valid() && repr == old(repr)
      ensures view == Evict(old(view), maxRows)
    {
      assert |rows| == |rows.Keys| && |view| == |view.Keys|;
      if |rows| >= maxRows && |rows| > 0 {
        var gone := TakeRow(Min(rows.Keys));
      }
    }

    method Store(pivot: nat, row: MatrixRow<T>)
      requires Valid() && |row.payload| == symbolSize && row !in repr && row.coefs !in repr
      modifies this
      ensures Valid() && repr == old(repr) + {row, row.coefs}
      ensures view == old(view)[pivot := row.Value()]
    {
      rows := rows[pivot := row];
      view := view[pivot := row.Value()];
      repr := repr + {row, row.coefs};
    }

    method SolvedRows() returns (solved: seq<nat>)
      requires Valid()
      ensures solved == SolvedList(F, view)
    {
      var keys := Sorted(rows.Keys);
      SortedIn(rows.Keys);
      solved := [];
      for i := 0 to |keys|
        invariant solved == SolvedKeys(F, view, keys[..i])
      {
        assert keys[..i + 1][..i] == keys[..i];
        var s := rows[keys[i]].coefs.IsSolved(F);
        if s.Some? {
          solved := solved + [keys[i]];
        }
      }
      assert keys[..|keys|] == keys;
    }

    // One solved row: take it out and substitute its symbol into the others.
    method SolveRow(pid: nat, known: set<nat>, recovered: seq<Symbol<T>>) returns (more: seq<Symbol<T>>)
      requires Valid() && SymbolsShaped(recovered, symbolSize)
      modifies this, repr
      ensures Valid() && repr == old(repr)
      ensures Outcome(view, more) == SolveOne(F, Outcome(old(view), recovered), pid, known, symbolSize)
    {
      more := recovered;
      if pid in rows {
        var row := TakeRow(pid);
        var s := row.coefs.IsSolved(F);
        if s.Some? {
          var sym := Symbol(s.value, row.payload);
          var found := AddKnownSource(sym.id, sym.data, known + Ids(recovered) + {sym.id});
          more := recovered + [sym] + found;
        }
      }
    }

    method SolvePass(solved: seq<nat>, known: set<nat>, recovered: seq<Symbol<T>>) returns (more: seq<Symbol<T>>)
      requires Valid() && SymbolsShaped(recovered, symbolSize)
      modifies this, repr
      ensures Valid() && repr == old(repr)
      ensures Outcome(view, more) == Elimination.SolvePass(F, Outcome(old(view), recovered), solved, known, symbolSize)
    {
      more := recovered;
      for i := 0 to |solved|
        invariant Valid() && repr == old(repr) && SymbolsShaped(more, symbolSize)
        invariant Outcome(view, more)
               == Elimination.SolvePass(F, Outcome(old(view), recovered), solved[..i], known, symbolSize)
      {
        assert solved[..i + 1][..i] == solved[..i];
        more := SolveRow(solved[i], known, more);
      }
      assert solved[..|solved|] == solved;
    }

    // One round of the loop; false when no row is solved.
    method SolveRound(known: set<nat>, recovered: seq<Symbol<T>>) returns (any: bool, more: seq<Symbol<T>>)
      requires Valid() && SymbolsShaped(recovered, symbolSize)
      modifies this, repr
      ensures Valid() && repr == old(repr) && SymbolsShaped(more, symbolSize)
      ensures Solve(F, Outcome(view, more), known, symbolSize)
           == Solve(F, Outcome(old(view), recovered), known, symbolSize)
      ensures any ==> |view| < |old(view)|
      ensures !any ==> Solve(F, Outcome(view, more), known, symbolSize) == Outcome(view, more)
    {
      var solved := SolvedRows();
      if solved == [] {
        return false, recovered;
      }
      SolveTurn(F, Outcome(view, recovered), known, symbolSize);
      more := SolvePass(solved, known, recovered);
      any := true;
    }

    method SolveAll(known: set<nat>) returns (recovered: seq<Symbol<T>>)
      requires Valid()
      modifies this, repr
      ensures Valid() && repr == old(repr)
      ensures Outcome(view, recovered) == Solve(F, Outcome(old(view), []), known, symbolSize)
    {
      var any := true;
      recovered := [];
      while any
        invariant Valid() && repr == old(repr) && SymbolsShaped(recovered, symbolSize)
        invariant Solve(F, Outcome(view, recovered), known, symbolSize)
               == Solve(F, Outcome(old(view), []), known, symbolSize)
        invariant !any ==> Solve(F, Outcome(view, recovered), known, symbolSize) == Outcome(view, recovered)
        decreases any, |view|
      {
        any, recovered := SolveRound(known, recovered);
      }
    }

    method CoefficientsOf(ev: EncodingVector<T>) returns (m: map<nat, T>)
      requires F.order > 1 && WellFormed(ev)
      ensures m == CoefMap(F, ev, |ev.ids|)
    {
      m := map[];
      for i := 0 to |ev.ids|
        invariant m == CoefMap(F, ev, i)
      {
        var c := CoefAt(F, ev, i);
        if c != F.zero {
          m := m[ev.ids[i] := c];
        }
      }
    }

    method SubstituteKnown(row: MatrixRow<T>, known: map<nat, seq<T>>)
      requires KnownShaped(known, |row.payload|)
      modifies row, row.coefs
      ensures forall i :: 0 <= i < |Sorted(known.Keys)| ==> Sorted(known.Keys)[i] in known
      ensures row.Value() == SubstituteAll(F, old(row.Value()), known, Sorted(known.Keys))
    {
      var ids := Sorted(known.Keys);
      SortedIn(known.Keys);
      for i := 0 to |ids|
        invariant |row.payload| == |old(row.payload)|
        invariant row.Value() == SubstituteAll(F, old(row.Value()), known, ids[..i])
      {
        assert ids[..i + 1][..i] == ids[..i];
        var s := row.SubstituteSymbol(F, ids[i], known[ids[i]]);
      }
      assert ids[..|ids|] == ids;
    }

    method AddCoded(ev: EncodingVector<T>, payload: seq<T>, known: map<nat, seq<T>>) returns (recovered: seq<Symbol<T>>)
      requires Valid() && IsField(F) && F.order > 1 && WellFormed(ev)
      requires |payload| == symbolSize && KnownShaped(known, symbolSize)
      modifies this, repr
      ensures Valid() && fresh(repr - old(repr))
      ensures Outcome(view, recovered)
           == Elimination.AddCoded(F, old(view), maxRows, CoefMap(F, ev, |ev.ids|), payload, known)
    {
      var m := CoefficientsOf(ev);
      var coefs := new DenseCoefs<T>.FromMap(F, m);
      var row := new MatrixRow<T>(coefs, payload);
      SubstituteKnown(row, known);
      recovered := AddEquation(row, known.Keys);
    }

    // The row has been eliminated against the others and normalised.
    method InsertReduced(row: MatrixRow<T>)
      requires Valid() && |row.payload| == symbolSize && row !in repr && row.coefs !in repr
      requires Rows.PivotId(F, row.coefs.Value()).Some?
      modifies this, repr
      ensures Valid() && repr == old(repr) + {row, row.coefs}
      ensures view == InsertRow(F, old(view), maxRows, old(row.Value()))
    {
      var q := row.coefs.PivotId(F);
      BackSubstitute(q.value, row);
      MakeRoom();
      Store(q.value, row);
    }

    // Forward elimination and normalisation; false when nothing is left.
    method Prepare(row: MatrixRow<T>) returns (some: bool)
      requires Valid() && IsField(F) && |row.payload| == symbolSize && row !in repr && row.coefs !in repr
      modifies row, row.coefs
      ensures some <==> !IsZero(F, old(row.coefs.Value())) && !IsZero(F, Forward(F, view, old(row.Value())).dense)
      ensures some ==> row.Value() == Rows.Normalize(F, Forward(F, view, old(row.Value())))
      ensures some ==> Rows.PivotId(F, row.coefs.Value()).Some?
    {
      var q := row.coefs.PivotId(F);
      if q.None? {
        return false;
      }
      ForwardEliminate(row);
      q := row.coefs.PivotId(F);
      if q.None? {
        return false;
      }
      NormalizeCorrect(F, row.Value());
      row.Normalize(F);
      some := true;
    }

    method AddEquation(row: MatrixRow<T>, known: set<nat>) returns (recovered: seq<Symbol<T>>)
      requires Valid() && IsField(F) && |row.payload| == symbolSize && row !in repr && row.coefs !in repr
      modifies this, repr, row, row.coefs
      ensures Valid() && old(repr) <= repr <= old(repr) + {row, row.coefs}
      ensures Outcome(view, recovered) == AddRow(F, old(view), maxRows, old(row.Value()), known)
    {
      var some := Prepare(row);
      if !some {
        return [];
      }
      InsertReduced(row);
      recovered := SolveAll(known);
    }
  }
}
