// The two calls of the decoding matrix: reduced form is kept, no solution is lost and
// none is added.

module Incremental {
  import opened Fields
  import opened Keys
  import opened Rows
  import opened Elimination
  import opened Echelon
  import opened Recovery

  // ---------------------------------------------------------------- a source symbol arrives

  // Reduced form survives exactly when the symbol is not the key of a row.
  lemma AddKnownSettled<T(!new)>(F: Field<T>, M: Matrix<T>, id: nat, data: seq<T>, known: set<nat>)
    requires IsField(F) && Shaped(M, |data|) && Settled(F, M, known)
    ensures var o := Learn(F, M, id, data, known + {id});
            && (id !in M <==> Reduced(F, o.rows))
            && (id !in M ==> Settled(F, o.rows, known + {id} + Ids(o.recovered)))
            && (id in M ==> o == Outcome(SubstituteRows(F, M, id, data), []))
  {
    if id !in M {
      var o := Learn(F, M, id, data, known + {id});
      AddKnownSplits(F, M, id, data, known + {id});
      SubstituteReduced(F, M, id, data);
      SubstituteClean(F, M, id, data, known);
      SplitSettled(F, SubstituteRows(F, M, id, data), o, known + {id});
    } else {
      StaleKey(F, M, id, data, known);
    }
  }

  // A key that becomes known: only its own row changes, and that row is left without a pivot.
  lemma StaleKey<T(!new)>(F: Field<T>, M: Matrix<T>, id: nat, data: seq<T>, known: set<nat>)
    requires F.one != F.zero && Shaped(M, |data|) && Reduced(F, M) && Unsolved(F, M) && id in M
    ensures Learn(F, M, id, data, known + {id})
         == Outcome(SubstituteRows(F, M, id, data), [])
    ensures !Reduced(F, SubstituteRows(F, M, id, data))
  {
    var N := SubstituteRows(F, M, id, data);
    assert Get(F, N[id].dense, id) == F.zero;
    StaleTurn(F, M, id, data, known + {id});
    AddKnownIdle(F, Cascade(N, [], []), known + {id} + {id}, |data|);
  }

  lemma StaleTurn<T(!new)>(F: Field<T>, M: Matrix<T>, id: nat, data: seq<T>, known: set<nat>)
    requires F.one != F.zero && Shaped(M, |data|) && Reduced(F, M) && id in M
    ensures Turn(F, Cascade(M, [Symbol(id, data)], []), known, |data|)
         == Cascade(SubstituteRows(F, M, id, data), [], [])
  {
    var N := SubstituteRows(F, M, id, data);
    SortedIn(M.Keys);
    StaleSolved(F, M, id, data, Sorted(M.Keys));
    NothingToExtract(Cascade(N, [], []), SolvedBy(F, M, id, data), known + {id});
  }

  lemma {:induction false} StaleSolved<T(!new)>(F: Field<T>, M: Matrix<T>, id: nat, data: seq<T>, keys: seq<nat>)
    requires F.one != F.zero && Shaped(M, |data|) && Reduced(F, M) && id in M
    requires forall i :: 0 <= i < |keys| ==> keys[i] in M
    ensures forall k :: k in NewlySolved(F, M, SubstituteRows(F, M, id, data), keys, id) ==> k !in M
  {
    if keys != [] {
      StaleSolved(F, M, id, data, keys[..|keys| - 1]);
      var k := keys[|keys| - 1];
      if Get(F, M[k].dense, id) != F.zero {
        assert k == id;
        var s := IsSolved(F, Substitute(F, M[id], id, data).dense);
        if s.Some? {
          IsSolvedOnly(F, Substitute(F, M[id], id, data).dense, s.value);
        }
      }
    }
  }

  lemma {:induction false} NothingToExtract<T(!new)>(c: Cascade<T>, solved: seq<nat>, known: set<nat>)
    requires forall k :: k in solved ==> k !in c.rows
    ensures Extract(c, solved, known) == c
  {
    if solved != [] {
      NothingToExtract(c, solved[..|solved| - 1], known);
      assert solved[|solved| - 1] in solved;
    }
  }

  lemma AddKnownSolves<T(!new)>(
    F: Field<T>, M: Matrix<T>, id: nat, data: seq<T>, known: set<nat>, x: Assignment<T>, p: nat)
    requires IsField(F) && Shaped(M, |data|) && Settled(F, M, known) && id !in M
    requires p < |data| && x(id) == data[p]
    ensures var o := Learn(F, M, id, data, known + {id});
            Solves(F, M, x, p) <==> Solves(F, o.rows, x, p) && Agrees(o.recovered, x, p)
  {
    var o := Learn(F, M, id, data, known + {id});
    AddKnownSplits(F, M, id, data, known + {id});
    SubstituteReduced(F, M, id, data);
    SubstituteSolves(F, M, id, data, x, p);
    SplitSolves(F, SubstituteRows(F, M, id, data), o, |data|, x, p);
  }

  // ---------------------------------------------------------------- an equation arrives

  // The row that is inserted for r, if elimination leaves anything of it.
  ghost function NewRow<T>(F: Field<T>, M: Matrix<T>, r: Row<T>): (t: Option<Row<T>>)
    requires Shaped(M, |r.payload|)
    ensures t.Some? ==> |t.value.payload| == |r.payload|
  {
    var s := Forward(F, M, r);
    if IsZero(F, r.dense) || IsZero(F, s.dense) then None else Some(Normalize(F, s))
  }

  lemma ForwardKnown<T(!new)>(F: Field<T>, M: Matrix<T>, r: Row<T>)
    requires IsField(F) && Shaped(M, |r.payload|) && Reduced(F, M)
    ensures var s := Forward(F, M, r);
            && (forall k :: k in M ==> Get(F, s.dense, k) == F.zero)
            && (forall j: nat :: Absent(F, M, j) ==> Get(F, s.dense, j) == Get(F, r.dense, j))
  {
    var keys := Sorted(M.Keys);
    SortedIn(M.Keys);
    SortedMembers(M.Keys);
    forall k | k in M ensures Get(F, Forward(F, M, r).dense, k) == F.zero {
      ForwardClears(F, M, keys, r, k);
    }
    forall j: nat | Absent(F, M, j) ensures Get(F, Forward(F, M, r).dense, j) == Get(F, r.dense, j) {
      ForwardKeeps(F, M, keys, r, j);
    }
  }

  lemma ForwardSolves<T(!new)>(F: Field<T>, M: Matrix<T>, r: Row<T>, x: Assignment<T>, p: nat)
    requires IsField(F) && Shaped(M, |r.payload|) && p < |r.payload| && Solves(F, M, x, p)
    ensures Residual(F, Forward(F, M, r), x, p) == Residual(F, r, x, p)
  {
    var keys := Sorted(M.Keys);
    SortedIn(M.Keys);
    SortedMembers(M.Keys);
    ForwardResidual(F, M, keys, r, x, p);
  }

  lemma NewRowFresh<T(!new)>(F: Field<T>, M: Matrix<T>, r: Row<T>)
    requires IsField(F) && Shaped(M, |r.payload|) && Reduced(F, M)
    requires NewRow(F, M, r).Some?
    ensures var t := NewRow(F, M, r).value;
            && PivotId(F, t.dense).Some?
            && Fresh(F, M, t, PivotId(F, t.dense).value)
            && (forall j: nat :: Absent(F, M, j) && Get(F, r.dense, j) == F.zero ==> Get(F, t.dense, j) == F.zero)
  {
    ForwardKnown(F, M, r);
    var s := Forward(F, M, r);
    NormalizeCorrect(F, s);
  }

  lemma NewRowSolves<T(!new)>(F: Field<T>, M: Matrix<T>, r: Row<T>, x: Assignment<T>, p: nat)
    requires IsField(F) && Shaped(M, |r.payload|) && p < |r.payload| && Solves(F, M, x, p)
    requires NewRow(F, M, r).Some?
    ensures Residual(F, NewRow(F, M, r).value, x, p) == F.zero <==> Residual(F, r, x, p) == F.zero
  {
    ForwardSolves(F, M, r, x, p);
    NormalizeCorrect(F, Forward(F, M, r));
  }

  lemma AddRowSettled<T(!new)>(F: Field<T>, M: Matrix<T>, maxRows: nat, r: Row<T>, known: set<nat>)
    requires IsField(F) && Shaped(M, |r.payload|) && Settled(F, M, known)
    requires forall id :: id in known ==> Get(F, r.dense, id) == F.zero
    ensures var o := AddRow(F, M, maxRows, r, known);
            Settled(F, o.rows, known + Ids(o.recovered))
  {
    if NewRow(F, M, r).Some? {
      NewRowFresh(F, M, r);
      var t := NewRow(F, M, r).value;
      var N := InsertRow(F, M, maxRows, t);
      InsertReduced(F, M, maxRows, t, PivotId(F, t.dense).value);
      forall id | id in known ensures Absent(F, N, id) {
        InsertClean(F, M, maxRows, t, id);
      }
      SolveSplits(F, N, known, |r.payload|);
      SplitSettled(F, N, Solve(F, Outcome(N, []), known, |r.payload|), known);
    }
  }

  // Whatever satisfies the old rows and the equation satisfies the new rows and the symbols found.
  lemma AddRowSound<T(!new)>(
    F: Field<T>, M: Matrix<T>, maxRows: nat, r: Row<T>, known: set<nat>, x: Assignment<T>, p: nat)
    requires IsField(F) && Shaped(M, |r.payload|) && Reduced(F, M) && p < |r.payload|
    requires Solves(F, M, x, p) && Residual(F, r, x, p) == F.zero
    ensures var o := AddRow(F, M, maxRows, r, known);
            Solves(F, o.rows, x, p) && Agrees(o.recovered, x, p)
  {
    if NewRow(F, M, r).Some? {
      NewRowFresh(F, M, r);
      var t := NewRow(F, M, r).value;
      var N := InsertRow(F, M, maxRows, t);
      InsertReduced(F, M, maxRows, t, PivotId(F, t.dense).value);
      NewRowSolves(F, M, r, x, p);
      InsertSolves(F, M, maxRows, t, x, p);
      SolveSplits(F, N, known, |r.payload|);
      SplitSolves(F, N, Solve(F, Outcome(N, []), known, |r.payload|), |r.payload|, x, p);
    }
  }

  // The converse, as long as no row is evicted.  The equation must be consistent with the rows
  // (x0 satisfies both): a contradictory one is dropped without a trace.
  lemma AddRowComplete<T(!new)>(
    F: Field<T>, M: Matrix<T>, maxRows: nat, r: Row<T>, known: set<nat>, x0: Assignment<T>, x: Assignment<T>, p: nat)
    requires IsField(F) && Shaped(M, |r.payload|) && Reduced(F, M) && p < |r.payload|
    requires !Full(M, maxRows)
    requires Solves(F, M, x0, p) && Residual(F, r, x0, p) == F.zero
    requires var o := AddRow(F, M, maxRows, r, known);
             Solves(F, o.rows, x, p) && Agrees(o.recovered, x, p)
    ensures Solves(F, M, x, p) && Residual(F, r, x, p) == F.zero
  {
    if NewRow(F, M, r).Some? {
      NewRowFresh(F, M, r);
      var t := NewRow(F, M, r).value;
      var N := InsertRow(F, M, maxRows, t);
      InsertReduced(F, M, maxRows, t, PivotId(F, t.dense).value);
      SolveSplits(F, N, known, |r.payload|);
      SplitSolves(F, N, Solve(F, Outcome(N, []), known, |r.payload|), |r.payload|, x, p);
      InsertSolves(F, M, maxRows, t, x, p);
      NewRowSolves(F, M, r, x, p);
    } else {
      VanishedRow(F, M, r, x0, x, p);
    }
  }

  lemma VanishedRow<T(!new)>(F: Field<T>, M: Matrix<T>, r: Row<T>, x0: Assignment<T>, x: Assignment<T>, p: nat)
    requires IsField(F) && Shaped(M, |r.payload|) && Reduced(F, M) && p < |r.payload|
    requires NewRow(F, M, r).None?
    requires Solves(F, M, x0, p) && Residual(F, r, x0, p) == F.zero && Solves(F, M, x, p)
    ensures Residual(F, r, x, p) == F.zero
  {
    ForwardSolves(F, M, r, x0, p);
    ForwardSolves(F, M, r, x, p);
    var s := Forward(F, M, r);
    var z := if IsZero(F, r.dense) then r else s;
    ZeroRow(F, z, x0, p);
    ZeroRow(F, z, x, p);
  }

  lemma ZeroRow<T(!new)>(F: Field<T>, r: Row<T>, x: Assignment<T>, p: nat)
    requires IsField(F) && IsZero(F, r.dense) && p < |r.payload|
    ensures Residual(F, r, x, p) == r.payload[p]
  {
    DotOnly(F, r.dense, x, End(r.dense), End(r.dense));
  }

  // ---------------------------------------------------------------- known symbols in the equation

  lemma {:induction false} SubstituteAllGet<T(!new)>(
    F: Field<T>, r: Row<T>, known: map<nat, seq<T>>, ids: seq<nat>, j: nat)
    requires forall i :: 0 <= i < |ids| ==> ids[i] in known && |known[ids[i]]| == |r.payload|
    ensures Get(F, SubstituteAll(F, r, known, ids).dense, j) == if j in ids then F.zero else Get(F, r.dense, j)
  {
    if ids != [] {
      SubstituteAllGet(F, r, known, ids[..|ids| - 1], j);
    }
  }

  lemma {:induction false} SubstituteAllResidual<T(!new)>(
    F: Field<T>, r: Row<T>, known: map<nat, seq<T>>, ids: seq<nat>, x: Assignment<T>, p: nat)
    requires IsField(F) && p < |r.payload|
    requires forall i :: 0 <= i < |ids| ==> ids[i] in known && |known[ids[i]]| == |r.payload|
    requires forall i :: 0 <= i < |ids| ==> x(ids[i]) == known[ids[i]][p]
    ensures Residual(F, SubstituteAll(F, r, known, ids), x, p) == Residual(F, r, x, p)
  {
    if ids != [] {
      var init, id := ids[..|ids| - 1], ids[|ids| - 1];
      SubstituteAllResidual(F, r, known, init, x, p);
      ResidualSubstitute(F, SubstituteAll(F, r, known, init), id, known[id], x, p);
    }
  }

  // The row that add_coded starts from.
  ghost function CodedRow<T>(F: Field<T>, coefs: map<nat, T>, payload: seq<T>, known: map<nat, seq<T>>): (r: Row<T>)
    requires KnownShaped(known, |payload|)
    ensures |r.payload| == |payload|
  {
    SortedIn(known.Keys);
    SubstituteAll(F, Row(FromMap(F, coefs), payload), known, Sorted(known.Keys))
  }

  lemma CodedRowClean<T(!new)>(F: Field<T>, coefs: map<nat, T>, payload: seq<T>, known: map<nat, seq<T>>)
    requires KnownShaped(known, |payload|)
    ensures forall id :: id in known ==> Get(F, CodedRow(F, coefs, payload, known).dense, id) == F.zero
  {
    SortedIn(known.Keys);
    SortedMembers(known.Keys);
    forall id | id in known ensures Get(F, CodedRow(F, coefs, payload, known).dense, id) == F.zero {
      SubstituteAllGet(F, Row(FromMap(F, coefs), payload), known, Sorted(known.Keys), id);
    }
  }

  lemma CodedRowResidual<T(!new)>(
    F: Field<T>, coefs: map<nat, T>, payload: seq<T>, known: map<nat, seq<T>>, x: Assignment<T>, p: nat)
    requires IsField(F) && KnownShaped(known, |payload|) && p < |payload|
    requires forall id :: id in known ==> x(id) == known[id][p]
    ensures Residual(F, CodedRow(F, coefs, payload, known), x, p)
         == Residual(F, Row(FromMap(F, coefs), payload), x, p)
  {
    SortedIn(known.Keys);
    SubstituteAllResidual(F, Row(FromMap(F, coefs), payload), known, Sorted(known.Keys), x, p);
  }
}
