// Reduced row-echelon form: what keeps it, and what each step says about the solutions.

module Echelon {
  import opened Fields
  import opened Keys
  import opened Rows
  import opened Elimination

  // ---------------------------------------------------------------- invariants

  // The row keyed by k starts at k with coefficient one.
  ghost predicate Leads<T>(F: Field<T>, r: Row<T>, k: nat) {
    Get(F, r.dense, k) == F.one && forall j: nat :: j < k ==> Get(F, r.dense, j) == F.zero
  }

  ghost predicate Reduced<T>(F: Field<T>, M: Matrix<T>) {
    && (forall k :: k in M ==> Leads(F, M[k], k))
    && (forall k, i :: k in M && i in M && i != k ==> Get(F, M[i].dense, k) == F.zero)
  }

  // No row mentions the id.
  ghost predicate Absent<T>(F: Field<T>, M: Matrix<T>, id: nat) {
    forall k :: k in M ==> Get(F, M[k].dense, id) == F.zero
  }

  ghost predicate Clean<T>(F: Field<T>, M: Matrix<T>, known: set<nat>) {
    forall id :: id in known ==> Absent(F, M, id)
  }

  ghost predicate Unsolved<T>(F: Field<T>, M: Matrix<T>) {
    forall k :: k in M ==> !Only(F, M[k].dense, k)
  }

  // What holds between two calls: see DecodingMatrix.
  ghost predicate Settled<T>(F: Field<T>, M: Matrix<T>, known: set<nat>) {
    Reduced(F, M) && Unsolved(F, M) && Clean(F, M, known)
  }

  // ---------------------------------------------------------------- solutions

  ghost predicate Solves<T>(F: Field<T>, M: Matrix<T>, x: Assignment<T>, p: nat)
    requires forall k :: k in M ==> p < |M[k].payload|
  {
    forall k :: k in M ==> Residual(F, M[k], x, p) == F.zero
  }

  ghost predicate Agrees<T>(s: seq<Symbol<T>>, x: Assignment<T>, p: nat)
    requires forall i :: 0 <= i < |s| ==> p < |s[i].data|
  {
    forall i :: 0 <= i < |s| ==> x(s[i].id) == s[i].data[p]
  }

  // ---------------------------------------------------------------- reducing one row

  lemma ReduceGet<T(!new)>(F: Field<T>, r: Row<T>, pivot: nat, piv: Row<T>, j: nat)
    requires IsField(F) && |r.payload| == |piv.payload|
    ensures Get(F, Reduce(F, r, pivot, piv).dense, j)
         == F.add(Get(F, r.dense, j), F.mul(Get(F, r.dense, pivot), Get(F, piv.dense, j)))
    ensures Get(F, piv.dense, pivot) == F.one ==> Get(F, Reduce(F, r, pivot, piv).dense, pivot) == F.zero
    ensures Get(F, piv.dense, j) == F.zero ==> Get(F, Reduce(F, r, pivot, piv).dense, j) == Get(F, r.dense, j)
  {
    DenseSubtractGet(F, r.dense, piv.dense, Get(F, r.dense, pivot), j);
    DenseSubtractGet(F, r.dense, piv.dense, Get(F, r.dense, pivot), pivot);
  }

  lemma ReduceResidual<T(!new)>(F: Field<T>, r: Row<T>, pivot: nat, piv: Row<T>, x: Assignment<T>, p: nat)
    requires IsField(F) && |r.payload| == |piv.payload| && p < |r.payload|
    requires Residual(F, piv, x, p) == F.zero
    ensures Residual(F, Reduce(F, r, pivot, piv), x, p) == Residual(F, r, x, p)
  {
    ResidualSubtract(F, r, piv, Get(F, r.dense, pivot), x, p);
  }

  // ---------------------------------------------------------------- forward elimination

  lemma {:induction false} ForwardKeeps<T(!new)>(F: Field<T>, M: Matrix<T>, pivots: seq<nat>, r: Row<T>, j: nat)
    requires IsField(F) && Shaped(M, |r.payload|) && Absent(F, M, j)
    requires forall i :: 0 <= i < |pivots| ==> pivots[i] in M
    ensures Get(F, ForwardEliminate(F, M, pivots, r).dense, j) == Get(F, r.dense, j)
  {
    if pivots != [] {
      var init := pivots[..|pivots| - 1];
      ForwardKeeps(F, M, init, r, j);
      var k := pivots[|pivots| - 1];
      ReduceGet(F, ForwardEliminate(F, M, init, r), k, M[k], j);
    }
  }

  lemma {:induction false} ForwardClears<T(!new)>(F: Field<T>, M: Matrix<T>, pivots: seq<nat>, r: Row<T>, j: nat)
    requires IsField(F) && Shaped(M, |r.payload|) && Reduced(F, M) && j in M
    requires forall i :: 0 <= i < |pivots| ==> pivots[i] in M
    ensures Get(F, ForwardEliminate(F, M, pivots, r).dense, j) == if j in pivots then F.zero else Get(F, r.dense, j)
  {
    if pivots != [] {
      var init := pivots[..|pivots| - 1];
      var k := pivots[|pivots| - 1];
      assert j in pivots <==> j in init || j == k;
      ForwardClears(F, M, init, r, j);
      ReduceGet(F, ForwardEliminate(F, M, init, r), k, M[k], j);
    }
  }

  lemma {:induction false} ForwardResidual<T(!new)>(
    F: Field<T>, M: Matrix<T>, pivots: seq<nat>, r: Row<T>, x: Assignment<T>, p: nat)
    requires IsField(F) && Shaped(M, |r.payload|) && p < |r.payload|
    requires forall i :: 0 <= i < |pivots| ==> pivots[i] in M
    requires Solves(F, M, x, p)
    ensures Residual(F, ForwardEliminate(F, M, pivots, r), x, p) == Residual(F, r, x, p)
  {
    if pivots != [] {
      var init := pivots[..|pivots| - 1];
      ForwardResidual(F, M, init, r, x, p);
      var k := pivots[|pivots| - 1];
      ReduceResidual(F, ForwardEliminate(F, M, init, r), k, M[k], x, p);
    }
  }

  // ---------------------------------------------------------------- inserting a row

  // One row more is one too many.
  ghost predicate Full<T>(M: Matrix<T>, maxRows: nat) {
    M != map[] && |M| >= maxRows
  }

  // A normalised row that mentions no pivot.
  ghost predicate Fresh<T>(F: Field<T>, M: Matrix<T>, r: Row<T>, q: nat) {
    Leads(F, r, q) && q !in M && forall k :: k in M ==> Get(F, r.dense, k) == F.zero
  }

  lemma BackKeepsLead<T(!new)>(F: Field<T>, M: Matrix<T>, r: Row<T>, q: nat, k: nat)
    requires IsField(F) && Shaped(M, |r.payload|) && Reduced(F, M) && Fresh(F, M, r, q) && k in M
    ensures Leads(F, Reduce(F, M[k], q, r), k)
    ensures Get(F, Reduce(F, M[k], q, r).dense, q) == F.zero
    ensures forall i :: i in M && i != k ==> Get(F, Reduce(F, M[k], q, r).dense, i) == F.zero
  {
    ReduceGet(F, M[k], q, r, k);
    ReduceGet(F, M[k], q, r, q);
    forall j: nat | j < k || (j in M && j != k) ensures Get(F, Reduce(F, M[k], q, r).dense, j) == F.zero {
      ReduceGet(F, M[k], q, r, j);
      if j < k && Get(F, r.dense, j) != F.zero {
        assert q <= j;
      }
    }
  }

  lemma InsertReduced<T(!new)>(F: Field<T>, M: Matrix<T>, maxRows: nat, r: Row<T>, q: nat)
    requires IsField(F) && Shaped(M, |r.payload|) && Reduced(F, M) && Fresh(F, M, r, q)
    requires PivotId(F, r.dense) == Some(q)
    ensures Reduced(F, InsertRow(F, M, maxRows, r))
  {
    var N := InsertRow(F, M, maxRows, r);
    forall k | k in N && k != q
      ensures Leads(F, N[k], k) && Get(F, N[k].dense, q) == F.zero
      ensures forall i :: i in N && i != k ==> Get(F, N[k].dense, i) == F.zero
    {
      BackKeepsLead(F, M, r, q, k);
    }
  }

  lemma InsertClean<T(!new)>(F: Field<T>, M: Matrix<T>, maxRows: nat, r: Row<T>, id: nat)
    requires IsField(F) && Shaped(M, |r.payload|) && PivotId(F, r.dense).Some?
    requires Absent(F, M, id) && Get(F, r.dense, id) == F.zero
    ensures Absent(F, InsertRow(F, M, maxRows, r), id)
  {
    var q := PivotId(F, r.dense).value;
    forall k | k in M ensures Get(F, Reduce(F, M[k], q, r).dense, id) == F.zero {
      ReduceGet(F, M[k], q, r, id);
    }
  }

  lemma EvictNone<T>(B: Matrix<T>, M: Matrix<T>, maxRows: nat)
    requires B.Keys == M.Keys && !Full(M, maxRows)
    ensures Evict(B, maxRows) == B
  {
    assert |B| == |B.Keys| && |M| == |M.Keys|;
    assert M == map[] ==> B == map[];
  }

  lemma BackResidual<T(!new)>(F: Field<T>, M: Matrix<T>, r: Row<T>, q: nat, x: Assignment<T>, p: nat)
    requires IsField(F) && Shaped(M, |r.payload|) && p < |r.payload| && Residual(F, r, x, p) == F.zero
    ensures Solves(F, BackSubstitute(F, M, q, r), x, p) <==> Solves(F, M, x, p)
  {
    forall k | k in M ensures Residual(F, Reduce(F, M[k], q, r), x, p) == Residual(F, M[k], x, p) {
      ReduceResidual(F, M[k], q, r, x, p);
    }
  }

  lemma UpdateSolves<T(!new)>(F: Field<T>, E: Matrix<T>, q: nat, r: Row<T>, x: Assignment<T>, p: nat)
    requires Shaped(E, |r.payload|) && p < |r.payload| && q !in E
    ensures Shaped(E[q := r], |r.payload|)
    ensures Solves(F, E[q := r], x, p) <==> Solves(F, E, x, p) && Residual(F, r, x, p) == F.zero
  {
    forall k | k in E ensures k in E[q := r] && E[q := r][k] == E[k] {
    }
    assert E[q := r][q] == r;
  }

  lemma InsertSolves<T(!new)>(F: Field<T>, M: Matrix<T>, maxRows: nat, r: Row<T>, x: Assignment<T>, p: nat)
    requires IsField(F) && Shaped(M, |r.payload|) && PivotId(F, r.dense).Some? && p < |r.payload|
    requires PivotId(F, r.dense).value !in M
    ensures Solves(F, M, x, p) && Residual(F, r, x, p) == F.zero ==> Solves(F, InsertRow(F, M, maxRows, r), x, p)
    ensures !Full(M, maxRows) && Solves(F, InsertRow(F, M, maxRows, r), x, p) ==>
      Solves(F, M, x, p) && Residual(F, r, x, p) == F.zero
  {
    var q := PivotId(F, r.dense).value;
    var B := BackSubstitute(F, M, q, r);
    UpdateSolves(F, Evict(B, maxRows), q, r, x, p);
    if Residual(F, r, x, p) == F.zero {
      BackResidual(F, M, r, q, x, p);
      if !Full(M, maxRows) {
        EvictNone(B, M, maxRows);
      }
    }
  }
}
