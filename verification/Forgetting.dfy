// A full matrix: the row with the smallest key goes for a new one, and with it what it said.

module Forgetting {
  import opened Fields
  import opened Keys
  import opened Rows
  import opened Elimination
  import opened Echelon
  import opened Recovery
  import opened Incremental
  import opened Optimal
  import opened Equations
  import opened Delivery
  import opened Decoding
  import opened Exactness

  // ---------------------------------------------------------------- one row less

  ghost predicate Smallest<T>(M: Matrix<T>, k: nat) {
    k in M && forall i :: i in M ==> k <= i
  }

  // From a full matrix the row with the smallest key goes, and every row left has a larger key.
  lemma EvictSmallest<T>(M: Matrix<T>, maxRows: nat, k: nat)
    requires Full(M, maxRows) && Smallest(M, k)
    ensures Evict(M, maxRows) == M - {k}
    ensures forall i :: i in Evict(M, maxRows) ==> i > k
    ensures |Evict(M, maxRows)| == |M| - 1
  {
    assert Min(M.Keys) == k;
    var N := M - {k};
    assert N.Keys == M.Keys - {k};
    assert |N| == |N.Keys| && |M| == |M.Keys|;
  }

  // An assignment with another value at one id.
  ghost function Put<T>(x: Assignment<T>, k: nat, v: T): Assignment<T> {
    (i: nat) => if i == k then v else x(i)
  }

  lemma PutResidual<T(!new)>(F: Field<T>, r: Row<T>, x: Assignment<T>, k: nat, v: T, p: nat)
    requires IsField(F) && p < |r.payload|
    ensures Residual(F, r, Put(x, k, v), p)
         == F.add(Residual(F, r, x, p), F.mul(Get(F, r.dense, k), F.add(x(k), v)))
  {
    var w: Assignment<T> := (i: nat) => if i == k then F.add(x(k), v) else F.zero;
    forall i: nat ensures Put(x, k, v)(i) == F.add(x(i), w(i)) {
      SumZero(F, v, x(k));
      Laws(F, x(i), F.zero, F.zero);
    }
    DotAdd(F, r.dense, x, w, Put(x, k, v), End(r.dense));
    NoZeroDivisors(F, F.zero, w(k));
    DotOnly(F, r.dense, w, k, End(r.dense));
    Laws(F, r.payload[p], Dot(F, r.dense, x, End(r.dense)), Dot(F, r.dense, w, End(r.dense)));
  }

  lemma PutKeeps<T(!new)>(F: Field<T>, r: Row<T>, x: Assignment<T>, k: nat, v: T, p: nat)
    requires IsField(F) && p < |r.payload| && Get(F, r.dense, k) == F.zero
    ensures Residual(F, r, Put(x, k, v), p) == Residual(F, r, x, p)
  {
    PutResidual(F, r, x, k, v, p);
    NoZeroDivisors(F, F.zero, F.add(x(k), v));
    Laws(F, Residual(F, r, x, p), F.zero, F.zero);
  }

  // The value at its key that satisfies a row.
  lemma PutSolves<T(!new)>(F: Field<T>, r: Row<T>, x: Assignment<T>, k: nat, p: nat) returns (v: T)
    requires IsField(F) && p < |r.payload| && Get(F, r.dense, k) == F.one
    ensures Residual(F, r, Put(x, k, v), p) == F.zero
  {
    var e := Residual(F, r, x, p);
    v := F.add(x(k), e);
    PutResidual(F, r, x, k, v, p);
    SumZero(F, e, x(k));
    Laws(F, e, e, F.zero);
    SumZero(F, e, e);
  }

  lemma OthersKept<T(!new)>(F: Field<T>, M: Matrix<T>, n: nat, k: nat, x: Assignment<T>, v: T, p: nat)
    requires IsField(F) && Shaped(M, n) && Reduced(F, M) && k in M && p < n
    ensures forall i :: i in M && i != k ==> Residual(F, M[i], Put(x, k, v), p) == Residual(F, M[i], x, p)
  {
    forall i | i in M && i != k ensures Residual(F, M[i], Put(x, k, v), p) == Residual(F, M[i], x, p) {
      PutKeeps(F, M[i], x, k, v, p);
    }
  }

  lemma OneRowMore<T(!new)>(F: Field<T>, M: Matrix<T>, n: nat, k: nat, x: Assignment<T>, p: nat) returns (v: T)
    requires IsField(F) && Shaped(M, n) && Reduced(F, M) && k in M && p < n && Solves(F, M - {k}, x, p)
    ensures Solves(F, M, Put(x, k, v), p)
  {
    assert Leads(F, M[k], k);
    v := PutSolves(F, M[k], x, k, p);
    OthersKept(F, M, n, k, x, v, p);
    forall i | i in M ensures Residual(F, M[i], Put(x, k, v), p) == F.zero {
      if i != k {
        assert i in M - {k} && (M - {k})[i] == M[i];
      }
    }
  }

  // Without the row of key k, an assignment is a solution exactly if some value at k makes it one with it.
  lemma OneRowLess<T(!new)>(F: Field<T>, M: Matrix<T>, n: nat, k: nat, x: Assignment<T>, p: nat)
    requires IsField(F) && Shaped(M, n) && Reduced(F, M) && k in M && p < n
    ensures Solves(F, M - {k}, x, p) <==> exists v :: Solves(F, M, Put(x, k, v), p)
  {
    if Solves(F, M - {k}, x, p) {
      var v := OneRowMore(F, M, n, k, x, p);
    }
    forall v | Solves(F, M, Put(x, k, v), p) ensures Solves(F, M - {k}, x, p) {
      OthersKept(F, M, n, k, x, v, p);
    }
  }

  // ---------------------------------------------------------------- an equation for a full matrix

  lemma FullInsert<T(!new)>(F: Field<T>, M: Matrix<T>, maxRows: nat, t: Row<T>, k: nat)
    requires Shaped(M, |t.payload|) && PivotId(F, t.dense).Some? && PivotId(F, t.dense).value !in M
    requires Full(M, maxRows) && Smallest(M, k)
    ensures InsertRow(F, M, maxRows, t) == InsertRow(F, M, |M| + 1, t) - {k}
  {
    var q := PivotId(F, t.dense).value;
    var B := BackSubstitute(F, M, q, t);
    assert |B| == |B.Keys| && |M| == |M.Keys|;
    assert k in B;
    EvictSmallest(B, maxRows, k);
  }

  // Along the direction of its own leading column, a fresh row stops holding.
  lemma MovedBreaks<T(!new)>(F: Field<T>, M: Matrix<T>, t: Row<T>, q: nat, x: Assignment<T>, p: nat)
    requires IsField(F) && Fresh(F, M, t, q) && p < |t.payload| && Residual(F, t, x, p) == F.zero
    ensures Residual(F, t, Moved(F, M, q, x), p) != F.zero
  {
    var v, hi := Direction(F, M, q), End(t.dense);
    DotAdd(F, t.dense, x, v, Moved(F, M, q, x), hi);
    DotOnly(F, t.dense, v, q, hi);
    assert q < hi;
    assert F.mul(Get(F, t.dense, q), v(q)) == F.one by {
      Laws(F, F.one, F.one, F.one);
    }
    Laws(F, t.payload[p], Dot(F, t.dense, x, hi), F.one);
    Laws(F, F.one, F.zero, F.zero);
  }

  lemma NewRowBreaks<T(!new)>(F: Field<T>, M: Matrix<T>, r: Row<T>, x0: Assignment<T>, p: nat)
    returns (x: Assignment<T>)
    requires IsField(F) && Shaped(M, |r.payload|) && Reduced(F, M) && p < |r.payload|
    requires Solves(F, M, x0, p) && Residual(F, r, x0, p) == F.zero && NewRow(F, M, r).Some?
    ensures Solves(F, M, x, p) && Residual(F, r, x, p) != F.zero
    ensures forall j: nat :: j !in M && Absent(F, M, j) && Get(F, r.dense, j) == F.zero ==> x(j) == x0(j)
  {
    var t := NewRow(F, M, r).value;
    NewRowFresh(F, M, r);
    var q := PivotId(F, t.dense).value;
    x := Moved(F, M, q, x0);
    MovedSolves(F, M, |r.payload|, q, x0, p);
    NewRowSolves(F, M, r, x0, p);
    MovedBreaks(F, M, t, q, x0, p);
    NewRowSolves(F, M, r, x, p);
    forall j: nat | j !in M && Absent(F, M, j) && Get(F, r.dense, j) == F.zero ensures x(j) == x0(j) {
      Laws(F, x0(j), F.zero, F.zero);
    }
  }

  // A row is inserted for an equation exactly if it says something that the rows do not.
  lemma NewRowIff<T(!new)>(F: Field<T>, M: Matrix<T>, r: Row<T>, x0: Assignment<T>, p: nat)
    requires IsField(F) && Shaped(M, |r.payload|) && Reduced(F, M) && p < |r.payload|
    requires Solves(F, M, x0, p) && Residual(F, r, x0, p) == F.zero
    ensures NewRow(F, M, r).Some? <==> exists x :: Solves(F, M, x, p) && Residual(F, r, x, p) != F.zero
  {
    if NewRow(F, M, r).Some? {
      var x := NewRowBreaks(F, M, r, x0, p);
    } else {
      forall x | Solves(F, M, x, p) ensures Residual(F, r, x, p) == F.zero {
        VanishedRow(F, M, r, x0, x, p);
      }
    }
  }

  // Of a full matrix, after an equation that is new, the solutions are those that some value at the
  // smallest key makes solutions of the old rows and of the equation.
  lemma AddRowForgets<T(!new)>(
    F: Field<T>, M: Matrix<T>, maxRows: nat, r: Row<T>, known: set<nat>, k: nat, x: Assignment<T>, p: nat)
    requires IsField(F) && Shaped(M, |r.payload|) && Reduced(F, M) && p < |r.payload|
    requires Full(M, maxRows) && Smallest(M, k) && NewRow(F, M, r).Some?
    ensures Explains(F, AddRow(F, M, maxRows, r, known), x, p, |r.payload|)
       <==> exists v :: SolvesWith(F, M, r, Put(x, k, v), p)
  {
    var t, n := NewRow(F, M, r).value, |r.payload|;
    NewRowFresh(F, M, r);
    var q := PivotId(F, t.dense).value;
    var N, G := InsertRow(F, M, maxRows, t), InsertRow(F, M, |M| + 1, t);
    FullInsert(F, M, maxRows, t, k);
    InsertReduced(F, M, maxRows, t, q);
    InsertReduced(F, M, |M| + 1, t, q);
    SolveSplits(F, N, known, n);
    SplitSolves(F, N, Solve(F, Outcome(N, []), known, n), n, x, p);
    assert k in G;
    OneRowLess(F, G, n, k, x, p);
    forall v ensures Solves(F, G, Put(x, k, v), p) <==> SolvesWith(F, M, r, Put(x, k, v), p) {
      InsertSolves(F, M, |M| + 1, t, Put(x, k, v), p);
      if Solves(F, M, Put(x, k, v), p) {
        NewRowSolves(F, M, r, Put(x, k, v), p);
      }
    }
  }

  ghost predicate SolvesWith<T>(F: Field<T>, M: Matrix<T>, r: Row<T>, x: Assignment<T>, p: nat)
    requires Shaped(M, |r.payload|) && p < |r.payload|
  {
    Solves(F, M, x, p) && Residual(F, r, x, p) == F.zero
  }

  // One more that says nothing new changes nothing, full or not.
  lemma AddRowIdle<T(!new)>(F: Field<T>, M: Matrix<T>, maxRows: nat, r: Row<T>, known: set<nat>)
    requires IsField(F) && Shaped(M, |r.payload|) && NewRow(F, M, r).None?
    ensures AddRow(F, M, maxRows, r, known) == Outcome(M, [])
  {
  }

  // ---------------------------------------------------------------- a coded packet for a full matrix

  // What the state after a coded packet allows, in terms of the outcome of the matrix.
  lemma CodedState<T(!new)>(
    c: Config<T>, X: Sources<T>, st: State<T>, ev: EncodingVector<T>, payload: seq<T>, x: Assignment<T>, p: nat)
    requires IsField(c.F) && c.F.order > 1 && WellFormed(ev) && |payload| == c.symbolSize
    requires SourcesSized(X, c.symbolSize) && Inv(c, X, st) && p < c.symbolSize
    requires forall p: nat :: p < c.symbolSize ==> EquationHolds(c.F, ev, payload, Column(c.F, X, p), p)
    requires Sized(c, AfterCoded(c, st, ev, payload))
    ensures FitsState(c, X, AfterCoded(c, st, ev, payload), x, p)
       <==> Explains(c.F, CodedOutcome(c, st, ev, payload), x, p, c.symbolSize)
            && AgreesOn(c.F, st.known.Keys, X, x, p)
  {
    var r, o := AfterCoded(c, st, ev, payload), CodedOutcome(c, st, ev, payload);
    CodedKeeps(c, X, st, ev, payload);
    CodedSymbolsRight(c, X, st, ev, payload);
    RecoveredAgree(c.F, o.recovered, X, c.symbolSize, x, p);
    assert r.rows == o.rows;
  }

  // The row that add_coded starts from, in this state.
  ghost function RowFor<T(!new)>(c: Config<T>, st: State<T>, ev: EncodingVector<T>, payload: seq<T>): (r: Row<T>)
    requires c.F.order > 1 && WellFormed(ev) && Sized(c, st) && |payload| == c.symbolSize
    ensures |r.payload| == c.symbolSize
  {
    CodedRow(c.F, CoefMap(c.F, ev, |ev.ids|), payload, st.known)
  }

  // Where x agrees on what is known, the row says what the packet says.
  lemma RowForSays<T(!new)>(
    c: Config<T>, X: Sources<T>, st: State<T>, ev: EncodingVector<T>, payload: seq<T>, x: Assignment<T>, p: nat)
    requires IsField(c.F) && c.F.order > 1 && WellFormed(ev) && |payload| == c.symbolSize
    requires SourcesSized(X, c.symbolSize) && Inv(c, X, st) && p < c.symbolSize
    requires AgreesOn(c.F, st.known.Keys, X, x, p)
    ensures EquationHolds(c.F, ev, payload, x, p) <==> Residual(c.F, RowFor(c, st, ev, payload), x, p) == c.F.zero
  {
    CodedRowResidual(c.F, CoefMap(c.F, ev, |ev.ids|), payload, st.known, x, p);
  }

  // The state allows something that the packet does not.
  ghost predicate News<T(!new)>(
    c: Config<T>, X: Sources<T>, st: State<T>, ev: EncodingVector<T>, payload: seq<T>, p: nat)
    requires c.F.order > 1 && WellFormed(ev) && |payload| == c.symbolSize && Sized(c, st) && p < c.symbolSize
  {
    exists x :: FitsState(c, X, st, x, p) && !EquationHolds(c.F, ev, payload, x, p)
  }

  lemma NewsIff<T(!new)>(
    c: Config<T>, X: Sources<T>, st: State<T>, ev: EncodingVector<T>, payload: seq<T>, p: nat)
    requires IsField(c.F) && c.F.order > 1 && WellFormed(ev) && |payload| == c.symbolSize
    requires SourcesSized(X, c.symbolSize) && Inv(c, X, st) && p < c.symbolSize
    requires EquationHolds(c.F, ev, payload, Column(c.F, X, p), p)
    ensures News(c, X, st, ev, payload, p) <==> NewRow(c.F, st.rows, RowFor(c, st, ev, payload)).Some?
  {
    var row, y := RowFor(c, st, ev, payload), Column(c.F, X, p);
    RowForSays(c, X, st, ev, payload, y, p);
    if NewRow(c.F, st.rows, row).Some? {
      CodedRowClean(c.F, CoefMap(c.F, ev, |ev.ids|), payload, st.known);
      var x := NewRowBreaks(c.F, st.rows, row, y, p);
      forall id | id in st.known ensures x(id) == y(id) {
        KnownNotKey(c.F, st.rows, st.known.Keys, id);
      }
      RowForSays(c, X, st, ev, payload, x, p);
      assert FitsState(c, X, st, x, p);
    } else {
      forall x | FitsState(c, X, st, x, p) ensures EquationHolds(c.F, ev, payload, x, p) {
        RowForSays(c, X, st, ev, payload, x, p);
        VanishedRow(c.F, st.rows, row, y, x, p);
      }
    }
  }

  // x fits the state and the packet.
  ghost predicate FitsBoth<T(!new)>(
    c: Config<T>, X: Sources<T>, st: State<T>, a: Arrival<T>, x: Assignment<T>, p: nat)
    requires Acceptable(c, a) && Sized(c, st) && p < c.symbolSize
  {
    FitsState(c, X, st, x, p) && FitsPacket(c, X, a, x, p)
  }

  lemma CodedForgets<T(!new)>(
    c: Config<T>, X: Sources<T>, st: State<T>, a: Arrival<T>, k: nat, x: Assignment<T>, p: nat)
    requires Acceptable(c, a) && a.packet.CodedPacket? && |a.packet.payload| == c.symbolSize
    requires SourcesSized(X, c.symbolSize) && Inv(c, X, st) && p < c.symbolSize && Truthful(c, X, a)
    requires Full(st.rows, c.maxRows) && Smallest(st.rows, k) && News(c, X, st, a.packet.ev, a.packet.payload, p)
    ensures Explains(c.F, CodedOutcome(c, st, a.packet.ev, a.packet.payload), x, p, c.symbolSize)
            && AgreesOn(c.F, st.known.Keys, X, x, p)
       <==> exists v :: FitsBoth(c, X, st, a, Put(x, k, v), p)
  {
    var ev, payload := a.packet.ev, a.packet.payload;
    var row := RowFor(c, st, ev, payload);
    NewsIff(c, X, st, ev, payload, p);
    AddRowForgets(c.F, st.rows, c.maxRows, row, st.known.Keys, k, x, p);
    forall v ensures FitsBoth(c, X, st, a, Put(x, k, v), p)
                <==> AgreesOn(c.F, st.known.Keys, X, x, p) && SolvesWith(c.F, st.rows, row, Put(x, k, v), p)
    {
      PutFits(c, X, st, a, k, x, v, p);
    }
  }

  lemma PutFits<T(!new)>(
    c: Config<T>, X: Sources<T>, st: State<T>, a: Arrival<T>, k: nat, x: Assignment<T>, v: T, p: nat)
    requires Acceptable(c, a) && a.packet.CodedPacket? && |a.packet.payload| == c.symbolSize
    requires SourcesSized(X, c.symbolSize) && Inv(c, X, st) && p < c.symbolSize && k in st.rows
    ensures FitsBoth(c, X, st, a, Put(x, k, v), p)
       <==> AgreesOn(c.F, st.known.Keys, X, x, p)
            && SolvesWith(c.F, st.rows, RowFor(c, st, a.packet.ev, a.packet.payload), Put(x, k, v), p)
  {
    var y := Put(x, k, v);
    forall id | id in st.known ensures y(id) == x(id) {
      KnownNotKey(c.F, st.rows, st.known.Keys, id);
    }
    assert AgreesOn(c.F, st.known.Keys, X, x, p) <==> AgreesOn(c.F, st.known.Keys, X, y, p);
    if AgreesOn(c.F, st.known.Keys, X, y, p) {
      RowForSays(c, X, st, a.packet.ev, a.packet.payload, y, p);
    }
  }

  // ---------------------------------------------------------------- one packet

  ghost predicate IsCoded<T>(c: Config<T>, a: Arrival<T>) {
    a.packet.CodedPacket? && |a.packet.payload| == c.symbolSize
  }

  ghost predicate Forgets<T(!new)>(c: Config<T>, X: Sources<T>, st: State<T>, a: Arrival<T>, p: nat)
    requires Acceptable(c, a) && Sized(c, st) && p < c.symbolSize
  {
    IsCoded(c, a) && Full(st.rows, c.maxRows) && exists x :: FitsState(c, X, st, x, p) && !FitsPacket(c, X, a, x, p)
  }

  lemma ForgetsNews<T(!new)>(c: Config<T>, X: Sources<T>, st: State<T>, a: Arrival<T>, p: nat)
    requires Acceptable(c, a) && Sized(c, st) && p < c.symbolSize
    ensures Forgets(c, X, st, a, p)
       <==> IsCoded(c, a) && Full(st.rows, c.maxRows) && News(c, X, st, a.packet.ev, a.packet.payload, p)
  {
    if IsCoded(c, a) {
      var ev, payload := a.packet.ev, a.packet.payload;
      forall x ensures FitsPacket(c, X, a, x, p) <==> EquationHolds(c.F, ev, payload, x, p) {
      }
    }
  }

  // What is possible after a coded packet is what was possible and fits it; when it is news to a full
  // matrix, up to the value at the smallest key.
  lemma StepForgets<T(!new)>(c: Config<T>, X: Sources<T>, st: State<T>, a: Arrival<T>, x: Assignment<T>, p: nat)
    requires Acceptable(c, a) && SourcesSized(X, c.symbolSize) && Inv(c, X, st) && p < c.symbolSize
    requires Truthful(c, X, a) && Timely(c, st, a) && Sized(c, Step(c, st, a).state)
    ensures FitsState(c, X, Step(c, st, a).state, x, p)
       <==> if Forgets(c, X, st, a, p) then exists v :: FitsBoth(c, X, st, a, Put(x, Min(st.rows.Keys), v), p)
            else FitsBoth(c, X, st, a, x, p)
  {
    if IsCoded(c, a) && Full(st.rows, c.maxRows) {
      FullStep(c, X, st, a, x, p);
    } else {
      RoomyStep(c, X, st, a, x, p);
    }
  }

  lemma FullStep<T(!new)>(c: Config<T>, X: Sources<T>, st: State<T>, a: Arrival<T>, x: Assignment<T>, p: nat)
    requires Acceptable(c, a) && SourcesSized(X, c.symbolSize) && Inv(c, X, st) && p < c.symbolSize
    requires Truthful(c, X, a) && IsCoded(c, a) && Full(st.rows, c.maxRows) && Sized(c, Step(c, st, a).state)
    ensures FitsState(c, X, Step(c, st, a).state, x, p)
       <==> if Forgets(c, X, st, a, p) then exists v :: FitsBoth(c, X, st, a, Put(x, Min(st.rows.Keys), v), p)
            else FitsBoth(c, X, st, a, x, p)
  {
    ForgetsNews(c, X, st, a, p);
    if Forgets(c, X, st, a, p) {
      NewsStep(c, X, st, a, x, p);
    } else {
      IdleStep(c, X, st, a, x, p);
    }
  }

  lemma CodedAfter<T(!new)>(c: Config<T>, X: Sources<T>, st: State<T>, a: Arrival<T>, x: Assignment<T>, p: nat)
    requires Acceptable(c, a) && SourcesSized(X, c.symbolSize) && Inv(c, X, st) && p < c.symbolSize
    requires Truthful(c, X, a) && IsCoded(c, a) && Sized(c, Step(c, st, a).state)
    ensures FitsState(c, X, Step(c, st, a).state, x, p)
       <==> Explains(c.F, CodedOutcome(c, st, a.packet.ev, a.packet.payload), x, p, c.symbolSize)
            && AgreesOn(c.F, st.known.Keys, X, x, p)
  {
    CodedKeeps(c, X, st, a.packet.ev, a.packet.payload);
    CodedState(c, X, st, a.packet.ev, a.packet.payload, x, p);
  }

  lemma NewsStep<T(!new)>(c: Config<T>, X: Sources<T>, st: State<T>, a: Arrival<T>, x: Assignment<T>, p: nat)
    requires Acceptable(c, a) && SourcesSized(X, c.symbolSize) && Inv(c, X, st) && p < c.symbolSize
    requires Truthful(c, X, a) && IsCoded(c, a) && Sized(c, Step(c, st, a).state)
    requires Full(st.rows, c.maxRows) && News(c, X, st, a.packet.ev, a.packet.payload, p)
    ensures FitsState(c, X, Step(c, st, a).state, x, p)
       <==> exists v :: FitsBoth(c, X, st, a, Put(x, Min(st.rows.Keys), v), p)
  {
    CodedAfter(c, X, st, a, x, p);
    assert Smallest(st.rows, Min(st.rows.Keys));
    CodedForgets(c, X, st, a, Min(st.rows.Keys), x, p);
  }

  lemma IdleStep<T(!new)>(c: Config<T>, X: Sources<T>, st: State<T>, a: Arrival<T>, x: Assignment<T>, p: nat)
    requires Acceptable(c, a) && SourcesSized(X, c.symbolSize) && Inv(c, X, st) && p < c.symbolSize
    requires Truthful(c, X, a) && IsCoded(c, a) && Sized(c, Step(c, st, a).state)
    requires !News(c, X, st, a.packet.ev, a.packet.payload, p)
    ensures FitsState(c, X, Step(c, st, a).state, x, p) <==> FitsBoth(c, X, st, a, x, p)
  {
    CodedAfter(c, X, st, a, x, p);
    NewsIff(c, X, st, a.packet.ev, a.packet.payload, p);
    AddRowIdle(c.F, st.rows, c.maxRows, RowFor(c, st, a.packet.ev, a.packet.payload), st.known.Keys);
  }

  lemma RoomyStep<T(!new)>(c: Config<T>, X: Sources<T>, st: State<T>, a: Arrival<T>, x: Assignment<T>, p: nat)
    requires Acceptable(c, a) && SourcesSized(X, c.symbolSize) && Inv(c, X, st) && p < c.symbolSize
    requires Truthful(c, X, a) && Timely(c, st, a) && Sized(c, Step(c, st, a).state)
    requires !(IsCoded(c, a) && Full(st.rows, c.maxRows))
    ensures FitsState(c, X, Step(c, st, a).state, x, p) <==> FitsBoth(c, X, st, a, x, p)
  {
    StepFits(c, X, st, a, x, p);
  }

  // ---------------------------------------------------------------- runs that evict

  // What is left of `before` once a packet is in: what fits it; but a coded packet that is news to a full
  // matrix frees the value at the smallest key there.
  ghost predicate Left<T(!new)>(
    c: Config<T>, X: Sources<T>, rows: Matrix<T>, a: Arrival<T>, before: Assignment<T> -> bool,
    x: Assignment<T>, p: nat)
    requires Acceptable(c, a) && p < c.symbolSize
  {
    if IsCoded(c, a) && Full(rows, c.maxRows) && exists y :: before(y) && !FitsPacket(c, X, a, y, p)
    then exists v :: before(Put(x, Min(rows.Keys), v)) && FitsPacket(c, X, a, Put(x, Min(rows.Keys), v), p)
    else before(x) && FitsPacket(c, X, a, x, p)
  }

  // What a run has not forgotten.
  ghost predicate Remembered<T(!new)>(
    c: Config<T>, X: Sources<T>, arrivals: seq<Arrival<T>>, x: Assignment<T>, p: nat)
    requires p < c.symbolSize && forall i :: 0 <= i < |arrivals| ==> Acceptable(c, arrivals[i])
    decreases |arrivals|
  {
    arrivals == [] ||
    var init, a := arrivals[..|arrivals| - 1], arrivals[|arrivals| - 1];
    Left(c, X, Run(c, Start(), init).state.rows, a, y => Remembered(c, X, init, y, p), x, p)
  }

  lemma LeftSame<T(!new)>(
    c: Config<T>, X: Sources<T>, rows: Matrix<T>, a: Arrival<T>, before: Assignment<T> -> bool,
    other: Assignment<T> -> bool, x: Assignment<T>, p: nat)
    requires Acceptable(c, a) && p < c.symbolSize && forall y :: before(y) == other(y)
    ensures Left(c, X, rows, a, before, x, p) == Left(c, X, rows, a, other, x, p)
  {
    if exists y :: before(y) && !FitsPacket(c, X, a, y, p) {
      var y :| before(y) && !FitsPacket(c, X, a, y, p);
      assert other(y);
    }
    if exists y :: other(y) && !FitsPacket(c, X, a, y, p) {
      var y :| other(y) && !FitsPacket(c, X, a, y, p);
      assert before(y);
    }
  }

  ghost function Allowed<T(!new)>(c: Config<T>, X: Sources<T>, st: State<T>, p: nat): Assignment<T> -> bool
    requires Sized(c, st) && p < c.symbolSize
  {
    y => FitsState(c, X, st, y, p)
  }

  lemma LeftIs<T(!new)>(c: Config<T>, X: Sources<T>, st: State<T>, a: Arrival<T>, x: Assignment<T>, p: nat)
    requires Acceptable(c, a) && Sized(c, st) && p < c.symbolSize
    ensures Left(c, X, st.rows, a, Allowed(c, X, st, p), x, p)
       <==> if Forgets(c, X, st, a, p) then exists v :: FitsBoth(c, X, st, a, Put(x, Min(st.rows.Keys), v), p)
            else FitsBoth(c, X, st, a, x, p)
  {
    var before := Allowed(c, X, st, p);
    if IsCoded(c, a) && Full(st.rows, c.maxRows) {
      NewsTo(c, X, st, a, p);
      forall v ensures FitsBoth(c, X, st, a, Put(x, Min(st.rows.Keys), v), p)
                  <==> before(Put(x, Min(st.rows.Keys), v)) && FitsPacket(c, X, a, Put(x, Min(st.rows.Keys), v), p) {
      }
    }
  }

  lemma NewsTo<T(!new)>(c: Config<T>, X: Sources<T>, st: State<T>, a: Arrival<T>, p: nat)
    requires Acceptable(c, a) && Sized(c, st) && p < c.symbolSize
    ensures (exists y :: FitsState(c, X, st, y, p) && !FitsPacket(c, X, a, y, p))
       <==> (exists y :: Allowed(c, X, st, p)(y) && !FitsPacket(c, X, a, y, p))
  {
    forall y ensures Allowed(c, X, st, p)(y) == FitsState(c, X, st, y, p) {
    }
  }

  lemma StepLeaves<T(!new)>(
    c: Config<T>, X: Sources<T>, st: State<T>, a: Arrival<T>, before: Assignment<T> -> bool, x: Assignment<T>, p: nat)
    requires Acceptable(c, a) && SourcesSized(X, c.symbolSize) && Inv(c, X, st) && p < c.symbolSize
    requires Truthful(c, X, a) && Timely(c, st, a) && Sized(c, Step(c, st, a).state)
    requires forall y :: before(y) == FitsState(c, X, st, y, p)
    ensures FitsState(c, X, Step(c, st, a).state, x, p) <==> Left(c, X, st.rows, a, before, x, p)
  {
    StepForgets(c, X, st, a, x, p);
    LeftIs(c, X, st, a, x, p);
    LeftSame(c, X, st.rows, a, before, Allowed(c, X, st, p), x, p);
  }

  // What the state allows is exactly what is remembered.
  lemma {:induction false} RunRemembers<T(!new)>(
    c: Config<T>, X: Sources<T>, arrivals: seq<Arrival<T>>, x: Assignment<T>, p: nat)
    requires SourcesSized(X, c.symbolSize) && p < c.symbolSize
    requires forall i :: 0 <= i < |arrivals| ==> Acceptable(c, arrivals[i])
    requires GoodRun(c, X, arrivals, false)
    ensures FitsState(c, X, Run(c, Start(), arrivals).state, x, p) <==> Remembered(c, X, arrivals, x, p)
    decreases |arrivals|
  {
    if arrivals != [] {
      var init, a := arrivals[..|arrivals| - 1], arrivals[|arrivals| - 1];
      var st := Run(c, Start(), init).state;
      RunRight(c, X, init, false);
      var before: Assignment<T> -> bool := y => Remembered(c, X, init, y, p);
      forall y ensures before(y) == FitsState(c, X, st, y, p) {
        RunRemembers(c, X, init, y, p);
      }
      assert Run(c, Start(), arrivals).state == Step(c, st, a).state;
      StepLeaves(c, X, st, a, before, x, p);
      LeftSame(c, X, st.rows, a, before, y => Remembered(c, X, init, y, p), x, p);
    }
  }

  // With eviction, too, a symbol is known exactly when what is remembered determines it.
  lemma RecallIsOptimal<T(!new)>(c: Config<T>, X: Sources<T>, arrivals: seq<Arrival<T>>, id: nat)
    requires SourcesSized(X, c.symbolSize) && c.symbolSize > 0 && IsField(c.F)
    requires forall i :: 0 <= i < |arrivals| ==> Acceptable(c, arrivals[i])
    requires GoodRun(c, X, arrivals, false)
    ensures id in Run(c, Start(), arrivals).state.known
       <==> forall x: Assignment<T>, p: nat :: p < c.symbolSize && Remembered(c, X, arrivals, x, p) ==>
              x(id) == Column(c.F, X, p)(id)
  {
    var st := Run(c, Start(), arrivals).state;
    RunRight(c, X, arrivals, false);
    if id in st.known {
      forall x: Assignment<T>, p: nat | p < c.symbolSize && Remembered(c, X, arrivals, x, p)
        ensures x(id) == Column(c.F, X, p)(id)
      {
        RunRemembers(c, X, arrivals, x, p);
      }
    } else {
      var y := UnknownIsFree(c.F, st.rows, c.symbolSize, st.known.Keys, id, Column(c.F, X, 0), 0);
      assert FitsState(c, X, st, y, 0);
      RunRemembers(c, X, arrivals, y, 0);
    }
  }

  lemma {:induction false} LosslessIsGood<T(!new)>(c: Config<T>, X: Sources<T>, arrivals: seq<Arrival<T>>)
    requires forall i :: 0 <= i < |arrivals| ==> Acceptable(c, arrivals[i])
    requires GoodRun(c, X, arrivals, true)
    ensures GoodRun(c, X, arrivals, false)
  {
    if arrivals != [] {
      LosslessIsGood(c, X, arrivals[..|arrivals| - 1]);
    }
  }

  // Where no row is evicted nothing is forgotten: what is remembered is all that arrived.
  lemma NothingForgotten<T(!new)>(c: Config<T>, X: Sources<T>, arrivals: seq<Arrival<T>>, x: Assignment<T>, p: nat)
    requires SourcesSized(X, c.symbolSize) && p < c.symbolSize && c.F.order > 1
    requires forall i :: 0 <= i < |arrivals| ==> Acceptable(c, arrivals[i])
    requires GoodRun(c, X, arrivals, true)
    ensures Usable(c, Collect(arrivals, c.symbolSize))
    ensures Remembered(c, X, arrivals, x, p) <==> Fits(c, X, Collect(arrivals, c.symbolSize), x, p)
  {
    LosslessIsGood(c, X, arrivals);
    RunRemembers(c, X, arrivals, x, p);
    RunFits(c, X, arrivals, x, p);
  }
}
