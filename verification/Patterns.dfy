// Which rows are taken out depends on the order of arrival and on the encoding vectors, never on
// the data: an arrival pattern is exact for all data or spoils some.

module Patterns {
  import opened Fields
  import opened Keys
  import opened Rows
  import opened Elimination
  import opened Echelon
  import opened Incremental
  import opened Equations
  import opened Decoding
  import opened Exactness
  import opened Disorder
  import Delivery
  import Duplicates

  // ---------------------------------------------------------------- the same coefficients

  ghost predicate RowAlike<T>(r: Row<T>, s: Row<T>) {
    r.dense == s.dense && |r.payload| == |s.payload|
  }

  ghost predicate Alike<T>(M: Matrix<T>, N: Matrix<T>) {
    M.Keys == N.Keys && forall k :: k in M ==> RowAlike(M[k], N[k])
  }

  ghost predicate SameIds<T>(s: seq<Symbol<T>>, t: seq<Symbol<T>>) {
    |s| == |t| && forall i :: 0 <= i < |s| ==> s[i].id == t[i].id
  }

  lemma SameIdsSet<T>(s: seq<Symbol<T>>, t: seq<Symbol<T>>)
    requires SameIds(s, t)
    ensures Ids(s) == Ids(t)
  {
    forall id | id in Ids(s) ensures id in Ids(t) {
      var i :| 0 <= i < |s| && s[i].id == id;
      assert t[i].id == id;
    }
    forall id | id in Ids(t) ensures id in Ids(s) {
      var i :| 0 <= i < |t| && t[i].id == id;
      assert s[i].id == id;
    }
  }

  ghost predicate CascadeAlike<T>(c: Cascade<T>, d: Cascade<T>) {
    Alike(c.rows, d.rows) && SameIds(c.queue, d.queue) && SameIds(c.recovered, d.recovered)
  }

  ghost predicate OutcomeAlike<T>(o: Outcome<T>, q: Outcome<T>) {
    Alike(o.rows, q.rows) && SameIds(o.recovered, q.recovered)
  }

  // ---------------------------------------------------------------- a known symbol

  lemma {:induction false} NewlySolvedAlike<T(!new)>(
    F: Field<T>, M: Matrix<T>, N: Matrix<T>, M': Matrix<T>, N': Matrix<T>, keys: seq<nat>, id: nat)
    requires Alike(M, M') && Alike(N, N') && forall i :: 0 <= i < |keys| ==> keys[i] in M && keys[i] in N
    ensures forall i :: 0 <= i < |keys| ==> keys[i] in M' && keys[i] in N'
    ensures NewlySolved(F, M, N, keys, id) == NewlySolved(F, M', N', keys, id)
  {
    assert forall i :: 0 <= i < |keys| ==> keys[i] in M.Keys && keys[i] in N.Keys;
    if keys != [] {
      NewlySolvedAlike(F, M, N, M', N', keys[..|keys| - 1], id);
    }
  }

  lemma SubstituteAlike<T(!new)>(F: Field<T>, M: Matrix<T>, N: Matrix<T>, id: nat, d: seq<T>, e: seq<T>)
    requires Alike(M, N) && Shaped(M, |d|) && Shaped(N, |e|) && |d| == |e|
    ensures Alike(SubstituteRows(F, M, id, d), SubstituteRows(F, N, id, e))
    ensures SolvedBy(F, M, id, d) == SolvedBy(F, N, id, e)
  {
    SortedIn(M.Keys);
    NewlySolvedAlike(F, M, SubstituteRows(F, M, id, d), N, SubstituteRows(F, N, id, e), Sorted(M.Keys), id);
  }

  lemma {:induction false} ExtractAlike<T(!new)>(c: Cascade<T>, d: Cascade<T>, solved: seq<nat>, known: set<nat>)
    requires CascadeAlike(c, d)
    ensures CascadeAlike(Extract(c, solved, known), Extract(d, solved, known))
  {
    if solved != [] {
      ExtractAlike(c, d, solved[..|solved| - 1], known);
    }
  }

  lemma {:induction false} AddKnownAlike<T(!new)>(F: Field<T>, c: Cascade<T>, d: Cascade<T>, known: set<nat>, n: nat)
    requires CascadeShaped(c, n) && CascadeShaped(d, n) && CascadeAlike(c, d)
    ensures OutcomeAlike(AddKnown(F, c, known, n), AddKnown(F, d, known, n))
    decreases |c.rows| + |c.queue|
  {
    if c.queue != [] {
      var id := c.queue[0].id;
      SubstituteAlike(F, c.rows, d.rows, id, c.queue[0].data, d.queue[0].data);
      ExtractAlike(Substituted(F, c, n), Substituted(F, d, n), SolvedBy(F, c.rows, id, c.queue[0].data), known + {id});
      AddKnownAlike(F, Turn(F, c, known, n), Turn(F, d, known, n), known + {id}, n);
    }
  }

  // ---------------------------------------------------------------- solved rows

  lemma {:induction false} SolvedKeysAlike<T(!new)>(F: Field<T>, M: Matrix<T>, N: Matrix<T>, keys: seq<nat>)
    requires Alike(M, N) && forall i :: 0 <= i < |keys| ==> keys[i] in M
    ensures forall i :: 0 <= i < |keys| ==> keys[i] in N
    ensures SolvedKeys(F, M, keys) == SolvedKeys(F, N, keys)
  {
    assert forall i :: 0 <= i < |keys| ==> keys[i] in M.Keys;
    if keys != [] {
      SolvedKeysAlike(F, M, N, keys[..|keys| - 1]);
    }
  }

  lemma SolvedListAlike<T(!new)>(F: Field<T>, M: Matrix<T>, N: Matrix<T>)
    requires Alike(M, N)
    ensures SolvedList(F, M) == SolvedList(F, N)
  {
    SortedIn(M.Keys);
    SolvedKeysAlike(F, M, N, Sorted(M.Keys));
  }

  lemma SolveOneAlike<T(!new)>(F: Field<T>, o: Outcome<T>, q: Outcome<T>, pid: nat, known: set<nat>, n: nat)
    requires Shaped(o.rows, n) && SymbolsShaped(o.recovered, n) && Shaped(q.rows, n) && SymbolsShaped(q.recovered, n)
    requires OutcomeAlike(o, q)
    ensures OutcomeAlike(SolveOne(F, o, pid, known, n), SolveOne(F, q, pid, known, n))
    ensures OneTaken(F, o, pid) == OneTaken(F, q, pid)
  {
    SameIdsSet(o.recovered, q.recovered);
    if pid in o.rows {
      assert Alike(o.rows - {pid}, q.rows - {pid});
      var id := IsSolved(F, o.rows[pid].dense);
      if id.Some? {
        var s, t := Symbol(id.value, o.rows[pid].payload), Symbol(id.value, q.rows[pid].payload);
        var c, d := Cascade(o.rows - {pid}, [s], []), Cascade(q.rows - {pid}, [t], []);
        var k := known + Ids(o.recovered) + {id.value};
        AddKnownAlike(F, c, d, k, n);
        SameIdsConcat(o.recovered, q.recovered, s, t, AddKnown(F, c, k, n).recovered, AddKnown(F, d, k, n).recovered);
      }
    }
  }

  lemma SameIdsConcat<T>(
    a: seq<Symbol<T>>, b: seq<Symbol<T>>, s: Symbol<T>, t: Symbol<T>, c: seq<Symbol<T>>, d: seq<Symbol<T>>)
    requires SameIds(a, b) && s.id == t.id && SameIds(c, d)
    ensures SameIds(a + [s] + c, b + [t] + d)
  {
  }

  lemma {:induction false} SolvePassAlike<T(!new)>(
    F: Field<T>, o: Outcome<T>, q: Outcome<T>, solved: seq<nat>, known: set<nat>, n: nat)
    requires Shaped(o.rows, n) && SymbolsShaped(o.recovered, n) && Shaped(q.rows, n) && SymbolsShaped(q.recovered, n)
    requires OutcomeAlike(o, q)
    ensures OutcomeAlike(SolvePass(F, o, solved, known, n), SolvePass(F, q, solved, known, n))
    ensures PassTaken(F, o, solved, known, n) == PassTaken(F, q, solved, known, n)
  {
    if solved != [] {
      var init := solved[..|solved| - 1];
      SolvePassAlike(F, o, q, init, known, n);
      SolveOneAlike(F, SolvePass(F, o, init, known, n), SolvePass(F, q, init, known, n), solved[|solved| - 1], known,
                    n);
    }
  }

  lemma {:induction false} SolveAlike<T(!new)>(F: Field<T>, o: Outcome<T>, q: Outcome<T>, known: set<nat>, n: nat)
    requires Shaped(o.rows, n) && SymbolsShaped(o.recovered, n) && Shaped(q.rows, n) && SymbolsShaped(q.recovered, n)
    requires OutcomeAlike(o, q)
    ensures OutcomeAlike(Solve(F, o, known, n), Solve(F, q, known, n))
    ensures SolveTaken(F, o, known, n) == SolveTaken(F, q, known, n)
    decreases |o.rows|
  {
    SolvedListAlike(F, o.rows, q.rows);
    var solved := SolvedList(F, o.rows);
    if solved != [] {
      SolveTurn(F, o, known, n);
      SolveTurn(F, q, known, n);
      SolvePassAlike(F, o, q, solved, known, n);
      SolveAlike(F, SolvePass(F, o, solved, known, n), SolvePass(F, q, solved, known, n), known, n);
    }
  }

  // ---------------------------------------------------------------- an equation

  lemma {:induction false} ForwardAlike<T(!new)>(
    F: Field<T>, M: Matrix<T>, N: Matrix<T>, pivots: seq<nat>, r: Row<T>, s: Row<T>)
    requires Alike(M, N) && RowAlike(r, s) && Shaped(M, |r.payload|) && Shaped(N, |s.payload|)
    requires forall i :: 0 <= i < |pivots| ==> pivots[i] in M
    ensures forall i :: 0 <= i < |pivots| ==> pivots[i] in N
    ensures RowAlike(ForwardEliminate(F, M, pivots, r), ForwardEliminate(F, N, pivots, s))
  {
    assert forall i :: 0 <= i < |pivots| ==> pivots[i] in M.Keys;
    if pivots != [] {
      ForwardAlike(F, M, N, pivots[..|pivots| - 1], r, s);
    }
  }

  lemma NewRowAlike<T(!new)>(F: Field<T>, M: Matrix<T>, N: Matrix<T>, r: Row<T>, s: Row<T>)
    requires Alike(M, N) && RowAlike(r, s) && Shaped(M, |r.payload|) && Shaped(N, |s.payload|)
    ensures NewRow(F, M, r).Some? <==> NewRow(F, N, s).Some?
    ensures NewRow(F, M, r).Some? ==> RowAlike(NewRow(F, M, r).value, NewRow(F, N, s).value)
  {
    SortedIn(M.Keys);
    ForwardAlike(F, M, N, Sorted(M.Keys), r, s);
  }

  lemma InsertAlike<T(!new)>(F: Field<T>, M: Matrix<T>, N: Matrix<T>, maxRows: nat, r: Row<T>, s: Row<T>)
    requires Alike(M, N) && RowAlike(r, s) && Shaped(M, |r.payload|) && Shaped(N, |s.payload|)
    requires PivotId(F, r.dense).Some?
    ensures Alike(InsertRow(F, M, maxRows, r), InsertRow(F, N, maxRows, s))
  {
    var q := PivotId(F, r.dense).value;
    BackAlike(F, M, N, q, r, s);
    EvictAlike(BackSubstitute(F, M, q, r), BackSubstitute(F, N, q, s), maxRows);
  }

  lemma BackAlike<T(!new)>(F: Field<T>, M: Matrix<T>, N: Matrix<T>, q: nat, r: Row<T>, s: Row<T>)
    requires Alike(M, N) && RowAlike(r, s) && Shaped(M, |r.payload|) && Shaped(N, |s.payload|)
    ensures Alike(BackSubstitute(F, M, q, r), BackSubstitute(F, N, q, s))
  {
  }

  lemma EvictAlike<T>(M: Matrix<T>, N: Matrix<T>, maxRows: nat)
    requires Alike(M, N)
    ensures Alike(Evict(M, maxRows), Evict(N, maxRows))
  {
    assert |M| == |M.Keys| && |N| == |N.Keys|;
  }

  lemma AddRowAlike<T(!new)>(
    F: Field<T>, M: Matrix<T>, N: Matrix<T>, maxRows: nat, r: Row<T>, s: Row<T>, known: set<nat>)
    requires IsField(F) && Alike(M, N) && RowAlike(r, s) && Shaped(M, |r.payload|) && Shaped(N, |s.payload|)
    ensures OutcomeAlike(AddRow(F, M, maxRows, r, known), AddRow(F, N, maxRows, s, known))
    ensures RowTaken(F, M, maxRows, r, known) == RowTaken(F, N, maxRows, s, known)
  {
    NewRowAlike(F, M, N, r, s);
    if NewRow(F, M, r).Some? {
      var t, u := NewRow(F, M, r).value, NewRow(F, N, s).value;
      NormalizeCorrect(F, Forward(F, M, r));
      NormalizeCorrect(F, Forward(F, N, s));
      InsertAlike(F, M, N, maxRows, t, u);
      SolveAlike(F, Outcome(InsertRow(F, M, maxRows, t), []), Outcome(InsertRow(F, N, maxRows, u), []), known,
                 |r.payload|);
    }
  }

  lemma {:induction false} SubstituteAllAlike<T(!new)>(
    F: Field<T>, r: Row<T>, s: Row<T>, known: map<nat, seq<T>>, others: map<nat, seq<T>>, ids: seq<nat>)
    requires RowAlike(r, s) && KnownShaped(known, |r.payload|) && KnownShaped(others, |s.payload|)
    requires forall i :: 0 <= i < |ids| ==> ids[i] in known && ids[i] in others
    ensures RowAlike(SubstituteAll(F, r, known, ids), SubstituteAll(F, s, others, ids))
  {
    if ids != [] {
      SubstituteAllAlike(F, r, s, known, others, ids[..|ids| - 1]);
    }
  }

  // ---------------------------------------------------------------- runs

  ghost predicate StateAlike<T>(st: State<T>, su: State<T>) {
    Alike(st.rows, su.rows) && st.known.Keys == su.known.Keys
  }

  // What arrives, without the data.
  datatype Shape<T> = SourceShape(id: nat) | CodedShape(ev: EncodingVector<T>)

  ghost predicate Formed<T(!new)>(F: Field<T>, shapes: seq<Shape<T>>) {
    && IsField(F) && F.order > 1
    && forall i :: 0 <= i < |shapes| && shapes[i].CodedShape? ==> WellFormed(shapes[i].ev)
  }

  // The packet of this shape that is true of X.
  ghost function FilledOne<T>(c: Config<T>, X: Sources<T>, shape: Shape<T>): Arrival<T>
    requires c.F.order > 1 && (shape.CodedShape? ==> WellFormed(shape.ev))
  {
    match shape
    case SourceShape(id) => Arrival(SourcePacket(id, X(id)), false)
    case CodedShape(ev) =>
      var payload := seq(c.symbolSize, p requires 0 <= p => Duplicates.DecoderSum(c.F, ev, Column(c.F, X, p)));
      Arrival(CodedPacket(ev, payload), false)
  }

  ghost function Filled<T(!new)>(c: Config<T>, X: Sources<T>, shapes: seq<Shape<T>>): (r: seq<Arrival<T>>)
    requires Formed(c.F, shapes)
    ensures |r| == |shapes| && forall i :: 0 <= i < |r| ==> r[i] == FilledOne(c, X, shapes[i])
    ensures forall i :: 0 <= i < |r| ==> Acceptable(c, r[i])
  {
    seq(|shapes|, i requires 0 <= i < |shapes| => FilledOne(c, X, shapes[i]))
  }

  lemma FilledTruthful<T(!new)>(c: Config<T>, X: Sources<T>, shape: Shape<T>)
    requires IsField(c.F) && c.F.order > 1 && (shape.CodedShape? ==> WellFormed(shape.ev))
    ensures Acceptable(c, FilledOne(c, X, shape)) && Truthful(c, X, FilledOne(c, X, shape))
  {
    if shape.CodedShape? {
      var a := FilledOne(c, X, shape).packet;
      forall p: nat | p < c.symbolSize ensures EquationHolds(c.F, a.ev, a.payload, Column(c.F, X, p), p) {
        Duplicates.DecoderSumMeans(c.F, a.ev, a.payload, Column(c.F, X, p), p);
      }
    }
  }

  lemma SourceAlike<T(!new)>(c: Config<T>, st: State<T>, su: State<T>, id: nat, d: seq<T>, e: seq<T>)
    requires Sized(c, st) && Sized(c, su) && StateAlike(st, su) && |d| == |e| == c.symbolSize
    ensures StateAlike(AfterSource(c, st, id, d), AfterSource(c, su, id, e))
  {
    var o, q := SourceOutcome(c, st, id, d), SourceOutcome(c, su, id, e);
    AddKnownAlike(c.F, Cascade(st.rows, [Symbol(id, d)], []), Cascade(su.rows, [Symbol(id, e)], []),
                  st.known.Keys + {id}, c.symbolSize);
    AbsorbKnown(State(o.rows, Learned(st.known, id, d), Delivery.Insert(st.buffer, id, d), st.winMin), o.recovered);
    AbsorbKnown(State(q.rows, Learned(su.known, id, e), Delivery.Insert(su.buffer, id, e), su.winMin), q.recovered);
    SameIdsSet(o.recovered, q.recovered);
  }

  lemma CodedAlike<T(!new)>(c: Config<T>, st: State<T>, su: State<T>, ev: EncodingVector<T>, d: seq<T>, e: seq<T>)
    requires IsField(c.F) && c.F.order > 1 && WellFormed(ev)
    requires Sized(c, st) && Sized(c, su) && StateAlike(st, su) && |d| == |e| == c.symbolSize
    ensures StateAlike(AfterCoded(c, st, ev, d), AfterCoded(c, su, ev, e))
    ensures StepTaken(c, st, Arrival(CodedPacket(ev, d), false)) == StepTaken(c, su, Arrival(CodedPacket(ev, e), false))
  {
    var m := CoefMap(c.F, ev, |ev.ids|);
    SortedIn(st.known.Keys);
    SortedIn(su.known.Keys);
    SubstituteAllAlike(c.F, Row(FromMap(c.F, m), d), Row(FromMap(c.F, m), e), st.known, su.known,
                       Sorted(st.known.Keys));
    AddRowAlike(c.F, st.rows, su.rows, c.maxRows, CodedRow(c.F, m, d, st.known), CodedRow(c.F, m, e, su.known),
                st.known.Keys);
    var o, q := CodedOutcome(c, st, ev, d), CodedOutcome(c, su, ev, e);
    AbsorbKnown(State(o.rows, st.known, st.buffer, WindowMin(st.winMin, ev)), o.recovered);
    AbsorbKnown(State(q.rows, su.known, su.buffer, WindowMin(su.winMin, ev)), q.recovered);
    SameIdsSet(o.recovered, q.recovered);
  }

  lemma StepAlike<T(!new)>(c: Config<T>, st: State<T>, su: State<T>, X: Sources<T>, Y: Sources<T>, shape: Shape<T>)
    requires IsField(c.F) && c.F.order > 1 && (shape.CodedShape? ==> WellFormed(shape.ev))
    requires SourcesSized(X, c.symbolSize) && SourcesSized(Y, c.symbolSize)
    requires Sized(c, st) && Sized(c, su) && StateAlike(st, su)
    ensures var a, b := FilledOne(c, X, shape), FilledOne(c, Y, shape);
            && StateAlike(Step(c, st, a).state, Step(c, su, b).state)
            && StepTaken(c, st, a) == StepTaken(c, su, b)
  {
    match shape
    case SourceShape(id) => SourceAlike(c, st, su, id, X(id), Y(id));
    case CodedShape(ev) =>
      CodedAlike(c, st, su, ev, FilledOne(c, X, shape).packet.payload, FilledOne(c, Y, shape).packet.payload);
  }

  // Where the pattern leads with the data X, and the rows it takes out.
  ghost function Ended<T(!new)>(c: Config<T>, X: Sources<T>, shapes: seq<Shape<T>>): (st: State<T>)
    requires Formed(c.F, shapes)
    ensures Sized(c, st)
  {
    Run(c, Start(), Filled(c, X, shapes)).state
  }

  ghost function Took<T(!new)>(c: Config<T>, X: Sources<T>, shapes: seq<Shape<T>>): seq<Taken<T>>
    requires Formed(c.F, shapes)
  {
    RunTaken(c, Filled(c, X, shapes))
  }

  lemma LastShape<T(!new)>(c: Config<T>, X: Sources<T>, shapes: seq<Shape<T>>)
    requires Formed(c.F, shapes) && shapes != []
    ensures var init, a := shapes[..|shapes| - 1], FilledOne(c, X, shapes[|shapes| - 1]);
            && Ended(c, X, shapes) == Step(c, Ended(c, X, init), a).state
            && Took(c, X, shapes) == Took(c, X, init) + StepTaken(c, Ended(c, X, init), a)
  {
    var all := Filled(c, X, shapes);
    assert all[..|all| - 1] == Filled(c, X, shapes[..|shapes| - 1]);
  }

  lemma {:induction false} RunAlike<T(!new)>(c: Config<T>, X: Sources<T>, Y: Sources<T>, shapes: seq<Shape<T>>)
    requires Formed(c.F, shapes) && SourcesSized(X, c.symbolSize) && SourcesSized(Y, c.symbolSize)
    ensures StateAlike(Ended(c, X, shapes), Ended(c, Y, shapes)) && Took(c, X, shapes) == Took(c, Y, shapes)
  {
    if shapes == [] {
      assert Filled(c, X, shapes) == [] == Filled(c, Y, shapes);
    } else {
      var init, shape := shapes[..|shapes| - 1], shapes[|shapes| - 1];
      RunAlike(c, X, Y, init);
      LastShape(c, X, shapes);
      LastShape(c, Y, shapes);
      StepAlike(c, Ended(c, X, init), Ended(c, Y, init), X, Y, shape);
    }
  }

  // ---------------------------------------------------------------- exact for all data

  ghost function Ones<T>(F: Field<T>, n: nat): Sources<T> {
    (id: nat) => seq(n, p => F.one)
  }

  lemma PatternFair<T(!new)>(c: Config<T>, shapes: seq<Shape<T>>, X: Sources<T>, Y: Sources<T>)
    requires Formed(c.F, shapes) && SourcesSized(X, c.symbolSize) && SourcesSized(Y, c.symbolSize)
    ensures AllRight(c, Y, Filled(c, Y, shapes)) <==> FairFor(c.F, Took(c, X, shapes), Y, c.symbolSize)
  {
    RunAlike(c, X, Y, shapes);
    forall i | 0 <= i < |shapes| ensures Truthful(c, Y, Filled(c, Y, shapes)[i]) {
      FilledTruthful(c, Y, shapes[i]);
    }
    RecoveryRightIff(c, Y, Filled(c, Y, shapes));
  }

  ghost predicate AllOnes<T>(F: Field<T>, taken: seq<Taken<T>>) {
    forall i :: 0 <= i < |taken| ==> taken[i].coef == F.one
  }

  // All the symbols with this pattern are recovered right, whatever was sent.
  ghost predicate AlwaysRight<T(!new)>(c: Config<T>, shapes: seq<Shape<T>>)
    requires Formed(c.F, shapes)
  {
    forall Y: Sources<T> :: SourcesSized(Y, c.symbolSize) ==> AllRight(c, Y, Filled(c, Y, shapes))
  }

  // A pattern is exact whatever the data exactly when every row it takes out has coefficient one;
  // the data X that the rows are looked at with do not matter.
  lemma PatternExactIff<T(!new)>(c: Config<T>, shapes: seq<Shape<T>>, X: Sources<T>)
    requires Formed(c.F, shapes) && c.symbolSize > 0 && SourcesSized(X, c.symbolSize)
    ensures AlwaysRight(c, shapes) <==> AllOnes(c.F, Took(c, X, shapes))
  {
    var taken := Took(c, X, shapes);
    OnesTell(c.F, taken, c.symbolSize);
    PatternFair(c, shapes, X, Ones(c.F, c.symbolSize));
    if AllOnes(c.F, taken) {
      forall Y: Sources<T> | SourcesSized(Y, c.symbolSize) ensures AllRight(c, Y, Filled(c, Y, shapes)) {
        OnesAreFair(c.F, taken, Y, c.symbolSize);
        PatternFair(c, shapes, X, Y);
      }
    }
  }

  lemma OnesAreFair<T>(F: Field<T>, taken: seq<Taken<T>>, X: Sources<T>, n: nat)
    requires AllOnes(F, taken)
    ensures FairFor(F, taken, X, n)
  {
  }

  lemma OnesTell<T(!new)>(F: Field<T>, taken: seq<Taken<T>>, n: nat)
    requires F.one != F.zero && n > 0
    ensures SourcesSized(Ones(F, n), n)
    ensures FairFor(F, taken, Ones(F, n), n) <==> AllOnes(F, taken)
  {
    if FairFor(F, taken, Ones(F, n), n) {
      forall i | 0 <= i < |taken| ensures taken[i].coef == F.one {
        assert Column(F, Ones(F, n), 0)(taken[i].id) == F.one;
      }
    }
  }
}
