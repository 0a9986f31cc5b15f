// Arrivals in any order.  The rows stay true equations of what was sent for as long as every symbol
// recovered is right, and a recovery goes wrong exactly when a row is taken out whose remaining
// coefficient is not one.

module Disorder {
  import opened Fields
  import opened Keys
  import opened Rows
  import opened Elimination
  import opened Echelon
  import opened Recovery
  import opened Incremental
  import opened Equations
  import Delivery
  import opened Decoding
  import opened Exactness
  import opened KeyedForm
  import StalePivots

  // ---------------------------------------------------------------- rows taken out

  // A row that the loop of add_coded takes out for the id that is left in it.
  datatype Taken<T> = Taken(id: nat, coef: T)

  ghost function OneTaken<T>(F: Field<T>, o: Outcome<T>, pid: nat): seq<Taken<T>> {
    if pid in o.rows && IsSolved(F, o.rows[pid].dense).Some? then
      var id := IsSolved(F, o.rows[pid].dense).value;
      [Taken(id, Get(F, o.rows[pid].dense, id))]
    else []
  }

  ghost function PassTaken<T>(F: Field<T>, o: Outcome<T>, solved: seq<nat>, known: set<nat>, n: nat): seq<Taken<T>>
    requires Shaped(o.rows, n) && SymbolsShaped(o.recovered, n)
  {
    if solved == [] then []
    else
      var init := solved[..|solved| - 1];
      PassTaken(F, o, init, known, n) + OneTaken(F, SolvePass(F, o, init, known, n), solved[|solved| - 1])
  }

  ghost function SolveTaken<T>(F: Field<T>, o: Outcome<T>, known: set<nat>, n: nat): seq<Taken<T>>
    requires Shaped(o.rows, n) && SymbolsShaped(o.recovered, n)
    decreases |o.rows|
  {
    var solved := SolvedList(F, o.rows);
    if solved == [] then []
    else PassTaken(F, o, solved, known, n) + SolveTaken(F, SolvePass(F, o, solved, known, n), known, n)
  }

  ghost function RowTaken<T(!new)>(F: Field<T>, M: Matrix<T>, maxRows: nat, r: Row<T>, known: set<nat>): seq<Taken<T>>
    requires IsField(F) && Shaped(M, |r.payload|)
  {
    if NewRow(F, M, r).None? then []
    else
      NormalizeCorrect(F, Forward(F, M, r));
      SolveTaken(F, Outcome(InsertRow(F, M, maxRows, NewRow(F, M, r).value), []), known, |r.payload|)
  }

  ghost function StepTaken<T(!new)>(c: Config<T>, st: State<T>, a: Arrival<T>): seq<Taken<T>>
    requires Acceptable(c, a) && Sized(c, st)
  {
    match a.packet
    case SourcePacket(_, _) => []
    case CodedPacket(ev, payload) =>
      if |payload| != c.symbolSize then []
      else
        RowTaken(c.F, st.rows, c.maxRows, CodedRow(c.F, CoefMap(c.F, ev, |ev.ids|), payload, st.known), st.known.Keys)
  }

  // In the order in which they are taken out over a run.
  ghost function RunTaken<T(!new)>(c: Config<T>, arrivals: seq<Arrival<T>>): seq<Taken<T>>
    requires forall i :: 0 <= i < |arrivals| ==> Acceptable(c, arrivals[i])
  {
    if arrivals == [] then []
    else
      var init := arrivals[..|arrivals| - 1];
      RunTaken(c, init) + StepTaken(c, Run(c, Start(), init).state, arrivals[|arrivals| - 1])
  }

  // Dividing by the coefficient would change nothing.
  ghost predicate Fair<T>(F: Field<T>, taken: seq<Taken<T>>, x: Assignment<T>) {
    forall i :: 0 <= i < |taken| ==> taken[i].coef == F.one || x(taken[i].id) == F.zero
  }

  lemma FairConcat<T>(F: Field<T>, s: seq<Taken<T>>, t: seq<Taken<T>>, x: Assignment<T>)
    ensures Fair(F, s + t, x) <==> Fair(F, s, x) && Fair(F, t, x)
  {
    assert forall i :: 0 <= i < |s| ==> (s + t)[i] == s[i];
    assert forall i :: 0 <= i < |t| ==> (s + t)[|s| + i] == t[i];
  }

  // ---------------------------------------------------------------- one row

  lemma IdsConcat<T>(s: seq<Symbol<T>>, sym: Symbol<T>, t: seq<Symbol<T>>)
    ensures Ids(s + [sym] + t) == Ids(s) + {sym.id} + Ids(t)
  {
    var all := s + [sym] + t;
    assert all[|s|] == sym;
    forall id | id in Ids(s) ensures id in Ids(all) {
      var i :| 0 <= i < |s| && s[i].id == id;
      assert all[i].id == id;
    }
    forall id | id in Ids(t) ensures id in Ids(all) {
      var i :| 0 <= i < |t| && t[i].id == id;
      assert all[|s| + 1 + i].id == id;
    }
  }

  lemma SolveOneKeyed<T(!new)>(F: Field<T>, o: Outcome<T>, pid: nat, known: set<nat>, n: nat)
    requires F.one != F.zero && Shaped(o.rows, n) && SymbolsShaped(o.recovered, n)
    requires Keyed(F, o.rows, known + Ids(o.recovered))
    ensures var r := SolveOne(F, o, pid, known, n);
            Keyed(F, r.rows, known + Ids(r.recovered))
  {
    var k := known + Ids(o.recovered);
    KeyedPart(F, o.rows, o.rows - {pid}, k);
    if pid in o.rows && IsSolved(F, o.rows[pid].dense).Some? {
      var rest, sym := o.rows - {pid}, Symbol(IsSolved(F, o.rows[pid].dense).value, o.rows[pid].payload);
      var more := AddKnown(F, Cascade(rest, [sym], []), k + {sym.id}, n);
      FromOne(F, rest, sym, k, n);
      IdsConcat(o.recovered, sym, more.recovered);
      assert known + Ids(o.recovered + [sym] + more.recovered) == k + {sym.id} + Ids(more.recovered);
    }
  }

  lemma ConcatAgrees<T(!new)>(
    before: seq<Symbol<T>>, sym: Symbol<T>, more: seq<Symbol<T>>, n: nat, x: Assignment<T>, p: nat)
    requires SymbolsShaped(before, n) && |sym.data| == n && SymbolsShaped(more, n) && p < n && Agrees(before, x, p)
    requires x(sym.id) == sym.data[p] ==> Agrees(more, x, p)
    ensures SymbolsShaped(before + [sym] + more, n)
    ensures Agrees(before + [sym] + more, x, p) <==> x(sym.id) == sym.data[p]
  {
    assert (before + [sym] + more)[|before|] == sym;
  }

  lemma OneFair<T>(F: Field<T>, o: Outcome<T>, pid: nat, x: Assignment<T>, right: bool)
    requires pid in o.rows && IsSolved(F, o.rows[pid].dense).Some?
    requires var id := IsSolved(F, o.rows[pid].dense).value;
             right <==> Get(F, o.rows[pid].dense, id) == F.one || x(id) == F.zero
    ensures Fair(F, OneTaken(F, o, pid), x) <==> right
  {
    var t := OneTaken(F, o, pid);
    assert |t| == 1 && t[0].id == IsSolved(F, o.rows[pid].dense).value;
  }

  // With true rows and right symbols: what one turn finds is right exactly when it is fair.
  lemma SolveOneFair<T(!new)>(F: Field<T>, o: Outcome<T>, pid: nat, known: set<nat>, n: nat, x: Assignment<T>, p: nat)
    requires IsField(F) && Shaped(o.rows, n) && SymbolsShaped(o.recovered, n) && p < n
    requires Keyed(F, o.rows, known + Ids(o.recovered)) && Solves(F, o.rows, x, p) && Agrees(o.recovered, x, p)
    ensures var r := SolveOne(F, o, pid, known, n);
            && (Agrees(r.recovered, x, p) <==> Fair(F, OneTaken(F, o, pid), x))
            && (Agrees(r.recovered, x, p) ==> Solves(F, r.rows, x, p))
  {
    if pid in o.rows && IsSolved(F, o.rows[pid].dense).Some? {
      var id, k := IsSolved(F, o.rows[pid].dense).value, known + Ids(o.recovered);
      var rest, sym := o.rows - {pid}, Symbol(id, o.rows[pid].payload);
      var more := AddKnown(F, Cascade(rest, [sym], []), k + {id}, n);
      IsSolvedOnly(F, o.rows[pid].dense, id);
      StalePivots.SolvedPayload(F, o.rows[pid], id, x, p);
      KeyedPart(F, o.rows, rest, k);
      if x(id) == sym.data[p] {
        FromOneRight(F, rest, sym, k, n, x, p);
      }
      ConcatAgrees(o.recovered, sym, more.recovered, n, x, p);
      OneFair(F, o, pid, x, x(id) == sym.data[p]);
      assert SolveOne(F, o, pid, known, n) == Outcome(more.rows, o.recovered + [sym] + more.recovered);
    }
  }

  // ---------------------------------------------------------------- the loop

  ghost predicate Extended<T>(s: seq<Symbol<T>>, t: seq<Symbol<T>>) {
    |s| <= |t| && t[..|s|] == s
  }

  lemma AgreesBefore<T(!new)>(s: seq<Symbol<T>>, t: seq<Symbol<T>>, n: nat, x: Assignment<T>, p: nat)
    requires Extended(s, t) && SymbolsShaped(s, n) && SymbolsShaped(t, n) && p < n && Agrees(t, x, p)
    ensures Agrees(s, x, p)
  {
    forall i | 0 <= i < |s| ensures x(s[i].id) == s[i].data[p] {
      assert s[i] == t[..|s|][i] == t[i];
    }
  }

  lemma SolveOneExtends<T(!new)>(F: Field<T>, o: Outcome<T>, pid: nat, known: set<nat>, n: nat)
    requires Shaped(o.rows, n) && SymbolsShaped(o.recovered, n)
    ensures Extended(o.recovered, SolveOne(F, o, pid, known, n).recovered)
  {
  }

  lemma {:induction false} SolvePassExtends<T(!new)>(
    F: Field<T>, o: Outcome<T>, solved: seq<nat>, known: set<nat>, n: nat)
    requires Shaped(o.rows, n) && SymbolsShaped(o.recovered, n)
    ensures Extended(o.recovered, SolvePass(F, o, solved, known, n).recovered)
  {
    if solved != [] {
      var init, pid := solved[..|solved| - 1], solved[|solved| - 1];
      SolvePassExtends(F, o, init, known, n);
      SolveOneExtends(F, SolvePass(F, o, init, known, n), pid, known, n);
    }
  }

  lemma {:induction false} SolveExtends<T(!new)>(F: Field<T>, o: Outcome<T>, known: set<nat>, n: nat)
    requires Shaped(o.rows, n) && SymbolsShaped(o.recovered, n)
    ensures Extended(o.recovered, Solve(F, o, known, n).recovered)
    decreases |o.rows|
  {
    if SolvedList(F, o.rows) != [] {
      SolveTurn(F, o, known, n);
      SolvePassExtends(F, o, SolvedList(F, o.rows), known, n);
      SolveExtends(F, SolvePass(F, o, SolvedList(F, o.rows), known, n), known, n);
    }
  }

  lemma {:induction false} SolvePassKeyed<T(!new)>(
    F: Field<T>, o: Outcome<T>, solved: seq<nat>, known: set<nat>, n: nat)
    requires F.one != F.zero && Shaped(o.rows, n) && SymbolsShaped(o.recovered, n)
    requires Keyed(F, o.rows, known + Ids(o.recovered))
    ensures var r := SolvePass(F, o, solved, known, n);
            Keyed(F, r.rows, known + Ids(r.recovered))
  {
    if solved != [] {
      SolvePassKeyed(F, o, solved[..|solved| - 1], known, n);
      SolveOneKeyed(F, SolvePass(F, o, solved[..|solved| - 1], known, n), solved[|solved| - 1], known, n);
    }
  }

  lemma {:induction false} SolveKeyed<T(!new)>(F: Field<T>, o: Outcome<T>, known: set<nat>, n: nat)
    requires F.one != F.zero && Shaped(o.rows, n) && SymbolsShaped(o.recovered, n)
    requires Keyed(F, o.rows, known + Ids(o.recovered))
    ensures var r := Solve(F, o, known, n);
            Keyed(F, r.rows, known + Ids(r.recovered))
    decreases |o.rows|
  {
    var solved := SolvedList(F, o.rows);
    if solved != [] {
      SolveTurn(F, o, known, n);
      SolvePassKeyed(F, o, solved, known, n);
      SolveKeyed(F, SolvePass(F, o, solved, known, n), known, n);
    }
  }

  lemma {:induction false} SolvePassFair<T(!new)>(
    F: Field<T>, o: Outcome<T>, solved: seq<nat>, known: set<nat>, n: nat, x: Assignment<T>, p: nat)
    requires IsField(F) && Shaped(o.rows, n) && SymbolsShaped(o.recovered, n) && p < n
    requires Keyed(F, o.rows, known + Ids(o.recovered)) && Solves(F, o.rows, x, p) && Agrees(o.recovered, x, p)
    ensures var r := SolvePass(F, o, solved, known, n);
            && (Agrees(r.recovered, x, p) <==> Fair(F, PassTaken(F, o, solved, known, n), x))
            && (Agrees(r.recovered, x, p) ==> Solves(F, r.rows, x, p))
  {
    if solved != [] {
      var init, pid := solved[..|solved| - 1], solved[|solved| - 1];
      var b := SolvePass(F, o, init, known, n);
      SolvePassFair(F, o, init, known, n, x, p);
      SolvePassKeyed(F, o, init, known, n);
      FairConcat(F, PassTaken(F, o, init, known, n), OneTaken(F, b, pid), x);
      NextFair(F, b, SolveOne(F, b, pid, known, n), n, x, p);
      SolveOneExtends(F, b, pid, known, n);
      if Agrees(b.recovered, x, p) {
        SolveOneFair(F, b, pid, known, n, x, p);
      }
    }
  }

  // A wrong symbol stays in the list.
  lemma NextFair<T(!new)>(F: Field<T>, b: Outcome<T>, r: Outcome<T>, n: nat, x: Assignment<T>, p: nat)
    requires p < n && SymbolsShaped(b.recovered, n) && SymbolsShaped(r.recovered, n)
    ensures Extended(b.recovered, r.recovered) && Agrees(r.recovered, x, p) ==> Agrees(b.recovered, x, p)
  {
    if Extended(b.recovered, r.recovered) && Agrees(r.recovered, x, p) {
      AgreesBefore(b.recovered, r.recovered, n, x, p);
    }
  }

  lemma {:induction false} SolveFair<T(!new)>(
    F: Field<T>, o: Outcome<T>, known: set<nat>, n: nat, x: Assignment<T>, p: nat)
    requires IsField(F) && Shaped(o.rows, n) && SymbolsShaped(o.recovered, n) && p < n
    requires Keyed(F, o.rows, known + Ids(o.recovered)) && Solves(F, o.rows, x, p) && Agrees(o.recovered, x, p)
    ensures var r := Solve(F, o, known, n);
            && (Agrees(r.recovered, x, p) <==> Fair(F, SolveTaken(F, o, known, n), x))
            && (Agrees(r.recovered, x, p) ==> Solves(F, r.rows, x, p))
    decreases |o.rows|
  {
    var solved := SolvedList(F, o.rows);
    if solved != [] {
      var next := SolvePass(F, o, solved, known, n);
      SolveTurn(F, o, known, n);
      SolvePassFair(F, o, solved, known, n, x, p);
      SolvePassKeyed(F, o, solved, known, n);
      FairConcat(F, PassTaken(F, o, solved, known, n), SolveTaken(F, next, known, n), x);
      SolveExtends(F, next, known, n);
      NextFair(F, next, Solve(F, next, known, n), n, x, p);
      if Agrees(next.recovered, x, p) {
        SolveFair(F, next, known, n, x, p);
      }
    }
  }

  // ---------------------------------------------------------------- an equation

  lemma InsertKeeps<T(!new)>(F: Field<T>, M: Matrix<T>, maxRows: nat, r: Row<T>, x: Assignment<T>, p: nat)
    requires IsField(F) && Shaped(M, |r.payload|) && PivotId(F, r.dense).Some? && p < |r.payload|
    requires Solves(F, M, x, p) && Residual(F, r, x, p) == F.zero
    ensures Solves(F, InsertRow(F, M, maxRows, r), x, p)
  {
    var q := PivotId(F, r.dense).value;
    forall k | k in M ensures Residual(F, Reduce(F, M[k], q, r), x, p) == F.zero {
      ReduceResidual(F, M[k], q, r, x, p);
    }
  }

  lemma AddRowKeyed<T(!new)>(F: Field<T>, M: Matrix<T>, maxRows: nat, r: Row<T>, known: set<nat>)
    requires IsField(F) && Shaped(M, |r.payload|) && Keyed(F, M, known) && Misses(F, r, known)
    ensures var o := AddRow(F, M, maxRows, r, known);
            Keyed(F, o.rows, known + Ids(o.recovered))
  {
    assert known + Ids<T>([]) == known;
    if NewRow(F, M, r).Some? {
      var t := NewRow(F, M, r).value;
      NewRowKeyed(F, M, r, known);
      InsertKeyed(F, M, maxRows, t, known);
      SolveKeyed(F, Outcome(InsertRow(F, M, maxRows, t), []), known, |r.payload|);
    }
  }

  lemma AddRowFair<T(!new)>(
    F: Field<T>, M: Matrix<T>, maxRows: nat, r: Row<T>, known: set<nat>, x: Assignment<T>, p: nat)
    requires IsField(F) && Shaped(M, |r.payload|) && p < |r.payload| && Keyed(F, M, known) && Misses(F, r, known)
    requires Solves(F, M, x, p) && Residual(F, r, x, p) == F.zero
    ensures var o := AddRow(F, M, maxRows, r, known);
            && (Agrees(o.recovered, x, p) <==> Fair(F, RowTaken(F, M, maxRows, r, known), x))
            && (Agrees(o.recovered, x, p) ==> Solves(F, o.rows, x, p))
  {
    assert known + Ids<T>([]) == known;
    if NewRow(F, M, r).Some? {
      var t := NewRow(F, M, r).value;
      NewRowKeyed(F, M, r, known);
      NewRowSolves(F, M, r, x, p);
      InsertKeyed(F, M, maxRows, t, known);
      InsertKeeps(F, M, maxRows, t, x, p);
      SolveFair(F, Outcome(InsertRow(F, M, maxRows, t), []), known, |r.payload|, x, p);
    }
  }

  // ---------------------------------------------------------------- one packet

  // The symbols that the packet makes the matrix recover.
  ghost function Found<T(!new)>(c: Config<T>, st: State<T>, a: Arrival<T>): seq<Symbol<T>>
    requires Acceptable(c, a) && Sized(c, st)
  {
    match a.packet
    case SourcePacket(id, data) => if |data| == c.symbolSize then SourceOutcome(c, st, id, data).recovered else []
    case CodedPacket(ev, payload) =>
      if |payload| == c.symbolSize then CodedOutcome(c, st, ev, payload).recovered else []
  }

  // Every row taken out had coefficient one, or its symbol is zero at every position.
  ghost predicate FairFor<T>(F: Field<T>, taken: seq<Taken<T>>, X: Sources<T>, n: nat) {
    forall i :: 0 <= i < |taken| ==>
      taken[i].coef == F.one || forall p: nat :: p < n ==> Column(F, X, p)(taken[i].id) == F.zero
  }

  lemma FairEverywhere<T>(F: Field<T>, taken: seq<Taken<T>>, X: Sources<T>, n: nat)
    ensures FairFor(F, taken, X, n) <==> forall p: nat :: p < n ==> Fair(F, taken, Column(F, X, p))
  {
  }

  lemma FairForConcat<T>(F: Field<T>, s: seq<Taken<T>>, t: seq<Taken<T>>, X: Sources<T>, n: nat)
    ensures FairFor(F, s + t, X, n) <==> FairFor(F, s, X, n) && FairFor(F, t, X, n)
  {
    assert forall i :: 0 <= i < |s| ==> (s + t)[i] == s[i];
    assert forall i :: 0 <= i < |t| ==> (s + t)[|s| + i] == t[i];
  }

  lemma RightIsAgrees<T(!new)>(F: Field<T>, s: seq<Symbol<T>>, X: Sources<T>, n: nat)
    requires SymbolsShaped(s, n) && SourcesSized(X, n)
    ensures SymbolsRight(s, X) <==> forall p: nat :: p < n ==> Agrees(s, Column(F, X, p), p)
  {
    if forall p: nat :: p < n ==> Agrees(s, Column(F, X, p), p) {
      AgreesRight(F, s, X, n);
    }
    if SymbolsRight(s, X) {
      forall p: nat | p < n ensures Agrees(s, Column(F, X, p), p) {
        RightAgrees(F, s, X, n, p);
      }
    }
  }

  lemma RightAgrees<T(!new)>(F: Field<T>, s: seq<Symbol<T>>, X: Sources<T>, n: nat, p: nat)
    requires SymbolsShaped(s, n) && SymbolsRight(s, X) && p < n
    ensures Agrees(s, Column(F, X, p), p)
  {
    forall i | 0 <= i < |s| ensures Column(F, X, p)(s[i].id) == s[i].data[p] {
      assert s[i].data == X(s[i].id);
    }
  }

  ghost predicate Holds<T(!new)>(c: Config<T>, X: Sources<T>, st: State<T>) {
    && Sized(c, st) && RowsRight(c.F, st.rows, X, c.symbolSize)
    && KnownRight(st.known, X) && KnownRight(st.buffer.symbols, X)
  }

  lemma {:induction false} AbsorbKnown<T(!new)>(st: State<T>, s: seq<Symbol<T>>)
    ensures Absorb(st, s).known.Keys == st.known.Keys + Ids(s)
  {
    if s != [] {
      AbsorbKnown(st, s[..|s| - 1]);
      IdsLast(s);
    }
  }

  lemma SourceKeyed<T(!new)>(c: Config<T>, st: State<T>, id: nat, data: seq<T>)
    requires IsField(c.F) && Sized(c, st) && |data| == c.symbolSize && Keyed(c.F, st.rows, st.known.Keys)
    ensures var r := AfterSource(c, st, id, data); Keyed(c.F, r.rows, r.known.Keys)
  {
    var o := SourceOutcome(c, st, id, data);
    LearnKeyed(c.F, st.rows, id, data, st.known.Keys);
    AbsorbKnown(State(o.rows, Learned(st.known, id, data), Delivery.Insert(st.buffer, id, data), st.winMin),
                o.recovered);
  }

  lemma CodedKeyed<T(!new)>(c: Config<T>, st: State<T>, ev: EncodingVector<T>, payload: seq<T>)
    requires IsField(c.F) && c.F.order > 1 && WellFormed(ev) && Sized(c, st) && |payload| == c.symbolSize
    requires Keyed(c.F, st.rows, st.known.Keys)
    ensures var r := AfterCoded(c, st, ev, payload); Keyed(c.F, r.rows, r.known.Keys)
  {
    var o, m := CodedOutcome(c, st, ev, payload), CoefMap(c.F, ev, |ev.ids|);
    CodedRowClean(c.F, m, payload, st.known);
    AddRowKeyed(c.F, st.rows, c.maxRows, CodedRow(c.F, m, payload, st.known), st.known.Keys);
    AbsorbKnown(State(o.rows, st.known, st.buffer, WindowMin(st.winMin, ev)), o.recovered);
  }

  // The rows stay keyed whatever arrives, truthful or not.
  lemma {:induction false} RunKeyed<T(!new)>(c: Config<T>, arrivals: seq<Arrival<T>>)
    requires forall i :: 0 <= i < |arrivals| ==> Acceptable(c, arrivals[i])
    ensures var st := Run(c, Start(), arrivals).state; Keyed(c.F, st.rows, st.known.Keys)
  {
    if arrivals != [] {
      var init, a := arrivals[..|arrivals| - 1], arrivals[|arrivals| - 1];
      RunKeyed(c, init);
      StepKeyed(c, Run(c, Start(), init).state, a);
    }
  }

  lemma StepKeyed<T(!new)>(c: Config<T>, st: State<T>, a: Arrival<T>)
    requires Acceptable(c, a) && Sized(c, st) && Keyed(c.F, st.rows, st.known.Keys)
    ensures var r := Step(c, st, a).state; Keyed(c.F, r.rows, r.known.Keys)
  {
    match a.packet
    case SourcePacket(id, data) =>
      if |data| == c.symbolSize {
        SourceKeyed(c, st, id, data);
      }
    case CodedPacket(ev, payload) =>
      if |payload| == c.symbolSize {
        CodedKeyed(c, st, ev, payload);
      }
  }

  // What a state becomes when true rows and right symbols are absorbed.
  lemma AbsorbHolds<T(!new)>(c: Config<T>, X: Sources<T>, s: State<T>, recovered: seq<Symbol<T>>)
    requires Holds(c, X, s) && SymbolsShaped(recovered, c.symbolSize) && SymbolsRight(recovered, X)
    ensures Holds(c, X, Absorb(s, recovered))
  {
    AbsorbRight(s, recovered, X);
    AbsorbSized(c, s, recovered);
  }

  // A source packet finds nothing wrong, late as it may be.
  lemma SourceHolds<T(!new)>(c: Config<T>, X: Sources<T>, st: State<T>, id: nat)
    requires IsField(c.F) && SourcesSized(X, c.symbolSize) && Holds(c, X, st) && Keyed(c.F, st.rows, st.known.Keys)
    ensures SymbolsRight(SourceOutcome(c, st, id, X(id)).recovered, X)
    ensures Holds(c, X, AfterSource(c, st, id, X(id)))
  {
    var o, k := SourceOutcome(c, st, id, X(id)), st.known.Keys;
    forall p: nat | p < c.symbolSize
      ensures Solves(c.F, o.rows, Column(c.F, X, p), p) && Agrees(o.recovered, Column(c.F, X, p), p)
    {
      FromOneRight(c.F, st.rows, Symbol(id, X(id)), k, c.symbolSize, Column(c.F, X, p), p);
    }
    RightIsAgrees(c.F, o.recovered, X, c.symbolSize);
    LearnedRight(c, X, st, id);
    AbsorbHolds(c, X, State(o.rows, Learned(st.known, id, X(id)), Delivery.Insert(st.buffer, id, X(id)), st.winMin),
                o.recovered);
  }

  lemma CodedFair<T(!new)>(c: Config<T>, X: Sources<T>, st: State<T>, a: Arrival<T>)
    requires Acceptable(c, a) && a.packet.CodedPacket? && |a.packet.payload| == c.symbolSize
    requires SourcesSized(X, c.symbolSize) && Holds(c, X, st) && Keyed(c.F, st.rows, st.known.Keys) && Truthful(c, X, a)
    ensures SymbolsRight(Found(c, st, a), X) <==> FairFor(c.F, StepTaken(c, st, a), X, c.symbolSize)
    ensures SymbolsRight(Found(c, st, a), X) ==> Holds(c, X, AfterCoded(c, st, a.packet.ev, a.packet.payload))
  {
    var ev, payload := a.packet.ev, a.packet.payload;
    var o, m := CodedOutcome(c, st, ev, payload), CoefMap(c.F, ev, |ev.ids|);
    CodedRowClean(c.F, m, payload, st.known);
    forall p: nat | p < c.symbolSize
      ensures Agrees(o.recovered, Column(c.F, X, p), p) <==> Fair(c.F, StepTaken(c, st, a), Column(c.F, X, p))
      ensures Agrees(o.recovered, Column(c.F, X, p), p) ==> Solves(c.F, o.rows, Column(c.F, X, p), p)
    {
      CodedRowResidual(c.F, m, payload, st.known, Column(c.F, X, p), p);
      AddRowFair(c.F, st.rows, c.maxRows, CodedRow(c.F, m, payload, st.known), st.known.Keys, Column(c.F, X, p), p);
    }
    FairEverywhere(c.F, StepTaken(c, st, a), X, c.symbolSize);
    RightIsAgrees(c.F, o.recovered, X, c.symbolSize);
    if SymbolsRight(o.recovered, X) {
      AbsorbHolds(c, X, State(o.rows, st.known, st.buffer, WindowMin(st.winMin, ev)), o.recovered);
    }
  }

  lemma FinishHolds<T(!new)>(c: Config<T>, X: Sources<T>, st: State<T>, report: bool)
    requires Holds(c, X, st)
    ensures Holds(c, X, Finish(st, report).state) && EventsRight(Finish(st, report).events, X)
  {
    var d := Delivery.Drain(st.buffer);
    assert EventsRight(Ready(d.out), X);
  }

  lemma StepFair<T(!new)>(c: Config<T>, X: Sources<T>, st: State<T>, a: Arrival<T>)
    requires Acceptable(c, a) && SourcesSized(X, c.symbolSize) && Truthful(c, X, a)
    requires Holds(c, X, st) && Keyed(c.F, st.rows, st.known.Keys)
    ensures SymbolsRight(Found(c, st, a), X) <==> FairFor(c.F, StepTaken(c, st, a), X, c.symbolSize)
    ensures SymbolsRight(Found(c, st, a), X) ==>
      Holds(c, X, Step(c, st, a).state) && EventsRight(Step(c, st, a).events, X)
  {
    match a.packet
    case SourcePacket(id, data) =>
      if |data| == c.symbolSize {
        SourceHolds(c, X, st, id);
        FinishHolds(c, X, AfterSource(c, st, id, data), a.report);
      }
    case CodedPacket(ev, payload) =>
      if |payload| == c.symbolSize {
        CodedFair(c, X, st, a);
        if SymbolsRight(Found(c, st, a), X) {
          FinishHolds(c, X, AfterCoded(c, st, ev, payload), a.report);
        }
      }
  }

  // ---------------------------------------------------------------- runs

  // Every symbol the matrix recovers over the run is the one that was sent.
  ghost predicate AllRight<T(!new)>(c: Config<T>, X: Sources<T>, arrivals: seq<Arrival<T>>)
    requires forall i :: 0 <= i < |arrivals| ==> Acceptable(c, arrivals[i])
  {
    arrivals == [] ||
    var init, a := arrivals[..|arrivals| - 1], arrivals[|arrivals| - 1];
    AllRight(c, X, init) && SymbolsRight(Found(c, Run(c, Start(), init).state, a), X)
  }

  // In any order of arrival: every recovery is right exactly when every row taken out had
  // coefficient one, or a symbol that is zero throughout; and then every symbol delivered is right.
  lemma {:induction false} RecoveryRightIff<T(!new)>(c: Config<T>, X: Sources<T>, arrivals: seq<Arrival<T>>)
    requires SourcesSized(X, c.symbolSize)
    requires forall i :: 0 <= i < |arrivals| ==> Acceptable(c, arrivals[i]) && Truthful(c, X, arrivals[i])
    ensures AllRight(c, X, arrivals) <==> FairFor(c.F, RunTaken(c, arrivals), X, c.symbolSize)
    ensures AllRight(c, X, arrivals) ==>
      Holds(c, X, Run(c, Start(), arrivals).state) && EventsRight(Run(c, Start(), arrivals).events, X)
  {
    if arrivals != [] {
      var init, a := arrivals[..|arrivals| - 1], arrivals[|arrivals| - 1];
      RecoveryRightIff(c, X, init);
      var st := Run(c, Start(), init).state;
      FairForConcat(c.F, RunTaken(c, init), StepTaken(c, st, a), X, c.symbolSize);
      if AllRight(c, X, init) {
        RunKeyed(c, init);
        StepFair(c, X, st, a);
      }
    }
  }

  // Only a row whose key has become known can be taken out with another coefficient.
  lemma TakenUnlessStale<T(!new)>(F: Field<T>, o: Outcome<T>, pid: nat, known: set<nat>)
    requires F.one != F.zero && Keyed(F, o.rows, known) && pid !in known && OneTaken(F, o, pid) != []
    ensures OneTaken(F, o, pid) == [Taken(pid, F.one)]
  {
    IsSolvedOnly(F, o.rows[pid].dense, IsSolved(F, o.rows[pid].dense).value);
    OnlyIsKey(F, o.rows, known, pid, IsSolved(F, o.rows[pid].dense).value);
  }
}
