// What the decoder holds at the end shows every recovery: no id is recovered twice, nor when it is
// known, so that no value is passed over.

module KnownValues {
  import opened Fields
  import opened Keys
  import opened Rows
  import opened Elimination
  import opened Echelon
  import opened Recovery
  import opened Incremental
  import opened Equations
  import Delivery
  import opened Decoding
  import opened Exactness
  import opened KeyedForm
  import opened Disorder

  // No symbol of the list is known, nor listed before.
  ghost predicate New<T>(s: seq<Symbol<T>>, known: set<nat>) {
    forall i :: 0 <= i < |s| ==> s[i].id !in known && s[i].id !in Ids(s[..i])
  }

  lemma NewAppend<T>(s: seq<Symbol<T>>, sym: Symbol<T>, known: set<nat>)
    requires New(s, known) && sym.id !in known && sym.id !in Ids(s)
    ensures New(s + [sym], known)
  {
    var t := s + [sym];
    forall i | 0 <= i < |t| ensures t[i].id !in known && t[i].id !in Ids(t[..i]) {
      assert t[..i] == s[..i];
      assert s[..|s|] == s;
    }
  }

  lemma NewInit<T>(s: seq<Symbol<T>>, known: set<nat>)
    requires s != [] && New(s, known)
    ensures var init, last := s[..|s| - 1], s[|s| - 1];
            New(init, known) && last.id !in known && last.id !in Ids(init)
  {
    var init := s[..|s| - 1];
    assert forall i :: 0 <= i < |init| ==> init[i] == s[i] && init[..i] == s[..i];
  }

  lemma {:induction false} NewConcat<T>(s: seq<Symbol<T>>, t: seq<Symbol<T>>, known: set<nat>)
    requires New(s, known) && New(t, known + Ids(s))
    ensures New(s + t, known) && Ids(s + t) == Ids(s) + Ids(t)
  {
    if t == [] {
      assert s + t == s;
    } else {
      var init, last := t[..|t| - 1], t[|t| - 1];
      NewInit(t, known + Ids(s));
      NewConcat(s, init, known);
      assert s + t == s + init + [last] && t == init + [last];
      NewAppend(s + init, last, known);
      IdsAppend(s + init, last);
      IdsAppend(init, last);
    }
  }

  // ---------------------------------------------------------------- the cascade

  // A row taken out under its key cannot be taken out again.
  ghost predicate TakenOnce<T>(c: Cascade<T>, base: set<nat>) {
    New(c.recovered, base) && Ids(c.recovered) !! c.rows.Keys
  }

  lemma {:induction false} ExtractNew<T(!new)>(c: Cascade<T>, solved: seq<nat>, known: set<nat>, base: set<nat>)
    requires base <= known && TakenOnce(c, base) && forall j :: j in solved && j in c.rows ==> j !in known
    ensures TakenOnce(Extract(c, solved, known), base)
  {
    if solved != [] {
      var init, id := solved[..|solved| - 1], solved[|solved| - 1];
      ExtractNew(c, init, known, base);
      ExtractRows(c, init, known);
      var b := Extract(c, init, known);
      if id in b.rows {
        var sym := Symbol(id, b.rows[id].payload);
        NewAppend(b.recovered, sym, base);
        IdsAppend(b.recovered, sym);
      }
    }
  }

  lemma TurnNew<T(!new)>(F: Field<T>, c: Cascade<T>, known: set<nat>, n: nat, base: set<nat>)
    requires F.one != F.zero && CascadeShaped(c, n) && c.queue != [] && Keyed(F, c.rows, known)
    requires base <= known + {c.queue[0].id} && TakenOnce(c, base)
    ensures TakenOnce(Turn(F, c, known, n), base)
  {
    var id, s := c.queue[0].id, Substituted(F, c, n);
    KeyedSubstitute(F, c.rows, id, c.queue[0].data, known);
    SortedIn(c.rows.Keys);
    SolvedAreUnits(F, c.rows, s.rows, Sorted(c.rows.Keys), id, known + {id});
    ExtractNew(s, SolvedBy(F, c.rows, id, c.queue[0].data), known + {id}, base);
  }

  lemma {:induction false} CascadeNew<T(!new)>(F: Field<T>, c: Cascade<T>, known: set<nat>, n: nat, base: set<nat>)
    requires F.one != F.zero && CascadeShaped(c, n) && Keyed(F, c.rows, known) && Pending(c, known)
    requires base <= known && TakenOnce(c, base)
    ensures New(AddKnown(F, c, known, n).recovered, base)
    decreases |c.rows| + |c.queue|
  {
    if c.queue != [] {
      TurnKeyed(F, c, known, n);
      TurnNew(F, c, known, n, base);
      CascadeNew(F, Turn(F, c, known, n), known + {c.queue[0].id}, n, base);
    }
  }

  lemma FromOneNew<T(!new)>(F: Field<T>, M: Matrix<T>, sym: Symbol<T>, known: set<nat>, n: nat)
    requires F.one != F.zero && Shaped(M, n) && |sym.data| == n && Keyed(F, M, known)
    ensures New(AddKnown(F, Cascade(M, [sym], []), known + {sym.id}, n).recovered, known + {sym.id})
  {
    var c, k := Cascade(M, [sym], []), known + {sym.id};
    TurnKeyed(F, c, known, n);
    TurnNew(F, c, known, n, k);
    assert k + {sym.id} == k;
    assert Turn(F, c, known, n) == Turn(F, c, k, n);
    CascadeNew(F, Turn(F, c, known, n), k, n, k);
  }

  // ---------------------------------------------------------------- the loop over solved rows

  lemma NewTail<T>(before: seq<Symbol<T>>, sym: Symbol<T>, more: seq<Symbol<T>>, known: set<nat>)
    requires New(before, known) && sym.id !in known + Ids(before) && New(more, known + Ids(before) + {sym.id})
    ensures New(before + [sym] + more, known)
  {
    NewAppend(before, sym, known);
    IdsAppend(before, sym);
    assert known + Ids(before + [sym]) == known + Ids(before) + {sym.id};
    NewConcat(before + [sym], more, known);
  }

  lemma SolveOneIs<T(!new)>(F: Field<T>, o: Outcome<T>, pid: nat, known: set<nat>, n: nat, sym: Symbol<T>)
    requires Shaped(o.rows, n) && SymbolsShaped(o.recovered, n)
    requires pid in o.rows && IsSolved(F, o.rows[pid].dense) == Some(sym.id) && sym.data == o.rows[pid].payload
    ensures SolveOne(F, o, pid, known, n).recovered
         == o.recovered + [sym]
            + AddKnown(F, Cascade(o.rows - {pid}, [sym], []), known + Ids(o.recovered) + {sym.id}, n).recovered
  {
  }

  lemma SolvedIsNew<T(!new)>(F: Field<T>, M: Matrix<T>, pid: nat, k: set<nat>, n: nat, sym: Symbol<T>)
    requires F.one != F.zero && Shaped(M, n) && Keyed(F, M, k)
    requires pid in M && IsSolved(F, M[pid].dense) == Some(sym.id) && sym.data == M[pid].payload
    ensures Shaped(M - {pid}, n) && sym.id !in k
    ensures New(AddKnown(F, Cascade(M - {pid}, [sym], []), k + {sym.id}, n).recovered, k + {sym.id})
  {
    IsSolvedOnly(F, M[pid].dense, sym.id);
    OnlyIsKey(F, M, k, pid, sym.id);
    KeyedPart(F, M, M - {pid}, k);
    FromOneNew(F, M - {pid}, sym, k, n);
  }

  lemma SolveOneNew<T(!new)>(F: Field<T>, o: Outcome<T>, pid: nat, known: set<nat>, n: nat)
    requires F.one != F.zero && Shaped(o.rows, n) && SymbolsShaped(o.recovered, n)
    requires Keyed(F, o.rows, known + Ids(o.recovered)) && New(o.recovered, known)
    ensures New(SolveOne(F, o, pid, known, n).recovered, known)
  {
    if pid in o.rows && IsSolved(F, o.rows[pid].dense).Some? {
      var k := known + Ids(o.recovered);
      var sym := Symbol(IsSolved(F, o.rows[pid].dense).value, o.rows[pid].payload);
      SolvedIsNew(F, o.rows, pid, k, n, sym);
      NewTail(o.recovered, sym, AddKnown(F, Cascade(o.rows - {pid}, [sym], []), k + {sym.id}, n).recovered, known);
      SolveOneIs(F, o, pid, known, n, sym);
    }
  }

  lemma {:induction false} SolvePassNew<T(!new)>(
    F: Field<T>, o: Outcome<T>, solved: seq<nat>, known: set<nat>, n: nat)
    requires F.one != F.zero && Shaped(o.rows, n) && SymbolsShaped(o.recovered, n)
    requires Keyed(F, o.rows, known + Ids(o.recovered)) && New(o.recovered, known)
    ensures New(SolvePass(F, o, solved, known, n).recovered, known)
  {
    if solved != [] {
      SolvePassNew(F, o, solved[..|solved| - 1], known, n);
      SolvePassKeyed(F, o, solved[..|solved| - 1], known, n);
      SolveOneNew(F, SolvePass(F, o, solved[..|solved| - 1], known, n), solved[|solved| - 1], known, n);
    }
  }

  lemma {:induction false} SolveNew<T(!new)>(F: Field<T>, o: Outcome<T>, known: set<nat>, n: nat)
    requires F.one != F.zero && Shaped(o.rows, n) && SymbolsShaped(o.recovered, n)
    requires Keyed(F, o.rows, known + Ids(o.recovered)) && New(o.recovered, known)
    ensures New(Solve(F, o, known, n).recovered, known)
    decreases |o.rows|
  {
    var solved := SolvedList(F, o.rows);
    if solved != [] {
      SolveTurn(F, o, known, n);
      SolvePassKeyed(F, o, solved, known, n);
      SolvePassNew(F, o, solved, known, n);
      SolveNew(F, SolvePass(F, o, solved, known, n), known, n);
    }
  }

  lemma AddRowNew<T(!new)>(F: Field<T>, M: Matrix<T>, maxRows: nat, r: Row<T>, known: set<nat>)
    requires IsField(F) && Shaped(M, |r.payload|) && Keyed(F, M, known) && Misses(F, r, known)
    ensures New(AddRow(F, M, maxRows, r, known).recovered, known)
  {
    assert known + Ids<T>([]) == known;
    if NewRow(F, M, r).Some? {
      var t := NewRow(F, M, r).value;
      NewRowKeyed(F, M, r, known);
      InsertKeyed(F, M, maxRows, t, known);
      SolveNew(F, Outcome(InsertRow(F, M, maxRows, t), []), known, |r.payload|);
    }
  }

  // ---------------------------------------------------------------- what is known afterwards

  // Every symbol of the list is known with its value.
  ghost predicate Entered<T>(s: seq<Symbol<T>>, known: map<nat, seq<T>>) {
    forall i :: 0 <= i < |s| ==> s[i].id in known && known[s[i].id] == s[i].data
  }

  lemma LearnedEnters<T>(before: map<nat, seq<T>>, init: seq<Symbol<T>>, last: Symbol<T>)
    requires Entered(init, before) && last.id !in before
    ensures var k := Learned(before, last.id, last.data); KnownStays(before, k) && Entered(init + [last], k)
  {
  }

  lemma AbsorbLast<T>(st: State<T>, s: seq<Symbol<T>>)
    requires s != []
    ensures var last := s[|s| - 1];
            Absorb(st, s).known == Learned(Absorb(st, s[..|s| - 1]).known, last.id, last.data)
  {
  }

  lemma {:induction false} AbsorbEnters<T(!new)>(st: State<T>, s: seq<Symbol<T>>, known: map<nat, seq<T>>)
    requires New(s, known.Keys) && st.known == known
    ensures var k := Absorb(st, s).known; KnownStays(known, k) && Entered(s, k)
  {
    if s != [] {
      var init, last := s[..|s| - 1], s[|s| - 1];
      NewInit(s, known.Keys);
      AbsorbEnters(st, init, known);
      AbsorbKnown(st, init);
      AbsorbLast(st, s);
      LearnedEnters(Absorb(st, init).known, init, last);
      assert init + [last] == s;
    }
  }

  lemma StepEnters<T(!new)>(c: Config<T>, st: State<T>, a: Arrival<T>)
    requires Acceptable(c, a) && Sized(c, st) && Keyed(c.F, st.rows, st.known.Keys)
    ensures var k := Step(c, st, a).state.known; KnownStays(st.known, k) && Entered(Found(c, st, a), k)
  {
    match a.packet
    case SourcePacket(id, data) =>
      if |data| == c.symbolSize {
        SourceEnters(c, st, id, data);
      }
    case CodedPacket(ev, payload) =>
      if |payload| == c.symbolSize {
        CodedEnters(c, st, ev, payload);
      }
  }

  lemma SourceEnters<T(!new)>(c: Config<T>, st: State<T>, id: nat, data: seq<T>)
    requires IsField(c.F) && Sized(c, st) && |data| == c.symbolSize && Keyed(c.F, st.rows, st.known.Keys)
    ensures var k := AfterSource(c, st, id, data).known;
            KnownStays(st.known, k) && Entered(SourceOutcome(c, st, id, data).recovered, k)
  {
    var o := SourceOutcome(c, st, id, data);
    FromOneNew(c.F, st.rows, Symbol(id, data), st.known.Keys, c.symbolSize);
    AbsorbEnters(State(o.rows, Learned(st.known, id, data), Delivery.Insert(st.buffer, id, data), st.winMin),
                 o.recovered, Learned(st.known, id, data));
  }

  lemma CodedEnters<T(!new)>(c: Config<T>, st: State<T>, ev: EncodingVector<T>, payload: seq<T>)
    requires IsField(c.F) && c.F.order > 1 && WellFormed(ev) && Sized(c, st) && |payload| == c.symbolSize
    requires Keyed(c.F, st.rows, st.known.Keys)
    ensures var k := AfterCoded(c, st, ev, payload).known;
            KnownStays(st.known, k) && Entered(CodedOutcome(c, st, ev, payload).recovered, k)
  {
    var o, m := CodedOutcome(c, st, ev, payload), CoefMap(c.F, ev, |ev.ids|);
    CodedRowClean(c.F, m, payload, st.known);
    AddRowNew(c.F, st.rows, c.maxRows, CodedRow(c.F, m, payload, st.known), st.known.Keys);
    AbsorbEnters(State(o.rows, st.known, st.buffer, WindowMin(st.winMin, ev)), o.recovered, st.known);
  }

  // In any order of arrival: the decoder holds no wrong symbol at the end exactly when every row taken
  // out had coefficient one, or a symbol that is zero throughout.
  lemma {:induction false} KnownRightIff<T(!new)>(c: Config<T>, X: Sources<T>, arrivals: seq<Arrival<T>>)
    requires SourcesSized(X, c.symbolSize)
    requires forall i :: 0 <= i < |arrivals| ==> Acceptable(c, arrivals[i]) && Truthful(c, X, arrivals[i])
    ensures KnownRight(Run(c, Start(), arrivals).state.known, X)
       <==> FairFor(c.F, RunTaken(c, arrivals), X, c.symbolSize)
  {
    RecoveryRightIff(c, X, arrivals);
    if KnownRight(Run(c, Start(), arrivals).state.known, X) {
      KnownAllRight(c, X, arrivals);
    }
  }

  lemma {:induction false} KnownAllRight<T(!new)>(c: Config<T>, X: Sources<T>, arrivals: seq<Arrival<T>>)
    requires forall i :: 0 <= i < |arrivals| ==> Acceptable(c, arrivals[i])
    requires KnownRight(Run(c, Start(), arrivals).state.known, X)
    ensures AllRight(c, X, arrivals)
  {
    if arrivals != [] {
      var init, a := arrivals[..|arrivals| - 1], arrivals[|arrivals| - 1];
      RunKeyed(c, init);
      StepEnters(c, Run(c, Start(), init).state, a);
      KnownAllRight(c, X, init);
    }
  }
}
