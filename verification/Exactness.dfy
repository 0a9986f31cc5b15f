// Runs of the decoder against what was sent: nothing wrong is delivered, and a symbol is
// recovered as soon as what has arrived determines it.

module Exactness {
  import opened Fields
  import opened Rows
  import opened Elimination
  import opened Echelon
  import opened Incremental
  import opened Optimal
  import opened Equations
  import opened Delivery
  import opened Decoding

  // What was sent: the data of every source id.
  type Sources<!T> = nat -> seq<T>

  ghost predicate SourcesSized<T>(X: Sources<T>, n: nat) {
    forall id: nat :: |X(id)| == n
  }

  ghost function Column<T>(F: Field<T>, X: Sources<T>, p: nat): Assignment<T> {
    (id: nat) => if p < |X(id)| then X(id)[p] else F.zero
  }

  ghost predicate EquationHolds<T>(F: Field<T>, ev: EncodingVector<T>, payload: seq<T>, x: Assignment<T>, p: nat)
    requires F.order > 1 && WellFormed(ev) && p < |payload|
  {
    Residual(F, Row(FromMap(F, CoefMap(F, ev, |ev.ids|)), payload), x, p) == F.zero
  }

  ghost predicate Truthful<T(!new)>(c: Config<T>, X: Sources<T>, a: Arrival<T>)
    requires Acceptable(c, a)
  {
    match a.packet
    case SourcePacket(id, data) => |data| == c.symbolSize ==> data == X(id)
    case CodedPacket(ev, payload) => |payload| == c.symbolSize ==>
      forall p: nat :: p < c.symbolSize ==> EquationHolds(c.F, ev, payload, Column(c.F, X, p), p)
  }

  // A source packet does not find its id as the key of a row.
  ghost predicate Timely<T>(c: Config<T>, st: State<T>, a: Arrival<T>) {
    a.packet.SourcePacket? && |a.packet.data| == c.symbolSize ==> a.packet.id !in st.rows
  }

  // A coded packet finds room: no row is evicted for it.
  ghost predicate Roomy<T>(c: Config<T>, st: State<T>, a: Arrival<T>) {
    a.packet.CodedPacket? ==> |st.rows| < c.maxRows
  }

  // ---------------------------------------------------------------- the invariant

  ghost predicate KnownRight<T>(known: map<nat, seq<T>>, X: Sources<T>) {
    forall id :: id in known ==> known[id] == X(id)
  }

  ghost predicate RowsRight<T>(F: Field<T>, M: Matrix<T>, X: Sources<T>, n: nat)
    requires Shaped(M, n)
  {
    forall p: nat :: p < n ==> Solves(F, M, Column(F, X, p), p)
  }

  ghost predicate SymbolsRight<T>(s: seq<Symbol<T>>, X: Sources<T>) {
    forall i :: 0 <= i < |s| ==> s[i].data == X(s[i].id)
  }

  ghost predicate EventsRight<T>(events: seq<Event<T>>, X: Sources<T>) {
    forall i :: 0 <= i < |events| && events[i].SourceReady? ==> events[i].sym.data == X(events[i].sym.id)
  }

  ghost predicate Inv<T(!new)>(c: Config<T>, X: Sources<T>, st: State<T>) {
    && Sized(c, st)
    && Settled(c.F, st.rows, st.known.Keys)
    && RowsRight(c.F, st.rows, X, c.symbolSize)
    && KnownRight(st.known, X)
    && KnownRight(st.buffer.symbols, X)
  }

  lemma AgreesRight<T(!new)>(F: Field<T>, s: seq<Symbol<T>>, X: Sources<T>, n: nat)
    requires SourcesSized(X, n) && SymbolsShaped(s, n)
    requires forall p: nat :: p < n ==> Agrees(s, Column(F, X, p), p)
    ensures SymbolsRight(s, X)
  {
    forall i | 0 <= i < |s| ensures s[i].data == X(s[i].id) {
      forall p: nat | p < n ensures s[i].data[p] == X(s[i].id)[p] {
        assert Agrees(s, Column(F, X, p), p);
      }
    }
  }

  lemma {:induction false} AbsorbRight<T(!new)>(st: State<T>, s: seq<Symbol<T>>, X: Sources<T>)
    requires KnownRight(st.known, X) && KnownRight(st.buffer.symbols, X) && SymbolsRight(s, X)
    ensures var r := Absorb(st, s);
            KnownRight(r.known, X) && KnownRight(r.buffer.symbols, X) && r.known.Keys == st.known.Keys + Ids(s)
  {
    if s != [] {
      var init, last := s[..|s| - 1], s[|s| - 1];
      AbsorbRight(st, init, X);
      IdsLast(s);
    }
  }

  lemma IdsLast<T>(s: seq<Symbol<T>>)
    requires s != []
    ensures Ids(s) == Ids(s[..|s| - 1]) + {s[|s| - 1].id}
  {
    forall id ensures id in Ids(s) <==> id in Ids(s[..|s| - 1]) + {s[|s| - 1].id} {
      if id in Ids(s) {
        var i :| 0 <= i < |s| && s[i].id == id;
        if i < |s| - 1 {
          assert s[..|s| - 1][i].id == id;
        }
      }
      if id in Ids(s[..|s| - 1]) {
        var i :| 0 <= i < |s| - 1 && s[..|s| - 1][i].id == id;
        assert s[i].id == id;
      }
    }
  }

  lemma FinishRight<T(!new)>(c: Config<T>, X: Sources<T>, st: State<T>, report: bool)
    requires Inv(c, X, st)
    ensures Inv(c, X, Finish(st, report).state) && EventsRight(Finish(st, report).events, X)
    ensures Finish(st, report).state.known == st.known && Finish(st, report).state.rows == st.rows
  {
    var d := Drain(st.buffer);
    assert EventsRight(Ready(d.out), X);
  }

  // ---------------------------------------------------------------- one packet

  ghost function SourceOutcome<T>(c: Config<T>, st: State<T>, id: nat, data: seq<T>): (o: Outcome<T>)
    requires Sized(c, st) && |data| == c.symbolSize
    ensures Shaped(o.rows, c.symbolSize) && SymbolsShaped(o.recovered, c.symbolSize)
  {
    Learn(c.F, st.rows, id, data, st.known.Keys + {id})
  }

  lemma SourceOutcomeRight<T(!new)>(c: Config<T>, X: Sources<T>, st: State<T>, id: nat)
    requires IsField(c.F) && SourcesSized(X, c.symbolSize) && Inv(c, X, st) && id !in st.rows
    ensures var o := SourceOutcome(c, st, id, X(id));
            && Settled(c.F, o.rows, st.known.Keys + {id} + Ids(o.recovered))
            && RowsRight(c.F, o.rows, X, c.symbolSize)
            && SymbolsRight(o.recovered, X)
  {
    var o := SourceOutcome(c, st, id, X(id));
    AddKnownSettled(c.F, st.rows, id, X(id), st.known.Keys);
    forall p: nat | p < c.symbolSize
      ensures Solves(c.F, o.rows, Column(c.F, X, p), p) && Agrees(o.recovered, Column(c.F, X, p), p)
    {
      AddKnownSolves(c.F, st.rows, id, X(id), st.known.Keys, Column(c.F, X, p), p);
    }
    AgreesRight(c.F, o.recovered, X, c.symbolSize);
  }

  lemma SourceKeeps<T(!new)>(c: Config<T>, X: Sources<T>, st: State<T>, id: nat)
    requires IsField(c.F) && SourcesSized(X, c.symbolSize) && Inv(c, X, st) && id !in st.rows
    ensures var r := AfterSource(c, st, id, X(id));
            && Inv(c, X, r)
            && r.known.Keys == st.known.Keys + {id} + Ids(SourceOutcome(c, st, id, X(id)).recovered)
  {
    var o := SourceOutcome(c, st, id, X(id));
    SourceOutcomeRight(c, X, st, id);
    var s := State(o.rows, Learned(st.known, id, X(id)), Insert(st.buffer, id, X(id)), st.winMin);
    LearnedRight(c, X, st, id);
    AbsorbKeeps(c, X, s, o.recovered);
  }

  lemma LearnedRight<T(!new)>(c: Config<T>, X: Sources<T>, st: State<T>, id: nat)
    requires SourcesSized(X, c.symbolSize) && KnownShaped(st.known, c.symbolSize)
    requires KnownRight(st.known, X) && KnownRight(st.buffer.symbols, X)
    ensures KnownRight(Learned(st.known, id, X(id)), X) && KnownShaped(Learned(st.known, id, X(id)), c.symbolSize)
    ensures KnownRight(Insert(st.buffer, id, X(id)).symbols, X)
  {
  }

  lemma AbsorbKeeps<T(!new)>(c: Config<T>, X: Sources<T>, s: State<T>, recovered: seq<Symbol<T>>)
    requires Sized(c, s) && SymbolsShaped(recovered, c.symbolSize) && SymbolsRight(recovered, X)
    requires Settled(c.F, s.rows, s.known.Keys + Ids(recovered)) && RowsRight(c.F, s.rows, X, c.symbolSize)
    requires KnownRight(s.known, X) && KnownRight(s.buffer.symbols, X)
    ensures Inv(c, X, Absorb(s, recovered))
    ensures Absorb(s, recovered).known.Keys == s.known.Keys + Ids(recovered)
  {
    AbsorbRight(s, recovered, X);
    AbsorbSized(c, s, recovered);
  }

  lemma CodedKeeps<T(!new)>(c: Config<T>, X: Sources<T>, st: State<T>, ev: EncodingVector<T>, payload: seq<T>)
    requires IsField(c.F) && c.F.order > 1 && WellFormed(ev) && |payload| == c.symbolSize
    requires SourcesSized(X, c.symbolSize) && Inv(c, X, st)
    requires forall p: nat :: p < c.symbolSize ==> EquationHolds(c.F, ev, payload, Column(c.F, X, p), p)
    ensures var r := AfterCoded(c, st, ev, payload);
            Inv(c, X, r) && r.known.Keys == st.known.Keys + Ids(CodedOutcome(c, st, ev, payload).recovered)
  {
    var coefs := CoefMap(c.F, ev, |ev.ids|);
    var row := CodedRow(c.F, coefs, payload, st.known);
    var o := CodedOutcome(c, st, ev, payload);
    CodedRowClean(c.F, coefs, payload, st.known);
    AddRowSettled(c.F, st.rows, c.maxRows, row, st.known.Keys);
    forall p: nat | p < c.symbolSize
      ensures Solves(c.F, o.rows, Column(c.F, X, p), p) && Agrees(o.recovered, Column(c.F, X, p), p)
    {
      CodedRowResidual(c.F, coefs, payload, st.known, Column(c.F, X, p), p);
      AddRowSound(c.F, st.rows, c.maxRows, row, st.known.Keys, Column(c.F, X, p), p);
    }
    AgreesRight(c.F, o.recovered, X, c.symbolSize);
    AbsorbKeeps(c, X, State(o.rows, st.known, st.buffer, WindowMin(st.winMin, ev)), o.recovered);
  }

  ghost function CodedOutcome<T(!new)>(
    c: Config<T>, st: State<T>, ev: EncodingVector<T>, payload: seq<T>): (o: Outcome<T>)
    requires IsField(c.F) && c.F.order > 1 && WellFormed(ev)
    requires Sized(c, st) && |payload| == c.symbolSize
    ensures Shaped(o.rows, c.symbolSize) && SymbolsShaped(o.recovered, c.symbolSize)
  {
    AddRow(c.F, st.rows, c.maxRows, CodedRow(c.F, CoefMap(c.F, ev, |ev.ids|), payload, st.known), st.known.Keys)
  }

  lemma StepRight<T(!new)>(c: Config<T>, X: Sources<T>, st: State<T>, a: Arrival<T>)
    requires Acceptable(c, a) && SourcesSized(X, c.symbolSize) && Inv(c, X, st)
    requires Truthful(c, X, a) && Timely(c, st, a)
    ensures Inv(c, X, Step(c, st, a).state) && EventsRight(Step(c, st, a).events, X)
  {
    match a.packet
    case SourcePacket(id, data) =>
      if |data| == c.symbolSize {
        SourceKeeps(c, X, st, id);
        FinishRight(c, X, AfterSource(c, st, id, data), a.report);
      }
    case CodedPacket(ev, payload) =>
      if |payload| == c.symbolSize {
        CodedKeeps(c, X, st, ev, payload);
        FinishRight(c, X, AfterCoded(c, st, ev, payload), a.report);
      }
  }

  // ---------------------------------------------------------------- runs

  // Every packet is truthful and finds its id unkeyed; with `lossless`, no row is ever evicted.
  ghost predicate GoodRun<T(!new)>(c: Config<T>, X: Sources<T>, arrivals: seq<Arrival<T>>, lossless: bool)
    requires forall i :: 0 <= i < |arrivals| ==> Acceptable(c, arrivals[i])
  {
    arrivals == [] ||
    var init, a := arrivals[..|arrivals| - 1], arrivals[|arrivals| - 1];
    && GoodRun(c, X, init, lossless)
    && var st := Run(c, Start(), init).state;
       Truthful(c, X, a) && Timely(c, st, a) && (lossless ==> Roomy(c, st, a))
  }

  // Every symbol a good run delivers carries the data that was sent under its id.
  lemma {:induction false} RunRight<T(!new)>(c: Config<T>, X: Sources<T>, arrivals: seq<Arrival<T>>, lossless: bool)
    requires SourcesSized(X, c.symbolSize)
    requires forall i :: 0 <= i < |arrivals| ==> Acceptable(c, arrivals[i])
    requires GoodRun(c, X, arrivals, lossless)
    ensures var r := Run(c, Start(), arrivals);
            Inv(c, X, r.state) && EventsRight(r.events, X)
  {
    if arrivals != [] {
      var init, a := arrivals[..|arrivals| - 1], arrivals[|arrivals| - 1];
      RunRight(c, X, init, lossless);
      StepRight(c, X, Run(c, Start(), init).state, a);
    }
  }

  // ---------------------------------------------------------------- what has arrived

  // The equations and the ids received directly; refused packets do not count.
  datatype Evidence<T> = Evidence(direct: set<nat>, equations: seq<(EncodingVector<T>, seq<T>)>)

  ghost function Add<T>(e: Evidence<T>, a: Arrival<T>, n: nat): Evidence<T> {
    match a.packet
    case SourcePacket(id, data) => if |data| == n then e.(direct := e.direct + {id}) else e
    case CodedPacket(ev, payload) => if |payload| == n then e.(equations := e.equations + [(ev, payload)]) else e
  }

  ghost function Collect<T>(arrivals: seq<Arrival<T>>, n: nat): Evidence<T> {
    if arrivals == [] then Evidence({}, [])
    else Add(Collect(arrivals[..|arrivals| - 1], n), arrivals[|arrivals| - 1], n)
  }

  ghost predicate Usable<T(!new)>(c: Config<T>, e: Evidence<T>) {
    && c.F.order > 1
    && forall i :: 0 <= i < |e.equations| ==> WellFormed(e.equations[i].0) && |e.equations[i].1| == c.symbolSize
  }

  // x is another possible past: it fits every equation and every id received directly.
  ghost predicate Fits<T(!new)>(c: Config<T>, X: Sources<T>, e: Evidence<T>, x: Assignment<T>, p: nat)
    requires Usable(c, e) && p < c.symbolSize
  {
    && (forall id :: id in e.direct ==> x(id) == Column(c.F, X, p)(id))
    && (forall i :: 0 <= i < |e.equations| ==>
          EquationHolds(c.F, e.equations[i].0, e.equations[i].1, x, p))
  }

  ghost predicate AgreesOn<T(!new)>(F: Field<T>, ids: set<nat>, X: Sources<T>, x: Assignment<T>, p: nat) {
    forall id :: id in ids ==> x(id) == Column(F, X, p)(id)
  }

  lemma {:induction false} CollectUsable<T(!new)>(c: Config<T>, arrivals: seq<Arrival<T>>)
    requires c.F.order > 1 && forall i :: 0 <= i < |arrivals| ==> Acceptable(c, arrivals[i])
    ensures Usable(c, Collect(arrivals, c.symbolSize))
  {
    if arrivals != [] {
      CollectUsable(c, arrivals[..|arrivals| - 1]);
      assert Acceptable(c, arrivals[|arrivals| - 1]);
    }
  }

  // x fits the decoder's state.
  ghost predicate FitsState<T(!new)>(c: Config<T>, X: Sources<T>, st: State<T>, x: Assignment<T>, p: nat)
    requires Sized(c, st) && p < c.symbolSize
  {
    Solves(c.F, st.rows, x, p) && AgreesOn(c.F, st.known.Keys, X, x, p)
  }

  lemma RecoveredAgree<T(!new)>(F: Field<T>, s: seq<Symbol<T>>, X: Sources<T>, n: nat, x: Assignment<T>, p: nat)
    requires SymbolsShaped(s, n) && p < n && SymbolsRight(s, X)
    ensures Agrees(s, x, p) <==> AgreesOn(F, Ids(s), X, x, p)
  {
    if AgreesOn(F, Ids(s), X, x, p) {
      forall i | 0 <= i < |s| ensures x(s[i].id) == s[i].data[p] {
        assert s[i].id in Ids(s);
      }
    }
    if Agrees(s, x, p) {
      forall id | id in Ids(s) ensures x(id) == Column(F, X, p)(id) {
        var i :| 0 <= i < |s| && s[i].id == id;
        assert x(s[i].id) == s[i].data[p];
      }
    }
  }

  lemma SourceFits<T(!new)>(c: Config<T>, X: Sources<T>, st: State<T>, id: nat, x: Assignment<T>, p: nat)
    requires IsField(c.F) && SourcesSized(X, c.symbolSize) && Inv(c, X, st) && id !in st.rows && p < c.symbolSize
    requires Sized(c, AfterSource(c, st, id, X(id)))
    ensures FitsState(c, X, AfterSource(c, st, id, X(id)), x, p)
       <==> FitsState(c, X, st, x, p) && x(id) == Column(c.F, X, p)(id)
  {
    var r, o := AfterSource(c, st, id, X(id)), SourceOutcome(c, st, id, X(id));
    SourceKeeps(c, X, st, id);
    SourceOutcomeRight(c, X, st, id);
    RecoveredAgree(c.F, o.recovered, X, c.symbolSize, x, p);
    assert r.rows == o.rows;
    if x(id) == X(id)[p] {
      AddKnownSolves(c.F, st.rows, id, X(id), st.known.Keys, x, p);
    }
  }

  // x satisfies the rows of an outcome and the symbols it found.
  ghost predicate Explains<T>(F: Field<T>, o: Outcome<T>, x: Assignment<T>, p: nat, n: nat)
    requires Shaped(o.rows, n) && SymbolsShaped(o.recovered, n) && p < n
  {
    Solves(F, o.rows, x, p) && Agrees(o.recovered, x, p)
  }

  // The rows before and the equation, against the rows after and the symbols found.
  lemma OutcomeFits<T(!new)>(
    c: Config<T>, X: Sources<T>, st: State<T>, ev: EncodingVector<T>, payload: seq<T>, x: Assignment<T>, p: nat)
    requires IsField(c.F) && c.F.order > 1 && WellFormed(ev) && |payload| == c.symbolSize
    requires SourcesSized(X, c.symbolSize) && Inv(c, X, st) && p < c.symbolSize && !Full(st.rows, c.maxRows)
    requires EquationHolds(c.F, ev, payload, Column(c.F, X, p), p)
    requires AgreesOn(c.F, st.known.Keys, X, x, p)
    ensures Solves(c.F, st.rows, x, p) && EquationHolds(c.F, ev, payload, x, p)
       <==> Explains(c.F, CodedOutcome(c, st, ev, payload), x, p, c.symbolSize)
  {
    var o := CodedOutcome(c, st, ev, payload);
    var coefs, y := CoefMap(c.F, ev, |ev.ids|), Column(c.F, X, p);
    var row := CodedRow(c.F, coefs, payload, st.known);
    CodedRowResidual(c.F, coefs, payload, st.known, y, p);
    CodedRowResidual(c.F, coefs, payload, st.known, x, p);
    if Solves(c.F, st.rows, x, p) && EquationHolds(c.F, ev, payload, x, p) {
      AddRowSound(c.F, st.rows, c.maxRows, row, st.known.Keys, x, p);
    }
    if Solves(c.F, o.rows, x, p) && Agrees(o.recovered, x, p) {
      AddRowComplete(c.F, st.rows, c.maxRows, row, st.known.Keys, y, x, p);
    }
  }

  lemma CodedFits<T(!new)>(
    c: Config<T>, X: Sources<T>, st: State<T>, ev: EncodingVector<T>, payload: seq<T>, x: Assignment<T>, p: nat)
    requires IsField(c.F) && c.F.order > 1 && WellFormed(ev) && |payload| == c.symbolSize
    requires SourcesSized(X, c.symbolSize) && Inv(c, X, st) && p < c.symbolSize && !Full(st.rows, c.maxRows)
    requires forall p: nat :: p < c.symbolSize ==> EquationHolds(c.F, ev, payload, Column(c.F, X, p), p)
    requires Sized(c, AfterCoded(c, st, ev, payload))
    ensures FitsState(c, X, AfterCoded(c, st, ev, payload), x, p)
       <==> FitsState(c, X, st, x, p) && EquationHolds(c.F, ev, payload, x, p)
  {
    var r, o := AfterCoded(c, st, ev, payload), CodedOutcome(c, st, ev, payload);
    CodedKeeps(c, X, st, ev, payload);
    CodedSymbolsRight(c, X, st, ev, payload);
    RecoveredAgree(c.F, o.recovered, X, c.symbolSize, x, p);
    assert r.rows == o.rows;
    if AgreesOn(c.F, st.known.Keys, X, x, p) {
      OutcomeFits(c, X, st, ev, payload, x, p);
    }
  }

  lemma CodedSymbolsRight<T(!new)>(c: Config<T>, X: Sources<T>, st: State<T>, ev: EncodingVector<T>, payload: seq<T>)
    requires IsField(c.F) && c.F.order > 1 && WellFormed(ev) && |payload| == c.symbolSize
    requires SourcesSized(X, c.symbolSize) && Inv(c, X, st)
    requires forall p: nat :: p < c.symbolSize ==> EquationHolds(c.F, ev, payload, Column(c.F, X, p), p)
    ensures SymbolsRight(CodedOutcome(c, st, ev, payload).recovered, X)
  {
    var coefs, o := CoefMap(c.F, ev, |ev.ids|), CodedOutcome(c, st, ev, payload);
    var row := CodedRow(c.F, coefs, payload, st.known);
    forall p: nat | p < c.symbolSize ensures Agrees(o.recovered, Column(c.F, X, p), p) {
      CodedRowResidual(c.F, coefs, payload, st.known, Column(c.F, X, p), p);
      AddRowSound(c.F, st.rows, c.maxRows, row, st.known.Keys, Column(c.F, X, p), p);
    }
    AgreesRight(c.F, o.recovered, X, c.symbolSize);
  }

  // What the state allows is exactly what the packets that arrived allow.
  lemma {:induction false} RunFits<T(!new)>(
    c: Config<T>, X: Sources<T>, arrivals: seq<Arrival<T>>, x: Assignment<T>, p: nat)
    requires SourcesSized(X, c.symbolSize) && p < c.symbolSize && c.F.order > 1
    requires forall i :: 0 <= i < |arrivals| ==> Acceptable(c, arrivals[i])
    requires GoodRun(c, X, arrivals, true)
    ensures Usable(c, Collect(arrivals, c.symbolSize))
    ensures FitsState(c, X, Run(c, Start(), arrivals).state, x, p)
       <==> Fits(c, X, Collect(arrivals, c.symbolSize), x, p)
  {
    CollectUsable(c, arrivals);
    if arrivals != [] {
      var init, a := arrivals[..|arrivals| - 1], arrivals[|arrivals| - 1];
      CollectUsable(c, init);
      RunFits(c, X, init, x, p);
      RunRight(c, X, init, true);
      var st := Run(c, Start(), init).state;
      assert Run(c, Start(), arrivals).state == Step(c, st, a).state;
      assert Collect(arrivals, c.symbolSize) == Add(Collect(init, c.symbolSize), a, c.symbolSize);
      StepFits(c, X, st, a, x, p);
      AddFits(c, X, Collect(init, c.symbolSize), a, x, p);
    } else {
      StartFits(c, X, x, p);
    }
  }

  lemma StartFits<T(!new)>(c: Config<T>, X: Sources<T>, x: Assignment<T>, p: nat)
    requires p < c.symbolSize && c.F.order > 1
    ensures FitsState(c, X, Start(), x, p) && Fits(c, X, Evidence({}, []), x, p)
  {
  }

  // x fits the packet itself.
  ghost predicate FitsPacket<T(!new)>(c: Config<T>, X: Sources<T>, a: Arrival<T>, x: Assignment<T>, p: nat)
    requires Acceptable(c, a) && p < c.symbolSize
  {
    match a.packet
    case SourcePacket(id, data) => |data| == c.symbolSize ==> x(id) == Column(c.F, X, p)(id)
    case CodedPacket(ev, payload) => |payload| == c.symbolSize ==> EquationHolds(c.F, ev, payload, x, p)
  }

  lemma StepFits<T(!new)>(c: Config<T>, X: Sources<T>, st: State<T>, a: Arrival<T>, x: Assignment<T>, p: nat)
    requires Acceptable(c, a) && SourcesSized(X, c.symbolSize) && Inv(c, X, st) && p < c.symbolSize
    requires Truthful(c, X, a) && Timely(c, st, a) && Sized(c, Step(c, st, a).state)
    requires a.packet.CodedPacket? && |a.packet.payload| == c.symbolSize ==> !Full(st.rows, c.maxRows)
    ensures FitsState(c, X, Step(c, st, a).state, x, p) <==> FitsState(c, X, st, x, p) && FitsPacket(c, X, a, x, p)
  {
    match a.packet
    case SourcePacket(id, data) =>
      if |data| == c.symbolSize {
        SourceKeeps(c, X, st, id);
        SourceFits(c, X, st, id, x, p);
      }
    case CodedPacket(ev, payload) =>
      if |payload| == c.symbolSize {
        CodedKeeps(c, X, st, ev, payload);
        CodedFits(c, X, st, ev, payload, x, p);
      }
  }

  lemma AddFits<T(!new)>(c: Config<T>, X: Sources<T>, e: Evidence<T>, a: Arrival<T>, x: Assignment<T>, p: nat)
    requires Acceptable(c, a) && Usable(c, e) && Usable(c, Add(e, a, c.symbolSize)) && p < c.symbolSize
    ensures Fits(c, X, Add(e, a, c.symbolSize), x, p) <==> Fits(c, X, e, x, p) && FitsPacket(c, X, a, x, p)
  {
    if a.packet.CodedPacket? && |a.packet.payload| == c.symbolSize {
      AddEquation(c, X, e, a.packet.ev, a.packet.payload, x, p);
    }
  }

  lemma AddEquation<T(!new)>(
    c: Config<T>, X: Sources<T>, e: Evidence<T>, ev: EncodingVector<T>, payload: seq<T>, x: Assignment<T>, p: nat)
    requires Usable(c, e) && p < c.symbolSize && WellFormed(ev) && |payload| == c.symbolSize
    ensures Usable(c, e.(equations := e.equations + [(ev, payload)]))
    ensures Fits(c, X, e.(equations := e.equations + [(ev, payload)]), x, p)
       <==> Fits(c, X, e, x, p) && EquationHolds(c.F, ev, payload, x, p)
  {
    var all := e.equations + [(ev, payload)];
    assert all[|e.equations|] == (ev, payload);
    assert forall i :: 0 <= i < |e.equations| ==> all[i] == e.equations[i];
  }

  // ---------------------------------------------------------------- optimal recovery

  // Every past that fits what has arrived gives id the same data.
  ghost predicate Determined<T(!new)>(c: Config<T>, X: Sources<T>, e: Evidence<T>, id: nat)
    requires Usable(c, e)
  {
    forall x: Assignment<T>, p: nat :: p < c.symbolSize && Fits(c, X, e, x, p) ==> x(id) == Column(c.F, X, p)(id)
  }

  // A symbol is known exactly when what has arrived determines it.
  lemma RecoveryIsOptimal<T(!new)>(c: Config<T>, X: Sources<T>, arrivals: seq<Arrival<T>>, id: nat)
    requires SourcesSized(X, c.symbolSize) && c.symbolSize > 0 && IsField(c.F) && c.F.order > 1
    requires forall i :: 0 <= i < |arrivals| ==> Acceptable(c, arrivals[i])
    requires GoodRun(c, X, arrivals, true)
    ensures Usable(c, Collect(arrivals, c.symbolSize))
    ensures id in Run(c, Start(), arrivals).state.known <==> Determined(c, X, Collect(arrivals, c.symbolSize), id)
  {
    var e, st := Collect(arrivals, c.symbolSize), Run(c, Start(), arrivals).state;
    CollectUsable(c, arrivals);
    RunRight(c, X, arrivals, true);
    if id in st.known {
      forall x: Assignment<T>, p: nat | p < c.symbolSize && Fits(c, X, e, x, p)
        ensures x(id) == Column(c.F, X, p)(id)
      {
        RunFits(c, X, arrivals, x, p);
      }
    } else {
      var y := UnknownIsFree(c.F, st.rows, c.symbolSize, st.known.Keys, id, Column(c.F, X, 0), 0);
      RunFits(c, X, arrivals, y, 0);
      assert FitsState(c, X, st, y, 0);
    }
  }
}
