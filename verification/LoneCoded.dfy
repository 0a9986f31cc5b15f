// A decoder that receives a single coded packet, over a single id, however often that is listed.

module LoneCoded {
  import opened Fields
  import opened Keys
  import opened Rows
  import opened Elimination
  import opened Echelon
  import opened Equations
  import opened Delivery
  import opened Decoding
  import opened StalePivots

  // The payload divided by the coefficient.
  function Quotient<T(==)>(F: Field<T>, b: T, d: seq<T>): (r: seq<T>)
    ensures |r| == |d|
  {
    if b == F.one then d else MulScale(F, d, F.inv(b))
  }

  lemma LoneNormal<T(!new)>(F: Field<T>, id: nat, b: T, d: seq<T>)
    requires IsField(F) && b != F.zero
    ensures PivotId(F, Dense(id, [b])) == Some(id)
    ensures Normalize(F, Row(Dense(id, [b]), d)) == Row(Dense(id, [F.one]), Quotient(F, b, d))
  {
    assert Get(F, Dense(id, [b]), id) == b;
    Inverse(F, b);
  }

  lemma LoneSolved<T(!new)>(F: Field<T>, id: nat, t: Row<T>, known: set<nat>)
    requires F.one != F.zero && t.dense == Dense(id, [F.one])
    ensures Solve(F, Outcome(map[id := t], []), known, |t.payload|) == Outcome(map[], [Symbol(id, t.payload)])
  {
    var o: Outcome<T> := Outcome(map[id := t], []);
    var end: Outcome<T> := Outcome(map[], [Symbol(id, t.payload)]);
    assert Get(F, t.dense, id) == F.one;
    assert Only(F, o.rows[id].dense, id);
    IsSolvedOnly(F, t.dense, id);
    assert o.rows - {id} == map[];
    TakeSolved(F, o, id, id, known, |t.payload|);
    assert o.rows.Keys == {id};
    SortedOne(id);
    assert SolvedKeys(F, o.rows, [id]) == [id];
    assert [id][..0] == [];
    assert SolvePass(F, o, [id], known, |t.payload|) == end;
    SolveTurn(F, o, known, |t.payload|);
    NoneSolved(F, end, known, |t.payload|);
  }

  // The only row comes out at once.
  lemma LoneRow<T(!new)>(F: Field<T>, maxRows: nat, id: nat, b: T, d: seq<T>, known: set<nat>)
    requires IsField(F) && b != F.zero
    ensures AddRow(F, map[], maxRows, Row(Dense(id, [b]), d), known) == Outcome(map[], [Symbol(id, Quotient(F, b, d))])
  {
    var r, none: Matrix<T> := Row(Dense(id, [b]), d), map[];
    assert none.Keys == {};
    assert Forward(F, none, r) == r;
    LoneNormal(F, id, b, d);
    var t := Normalize(F, r);
    LoneNormal(F, id, F.one, t.payload);
    assert InsertRow(F, none, maxRows, t) == map[id := t];
    LoneSolved(F, id, t, known);
  }

  // The decoder takes the packet for b times the symbol.
  ghost predicate OnlyOver<T>(F: Field<T>, ev: EncodingVector<T>, id: nat, b: T)
    requires F.order > 1 && WellFormed(ev)
  {
    ev.ids != [] && ev.ids[0] == id && b != F.zero && CoefMap(F, ev, |ev.ids|) == map[id := b]
  }

  lemma SingleCover<T(!new)>(F: Field<T>, ev: EncodingVector<T>, id: nat)
    requires F.order > 1 && WellFormed(ev) && ev.ids == [id] && CoefAt(F, ev, 0) != F.zero
    ensures OnlyOver(F, ev, id, CoefAt(F, ev, 0))
  {
    assert CoefMap(F, ev, 0) == map[];
  }

  lemma LoneMap<T(!new)>(F: Field<T>, m: map<nat, T>, id: nat, b: T)
    requires m == map[id := b]
    ensures FromMap(F, m) == Dense(id, [b])
  {
    assert m.Keys == {id};
    SortedOne(id);
    assert FromMap(F, m) == FromEntries(F, m, [id]);
    assert Get(F, FromMap(F, m), id) == m[id];
  }

  lemma LoneAdded<T(!new)>(F: Field<T>, maxRows: nat, m: map<nat, T>, id: nat, b: T, d: seq<T>, none: map<nat, seq<T>>)
    requires IsField(F) && m == map[id := b] && b != F.zero && none == map[]
    ensures AddCoded(F, map[], maxRows, m, d, none) == Outcome(map[], [Symbol(id, Quotient(F, b, d))])
  {
    assert none.Keys == {};
    LoneMap(F, m, id, b);
    LoneRow(F, maxRows, id, b, d, {});
  }

  lemma AbsorbOne<T>(st: State<T>, sym: Symbol<T>)
    requires st.known == map[] && st.buffer == Buffer(map[], 0)
    ensures Absorb(st, [sym]) == st.(known := map[sym.id := sym.data], buffer := Buffer(map[sym.id := sym.data], 0))
  {
    assert [sym][..0] == [];
    assert Absorb(st, [sym][..0]) == st;
  }

  lemma LoneAbsorbed<T(!new)>(c: Config<T>, ev: EncodingVector<T>, id: nat, b: T, d: seq<T>)
    requires IsField(c.F) && c.F.order > 1 && WellFormed(ev) && OnlyOver(c.F, ev, id, b) && |d| == c.symbolSize
    ensures var v := Quotient(c.F, b, d);
            AfterCoded(c, Start(), ev, d) == State(map[], map[id := v], Buffer(map[id := v], 0), id)
  {
    LoneAdded(c.F, c.maxRows, CoefMap(c.F, ev, |ev.ids|), id, b, d, map[]);
    AbsorbOne(State(map[], map[], Buffer(map[], 0), id), Symbol(id, Quotient(c.F, b, d)));
  }

  lemma LoneFinished<T>(st: State<T>, id: nat, v: seq<T>)
    requires st.buffer == Buffer(map[id := v], 0) && st.winMin == id
    ensures Finish(st, false).events == if id == 0 then [SourceReady(Symbol(0, v))] else [UnrecoverableGap(0, id)]
  {
    if id == 0 {
      assert st.buffer.symbols - {0} == map[];
      assert Drain(Buffer(st.buffer.symbols - {0}, 1)) == Drained(Buffer(map[], 1), []);
    } else {
      assert Drain(st.buffer) == Drained(st.buffer, []);
      assert Ready<T>([]) == [];
    }
  }

  // What a decoder that has received nothing else makes of the packet.
  ghost function Alone<T(!new)>(c: Config<T>, packet: Packet<T>): seq<Event<T>>
    requires Acceptable(c, Arrival(packet, false))
  {
    Run(c, Start(), [Arrival(packet, false)]).events
  }

  // A single packet over id zero delivers it; over any other id it gives up everything before.
  lemma LoneRun<T(!new)>(c: Config<T>, ev: EncodingVector<T>, id: nat, b: T, d: seq<T>)
    requires IsField(c.F) && c.F.order > 1 && WellFormed(ev) && OnlyOver(c.F, ev, id, b) && |d| == c.symbolSize
    ensures Alone(c, CodedPacket(ev, d))
         == if id == 0 then [SourceReady(Symbol(0, Quotient(c.F, b, d)))] else [UnrecoverableGap(0, id)]
  {
    var a := Arrival(CodedPacket(ev, d), false);
    LoneAbsorbed(c, ev, id, b, d);
    FirstOnly(c, a);
    CodedStep(c, Start(), ev, d);
    LoneFinished(AfterCoded(c, Start(), ev, d), id, Quotient(c.F, b, d));
  }

  lemma FirstOnly<T(!new)>(c: Config<T>, a: Arrival<T>)
    requires Acceptable(c, a)
    ensures Run(c, Start(), [a]).events == Step(c, Start(), a).events
  {
    assert [a][..0] == [];
    assert Run(c, Start(), [a][..0]) == Result(Start(), []);
    assert [] + Step(c, Start(), a).events == Step(c, Start(), a).events;
  }
}
