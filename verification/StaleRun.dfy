// Three packets that make the decoder deliver a wrong symbol: the second arrives late.

module StaleRuns {
  import opened Fields
  import opened Keys
  import opened Rows
  import opened Elimination
  import opened Equations
  import opened Delivery
  import opened Decoding
  import opened StalePivots

  // Coded packet 1 over the sources 0 and 1, source 0, and coded packet 3 over source 2.
  function Early<T>(F: Field<T>, s0: T, s1: T): Arrival<T>
    requires F.order > 1
  {
    Arrival(CodedPacket(EncodingVector(1, 0, [0, 1], []), [F.add(s0, F.mul(Vandermonde(F, 1, 1), s1))]), false)
  }

  function Late<T>(s0: T): Arrival<T> {
    Arrival(SourcePacket(0, [s0]), false)
  }

  function Last<T>(F: Field<T>, s2: T): Arrival<T>
    requires F.order > 1
  {
    Arrival(CodedPacket(EncodingVector(3, 0, [2], []), [F.mul(Vandermonde(F, 2, 3), s2)]), false)
  }

  // The decoder's state after the first packet, and after the second.
  ghost function StateOne<T>(F: Field<T>, s0: T, s1: T): State<T>
    requires F.order > 1
  {
    State(map[0 := Pair(F, Vandermonde(F, 1, 1), s0, s1)], map[], Buffer(map[], 0), 0)
  }

  ghost function StateTwo<T>(F: Field<T>, s0: T, s1: T): State<T>
    requires F.order > 1
  {
    State(map[0 := Stale(F, Vandermonde(F, 1, 1), s1)], map[0 := [s0]], Buffer(map[], 1), 0)
  }

  lemma OneEntry<T>(F: Field<T>, id: nat, b: T)
    ensures FromMap(F, map[id := b]) == Dense(id, [b])
  {
    var m := map[id := b];
    assert m.Keys == {id};
    SortedOne(id);
    assert FromMap(F, m) == FromEntries(F, m, [id]);
    assert Get(F, FromMap(F, m), id) == b;
  }

  lemma TwoEntries<T>(F: Field<T>, a: T, b: T)
    ensures FromMap(F, map[0 := a, 1 := b]) == Dense(0, [a, b])
  {
    var m := map[0 := a, 1 := b];
    assert m.Keys == {0, 1};
    SortedTwo(0, 1);
    assert FromMap(F, m) == FromEntries(F, m, [0, 1]);
    assert Get(F, FromMap(F, m), 0) == a && Get(F, FromMap(F, m), 1) == b;
  }

  lemma FirstCoefs<T(!new)>(F: Field<T>, ev: EncodingVector<T>)
    requires IsGenerated(F) && ev == EncodingVector(1, 0, [0, 1], [])
    ensures Vandermonde(F, 1, 1) != F.zero && CoefMap(F, ev, 2) == map[0 := F.one, 1 := Vandermonde(F, 1, 1)]
  {
    ScaleOccurs(F);
    assert Vandermonde(F, 0, 1) == F.one;
    assert CoefAt(F, ev, 0) == F.one && CoefAt(F, ev, 1) == Vandermonde(F, 1, 1);
    assert CoefMap(F, ev, 1) == map[0 := F.one];
  }

  lemma FirstStep<T(!new)>(c: Config<T>, s0: T, s1: T, s2: T)
    requires IsGenerated(c.F) && c.symbolSize == 1 && c.maxRows >= 2
    ensures Step(c, Start(), Early(c.F, s0, s1))
         == Result(StateOne(c.F, s0, s1), [])
  {
    var F, a := c.F, Vandermonde(c.F, 1, 1);
    var ev: EncodingVector<T> := EncodingVector(1, 0, [0, 1], []);
    FirstCoefs(F, ev);
    TwoEntries(F, F.one, a);
    PairInserted(F, a, s0, s1, c.maxRows);
    var none: map<nat, seq<T>> := map[];
    assert none.Keys == {};
  }

  lemma SecondStep<T(!new)>(c: Config<T>, s0: T, s1: T, s2: T)
    requires IsGenerated(c.F) && c.symbolSize == 1 && c.maxRows >= 2
    ensures Step(c, StateOne(c.F, s0, s1), Late(s0))
         == Result(StateTwo(c.F, s0, s1), [SourceReady(Symbol(0, [s0]))])
  {
    SecondAbsorbed(c, s0, s1);
    FinishOne(AfterSource(c, StateOne(c.F, s0, s1), 0, [s0]), StateTwo(c.F, s0, s1), [s0]);
  }

  lemma SecondAbsorbed<T(!new)>(c: Config<T>, s0: T, s1: T)
    requires IsGenerated(c.F) && c.symbolSize == 1
    ensures AfterSource(c, StateOne(c.F, s0, s1), 0, [s0])
         == StateTwo(c.F, s0, s1).(buffer := Buffer(map[0 := [s0]], 0))
  {
    ScaleOccurs(c.F);
    PairSpoiled(c.F, Vandermonde(c.F, 1, 1), s0, s1);
    assert StateOne(c.F, s0, s1).known.Keys + {0} == {0};
  }

  lemma FinishOne<T>(st: State<T>, after: State<T>, d: seq<T>)
    requires st.buffer == Buffer(map[0 := d], 0) && st.winMin == 0 && after == st.(buffer := Buffer(map[], 1))
    ensures Finish(st, false) == Result(after, [SourceReady(Symbol(0, d))])
  {
    assert st.buffer.symbols - {0} == map[];
    assert Drain(Buffer(st.buffer.symbols - {0}, 1)) == Drained(Buffer(map[], 1), []);
  }

  lemma ForwardOne<T(!new)>(F: Field<T>, M: Matrix<T>, r: Row<T>)
    requires 0 in M && Shaped(M, |r.payload|) && Get(F, r.dense, 0) == F.zero
    ensures ForwardEliminate(F, M, [0], r) == r
  {
    assert [0][..0] == [];
    assert ForwardEliminate(F, M, [], r) == r;
  }

  // Normalised, the third equation is the symbol.
  lemma ScaledExtracted<T(!new)>(F: Field<T>, a: T, b: T, s1: T, s2: T, maxRows: nat)
    requires IsField(F) && a != F.zero && b != F.zero && maxRows >= 2
    ensures AddRow(F, map[0 := Stale(F, a, s1)], maxRows, Row(Dense(2, [b]), [F.mul(b, s2)]), {0}).recovered
         == [Symbol(1, [F.mul(a, s1)]), Symbol(2, [s2])]
  {
    var M: Matrix<T>, r := map[0 := Stale(F, a, s1)], Row(Dense(2, [b]), [F.mul(b, s2)]);
    var t := Single(F, 2, s2);
    assert M.Keys == {0};
    SortedOne(0);
    assert Get(F, r.dense, 0) == F.zero && Get(F, t.dense, 0) == F.zero;
    ForwardOne(F, M, r);
    ForwardOne(F, M, t);
    assert Get(F, r.dense, 2) == b && Get(F, t.dense, 2) == F.one;
    ScaledBack(F, b, s2);
    StaleExtracted(F, a, s1, s2, maxRows);
  }

  lemma ScaledBack<T(!new)>(F: Field<T>, b: T, s: T)
    requires IsField(F) && b != F.zero
    ensures Normalize(F, Row(Dense(2, [b]), [F.mul(b, s)])) == Single(F, 2, s)
  {
    var r := Row(Dense(2, [b]), [F.mul(b, s)]);
    assert Get(F, r.dense, 2) == b && PivotId(F, r.dense) == Some(2);
    Inverse(F, b);
    Laws(F, F.inv(b), b, s);
    Laws(F, F.one, s, s);
  }

  lemma ThirdStep<T(!new)>(c: Config<T>, s0: T, s1: T, s2: T)
    requires IsGenerated(c.F) && c.symbolSize == 1 && c.maxRows >= 2
    ensures Step(c, StateTwo(c.F, s0, s1), Last(c.F, s2)).events
         == [SourceReady(Symbol(1, [c.F.mul(Vandermonde(c.F, 1, 1), s1)])), SourceReady(Symbol(2, [s2]))]
  {
    var F, b, t, st := c.F, Vandermonde(c.F, 2, 3), c.F.mul(Vandermonde(c.F, 1, 1), s1), StateTwo(c.F, s0, s1);
    var ev: EncodingVector<T> := EncodingVector(3, 0, [2], []);
    ThirdAbsorbed(c, s0, s1, s2, ev);
    CodedStep(c, st, ev, [F.mul(b, s2)]);
    FinishTwo(AfterCoded(c, st, ev, [F.mul(b, s2)]), [t], [s2]);
  }

  lemma ThirdAbsorbed<T(!new)>(c: Config<T>, s0: T, s1: T, s2: T, ev: EncodingVector<T>)
    requires IsGenerated(c.F) && c.symbolSize == 1 && c.maxRows >= 2 && ev == EncodingVector(3, 0, [2], [])
    ensures var t := AfterCoded(c, StateTwo(c.F, s0, s1), ev, [c.F.mul(Vandermonde(c.F, 2, 3), s2)]);
            && t.winMin == 2
            && Drain(t.buffer)
               == Drained(Buffer(map[], 3), [Symbol(1, [c.F.mul(Vandermonde(c.F, 1, 1), s1)]), Symbol(2, [s2])])
  {
    var F, b, t, st := c.F, Vandermonde(c.F, 2, 3), c.F.mul(Vandermonde(c.F, 1, 1), s1), StateTwo(c.F, s0, s1);
    ThirdCoefs(F, ev);
    ThirdRow(F, st.rows, c.maxRows, b, s2, st.known);
    ScaleOccurs(F);
    ScaledExtracted(F, Vandermonde(F, 1, 1), b, s1, s2, c.maxRows);
    var o := AddCoded(F, st.rows, c.maxRows, CoefMap(F, ev, 1), [F.mul(b, s2)], st.known);
    TwoDelivered(State(o.rows, st.known, st.buffer, 2), [t], [s2]);
  }

  lemma ThirdCoefs<T(!new)>(F: Field<T>, ev: EncodingVector<T>)
    requires IsGenerated(F) && ev == EncodingVector(3, 0, [2], [])
    ensures Vandermonde(F, 2, 3) != F.zero && CoefMap(F, ev, 1) == map[2 := Vandermonde(F, 2, 3)]
  {
    PowersOf(F, 2 * 3 % (F.order - 1), 0);
    assert CoefAt(F, ev, 0) == Vandermonde(F, 2, 3);
    assert CoefMap(F, ev, 0) == map[];
  }

  lemma ThirdRow<T(!new)>(F: Field<T>, M: Matrix<T>, maxRows: nat, b: T, s2: T, known: map<nat, seq<T>>)
    requires IsField(F) && Shaped(M, 1) && known.Keys == {0} && |known[0]| == 1
    ensures AddCoded(F, M, maxRows, map[2 := b], [F.mul(b, s2)], known)
         == AddRow(F, M, maxRows, Row(Dense(2, [b]), [F.mul(b, s2)]), {0})
  {
    OneEntry(F, 2, b);
    SortedOne(0);
    var r := Row(Dense(2, [b]), [F.mul(b, s2)]);
    assert Get(F, r.dense, 0) == F.zero;
    assert SubstituteAll(F, r, known, [0]) == r;
  }

  lemma FinishTwo<T>(s: State<T>, d1: seq<T>, d2: seq<T>)
    requires Drain(s.buffer) == Drained(Buffer(map[], 3), [Symbol(1, d1), Symbol(2, d2)]) && s.winMin == 2
    ensures Finish(s, false).events == [SourceReady(Symbol(1, d1)), SourceReady(Symbol(2, d2))]
  {
  }

  lemma TwoDelivered<T>(st: State<T>, d1: seq<T>, d2: seq<T>)
    requires st.buffer == Buffer(map[], 1)
    ensures var s := Absorb(st, [Symbol(1, d1), Symbol(2, d2)]);
            && s.buffer == Buffer(map[1 := d1, 2 := d2], 1)
            && Drain(s.buffer) == Drained(Buffer(map[], 3), [Symbol(1, d1), Symbol(2, d2)])
  {
    var found := [Symbol(1, d1), Symbol(2, d2)];
    assert found[..1] == [Symbol(1, d1)] && found[..1][..0] == [];
    assert Absorb(st, found[..1]).buffer == Buffer(map[1 := d1], 1);
    DrainTwo(d1, d2);
  }

  lemma DrainTwo<T>(d1: seq<T>, d2: seq<T>)
    ensures Drain(Buffer(map[1 := d1, 2 := d2], 1)) == Drained(Buffer(map[], 3), [Symbol(1, d1), Symbol(2, d2)])
  {
    var m: map<nat, seq<T>> := map[1 := d1, 2 := d2];
    var n: map<nat, seq<T>> := map[2 := d2];
    assert m - {1} == n && n - {2} == map[];
    assert Drain(Buffer(n - {2}, 3)) == Drained(Buffer(map[], 3), []);
    assert Drain(Buffer(n, 2)) == Drained(Buffer(map[], 3), [Symbol(2, d2)]);
  }

  lemma Multiple<T(!new)>(F: Field<T>, s1: T)
    requires IsGenerated(F)
    ensures F.mul(Vandermonde(F, 1, 1), s1) == s1 <==> s1 == F.zero
  {
    var a := Vandermonde(F, 1, 1);
    ScaleOccurs(F);
    NoZeroDivisors(F, a, s1);
    if F.mul(a, s1) == s1 && s1 != F.zero {
      Laws(F, a, s1, s1);
      Cancel(F, s1, a, F.one);
    }
  }

  lemma Accepted<T(!new)>(c: Config<T>, s0: T, s1: T, s2: T)
    requires IsGenerated(c.F) && c.symbolSize == 1
    ensures Acceptable(c, Early(c.F, s0, s1)) && Acceptable(c, Late(s0)) && Acceptable(c, Last(c.F, s2))
    ensures Sized(c, StateOne(c.F, s0, s1)) && Sized(c, StateTwo(c.F, s0, s1))
  {
  }

  // What the decoder delivers for three packets.
  ghost function Delivered<T(!new)>(c: Config<T>, a: Arrival<T>, b: Arrival<T>, d: Arrival<T>): seq<Event<T>>
    requires Acceptable(c, a) && Acceptable(c, b) && Acceptable(c, d)
  {
    Run(c, Start(), [a, b, d]).events
  }

  // The first step is silent.
  lemma ThreeSteps<T(!new)>(
    c: Config<T>, a: Arrival<T>, b: Arrival<T>, d: Arrival<T>,
    one: State<T>, two: State<T>, e2: seq<Event<T>>, e3: seq<Event<T>>)
    requires Acceptable(c, a) && Acceptable(c, b) && Acceptable(c, d) && Sized(c, one) && Sized(c, two)
    requires Step(c, Start(), a) == Result(one, []) && Step(c, one, b) == Result(two, e2)
    requires Step(c, two, d).events == e3
    ensures Delivered(c, a, b, d) == e2 + e3
  {
    var late := [a, b, d];
    TwoSteps(c, late[..2], one, two, e2);
    assert Run(c, Start(), late) == Result(Step(c, two, d).state, e2 + e3);
  }

  lemma TwoSteps<T(!new)>(c: Config<T>, late: seq<Arrival<T>>, one: State<T>, two: State<T>, e2: seq<Event<T>>)
    requires |late| == 2 && Acceptable(c, late[0]) && Acceptable(c, late[1]) && Sized(c, one)
    requires Step(c, Start(), late[0]) == Result(one, []) && Step(c, one, late[1]) == Result(two, e2)
    ensures Run(c, Start(), late) == Result(two, e2)
  {
    assert late[..1][..0] == [];
    assert Run(c, Start(), late[..1]) == Result(one, []);
    assert [] + e2 == e2;
  }

  lemma SpoiledRun<T(!new)>(c: Config<T>, s0: T, s1: T, s2: T)
    requires IsGenerated(c.F) && c.symbolSize == 1 && c.maxRows >= 2
    requires Acceptable(c, Early(c.F, s0, s1)) && Acceptable(c, Late(s0)) && Acceptable(c, Last(c.F, s2))
    requires Sized(c, StateOne(c.F, s0, s1)) && Sized(c, StateTwo(c.F, s0, s1))
    ensures Delivered(c, Early(c.F, s0, s1), Late(s0), Last(c.F, s2))
         == [SourceReady(Symbol(0, [s0]))]
          + [SourceReady(Symbol(1, [c.F.mul(Vandermonde(c.F, 1, 1), s1)])), SourceReady(Symbol(2, [s2]))]
  {
    FirstStep(c, s0, s1, s2);
    SecondStep(c, s0, s1, s2);
    ThirdStep(c, s0, s1, s2);
    ThreeSteps(c, Early(c.F, s0, s1), Late(s0), Last(c.F, s2), StateOne(c.F, s0, s1),
               StateTwo(c.F, s0, s1), [SourceReady(Symbol(0, [s0]))],
               [SourceReady(Symbol(1, [c.F.mul(Vandermonde(c.F, 1, 1), s1)])), SourceReady(Symbol(2, [s2]))]);
  }

  // Source 1 is delivered as a multiple of itself, which is another symbol unless it is zero.
  lemma LateSourceSpoils<T(!new)>(c: Config<T>, s0: T, s1: T, s2: T)
    requires IsGenerated(c.F) && c.symbolSize == 1 && c.maxRows >= 2
    ensures Acceptable(c, Early(c.F, s0, s1)) && Acceptable(c, Late(s0)) && Acceptable(c, Last(c.F, s2))
    ensures Delivered(c, Early(c.F, s0, s1), Late(s0), Last(c.F, s2))
         == [SourceReady(Symbol(0, [s0]))]
          + [SourceReady(Symbol(1, [c.F.mul(Vandermonde(c.F, 1, 1), s1)])), SourceReady(Symbol(2, [s2]))]
    ensures c.F.mul(Vandermonde(c.F, 1, 1), s1) == s1 <==> s1 == c.F.zero
  {
    Accepted(c, s0, s1, s2);
    SpoiledRun(c, s0, s1, s2);
    Multiple(c.F, s1);
  }
}
