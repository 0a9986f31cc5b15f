// Covers that the caller lists: out of order, and with an id twice.

module CallerCovers {
  import opened Bytes
  import opened Fields
  import opened Keys
  import opened Rows
  import opened Elimination
  import opened Equations
  import opened Coefficients
  import opened Decoding
  import opened Exactness
  import opened Streams
  import opened Guarantees
  import opened Windows
  import opened Encoding
  import opened Sessions
  import opened QuietSessions
  import opened LoneCoded
  import opened Gaps
  import opened Wires
  import opened Duplicates
  import I = IdStorage

  lemma {:induction false} AskedAll(window: seq<nat>, ids: seq<nat>)
    requires forall id :: id in ids ==> id in window
    ensures Asked(window, ids) == ids
  {
    if ids != [] {
      var init, last := ids[..|ids| - 1], ids[|ids| - 1];
      assert forall id :: id in init ==> id in ids;
      assert last in ids;
      AskedAll(window, init);
    }
  }

  lemma HeldIds<T>(X: Sources<T>, n: nat, id: nat)
    requires id < n
    ensures id in IdsOf(Held(X, n))
  {
    assert IdsOf(Held(X, n))[id] == id;
  }

  // A cover of ids that the window holds is sent as it is listed.
  lemma ListedIsSent<T(!new)>(c: EncoderConfig<T>, X: Sources<T>, n: nat, cover: seq<nat>)
    requires Quiet(c) && SourcesSized(X, c.symbolSize) && n <= c.capacity
    requires cover != [] && forall id :: id in cover ==> id < n
    ensures var st, s := Plain(c, X, n).state, After(c, ThenCall(X, n, Generating(Listed(cover))));
            && Sane(c, st.window) && Holds(c, st.window, cover)
            && s.log == Log(X, n) + [MakePacket(c, st, cover)]
            && s.sources == Data(X, n) && s.state.window == st.window
  {
    var st := Plain(c, X, n).state;
    QuietThen(c, X, n, Generating(Listed(cover)));
    forall id | id in cover ensures id in IdsOf(st.window.symbols) {
      HeldIds(X, n, id);
    }
    AskedAll(IdsOf(st.window.symbols), cover);
    FindsInWindow(c, st.window, cover);
  }

  // The payload at one position, for the sources of the session.
  lemma ListedPayload<T(!new)>(c: EncoderConfig<T>, X: Sources<T>, n: nat, cover: seq<nat>, p: nat)
    requires Quiet(c) && Sane(c, Plain(c, X, n).state.window) && Holds(c, Plain(c, X, n).state.window, cover)
    requires p < c.symbolSize
    ensures var k := MakePacket(c, Plain(c, X, n).state, cover);
            && Equations.WellFormed(k.ev) && k.ev.ids == cover
            && k.payload[p] == EvSum(c.F, k.ev, Column(c.F, X, p), |cover|)
  {
    var st := Plain(c, X, n).state;
    VectorFormed(c, st.at, cover);
    WindowReads(c, X, st.window, cover, p);
    PayloadIsSum(c, st.window, MakeVector(c, st.at, cover), |cover|, Column(c.F, X, p), p);
  }

  // ---------------------------------------------------------------- an id twice

  lemma TwiceIsNothing<T(!new)>(F: Field<T>, ev: EncodingVector<T>, x: Assignment<T>, n: nat)
    requires IsField(F) && F.order > 1 && WellFormed(ev) && n == 2 == |ev.ids|
    requires ev.ids[0] == ev.ids[1] && CoefAt(F, ev, 0) == CoefAt(F, ev, 1)
    ensures EvSum(F, ev, x, n) == F.zero
  {
    var t := F.mul(CoefAt(F, ev, 0), x(ev.ids[0]));
    assert EvSum(F, ev, x, n - 2) == F.zero;
    assert EvSum(F, ev, x, n - 1) == F.add(F.zero, t);
    Laws(F, t, t, t);
    SumZero(F, t, t);
  }

  lemma TwiceIsOnce<T(!new)>(F: Field<T>, ev: EncodingVector<T>, id: nat, n: nat)
    requires F.order > 1 && WellFormed(ev) && n == 2 == |ev.ids| && ev.ids[0] == ev.ids[1] == id
    requires CoefAt(F, ev, 0) == CoefAt(F, ev, 1) != F.zero
    ensures OnlyOver(F, ev, id, CoefAt(F, ev, 0))
  {
    assert CoefMap(F, ev, n - 2) == map[];
    assert CoefMap(F, ev, n - 1) == map[id := CoefAt(F, ev, 0)];
    assert CoefMap(F, ev, n) == map[id := CoefAt(F, ev, 0)];
  }

  lemma ZerosDivided<T(!new)>(F: Field<T>, b: T, d: seq<T>)
    requires IsField(F) && forall p :: 0 <= p < |d| ==> d[p] == F.zero
    ensures Quotient(F, b, d) == d
  {
    forall p | 0 <= p < |d| ensures F.mul(F.inv(b), d[p]) == d[p] {
      Laws(F, F.inv(b), d[p], d[p]);
      NoZeroDivisors(F, F.inv(b), d[p]);
    }
  }

  // Alone the packet makes the decoder deliver zeros for symbol 0.
  ghost predicate Nullifies<T(!new)>(dc: Config<T>, sent: Packet<T>)
    requires IsField(dc.F) && dc.F.order > 1
  {
    && sent.CodedPacket? && Equations.WellFormed(sent.ev)
    && Alone(dc, sent) == [SourceReady(Symbol(0, Zeros(dc.F, dc.symbolSize)))]
  }

  lemma DoubledPacket<T(!new)>(c: EncoderConfig<T>, dc: Config<T>, at: Label, cover: seq<nat>, payload: seq<T>)
    requires IsGenerated(c.F) && Matches(c, dc) && payload == Zeros(c.F, c.symbolSize)
    requires |cover| == 2 && cover[0] == cover[1] == 0
    ensures Nullifies(dc, CodedPacket(MakeVector(c, at, cover), payload))
  {
    var ev := MakeVector(c, at, cover);
    VectorFormed(c, at, cover);
    VectorById(c, at, cover);
    CoefficientNonzero(c, at, 0);
    TwiceIsOnce(c.F, ev, 0, 2);
    ZerosDivided(c.F, CoefAt(c.F, ev, 0), payload);
    LoneRun(dc, ev, 0, CoefAt(c.F, ev, 0), payload);
  }

  lemma DoubledZeros<T(!new)>(c: EncoderConfig<T>, X: Sources<T>, n: nat, cover: seq<nat>)
    requires Quiet(c) && Sane(c, Plain(c, X, n).state.window) && Holds(c, Plain(c, X, n).state.window, cover)
    requires |cover| == 2 && cover[0] == cover[1]
    ensures MakePacket(c, Plain(c, X, n).state, cover).payload == Zeros(c.F, c.symbolSize)
  {
    var st := Plain(c, X, n).state;
    var sent := MakePacket(c, st, cover);
    forall p: nat | p < c.symbolSize ensures sent.payload[p] == c.F.zero {
      ListedPayload(c, X, n, cover, p);
      VectorById(c, st.at, cover);
      TwiceIsNothing(c.F, sent.ev, Column(c.F, X, p), 2);
    }
  }

  lemma DoubledCrosses<T(!new)>(c: EncoderConfig<T>, k: Codec<T>, cover: seq<nat>, payload: seq<T>)
    requires Lossless(k) && c.F.order > 2 && cover == [0, 0]
    ensures var sent := CodedPacket(MakeVector(c, FirstLabel(c.strategy), cover), payload); Crosses(k, sent, sent)
  {
    var ev := MakeVector(c, FirstLabel(c.strategy), cover);
    VectorFormed(c, FirstLabel(c.strategy), cover);
    I.SummedPair(0, 0);
    assert Heard(ev) == ev;
    FirstCrosses(c, k, cover, payload);
  }

  // One submission, a packet that lists it twice, and nothing else arrives: the packet crosses as it
  // is, and zeros are delivered for symbol 0, whatever was submitted.
  lemma DoubledCoverSpoils<T(!new)>(
    c: EncoderConfig<T>, dc: Config<T>, k: Codec<T>, X: Sources<T>, n: nat, cover: seq<nat>)
    requires Quiet(c) && Matches(c, dc) && IsGenerated(c.F) && SourcesSized(X, c.symbolSize) && Lossless(k)
    requires n == 1 <= c.capacity && cover == [0, 0]
    ensures var s := After(c, ThenCall(X, n, Generating(Listed(cover))));
            |s.log| == n + 1 && Crosses(k, s.log[n], s.log[n]) && Nullifies(dc, s.log[n])
  {
    ListedIsSent(c, X, n, cover);
    DoubledZeros(c, X, n, cover);
    var zeros := Zeros(c.F, c.symbolSize);
    DoubledCrosses(c, k, cover, zeros);
    DoubledPacket(c, dc, FirstLabel(c.strategy), cover, zeros);
  }

  lemma FirstCrosses<T(!new)>(c: EncoderConfig<T>, k: Codec<T>, cover: seq<nat>, payload: seq<T>)
    requires Lossless(k) && c.F.order > 2 && 0 < |cover| <= 255 && I.Below32(cover)
    ensures var ev := MakeVector(c, FirstLabel(c.strategy), cover);
            Sent(ev) && Crosses(k, CodedPacket(ev, payload), CodedPacket(Heard(ev), payload))
  {
    var ev := MakeVector(c, FirstLabel(c.strategy), cover);
    VectorFormed(c, FirstLabel(c.strategy), cover);
    CrossesHeard(k, ev, payload, CodedPacket(Heard(ev), payload));
  }

  // ---------------------------------------------------------------- out of order

  lemma {:induction false} EvSumAlike<T(!new)>(
    F: Field<T>, ev: EncodingVector<T>, other: EncodingVector<T>, x: Assignment<T>, y: Assignment<T>, n: nat)
    requires F.order > 1 && WellFormed(ev) && WellFormed(other) && |ev.ids| == |other.ids| && n <= |ev.ids|
    requires forall i :: 0 <= i < |ev.ids| ==>
      CoefAt(F, ev, i) == CoefAt(F, other, i) && x(ev.ids[i]) == y(other.ids[i])
    ensures EvSum(F, ev, x, n) == EvSum(F, other, y, n)
  {
    if n > 0 {
      EvSumAlike(F, ev, other, x, y, n - 1);
    }
  }

  // Source 1, and a packet over 1 and `far`.
  function Pair<T>(s1: seq<T>, ev: EncodingVector<T>, payload: seq<T>): seq<Arrival<T>> {
    [Arrival(SourcePacket(1, s1), false), Arrival(CodedPacket(ev, payload), false)]
  }

  lemma PairGood<T(!new)>(
    dc: Config<T>, Z: Sources<T>, ev: EncodingVector<T>, payload: seq<T>, far: nat)
    requires IsField(dc.F) && dc.F.order > 1 && SourcesSized(Z, dc.symbolSize) && dc.maxRows > 0
    requires WellFormed(ev) && ev.ids == [1, far] && far != 1
    requires forall p: nat :: p < dc.symbolSize && |payload| == dc.symbolSize ==>
      EquationHolds(dc.F, ev, payload, Column(dc.F, Z, p), p)
    ensures GoodRun(dc, Z, Pair(Z(1), ev, payload), true)
  {
    var a := Pair(Z(1), ev, payload);
    assert a[..0] == [];
    assert Brings(a[0], 1, dc.symbolSize);
    assert Received(a, 1, dc.symbolSize);
    forall id | Lacks(a, id, dc.symbolSize) ensures id in {far} {
      assert id in ev.ids;
    }
    assert AllLacking(a, {far}, dc.symbolSize);
    assert !Covered(a[..0], 1);
    InOrderGood(dc, Z, a, true, {far});
  }

  // X with symbol 0 at `far`, and another in its place.
  ghost function Moved<T>(X: Sources<T>, far: nat, zeroth: seq<T>): Sources<T> {
    (id: nat) => if id == far then X(0) else if id == 0 then zeroth else X(id)
  }

  // The packet as it is read is true of the sources that have symbol 0 at `far`.
  lemma MovedHolds<T(!new)>(
    F: Field<T>, ev: EncodingVector<T>, heard: EncodingVector<T>, payload: seq<T>,
    X: Sources<T>, far: nat, zeroth: seq<T>, p: nat)
    requires IsField(F) && F.order > 1 && WellFormed(ev) && WellFormed(heard) && p < |payload|
    requires ev.ids == [1, 0] && heard == ev.(ids := [1, far]) && far > 1 && |ev.coefs| == 2
    requires payload[p] == EvSum(F, ev, Column(F, X, p), |ev.ids|)
    ensures EquationHolds(F, heard, payload, Column(F, Moved(X, far, zeroth), p), p)
  {
    EvSumAlike(F, ev, heard, Column(F, X, p), Column(F, Moved(X, far, zeroth), p), |ev.ids|);
    ResidualIsSum(F, heard, payload, Column(F, Moved(X, far, zeroth), p), p);
  }

  // With X(0) known as symbol `far`, and symbol 0 given up.
  ghost predicate Misled<T(!new)>(dc: Config<T>, X: Sources<T>, arrivals: seq<Arrival<T>>, far: nat)
    requires forall i :: 0 <= i < |arrivals| ==> Acceptable(dc, arrivals[i])
  {
    var known := KnownAfter(dc, arrivals);
    far in known && known[far] == X(0) && GivenUp(Events(dc, arrivals), 0)
  }

  lemma NotDelivered<T(!new)>(dc: Config<T>, X: Sources<T>, a: seq<Arrival<T>>, far: nat)
    requires IsField(dc.F) && dc.symbolSize > 0
    requires forall i :: 0 <= i < |a| ==> Acceptable(dc, a[i])
    requires forall zeroth :: |zeroth| == dc.symbolSize ==> EventsRight(Events(dc, a), Moved(X, far, zeroth))
    requires far != 0
    ensures !Delivered(Events(dc, a), 0)
  {
    var zeros, ones := Zeros(dc.F, dc.symbolSize), seq(dc.symbolSize, _ => dc.F.one);
    var A, B := Moved(X, far, zeros), Moved(X, far, ones);
    assert A(0)[0] == dc.F.zero && B(0)[0] == dc.F.one;
    assert EventsRight(Events(dc, a), A) && EventsRight(Events(dc, a), B);
  }

  // True of the sources that have symbol 0 at `far`, whatever they have at 0.
  ghost predicate MovedTruly<T(!new)>(dc: Config<T>, X: Sources<T>, heard: EncodingVector<T>, payload: seq<T>, far: nat)
    requires dc.F.order > 1
  {
    && WellFormed(heard) && heard.ids == [1, far] && |payload| == dc.symbolSize
    && forall zeroth: seq<T>, p: nat :: |zeroth| == dc.symbolSize && p < dc.symbolSize ==>
      EquationHolds(dc.F, heard, payload, Column(dc.F, Moved(X, far, zeroth), p), p)
  }

  lemma MovedRun<T(!new)>(
    dc: Config<T>, X: Sources<T>, heard: EncodingVector<T>, payload: seq<T>, far: nat, zeroth: seq<T>,
    a: seq<Arrival<T>>)
    requires IsField(dc.F) && dc.F.order > 1 && SourcesSized(X, dc.symbolSize) && dc.maxRows > 0
    requires MovedTruly(dc, X, heard, payload, far) && |zeroth| == dc.symbolSize && far > 1
    requires a == Pair(X(1), heard, payload)
    ensures forall i :: 0 <= i < |a| ==> Acceptable(dc, a[i])
    ensures var Z := Moved(X, far, zeroth);
            && SourcesSized(Z, dc.symbolSize) && GoodRun(dc, Z, a, true)
            && EventsRight(Events(dc, a), Z) && KnownRight(KnownAfter(dc, a), Z)
  {
    var Z := Moved(X, far, zeroth);
    PairGood(dc, Z, heard, payload, far);
    RunRight(dc, Z, a, true);
  }

  lemma OneRecovers<T(!new)>(dc: Config<T>, Z: Sources<T>, a: seq<Arrival<T>>, hit: nat, far: nat, at: Label)
    requires IsGenerated(dc.F) && SourcesSized(Z, dc.symbolSize) && dc.symbolSize > 0
    requires forall i :: 0 <= i < |a| ==> Acceptable(dc, a[i])
    requires GoodRun(dc, Z, a, true) && Repairs(dc, a, hit, [far], CauchyCoefs(dc.F, at))
    ensures far in KnownAfter(dc, a)
  {
    var lost := [far];
    CauchyRecovers(dc, Z, a, lost, [hit], [at]);
    assert lost[0] == far;
  }

  lemma PairRepairs<T(!new)>(
    dc: Config<T>, s1: seq<T>, heard: EncodingVector<T>, payload: seq<T>, far: nat, at: Label, a: seq<Arrival<T>>)
    requires dc.F.order > 1 && WellFormed(heard) && heard.ids == [1, far] && a == Pair(s1, heard, payload)
    requires |payload| == |s1| == dc.symbolSize && HasCoefs(dc.F, heard, CauchyCoefs(dc.F, at))
    ensures Repairs(dc, a, 1, [far], CauchyCoefs(dc.F, at)) && StartsAfter(a[1].packet, dc.symbolSize, 0)
  {
    assert Brings(a[0], 1, dc.symbolSize);
    assert Received(a, 1, dc.symbolSize);
    assert heard.ids[1] == far;
  }

  // Known for what it is not: right for sources that have symbol 0 at `far`.
  lemma MovedKnown<T(!new)>(dc: Config<T>, X: Sources<T>, far: nat, at: Label, zeros: seq<T>, a: seq<Arrival<T>>)
    requires IsGenerated(dc.F) && dc.symbolSize > 0 && SourcesSized(Moved(X, far, zeros), dc.symbolSize)
    requires forall i :: 0 <= i < |a| ==> Acceptable(dc, a[i])
    requires GoodRun(dc, Moved(X, far, zeros), a, true) && KnownRight(KnownAfter(dc, a), Moved(X, far, zeros))
    requires Repairs(dc, a, 1, [far], CauchyCoefs(dc.F, at))
    ensures far in KnownAfter(dc, a) && KnownAfter(dc, a)[far] == X(0)
  {
    OneRecovers(dc, Moved(X, far, zeros), a, 1, far, at);
  }

  lemma PassedGivenUp<T(!new)>(dc: Config<T>, X: Sources<T>, far: nat, a: seq<Arrival<T>>)
    requires IsField(dc.F) && dc.symbolSize > 0 && far != 0 && |a| > 1
    requires forall i :: 0 <= i < |a| ==> Acceptable(dc, a[i])
    requires forall zeroth :: |zeroth| == dc.symbolSize ==> EventsRight(Events(dc, a), Moved(X, far, zeroth))
    requires StartsAfter(a[1].packet, dc.symbolSize, 0)
    ensures GivenUp(Events(dc, a), 0)
  {
    NotDelivered(dc, X, a, far);
    GivenUpIff(dc, a, 0);
  }

  // ---------------------------------------------------------------- the session

  // What the decoder makes of 1, 0: the delta of -1 goes out as 65535.
  lemma ReversedHeard(cover: seq<nat>)
    requires cover == [1, 0]
    ensures I.Summed(cover) == [1, 65536]
  {
    I.SummedPair(1, 0);
  }

  // The points of 0 and 65536 are the same, and so are their coefficients.
  lemma ReversedCoefs<T(!new)>(F: Field<T>, at: Label, cover: seq<nat>)
    requires IsGenerated(F) && F.order == 256 && cover == [1, 0]
    ensures var heard := Heard(EncodingVector(at.codedId, at.generation, cover,
                                              CauchyBatch(F, cover, at.codedId, at.generation)));
            WellFormed(heard) && HasCoefs(F, heard, CauchyCoefs(F, at))
  {
    ReversedHeard(cover);
    forall id: nat ensures CauchyCoefs(F, at)(id) != F.zero {
      CauchyNonzero(F, id, at.codedId, at.generation);
    }
    assert SourcePoint(F.order, 65536) == SourcePoint(F.order, 0);
  }

  lemma ReversedTruly<T(!new)>(c: EncoderConfig<T>, dc: Config<T>, X: Sources<T>, n: nat, cover: seq<nat>)
    requires Quiet(c) && Sane(c, Plain(c, X, n).state.window) && Holds(c, Plain(c, X, n).state.window, cover)
    requires Matches(c, dc) && c.strategy == CauchyStrategy && cover == [1, 0]
    ensures var sent := MakePacket(c, Plain(c, X, n).state, cover);
            MovedTruly(dc, X, Heard(sent.ev), sent.payload, 65536)
  {
    var sent, far := MakePacket(c, Plain(c, X, n).state, cover), 65536;
    ReversedHeard(cover);
    forall zeroth: seq<T>, p: nat | |zeroth| == dc.symbolSize && p < dc.symbolSize
      ensures EquationHolds(dc.F, Heard(sent.ev), sent.payload, Column(dc.F, Moved(X, far, zeroth), p), p)
    {
      ListedPayload(c, X, n, cover, p);
      MovedHolds(dc.F, sent.ev, Heard(sent.ev), sent.payload, X, far, zeroth, p);
    }
  }

  // The packet crosses, and after source 1 it makes the decoder keep symbol 0 as symbol 65536.
  ghost predicate Misleads<T(!new)>(dc: Config<T>, k: Codec<T>, X: Sources<T>, sent: Packet<T>)
    requires IsField(dc.F) && dc.F.order > 1
  {
    && sent.CodedPacket? && WellFormed(Heard(sent.ev))
    && Crosses(k, sent, CodedPacket(Heard(sent.ev), sent.payload))
    && Misled(dc, X, Pair(X(1), Heard(sent.ev), sent.payload), 65536)
  }

  lemma MovedMisleads<T(!new)>(
    dc: Config<T>, k: Codec<T>, X: Sources<T>, sent: Packet<T>, heard: EncodingVector<T>, at: Label, a: seq<Arrival<T>>)
    requires IsGenerated(dc.F) && SourcesSized(X, dc.symbolSize) && dc.maxRows > 0 && dc.symbolSize > 0
    requires sent.CodedPacket? && heard == Heard(sent.ev) && MovedTruly(dc, X, heard, sent.payload, 65536)
    requires HasCoefs(dc.F, heard, CauchyCoefs(dc.F, at)) && Crosses(k, sent, CodedPacket(heard, sent.payload))
    requires a == Pair(X(1), heard, sent.payload)
    ensures Misleads(dc, k, X, sent)
  {
    var zeros := Zeros(dc.F, dc.symbolSize);
    MovedRun(dc, X, heard, sent.payload, 65536, zeros, a);
    PairRepairs(dc, X(1), heard, sent.payload, 65536, at, a);
    MovedKnown(dc, X, 65536, at, zeros, a);
    forall zeroth | |zeroth| == dc.symbolSize ensures EventsRight(Events(dc, a), Moved(X, 65536, zeroth)) {
      MovedRun(dc, X, heard, sent.payload, 65536, zeroth, a);
    }
    PassedGivenUp(dc, X, 65536, a);
  }

  lemma ReversedMisleads<T(!new)>(
    c: EncoderConfig<T>, dc: Config<T>, k: Codec<T>, X: Sources<T>, cover: seq<nat>, sent: Packet<T>, at: Label)
    requires IsGenerated(c.F) && Matches(c, dc) && Lossless(k) && SourcesSized(X, c.symbolSize) && c.symbolSize > 0
    requires c.F.order == 256 && c.strategy == CauchyStrategy && dc.maxRows > 0 && cover == [1, 0]
    requires at == FirstLabel(c.strategy) && sent.CodedPacket? && sent.ev == MakeVector(c, at, cover)
    requires MovedTruly(dc, X, Heard(sent.ev), sent.payload, 65536)
    ensures Misleads(dc, k, X, sent)
  {
    ReversedCoefs(c.F, at, cover);
    FirstCrosses(c, k, cover, sent.payload);
    MovedMisleads(dc, k, X, sent, Heard(sent.ev), at, Pair(X(1), Heard(sent.ev), sent.payload));
  }

  // Two submissions and a packet over 1 and 0 in this order, of which source 0 is lost: the packet
  // crosses, the decoder takes it for one over 1 and 65536, keeps symbol 0 as symbol 65536, which was
  // never submitted, and gives symbol 0 up although it is in the window.
  lemma ReversedCoverMisleads<T(!new)>(
    c: EncoderConfig<T>, dc: Config<T>, k: Codec<T>, X: Sources<T>, n: nat, cover: seq<nat>)
    requires Quiet(c) && Matches(c, dc) && IsGenerated(c.F) && SourcesSized(X, c.symbolSize) && Lossless(k)
    requires c.F.order == 256 && c.strategy == CauchyStrategy && dc.maxRows > 0
    requires n == 2 <= c.capacity && cover == [1, 0]
    ensures var s := After(c, ThenCall(X, n, Generating(Listed(cover))));
            && |s.sources| == n == |s.log| - 1 && Contains(s.state.window, 0)
            && s.log[1] == SourcePacket(1, X(1)) && Misleads(dc, k, X, s.log[n])
  {
    ListedIsSent(c, X, n, cover);
    ReversedTruly(c, dc, X, n, cover);
    var sent := MakePacket(c, Plain(c, X, n).state, cover);
    ReversedMisleads(c, dc, k, X, cover, sent, FirstLabel(c.strategy));
    assert Held(X, n)[0].id == 0;
  }
}
