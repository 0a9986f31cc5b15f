// The decoder with the repair of StalePivots.dfy: exact and optimal under every order of arrival.

module Repaired {
  import opened Fields
  import opened Rows
  import opened Elimination
  import opened Echelon
  import opened Optimal
  import opened StalePivots
  import opened Delivery
  import opened Decoding
  import opened Exactness

  function AfterSourceRekeyed<T(==,!new)>(c: Config<T>, st: State<T>, id: nat, data: seq<T>): State<T>
    requires IsField(c.F) && Sized(c, st) && |data| == c.symbolSize
  {
    var o := Rekey(c.F, st.rows, c.maxRows, id, data, st.known.Keys);
    Absorb(State(o.rows, Learned(st.known, id, data), Insert(st.buffer, id, data), st.winMin), o.recovered)
  }

  function RekeyedStep<T(==,!new)>(c: Config<T>, st: State<T>, a: Arrival<T>): Result<T>
    requires Acceptable(c, a) && Sized(c, st)
  {
    if a.packet.SourcePacket? && |a.packet.data| == c.symbolSize then
      Finish(AfterSourceRekeyed(c, st, a.packet.id, a.packet.data), a.report)
    else Step(c, st, a)
  }

  lemma RekeyedSized<T(!new)>(c: Config<T>, st: State<T>, a: Arrival<T>)
    requires Acceptable(c, a) && Sized(c, st)
    ensures Sized(c, RekeyedStep(c, st, a).state)
  {
    StepSized(c, st, a);
    if a.packet.SourcePacket? && |a.packet.data| == c.symbolSize {
      var id, data := a.packet.id, a.packet.data;
      var o := Rekey(c.F, st.rows, c.maxRows, id, data, st.known.Keys);
      AbsorbSized(c, State(o.rows, Learned(st.known, id, data), Insert(st.buffer, id, data), st.winMin), o.recovered);
    }
  }

  function RekeyedRun<T(==,!new)>(c: Config<T>, arrivals: seq<Arrival<T>>): (r: Result<T>)
    requires forall i :: 0 <= i < |arrivals| ==> Acceptable(c, arrivals[i])
    ensures Sized(c, r.state)
  {
    if arrivals == [] then Result(Start(), [])
    else
      var before := RekeyedRun(c, arrivals[..|arrivals| - 1]);
      var last := RekeyedStep(c, before.state, arrivals[|arrivals| - 1]);
      RekeyedSized(c, before.state, arrivals[|arrivals| - 1]);
      Result(last.state, before.events + last.events)
  }

  // ---------------------------------------------------------------- exactness

  lemma RekeyRight<T(!new)>(c: Config<T>, X: Sources<T>, st: State<T>, id: nat)
    requires IsField(c.F) && SourcesSized(X, c.symbolSize) && Inv(c, X, st)
    ensures var o := Rekey(c.F, st.rows, c.maxRows, id, X(id), st.known.Keys);
            && Settled(c.F, o.rows, st.known.Keys + {id} + Ids(o.recovered))
            && RowsRight(c.F, o.rows, X, c.symbolSize)
            && SymbolsRight(o.recovered, X)
  {
    var o := Rekey(c.F, st.rows, c.maxRows, id, X(id), st.known.Keys);
    RekeySettled(c.F, st.rows, c.maxRows, id, X(id), st.known.Keys);
    forall p: nat | p < c.symbolSize
      ensures Solves(c.F, o.rows, Column(c.F, X, p), p) && Agrees(o.recovered, Column(c.F, X, p), p)
    {
      RekeySound(c.F, st.rows, c.maxRows, id, X(id), st.known.Keys, Column(c.F, X, p), p);
    }
    AgreesRight(c.F, o.recovered, X, c.symbolSize);
  }

  lemma RekeyedKeeps<T(!new)>(c: Config<T>, X: Sources<T>, st: State<T>, id: nat)
    requires IsField(c.F) && SourcesSized(X, c.symbolSize) && Inv(c, X, st)
    ensures var r := AfterSourceRekeyed(c, st, id, X(id));
            && Inv(c, X, r)
            && r.known.Keys == st.known.Keys + {id}
               + Ids(Rekey(c.F, st.rows, c.maxRows, id, X(id), st.known.Keys).recovered)
  {
    var o := Rekey(c.F, st.rows, c.maxRows, id, X(id), st.known.Keys);
    RekeyRight(c, X, st, id);
    var s := State(o.rows, Learned(st.known, id, X(id)), Insert(st.buffer, id, X(id)), st.winMin);
    LearnedRight(c, X, st, id);
    AbsorbKeeps(c, X, s, o.recovered);
  }

  lemma RekeyedStepRight<T(!new)>(c: Config<T>, X: Sources<T>, st: State<T>, a: Arrival<T>)
    requires Acceptable(c, a) && SourcesSized(X, c.symbolSize) && Inv(c, X, st) && Truthful(c, X, a)
    ensures Inv(c, X, RekeyedStep(c, st, a).state) && EventsRight(RekeyedStep(c, st, a).events, X)
  {
    if a.packet.SourcePacket? && |a.packet.data| == c.symbolSize {
      RekeyedKeeps(c, X, st, a.packet.id);
      FinishRight(c, X, AfterSourceRekeyed(c, st, a.packet.id, a.packet.data), a.report);
    } else {
      StepRight(c, X, st, a);
    }
  }

  // Every symbol delivered carries what was sent, whatever is lost, repeated or reordered.
  lemma {:induction false} RekeyedRunRight<T(!new)>(c: Config<T>, X: Sources<T>, arrivals: seq<Arrival<T>>)
    requires SourcesSized(X, c.symbolSize)
    requires forall i :: 0 <= i < |arrivals| ==> Acceptable(c, arrivals[i]) && Truthful(c, X, arrivals[i])
    ensures Inv(c, X, RekeyedRun(c, arrivals).state) && EventsRight(RekeyedRun(c, arrivals).events, X)
  {
    if arrivals != [] {
      var init, a := arrivals[..|arrivals| - 1], arrivals[|arrivals| - 1];
      RekeyedRunRight(c, X, init);
      RekeyedStepRight(c, X, RekeyedRun(c, init).state, a);
    }
  }

  // ---------------------------------------------------------------- optimal recovery

  // No packet finds the matrix too full for its row.
  ghost predicate AlwaysRoomy<T(!new)>(c: Config<T>, arrivals: seq<Arrival<T>>)
    requires forall i :: 0 <= i < |arrivals| ==> Acceptable(c, arrivals[i])
  {
    arrivals == [] ||
    var init, a := arrivals[..|arrivals| - 1], arrivals[|arrivals| - 1];
    && AlwaysRoomy(c, init)
    && |RekeyedRun(c, init).state.rows| + (if a.packet.CodedPacket? then 1 else 0) <= c.maxRows
  }

  lemma RekeyedFits<T(!new)>(c: Config<T>, X: Sources<T>, st: State<T>, id: nat, x: Assignment<T>, p: nat)
    requires IsField(c.F) && SourcesSized(X, c.symbolSize) && Inv(c, X, st) && p < c.symbolSize
    requires |st.rows| <= c.maxRows && Sized(c, AfterSourceRekeyed(c, st, id, X(id)))
    ensures FitsState(c, X, AfterSourceRekeyed(c, st, id, X(id)), x, p)
       <==> FitsState(c, X, st, x, p) && x(id) == Column(c.F, X, p)(id)
  {
    var r, o := AfterSourceRekeyed(c, st, id, X(id)), Rekey(c.F, st.rows, c.maxRows, id, X(id), st.known.Keys);
    RekeyedKeeps(c, X, st, id);
    RekeyRight(c, X, st, id);
    RecoveredAgree(c.F, o.recovered, X, c.symbolSize, x, p);
    assert r.rows == o.rows;
    if x(id) == X(id)[p] {
      RekeyExplains(c, X, st, id, x, p);
    }
  }

  lemma RekeyExplains<T(!new)>(c: Config<T>, X: Sources<T>, st: State<T>, id: nat, x: Assignment<T>, p: nat)
    requires IsField(c.F) && SourcesSized(X, c.symbolSize) && Inv(c, X, st) && p < c.symbolSize
    requires |st.rows| <= c.maxRows && x(id) == X(id)[p]
    ensures Solves(c.F, st.rows, x, p)
       <==> Explains(c.F, Rekey(c.F, st.rows, c.maxRows, id, X(id), st.known.Keys), x, p, c.symbolSize)
  {
    var o := Rekey(c.F, st.rows, c.maxRows, id, X(id), st.known.Keys);
    if Solves(c.F, st.rows, x, p) {
      RekeySound(c.F, st.rows, c.maxRows, id, X(id), st.known.Keys, x, p);
    }
    if Explains(c.F, o, x, p, c.symbolSize) {
      RekeyComplete(c.F, st.rows, c.maxRows, id, X(id), st.known.Keys, Column(c.F, X, p), x, p);
    }
  }

  lemma RekeyedStepFits<T(!new)>(c: Config<T>, X: Sources<T>, st: State<T>, a: Arrival<T>, x: Assignment<T>, p: nat)
    requires Acceptable(c, a) && SourcesSized(X, c.symbolSize) && Inv(c, X, st) && p < c.symbolSize
    requires Truthful(c, X, a) && |st.rows| + (if a.packet.CodedPacket? then 1 else 0) <= c.maxRows
    requires Sized(c, RekeyedStep(c, st, a).state)
    ensures FitsState(c, X, RekeyedStep(c, st, a).state, x, p)
       <==> FitsState(c, X, st, x, p) && FitsPacket(c, X, a, x, p)
  {
    if a.packet.SourcePacket? && |a.packet.data| == c.symbolSize {
      RekeyedKeeps(c, X, st, a.packet.id);
      RekeyedFits(c, X, st, a.packet.id, x, p);
    } else {
      StepFits(c, X, st, a, x, p);
    }
  }

  lemma {:induction false} RekeyedRunFits<T(!new)>(
    c: Config<T>, X: Sources<T>, arrivals: seq<Arrival<T>>, x: Assignment<T>, p: nat)
    requires SourcesSized(X, c.symbolSize) && p < c.symbolSize && c.F.order > 1
    requires forall i :: 0 <= i < |arrivals| ==> Acceptable(c, arrivals[i]) && Truthful(c, X, arrivals[i])
    requires AlwaysRoomy(c, arrivals)
    ensures Usable(c, Collect(arrivals, c.symbolSize))
    ensures FitsState(c, X, RekeyedRun(c, arrivals).state, x, p)
       <==> Fits(c, X, Collect(arrivals, c.symbolSize), x, p)
  {
    CollectUsable(c, arrivals);
    if arrivals != [] {
      var init, a := arrivals[..|arrivals| - 1], arrivals[|arrivals| - 1];
      CollectUsable(c, init);
      RekeyedRunFits(c, X, init, x, p);
      RekeyedRunRight(c, X, init);
      var st := RekeyedRun(c, init).state;
      assert RekeyedRun(c, arrivals).state == RekeyedStep(c, st, a).state;
      RekeyedStepFits(c, X, st, a, x, p);
      AddFits(c, X, Collect(init, c.symbolSize), a, x, p);
    } else {
      StartFits(c, X, x, p);
    }
  }

  // A symbol is known exactly when what has arrived, in whatever order, determines it.
  lemma RekeyedOptimal<T(!new)>(c: Config<T>, X: Sources<T>, arrivals: seq<Arrival<T>>, id: nat)
    requires SourcesSized(X, c.symbolSize) && c.symbolSize > 0 && IsField(c.F) && c.F.order > 1
    requires forall i :: 0 <= i < |arrivals| ==> Acceptable(c, arrivals[i]) && Truthful(c, X, arrivals[i])
    requires AlwaysRoomy(c, arrivals)
    ensures Usable(c, Collect(arrivals, c.symbolSize))
    ensures id in RekeyedRun(c, arrivals).state.known <==> Determined(c, X, Collect(arrivals, c.symbolSize), id)
  {
    var e, st := Collect(arrivals, c.symbolSize), RekeyedRun(c, arrivals).state;
    CollectUsable(c, arrivals);
    RekeyedRunRight(c, X, arrivals);
    if id in st.known {
      forall x: Assignment<T>, p: nat | p < c.symbolSize && Fits(c, X, e, x, p)
        ensures x(id) == Column(c.F, X, p)(id)
      {
        RekeyedRunFits(c, X, arrivals, x, p);
      }
    } else {
      var y := UnknownIsFree(c.F, st.rows, c.symbolSize, st.known.Keys, id, Column(c.F, X, 0), 0);
      RekeyedRunFits(c, X, arrivals, y, 0);
      assert FitsState(c, X, st, y, 0);
    }
  }
}
