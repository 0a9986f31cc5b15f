// What is known is settled: delivered, given up or waiting in the buffer; and what is delivered or
// waits is known.

module Settlement {
  import opened Fields
  import opened Rows
  import opened Elimination
  import Equations
  import opened Delivery
  import opened Decoding
  import opened Exactness
  import opened Streams
  import opened Gaps

  // ---------------------------------------------------------------- known and buffered

  // A known symbol has passed through the buffer, and one that waits there is known with its data.
  ghost predicate Balanced<T>(known: map<nat, seq<T>>, b: Buffer<T>) {
    && Ahead(b)
    && (forall id :: id in known ==> Settles(b, id))
    && (forall id :: id in b.symbols ==> id in known && known[id] == b.symbols[id])
  }

  ghost predicate StateBalanced<T>(st: State<T>) {
    Balanced(st.known, st.buffer)
  }

  lemma EnterBalanced<T>(known: map<nat, seq<T>>, b: Buffer<T>, id: nat, data: seq<T>)
    requires Balanced(known, b)
    ensures Balanced(Learned(known, id, data), Insert(b, id, data)) && KnownStays(known, Learned(known, id, data))
  {
  }

  lemma {:induction false} AbsorbBalanced<T>(st: State<T>, s: seq<Symbol<T>>)
    requires StateBalanced(st)
    ensures StateBalanced(Absorb(st, s)) && KnownStays(st.known, Absorb(st, s).known)
  {
    if s != [] {
      var last, before := s[|s| - 1], Absorb(st, s[..|s| - 1]);
      AbsorbBalanced(st, s[..|s| - 1]);
      EnterBalanced(before.known, before.buffer, last.id, last.data);
    }
  }

  // Every symbol delivered is known, with the data delivered.
  ghost predicate Vouched<T>(events: seq<Event<T>>, known: map<nat, seq<T>>) {
    forall i :: 0 <= i < |events| && events[i].SourceReady? ==>
      events[i].sym.id in known && known[events[i].sym.id] == events[i].sym.data
  }

  lemma FinishVouched<T>(st: State<T>, report: bool)
    requires StateBalanced(st)
    ensures Vouched(Finish(st, report).events, st.known)
  {
    var d := Drain(st.buffer);
    FinishIs(st, report, d);
    assert Vouched(Ready(d.out), st.known);
  }

  lemma FinishBalanced<T>(st: State<T>, report: bool)
    requires StateBalanced(st)
    ensures StateBalanced(Finish(st, report).state) && Finish(st, report).state.known == st.known
  {
    var d := Drain(st.buffer);
    FinishIs(st, report, d);
    PassBalanced(st.known, d.buffer, st.winMin);
  }

  lemma PassBalanced<T>(known: map<nat, seq<T>>, b: Buffer<T>, winMin: nat)
    requires Balanced(known, b)
    ensures Balanced(known, PassGap(b, winMin))
  {
  }

  // ---------------------------------------------------------------- the front of the buffer

  ghost predicate EndsInGap<T>(events: seq<Event<T>>) {
    events != [] && events[|events| - 1].UnrecoverableGap?
  }

  ghost function GapEnd<T>(events: seq<Event<T>>): nat
    requires EndsInGap(events)
  {
    events[|events| - 1].firstMissing + events[|events| - 1].count
  }

  // The buffer's front is empty, but for a gap passed last: what waits behind that is not looked at.
  ghost predicate Fronted<T>(events: seq<Event<T>>, b: Buffer<T>) {
    && (b.next in b.symbols ==> EndsInGap(events))
    && (EndsInGap(events) ==> GapEnd(events) == b.next)
  }

  lemma FinishFronted<T>(st: State<T>, report: bool, before: seq<Event<T>>)
    requires EndsInGap(before) ==> GapEnd(before) == st.buffer.next
    ensures Fronted(before + Finish(st, report).events, Finish(st, report).state.buffer)
  {
    var d, r := Drain(st.buffer), Finish(st, report);
    FinishIs(st, report, d);
    var all := before + r.events;
    if st.winMin > d.buffer.next {
      assert all[|all| - 1] == UnrecoverableGap(d.buffer.next, st.winMin - d.buffer.next);
    } else if r.events == [] {
      assert all == before;
      assert d.out == [];
    } else {
      assert all[|all| - 1] == r.events[|r.events| - 1];
      assert !r.events[|r.events| - 1].UnrecoverableGap?;
    }
  }

  // ---------------------------------------------------------------- runs

  lemma SourceBalanced<T(!new)>(c: Config<T>, st: State<T>, id: nat, data: seq<T>)
    requires Sized(c, st) && |data| == c.symbolSize && StateBalanced(st)
    ensures var r := AfterSource(c, st, id, data);
            && StateBalanced(r) && KnownStays(st.known, r.known) && r.buffer.next == st.buffer.next
            && Settles(r.buffer, id) && id in r.known
  {
    var o := Learn(c.F, st.rows, id, data, st.known.Keys + {id});
    EnterBalanced(st.known, st.buffer, id, data);
    AbsorbBalanced(State(o.rows, Learned(st.known, id, data), Insert(st.buffer, id, data), st.winMin), o.recovered);
  }

  lemma CodedBalanced<T(!new)>(c: Config<T>, st: State<T>, ev: Equations.EncodingVector<T>, payload: seq<T>)
    requires IsField(c.F) && c.F.order > 1 && Equations.WellFormed(ev)
    requires Sized(c, st) && |payload| == c.symbolSize && StateBalanced(st)
    ensures var r := AfterCoded(c, st, ev, payload);
            StateBalanced(r) && KnownStays(st.known, r.known) && r.buffer.next == st.buffer.next
  {
    var o := AddCoded(c.F, st.rows, c.maxRows, Equations.CoefMap(c.F, ev, |ev.ids|), payload, st.known);
    AbsorbBalanced(State(o.rows, st.known, st.buffer, WindowMin(st.winMin, ev)), o.recovered);
  }

  // What one packet keeps, whatever it says.
  lemma StepBalanced<T(!new)>(c: Config<T>, st: State<T>, a: Arrival<T>, before: seq<Event<T>>)
    requires Acceptable(c, a) && Sized(c, st) && StateBalanced(st) && Fronted(before, st.buffer)
    ensures var r := Step(c, st, a);
            && StateBalanced(r.state) && KnownStays(st.known, r.state.known) && Vouched(r.events, r.state.known)
            && Fronted(before + r.events, r.state.buffer)
            && (a.packet.SourcePacket? && |a.packet.data| == c.symbolSize ==> a.packet.id in r.state.known)
  {
    match a.packet
    case SourcePacket(id, data) =>
      if |data| == c.symbolSize {
        var t := AfterSource(c, st, id, data);
        SourceBalanced(c, st, id, data);
        FinishBalanced(t, a.report);
        FinishVouched(t, a.report);
        FinishFronted(t, a.report, before);
      } else {
        assert before + [] == before;
      }
    case CodedPacket(ev, payload) =>
      if |payload| == c.symbolSize {
        var t := AfterCoded(c, st, ev, payload);
        CodedBalanced(c, st, ev, payload);
        FinishBalanced(t, a.report);
        FinishVouched(t, a.report);
        FinishFronted(t, a.report, before);
      } else {
        assert before + [] == before;
      }
  }

  lemma {:induction false} RunBalanced<T(!new)>(c: Config<T>, arrivals: seq<Arrival<T>>)
    requires forall i :: 0 <= i < |arrivals| ==> Acceptable(c, arrivals[i])
    ensures var r := Run(c, Start(), arrivals);
            StateBalanced(r.state) && Vouched(r.events, r.state.known) && Fronted(r.events, r.state.buffer)
  {
    if arrivals != [] {
      var init, a := arrivals[..|arrivals| - 1], arrivals[|arrivals| - 1];
      RunBalanced(c, init);
      var b := Run(c, Start(), init);
      StepBalanced(c, b.state, a, b.events);
      assert Vouched(b.events + Step(c, b.state, a).events, Step(c, b.state, a).state.known);
    }
  }

  // A source packet makes its symbol known, however late it comes.
  lemma {:induction false} ReceivedIsKnown<T(!new)>(c: Config<T>, arrivals: seq<Arrival<T>>, id: nat)
    requires forall i :: 0 <= i < |arrivals| ==> Acceptable(c, arrivals[i])
    requires Received(arrivals, id, c.symbolSize)
    ensures id in Run(c, Start(), arrivals).state.known
  {
    ReceivedLast(arrivals, id, c.symbolSize);
    var init, a := arrivals[..|arrivals| - 1], arrivals[|arrivals| - 1];
    RunBalanced(c, init);
    var b := Run(c, Start(), init);
    StepBalanced(c, b.state, a, b.events);
    if Received(init, id, c.symbolSize) {
      ReceivedIsKnown(c, init, id);
    }
  }

  // The symbols that wait to be delivered.
  ghost function Waiting<T(!new)>(c: Config<T>, arrivals: seq<Arrival<T>>): map<nat, seq<T>>
    requires forall j :: 0 <= j < |arrivals| ==> Acceptable(c, arrivals[j])
  {
    Run(c, Start(), arrivals).state.buffer.symbols
  }

  // Whatever arrives in whatever order: what is known is delivered, given up or waiting, and what is
  // delivered or waiting is known.
  lemma KnownIsSettled<T(!new)>(c: Config<T>, arrivals: seq<Arrival<T>>, id: nat)
    requires forall j :: 0 <= j < |arrivals| ==> Acceptable(c, arrivals[j])
    ensures var events := Events(c, arrivals);
            && (id in KnownAfter(c, arrivals) ==>
                  Delivered(events, id) || GivenUp(events, id) || id in Waiting(c, arrivals))
            && (Delivered(events, id) || id in Waiting(c, arrivals) ==> id in KnownAfter(c, arrivals))
  {
    var r := Run(c, Start(), arrivals);
    RunBalanced(c, arrivals);
    RunTiles(c, Start(), arrivals);
    EitherWay(r.events, r.state.buffer.next, id);
  }

  // The data, too: a symbol is delivered, and waits, as it is known.
  lemma DeliveredAsKnown<T(!new)>(c: Config<T>, arrivals: seq<Arrival<T>>, i: nat)
    requires forall j :: 0 <= j < |arrivals| ==> Acceptable(c, arrivals[j])
    requires i < |Events(c, arrivals)| && Events(c, arrivals)[i].SourceReady?
    ensures var sym := Events(c, arrivals)[i].sym;
            sym.id in KnownAfter(c, arrivals) && KnownAfter(c, arrivals)[sym.id] == sym.data
  {
    RunBalanced(c, arrivals);
  }

  // ---------------------------------------------------------------- when what is known comes out

  // The last event passes a gap that ends at or before id: what is behind it waits for the next packet.
  ghost predicate Stalls<T>(events: seq<Event<T>>, id: nat) {
    EndsInGap(events) && GapEnd(events) <= id
  }

  // Every id up to this one is known, or passed over by a cover.
  ghost predicate Accounted<T(!new)>(c: Config<T>, arrivals: seq<Arrival<T>>, id: nat)
    requires forall j :: 0 <= j < |arrivals| ==> Acceptable(c, arrivals[j])
  {
    forall j: nat :: j <= id ==> j in KnownAfter(c, arrivals) || Passed(arrivals, c.symbolSize, j)
  }

  lemma AccountedSettles<T(!new)>(c: Config<T>, arrivals: seq<Arrival<T>>, id: nat, j: nat)
    requires forall j :: 0 <= j < |arrivals| ==> Acceptable(c, arrivals[j])
    requires Accounted(c, arrivals, id) && j <= id
    ensures Settles(Run(c, Start(), arrivals).state.buffer, j)
  {
    RunBalanced(c, arrivals);
    if Passed(arrivals, c.symbolSize, j) {
      PassedIsBehind(c, arrivals, j);
    }
  }

  // With everything up to it accounted for, an id is delivered or given up, exactly when it does not
  // wait behind a gap that the last packet opened.
  lemma OutIffNotStalled<T(!new)>(c: Config<T>, arrivals: seq<Arrival<T>>, id: nat)
    requires forall j :: 0 <= j < |arrivals| ==> Acceptable(c, arrivals[j])
    requires Accounted(c, arrivals, id)
    ensures var events := Events(c, arrivals);
            Delivered(events, id) || GivenUp(events, id) <==> !Stalls(events, id)
  {
    var r := Run(c, Start(), arrivals);
    RunBalanced(c, arrivals);
    RunTiles(c, Start(), arrivals);
    EitherWay(r.events, r.state.buffer.next, id);
    if r.state.buffer.next <= id {
      AccountedSettles(c, arrivals, id, r.state.buffer.next);
    }
  }

  // Unless some cover starts after it, it is delivered.
  lemma DeliveredIff<T(!new)>(c: Config<T>, arrivals: seq<Arrival<T>>, id: nat)
    requires forall j :: 0 <= j < |arrivals| ==> Acceptable(c, arrivals[j])
    requires Accounted(c, arrivals, id) && !Passed(arrivals, c.symbolSize, id)
    ensures Delivered(Events(c, arrivals), id) <==> !Stalls(Events(c, arrivals), id)
  {
    OutIffNotStalled(c, arrivals, id);
    GivenUpIff(c, arrivals, id);
  }
}
