// What the decoder gives up, and whether the encoder could still send it.

module Gaps {
  import opened Fields
  import opened Elimination
  import opened Windows
  import opened Delivery
  import opened Decoding
  import opened Exactness
  import opened Streams
  import opened Encoding
  import opened Sessions
  import opened QuietSessions
  import opened LoneCoded
  import Acks
  import Coefficients
  import Equations

  // ---------------------------------------------------------------- gaps

  // With full-window covers only: every id in the window is at or after the start of every cover sent.
  ghost predicate StartsBefore<T>(floor: nat, w: Window<T>) {
    forall i :: 0 <= i < |w.symbols| ==> floor <= w.symbols[i].id
  }

  ghost predicate CoversStartBefore<T>(s: Session<T>) {
    forall k :: 0 <= k < |s.log| && s.log[k].CodedPacket? && s.log[k].ev.ids != [] ==>
      StartsBefore(s.log[k].ev.ids[0], s.state.window)
  }

  // `later` has only ids of the window and ids beyond it.
  ghost predicate MovesOn<T>(w: Window<T>, later: Window<T>) {
    w.nextId <= later.nextId && forall i :: 0 <= i < |later.symbols| ==>
      w.nextId <= later.symbols[i].id || Contains(w, later.symbols[i].id)
  }

  ghost predicate LogBelow<T>(s: Session<T>) {
    forall k :: 0 <= k < |s.log| && s.log[k].CodedPacket? && s.log[k].ev.ids != [] ==>
      s.log[k].ev.ids[0] < s.state.window.nextId
  }

  ghost predicate Behind<T>(s: Session<T>) {
    CoversStartBefore(s) && LogBelow(s)
  }

  lemma MoveKeeps<T>(s: Session<T>, w: Window<T>)
    requires Behind(s) && MovesOn(s.state.window, w)
    ensures Behind(s.(state := s.state.(window := w)))
  {
    forall k, i | 0 <= k < |s.log| && s.log[k].CodedPacket? && s.log[k].ev.ids != [] && 0 <= i < |w.symbols|
      ensures s.log[k].ev.ids[0] <= w.symbols[i].id
    {
      if Contains(s.state.window, w.symbols[i].id) {
        var sym :| sym in s.state.window.symbols && sym.id == w.symbols[i].id;
      }
    }
  }

  lemma AppendKeeps<T>(s: Session<T>, packet: Packet<T>)
    requires Behind(s) && s.state.window.symbols != [] && Orderly(s.state.window) && packet.CodedPacket?
    requires packet.ev.ids != [] && packet.ev.ids[0] == s.state.window.symbols[0].id
    ensures Behind(s.(log := s.log + [packet]))
  {
    var log := s.log + [packet];
    forall k | 0 <= k < |log| && log[k].CodedPacket? && log[k].ev.ids != []
      ensures log[k].ev.ids[0] < s.state.window.nextId
      ensures forall i :: 0 <= i < |s.state.window.symbols| ==> log[k].ev.ids[0] <= s.state.window.symbols[i].id
    {
      if k < |s.log| {
        assert log[k] == s.log[k];
      }
    }
  }

  lemma EverythingKeeps<T(!new)>(c: EncoderConfig<T>, s: Session<T>)
    requires Built(c) && Sane(c, s.state.window) && Behind(s)
    ensures Behind(Apply(c, s, Generating(Everything)))
  {
    var cover := CoverOf(s.state, Everything);
    FindsInWindow(c, s.state.window, cover);
    if cover != [] {
      VectorFormed(c, s.state.at, cover);
      AppendKeeps(s, MakePacket(c, s.state, cover));
    } else {
      assert s.log + [] == s.log;
    }
  }

  lemma BurstKeeps<T(!new)>(c: EncoderConfig<T>, s: Session<T>, n: nat)
    requires Built(c) && Sane(c, s.state.window) && Behind(s)
    ensures Behind(Bursted(c, s, n))
  {
    forall t: Session<T> | Sane(c, t.state.window) && Behind(t) ensures Behind(Apply(c, t, Generating(Everything))) {
      EverythingKeeps(c, t);
    }
    BurstKept(c, s, n, t => Behind(t));
  }

  lemma SubmitKeeps<T(!new)>(c: EncoderConfig<T>, s: Session<T>, data: seq<T>)
    requires Built(c) && Sane(c, s.state.window) && Behind(s)
    ensures Behind(Apply(c, s, Submitting(data)))
  {
    if Submit(c, s.state, data).Accepted? {
      var w, mid := s.state.window, MidSubmit(c, s, data);
      forall i | 0 <= i < |mid.state.window.symbols|
        ensures w.nextId <= mid.state.window.symbols[i].id || Contains(w, mid.state.window.symbols[i].id)
      {
        if i < |mid.state.window.symbols| - 1 {
          assert mid.state.window.symbols[i] in w.symbols;
        }
      }
      MoveKeeps(s, mid.state.window);
      SubmitIsBurst(c, s, data);
      assert mid.log[..|s.log|] == s.log;
      BurstKeeps(c, mid, Redundancy(c, s.state.fecCalls));
    }
  }

  lemma HearKeeps<T(!new)>(c: EncoderConfig<T>, s: Session<T>, op: Op<T>)
    requires Built(c) && Sane(c, s.state.window) && Behind(s) && op.Hearing?
    ensures Behind(Apply(c, s, op))
  {
    var w := Apply(c, s, op).state.window;
    forall i | 0 <= i < |w.symbols| ensures Contains(s.state.window, w.symbols[i].id) {
      assert w.symbols[i] in s.state.window.symbols;
    }
    MoveKeeps(s, w);
  }

  ghost predicate FullWindowOnly<T>(ops: seq<Op<T>>) {
    forall i :: 0 <= i < |ops| && ops[i].Generating? ==> ops[i].choice == Everything
  }

  lemma {:induction false} FullWindowsStartBefore<T(!new)>(c: EncoderConfig<T>, ops: seq<Op<T>>)
    requires Built(c) && FullWindowOnly(ops)
    ensures Behind(After(c, ops))
  {
    if ops != [] {
      var init, op := ops[..|ops| - 1], ops[|ops| - 1];
      assert forall i :: 0 <= i < |init| ==> init[i] == ops[i];
      FullWindowsStartBefore(c, init);
      var s := After(c, init);
      match op
      case Submitting(data) => SubmitKeeps(c, s, data);
      case Generating(choice) => EverythingKeeps(c, s);
      case Hearing(_, _) => HearKeeps(c, s, op);
    }
  }

  // A packet that is accepted and whose cover starts at `floor`.
  ghost predicate Opens<T>(a: Arrival<T>, n: nat, floor: nat) {
    a.packet.CodedPacket? && |a.packet.payload| == n && a.packet.ev.ids != [] && a.packet.ev.ids[0] == floor
  }

  // The decoder's idea of the window: zero, or where some cover that arrived starts.
  ghost predicate StartsAt<T>(arrivals: seq<Arrival<T>>, n: nat, floor: nat) {
    exists k :: 0 <= k < |arrivals| && Opens(arrivals[k], n, floor)
  }

  lemma StartsStill<T>(arrivals: seq<Arrival<T>>, n: nat, floor: nat)
    requires arrivals != [] && StartsAt(arrivals[..|arrivals| - 1], n, floor)
    ensures StartsAt(arrivals, n, floor)
  {
    var init := arrivals[..|arrivals| - 1];
    var k :| 0 <= k < |init| && Opens(init[k], n, floor);
    assert arrivals[k] == init[k];
  }

  ghost predicate GapsEndAtStarts<T>(arrivals: seq<Arrival<T>>, n: nat, events: seq<Event<T>>) {
    forall i :: 0 <= i < |events| && events[i].UnrecoverableGap? ==>
      StartsAt(arrivals, n, events[i].firstMissing + events[i].count)
  }

  lemma FinishGaps<T>(st: State<T>, report: bool, i: nat)
    requires i < |Finish(st, report).events| && Finish(st, report).events[i].UnrecoverableGap?
    ensures Finish(st, report).events[i].firstMissing + Finish(st, report).events[i].count == st.winMin > 0
  {
    var d := Drain(st.buffer);
    assert i >= |Ready(d.out)|;
  }

  lemma StepGaps<T(!new)>(c: Config<T>, st: State<T>, a: Arrival<T>)
    requires Acceptable(c, a) && Sized(c, st)
    ensures var r := Step(c, st, a);
            && (r.state.winMin == st.winMin || Opens(a, c.symbolSize, r.state.winMin))
            && forall i :: 0 <= i < |r.events| && r.events[i].UnrecoverableGap? ==>
                 r.events[i].firstMissing + r.events[i].count == r.state.winMin > 0
  {
    match a.packet
    case SourcePacket(id, data) =>
      if |data| == c.symbolSize {
        var s := AfterSource(c, st, id, data);
        forall i | 0 <= i < |Finish(s, a.report).events| && Finish(s, a.report).events[i].UnrecoverableGap?
          ensures Finish(s, a.report).events[i].firstMissing + Finish(s, a.report).events[i].count == s.winMin > 0
        {
          FinishGaps(s, a.report, i);
        }
      }
    case CodedPacket(ev, payload) =>
      if |payload| == c.symbolSize {
        var s := AfterCoded(c, st, ev, payload);
        forall i | 0 <= i < |Finish(s, a.report).events| && Finish(s, a.report).events[i].UnrecoverableGap?
          ensures Finish(s, a.report).events[i].firstMissing + Finish(s, a.report).events[i].count == s.winMin > 0
        {
          FinishGaps(s, a.report, i);
        }
      }
  }

  // One more arrival, whose events report gaps that end where the window is now thought to start.
  lemma GapsGrow<T>(arrivals: seq<Arrival<T>>, n: nat, before: seq<Event<T>>, more: seq<Event<T>>, floor: nat)
    requires arrivals != [] && GapsEndAtStarts(arrivals[..|arrivals| - 1], n, before)
    requires floor > 0 ==> StartsAt(arrivals, n, floor)
    requires forall i :: 0 <= i < |more| && more[i].UnrecoverableGap? ==>
      more[i].firstMissing + more[i].count == floor > 0
    ensures GapsEndAtStarts(arrivals, n, before + more)
  {
    forall i | 0 <= i < |before| && before[i].UnrecoverableGap?
      ensures StartsAt(arrivals, n, before[i].firstMissing + before[i].count)
    {
      StartsStill(arrivals, n, before[i].firstMissing + before[i].count);
    }
  }

  lemma StartMoves<T>(arrivals: seq<Arrival<T>>, n: nat, before: nat, floor: nat)
    requires arrivals != [] && (before == 0 || StartsAt(arrivals[..|arrivals| - 1], n, before))
    requires floor == before || Opens(arrivals[|arrivals| - 1], n, floor)
    ensures floor == 0 || StartsAt(arrivals, n, floor)
  {
    if floor == before && before > 0 {
      StartsStill(arrivals, n, before);
    }
  }

  ghost predicate Started<T>(arrivals: seq<Arrival<T>>, n: nat, r: Result<T>) {
    (r.state.winMin == 0 || StartsAt(arrivals, n, r.state.winMin)) && GapsEndAtStarts(arrivals, n, r.events)
  }

  lemma StepStarted<T(!new)>(c: Config<T>, arrivals: seq<Arrival<T>>, before: Result<T>)
    requires arrivals != [] && Started(arrivals[..|arrivals| - 1], c.symbolSize, before)
    requires Acceptable(c, arrivals[|arrivals| - 1]) && Sized(c, before.state)
    ensures var last := Step(c, before.state, arrivals[|arrivals| - 1]);
            Started(arrivals, c.symbolSize, Result(last.state, before.events + last.events))
  {
    var a := arrivals[|arrivals| - 1];
    var last := Step(c, before.state, a);
    StepGaps(c, before.state, a);
    StartMoves(arrivals, c.symbolSize, before.state.winMin, last.state.winMin);
    GapsGrow(arrivals, c.symbolSize, before.events, last.events, last.state.winMin);
  }

  lemma {:induction false} RunGaps<T(!new)>(c: Config<T>, arrivals: seq<Arrival<T>>)
    requires forall k :: 0 <= k < |arrivals| ==> Acceptable(c, arrivals[k])
    ensures Started(arrivals, c.symbolSize, Run(c, Start(), arrivals))
  {
    if arrivals != [] {
      var init := arrivals[..|arrivals| - 1];
      RunGaps(c, init);
      StepStarted(c, arrivals, Run(c, Start(), init));
    }
  }

  // When every coded packet covers the full window, what the decoder gives up is out of the
  // encoder's window for good: no later coded packet can cover it.
  lemma GapsAreGone<T(!new)>(
    c: EncoderConfig<T>, dc: Config<T>, ops: seq<Op<T>>, pick: seq<nat>, arrivals: seq<Arrival<T>>, i: nat, id: nat)
    requires Built(c) && FullWindowOnly(ops) && Picked(After(c, ops).log, pick, arrivals)
    requires forall k :: 0 <= k < |arrivals| ==> Acceptable(dc, arrivals[k])
    requires i < |Run(dc, Start(), arrivals).events| && Run(dc, Start(), arrivals).events[i].UnrecoverableGap?
    requires Covers(Run(dc, Start(), arrivals).events[i], id)
    ensures !Contains(After(c, ops).state.window, id)
  {
    var s, e := After(c, ops), Run(dc, Start(), arrivals).events[i];
    RunGaps(dc, arrivals);
    FullWindowsStartBefore(c, ops);
    var k :| 0 <= k < |arrivals| && Opens(arrivals[k], dc.symbolSize, e.firstMissing + e.count);
    assert s.log[pick[k]] == arrivals[k].packet;
    assert forall j :: 0 <= j < |s.state.window.symbols| ==> e.firstMissing + e.count <= s.state.window.symbols[j].id;
  }

  // ---------------------------------------------------------------- when an id is given up

  ghost predicate GivenUp<T>(events: seq<Event<T>>, id: nat) {
    exists i :: 0 <= i < |events| && events[i].UnrecoverableGap? && Covers(events[i], id)
  }

  ghost predicate Delivered<T>(events: seq<Event<T>>, id: nat) {
    exists i :: 0 <= i < |events| && events[i].SourceReady? && Covers(events[i], id)
  }

  ghost predicate StartsAfter<T>(packet: Packet<T>, n: nat, id: nat) {
    packet.CodedPacket? && |packet.payload| == n && packet.ev.ids != [] && packet.ev.ids[0] > id
  }

  // Some cover that arrived starts after the id.
  ghost predicate Passed<T>(arrivals: seq<Arrival<T>>, n: nat, id: nat) {
    exists k :: 0 <= k < |arrivals| && StartsAfter(arrivals[k].packet, n, id)
  }

  lemma StepPasses<T(!new)>(c: Config<T>, st: State<T>, a: Arrival<T>, floor: nat)
    requires Acceptable(c, a) && Sized(c, st) && (st.winMin >= floor || Opens(a, c.symbolSize, floor))
    requires st.buffer.next >= st.winMin
    ensures Step(c, st, a).state.buffer.next >= Step(c, st, a).state.winMin >= floor
  {
  }

  // The delivery pointer is never behind the start of a cover that arrived.
  lemma {:induction false} RunPasses<T(!new)>(c: Config<T>, arrivals: seq<Arrival<T>>, k: nat, floor: nat)
    requires forall j :: 0 <= j < |arrivals| ==> Acceptable(c, arrivals[j])
    ensures var st := Run(c, Start(), arrivals).state;
            && st.buffer.next >= st.winMin
            && (k < |arrivals| && Opens(arrivals[k], c.symbolSize, floor) ==> st.winMin >= floor)
  {
    if arrivals != [] {
      var init, a := arrivals[..|arrivals| - 1], arrivals[|arrivals| - 1];
      RunPasses(c, init, k, floor);
      var st := Run(c, Start(), init).state;
      StepPasses(c, st, a, if k < |arrivals| && Opens(arrivals[k], c.symbolSize, floor) then floor else 0);
    }
  }

  // Tiling leaves an id below the pointer two ways, and only one of them.
  lemma EitherWay<T>(events: seq<Event<T>>, next: nat, id: nat)
    requires Tiles(events, 0, next)
    ensures id < next <==> GivenUp(events, id) || Delivered(events, id)
    ensures !(GivenUp(events, id) && Delivered(events, id))
  {
    TilesOnce(events, 0, next, id);
    if id < next {
      var i :| 0 <= i < |events| && Covers(events[i], id);
      assert events[i].UnrecoverableGap? || events[i].SourceReady?;
    }
  }

  lemma PassedIsBehind<T(!new)>(c: Config<T>, arrivals: seq<Arrival<T>>, id: nat)
    requires forall j :: 0 <= j < |arrivals| ==> Acceptable(c, arrivals[j])
    requires Passed(arrivals, c.symbolSize, id)
    ensures id < Run(c, Start(), arrivals).state.buffer.next
  {
    var k :| 0 <= k < |arrivals| && StartsAfter(arrivals[k].packet, c.symbolSize, id);
    RunPasses(c, arrivals, k, arrivals[k].packet.ev.ids[0]);
  }

  lemma GivenUpIsPassed<T>(arrivals: seq<Arrival<T>>, n: nat, events: seq<Event<T>>, id: nat)
    requires GapsEndAtStarts(arrivals, n, events) && GivenUp(events, id)
    ensures Passed(arrivals, n, id)
  {
    var i :| 0 <= i < |events| && events[i].UnrecoverableGap? && Covers(events[i], id);
    var floor := events[i].firstMissing + events[i].count;
    assert StartsAt(arrivals, n, floor);
    var k :| 0 <= k < |arrivals| && Opens(arrivals[k], n, floor);
    assert StartsAfter(arrivals[k].packet, n, id);
  }

  ghost function Events<T(!new)>(c: Config<T>, arrivals: seq<Arrival<T>>): seq<Event<T>>
    requires forall j :: 0 <= j < |arrivals| ==> Acceptable(c, arrivals[j])
  {
    Run(c, Start(), arrivals).events
  }

  // An id is given up exactly when it is not delivered and some cover that arrived starts after it.
  lemma GivenUpIff<T(!new)>(c: Config<T>, arrivals: seq<Arrival<T>>, id: nat)
    requires forall j :: 0 <= j < |arrivals| ==> Acceptable(c, arrivals[j])
    ensures var events := Events(c, arrivals);
            GivenUp(events, id) <==> !Delivered(events, id) && Passed(arrivals, c.symbolSize, id)
  {
    RunTiles(c, Start(), arrivals);
    EitherWay(Events(c, arrivals), Run(c, Start(), arrivals).state.buffer.next, id);
    if Passed(arrivals, c.symbolSize, id) {
      PassedIsBehind(c, arrivals, id);
    }
    if GivenUp(Events(c, arrivals), id) {
      RunGaps(c, arrivals);
      GivenUpIsPassed(arrivals, c.symbolSize, Events(c, arrivals), id);
    }
  }

  // A packet of the log that arrived covers ids after this one only.
  ghost predicate PassedOver<T>(log: seq<Packet<T>>, pick: seq<nat>, n: nat, id: nat) {
    exists k :: 0 <= k < |pick| && pick[k] < |log| && StartsAfter(log[pick[k]], n, id)
  }

  lemma PickedPasses<T>(log: seq<Packet<T>>, pick: seq<nat>, arrivals: seq<Arrival<T>>, n: nat, id: nat)
    requires Picked(log, pick, arrivals)
    ensures Passed(arrivals, n, id) <==> PassedOver(log, pick, n, id)
  {
    if Passed(arrivals, n, id) {
      var k :| 0 <= k < |arrivals| && StartsAfter(arrivals[k].packet, n, id);
      assert StartsAfter(log[pick[k]], n, id);
    }
    if PassedOver(log, pick, n, id) {
      var k :| 0 <= k < |pick| && pick[k] < |log| && StartsAfter(log[pick[k]], n, id);
      assert StartsAfter(arrivals[k].packet, n, id);
    }
  }

  // An id that is still in the encoder's window is given up exactly when it was not delivered and a
  // packet whose first id is later has arrived.
  lemma WastedIff<T(!new)>(
    c: EncoderConfig<T>, dc: Config<T>, ops: seq<Op<T>>, pick: seq<nat>, arrivals: seq<Arrival<T>>, id: nat)
    requires Built(c) && Picked(After(c, ops).log, pick, arrivals)
    requires forall k :: 0 <= k < |arrivals| ==> Acceptable(dc, arrivals[k])
    ensures var events, s := Events(dc, arrivals), After(c, ops);
            Contains(s.state.window, id) ==>
              (GivenUp(events, id) <==> !Delivered(events, id) && PassedOver(s.log, pick, dc.symbolSize, id))
  {
    GivenUpIff(dc, arrivals, id);
    PickedPasses(After(c, ops).log, pick, arrivals, dc.symbolSize, id);
  }

  // ---------------------------------------------------------------- a narrower cover

  // Two submissions, a packet over the more recent one, and nothing else arrives: symbol 0 is given
  // up although it is still in the window.
  lemma NarrowCoverWastes<T(!new)>(c: EncoderConfig<T>, dc: Config<T>, X: Sources<T>, n: nat)
    requires Quiet(c) && Matches(c, dc) && IsGenerated(c.F) && SourcesSized(X, c.symbolSize) && n == 2 <= c.capacity
    ensures var s := After(c, ThenCall(X, n, Generating(MostRecent(1))));
            && |s.log| == n + 1 && s.log[n].CodedPacket? && Equations.WellFormed(s.log[n].ev)
            && Contains(s.state.window, 0)
            && Alone(dc, s.log[n]) == [UnrecoverableGap(0, 1)]
  {
    var st, op: Op<T> := Plain(c, X, n).state, Generating(MostRecent(1));
    QuietThen(c, X, n, op);
    FindsInWindow(c, st.window, CoverOf(st, MostRecent(1)));
    assert IdsOf(st.window.symbols) == [0, 1];
    assert CoverOf(st, MostRecent(1)) == [1];
    assert Held(X, n)[0].id == 0;
    OneRun(c, dc, st.at, MakePacket(c, st, [1]).payload);
  }

  lemma OneRun<T(!new)>(c: EncoderConfig<T>, dc: Config<T>, at: Coefficients.Label, payload: seq<T>)
    requires IsGenerated(c.F) && Matches(c, dc) && |payload| == c.symbolSize
    ensures Equations.WellFormed(MakeVector(c, at, [1]))
    ensures Alone(dc, CodedPacket(MakeVector(c, at, [1]), payload)) == [UnrecoverableGap(0, 1)]
  {
    var ev := MakeVector(c, at, [1]);
    VectorFormed(c, at, [1]);
    VectorById(c, at, [1]);
    CoefficientNonzero(c, at, 1);
    SingleCover(c.F, ev, 1);
    LoneRun(dc, ev, 1, Equations.CoefAt(c.F, ev, 0), payload);
  }
}
