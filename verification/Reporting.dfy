// What a report says of the decoder, and what the encoder has learned once it hears it.

module Reporting {
  import opened Bytes
  import opened Fields
  import opened Keys
  import opened Counting
  import opened Elimination
  import opened Delivery
  import opened Decoding
  import opened Acks
  import opened ClosedLoop
  import opened Settlement
  import F = Feedback

  // ---------------------------------------------------------------- the report and the buffer

  ghost predicate Highest<T>(b: Buffer<T>, high: nat) {
    high in b.symbols && forall id :: id in b.symbols ==> id <= high
  }

  // The ids from the pointer to the highest that are not buffered.
  ghost function Holes<T>(b: Buffer<T>, high: nat): set<nat> {
    set id | b.next <= id <= high && id !in b.symbols
  }

  // Among the first 256 buffered ids.
  ghost predicate Early<T>(b: Buffer<T>, id: nat) {
    id in b.symbols && |Below(b.symbols.Keys, id)| < 256
  }

  // The pointer, the number of rows, the holes in front of the highest buffered id (one if nothing is
  // buffered), and the first 256 buffered ids.
  ghost predicate Tells<T>(r: Report, rowCount: nat, b: Buffer<T>) {
    && r.firstSrcId == b.next && r.unused == rowCount
    && (b.symbols == map[] ==> r.missing == 1)
    && (forall high :: Highest(b, high) ==> r.missing == |Holes(b, high)|)
    && (forall id :: id in r.acked <==> Early(b, id))
  }

  lemma MissingIsHoles<T>(b: Buffer<T>, high: nat)
    requires Ahead(b) && Highest(b, high)
    ensures CountMissing(b) == |Holes(b, high)|
  {
    var ids, keys := Sorted(b.symbols.Keys), b.symbols.Keys;
    SortedEnumerates(keys);
    assert ids[|ids| - 1] == high by {
      var k :| 0 <= k < |ids| && ids[k] == high;
    }
    assert IdsFrom(b) == keys;
    var all := Span(b.next, high + 1);
    assert keys <= all && Holes(b, high) == all - keys;
    assert |all - keys| == |all| - |keys|;
  }

  lemma EmptyMisses<T>(b: Buffer<T>)
    requires b.symbols == map[]
    ensures CountMissing(b) == 1
  {
    assert b.symbols.Keys == {};
    assert IdsFrom(b) == {};
  }

  lemma AckedAreEarly<T>(rowCount: nat, b: Buffer<T>, id: nat)
    requires Ahead(b)
    ensures id in MakeReport(rowCount, b).acked <==> Early(b, id)
  {
    var ids := Sorted(b.symbols.Keys);
    assert IdsFrom(b) == b.symbols.Keys;
    if |ids| > 256 {
      FirstOnes(b.symbols.Keys, 256, id);
    } else {
      FirstOnes(b.symbols.Keys, |ids|, id);
      assert ids[..|ids|] == ids;
      SortedMembers(b.symbols.Keys);
    }
  }

  lemma ReportTells<T>(rowCount: nat, b: Buffer<T>)
    requires Ahead(b)
    ensures Tells(MakeReport(rowCount, b), rowCount, b)
  {
    var r := MakeReport(rowCount, b);
    if b.symbols == map[] {
      EmptyMisses(b);
    }
    forall high | Highest(b, high) ensures r.missing == |Holes(b, high)| {
      MissingIsHoles(b, high);
    }
    forall id ensures id in r.acked <==> Early(b, id) {
      AckedAreEarly(rowCount, b, id);
    }
  }

  // ---------------------------------------------------------------- the events of a packet

  // The state once the packet is taken in, before anything is delivered.
  ghost function TakenIn<T(!new)>(c: Config<T>, st: State<T>, a: Arrival<T>): State<T>
    requires Acceptable(c, a) && Sized(c, st)
  {
    match a.packet
    case SourcePacket(id, data) => if |data| == c.symbolSize then AfterSource(c, st, id, data) else st
    case CodedPacket(ev, payload) => if |payload| == c.symbolSize then AfterCoded(c, st, ev, payload) else st
  }

  ghost predicate RightSize<T>(c: Config<T>, a: Arrival<T>) {
    match a.packet
    case SourcePacket(_, data) => |data| == c.symbolSize
    case CodedPacket(_, payload) => |payload| == c.symbolSize
  }

  // The buffer when the report is made: everything deliverable has been delivered.
  ghost function AtReport<T(!new)>(c: Config<T>, st: State<T>, a: Arrival<T>): Buffer<T>
    requires Acceptable(c, a) && Sized(c, st)
  {
    Drain(TakenIn(c, st, a).buffer).buffer
  }

  // Deliveries, the report, a gap.
  ghost predicate InTurn<T>(events: seq<Event<T>>, i: nat)
    requires i < |events|
  {
    && events[i].SendFeedback?
    && (forall j :: 0 <= j < i ==> events[j].SourceReady?)
    && (forall j :: i < j < |events| ==> events[j].UnrecoverableGap?)
  }

  // A packet of the right size is answered by one report if one is due, of what is left after the
  // deliveries; otherwise there is none.
  lemma StepTells<T(!new)>(c: Config<T>, st: State<T>, a: Arrival<T>)
    requires Acceptable(c, a) && Sized(c, st) && Ahead(st.buffer)
    ensures var events, b := Step(c, st, a).events, AtReport(c, st, a);
            && (a.report && RightSize(c, a) ==>
                  var i := b.next - st.buffer.next;
                  && 0 <= i < |events| && InTurn(events, i)
                  && Tells(events[i].report, |Step(c, st, a).state.rows|, b))
            && (!(a.report && RightSize(c, a)) ==> forall i :: 0 <= i < |events| ==> !events[i].SendFeedback?)
  {
    if RightSize(c, a) {
      StepIsFinish(c, st, a);
      FinishTells(TakenIn(c, st, a), a.report);
    }
  }

  lemma StepIsFinish<T(!new)>(c: Config<T>, st: State<T>, a: Arrival<T>)
    requires Acceptable(c, a) && Sized(c, st) && Ahead(st.buffer) && RightSize(c, a)
    ensures Step(c, st, a) == Finish(TakenIn(c, st, a), a.report)
    ensures Ahead(TakenIn(c, st, a).buffer) && TakenIn(c, st, a).buffer.next == st.buffer.next
  {
  }

  lemma FinishTells<T>(st: State<T>, wanted: bool)
    requires Ahead(st.buffer)
    ensures var r, b := Finish(st, wanted), Drain(st.buffer).buffer;
            var i := b.next - st.buffer.next;
            && r.state.rows == st.rows
            && (wanted ==> 0 <= i < |r.events| && InTurn(r.events, i) && Tells(r.events[i].report, |st.rows|, b))
            && (!wanted ==> forall i :: 0 <= i < |r.events| ==> !r.events[i].SendFeedback?)
  {
    var d := Drain(st.buffer);
    FinishIs(st, wanted, d);
    ReportTells(|st.rows|, d.buffer);
  }

  // ---------------------------------------------------------------- on the wire

  ghost predicate LastEarly<T>(b: Buffer<T>, top: nat) {
    Early(b, top) && forall id: nat :: Early(b, id) ==> id <= top
  }

  // What a report of this buffer acknowledges once it has crossed: everything below the pointer, and the
  // first 256 buffered ids, as far as the length of the vector mod 256 reaches.
  ghost predicate Reportable<T>(b: Buffer<T>, id: nat) {
    || id < b.next
    || (Early(b, id) && forall top: nat :: LastEarly(b, top) ==> InVector(b.next, id, top))
  }

  ghost predicate InVector(next: nat, id: nat, top: nat)
    requires next <= top && next <= id
  {
    (id - next) / 8 < ((top - next) / 8 + 1) % 256
  }

  lemma WireTells<T>(r: Report, rowCount: nat, b: Buffer<T>, id: nat)
    requires Ahead(b) && Tells(r, rowCount, b)
    ensures PacketAcks(OnWire(r), id) <==> Reportable(b, id)
  {
    var sack := F.SackOf(b.next, r.acked);
    F.SackOfAcks(b.next, r.acked, id);
    CutVector(ToPacket(r), id);
    if Early(b, id) {
      var top := F.Max(r.acked);
      assert LastEarly(b, top);
      assert |sack| == (top - b.next) / 8 + 1;
      forall other: nat | LastEarly(b, other) ensures other == top {
        assert Early(b, top) && Early(b, other);
      }
    }
  }

  lemma CutVector(p: F.FeedbackPacket, id: nat)
    ensures PacketAcks(F.Truncated(p), id)
       <==> id < p.firstSrcId || (F.IsAcked(p.sack, p.firstSrcId, id) && (id - p.firstSrcId) / 8 < |p.sack| % 256)
  {
    if id >= p.firstSrcId && (id - p.firstSrcId) / 8 < |p.sack| % 256 {
      assert F.Truncated(p).sack[(id - p.firstSrcId) / 8] == p.sack[(id - p.firstSrcId) / 8];
    }
  }

  // The limits are those: with at most 256 symbols buffered, all within 2040 ids of the pointer, a report
  // acknowledges everything that is settled.
  lemma ReportsAll<T>(b: Buffer<T>, id: nat)
    requires Ahead(b) && |b.symbols| <= 256 && forall id :: id in b.symbols ==> id < b.next + 2040
    ensures Reportable(b, id) <==> Settles(b, id)
  {
    if id in b.symbols {
      var low, keys := Below(b.symbols.Keys, id), b.symbols.Keys;
      assert |keys| == |b.symbols|;
      SubsetCard(low + {id}, keys);
      assert id !in low;
      forall top: nat | LastEarly(b, top) ensures InVector(b.next, id, top) {
        assert top in b.symbols && Early(b, id);
        Quotients(id - b.next, top - b.next);
      }
    }
  }

  lemma Quotients(x: nat, y: nat)
    requires x <= y < 2040
    ensures x / 8 <= y / 8 < 255
  {
  }

  // ---------------------------------------------------------------- reports under way

  // A receiver's buffer is never behind its pointer.
  ghost predicate AllAhead<T>(net: Net<T>) {
    forall rid :: rid in net.receivers ==> Ahead(net.receivers[rid].state.buffer)
  }

  lemma {:induction false} PathAhead<T(!new)>(c: Config<T>, nets: seq<Net<T>>, moves: seq<Move<T>>, k: nat)
    requires Path(c, nets, moves) && k < |nets|
    ensures AllAhead(nets[k])
  {
    if k > 0 {
      PathAhead(c, nets, moves, k - 1);
      match moves[k - 1]
      case Arrive(rid, arrival) => StepTiles(c, ReceiverOf(nets[k - 1], rid).state, arrival);
      case Acknowledge(_, _) =>
      case Pause =>
    }
  }

  // The wire packets among events of which only the i-th is a report.
  lemma {:induction false} OneEmitted<T>(events: seq<Event<T>>, i: nat)
    requires i < |events| && InTurn(events, i)
    ensures Emitted(events) == [OnWire(events[i].report)]
  {
    var init := events[..|events| - 1];
    if i == |events| - 1 {
      assert events[i].SendFeedback?;
      NoneEmitted(init);
    } else {
      assert InTurn(init, i);
      OneEmitted(init, i);
    }
  }

  lemma {:induction false} NoneEmitted<T>(events: seq<Event<T>>)
    requires forall i :: 0 <= i < |events| ==> !events[i].SendFeedback?
    ensures Emitted(events) == []
  {
    if events != [] {
      NoneEmitted(events[..|events| - 1]);
    }
  }

  // The packet that goes out when a report is due acknowledges what is reportable of the buffer then.
  ghost predicate SaysOf<T>(p: F.FeedbackPacket, b: Buffer<T>) {
    forall id: nat :: PacketAcks(p, id) <==> Reportable(b, id)
  }

  lemma StepEmits<T(!new)>(c: Config<T>, st: State<T>, a: Arrival<T>)
    requires Acceptable(c, a) && Sized(c, st) && Ahead(st.buffer)
    ensures var sent := Emitted(Step(c, st, a).events);
            && (a.report && RightSize(c, a) ==> |sent| == 1 && SaysOf(sent[0], AtReport(c, st, a)))
            && (!(a.report && RightSize(c, a)) ==> sent == [])
  {
    StepTells(c, st, a);
    var events, b := Step(c, st, a).events, AtReport(c, st, a);
    if a.report && RightSize(c, a) {
      var i := b.next - st.buffer.next;
      OneEmitted(events, i);
      DrainedAhead(c, st, a);
      forall id: nat ensures PacketAcks(OnWire(events[i].report), id) <==> Reportable(b, id) {
        WireTells(events[i].report, |Step(c, st, a).state.rows|, b, id);
      }
    } else {
      NoneEmitted(events);
    }
  }

  lemma DrainedAhead<T(!new)>(c: Config<T>, st: State<T>, a: Arrival<T>)
    requires Acceptable(c, a) && Sized(c, st) && Ahead(st.buffer) && RightSize(c, a)
    ensures Ahead(AtReport(c, st, a))
  {
    StepIsFinish(c, st, a);
  }

  ghost function SentBy<T>(net: Net<T>, rid: nat): seq<F.FeedbackPacket> {
    ReceiverOf(net, rid).sent
  }

  lemma {:induction false} SentStays<T(!new)>(
    c: Config<T>, nets: seq<Net<T>>, moves: seq<Move<T>>, k: nat, m: nat, rid: nat)
    requires Path(c, nets, moves) && k <= m < |nets|
    ensures SentBy(nets[k], rid) <= SentBy(nets[m], rid)
    decreases m
  {
    if k < m {
      SentStays(c, nets, moves, k, m - 1, rid);
      SentOnce(c, nets[m - 1], moves[m - 1], rid);
    }
  }

  lemma SentOnce<T(!new)>(c: Config<T>, net: Net<T>, move: Move<T>, rid: nat)
    requires Possible(c, net, move)
    ensures SentBy(net, rid) <= SentBy(NetStep(c, net, move), rid)
  {
  }

  // The packet that a due report adds to those of its receiver.
  lemma ArriveSends<T(!new)>(c: Config<T>, net: Net<T>, rid: nat, a: Arrival<T>)
    requires Possible(c, net, Arrive(rid, a)) && AllAhead(net) && a.report && RightSize(c, a)
    ensures Sized(c, ReceiverOf(net, rid).state)
    ensures var i, sent := |SentBy(net, rid)|, SentBy(NetStep(c, net, Arrive(rid, a)), rid);
            |sent| == i + 1 && SaysOf(sent[i], AtReport(c, ReceiverOf(net, rid).state, a))
  {
    StepEmits(c, ReceiverOf(net, rid).state, a);
  }

  // Over any run: once the encoder hears the report that a packet at a decoder called for, it holds as
  // acknowledged what it held, and what was reportable there when the report was made; nothing else.
  lemma HeardIsAcked<T(!new)>(
    c: Config<T>, nets: seq<Net<T>>, moves: seq<Move<T>>, k: nat, m: nat, rid: nat, a: Arrival<T>, id: nat)
    requires Path(c, nets, moves) && k < m < |moves|
    requires moves[k] == Arrive(rid, a) && a.report && RightSize(c, a)
    requires moves[m] == Acknowledge(rid, |SentBy(nets[k], rid)|)
    ensures Acceptable(c, a) && Sized(c, ReceiverOf(nets[k], rid).state)
    ensures IsAcked(nets[m + 1].acks, rid, id)
       <==> IsAcked(nets[m].acks, rid, id) || Reportable(AtReport(c, ReceiverOf(nets[k], rid).state, a), id)
  {
    var i := |SentBy(nets[k], rid)|;
    PathAhead(c, nets, moves, k);
    ArriveSends(c, nets[k], rid, a);
    SentStays(c, nets, moves, k + 1, m, rid);
    assert SentBy(nets[m], rid)[i] == SentBy(nets[k + 1], rid)[i];
    HearsPacket(c, nets[m], moves[m], nets[m + 1], rid, i, id);
  }

  lemma HearsPacket<T(!new)>(
    c: Config<T>, net: Net<T>, move: Move<T>, after: Net<T>, rid: nat, i: nat, id: nat)
    requires move == Acknowledge(rid, i) && Possible(c, net, move) && after == NetStep(c, net, move)
    ensures IsAcked(after.acks, rid, id) <==> IsAcked(net.acks, rid, id) || PacketAcks(SentBy(net, rid)[i], id)
  {
    UpdatedAcks(EntryOf(net.acks, rid), SentBy(net, rid)[i], id);
  }
}
