// Encoder and decoders coupled by feedback that may be lost, repeated and reordered.

module ClosedLoop {
  import Counting
  import opened Bytes
  import opened Fields
  import opened Keys
  import opened Elimination
  import opened Delivery
  import opened Decoding
  import opened Acks
  import F = Feedback

  // A decoder, and its reports as they come out of the wire.
  datatype Receiver<T> = Receiver(state: State<T>, sent: seq<F.FeedbackPacket>)

  datatype Net<T> = Net(receivers: map<nat, Receiver<T>>, acks: Receivers)

  // A packet arrives at a decoder, or some report of a decoder arrives at the encoder, or neither.
  datatype Move<T> =
    | Arrive(rid: nat, arrival: Arrival<T>)
    | Acknowledge(rid: nat, i: nat)
    | Pause

  function ToPacket(r: Report): F.FeedbackPacket {
    F.FeedbackPacket(r.missing, r.unused, r.firstSrcId, ZERO, F.SackOf(r.firstSrcId, r.acked))
  }

  // See Feedback.ParseSerialise.
  function OnWire(r: Report): F.FeedbackPacket {
    F.Truncated(ToPacket(r))
  }

  function Emitted<T>(events: seq<Event<T>>): (r: seq<F.FeedbackPacket>)
    ensures forall p :: p in r ==>
      exists i :: 0 <= i < |events| && events[i].SendFeedback? && p == OnWire(events[i].report)
  {
    if events == [] then []
    else
      var e := events[|events| - 1];
      var before := Emitted(events[..|events| - 1]);
      assert forall i :: 0 <= i < |events| - 1 ==> events[..|events| - 1][i] == events[i];
      if e.SendFeedback? then before + [OnWire(e.report)] else before
  }

  function ReceiverOf<T>(net: Net<T>, rid: nat): Receiver<T> {
    if rid in net.receivers then net.receivers[rid] else Receiver(Start(), [])
  }

  ghost predicate Possible<T(!new)>(c: Config<T>, net: Net<T>, move: Move<T>) {
    && (forall rid :: rid in net.receivers ==> Sized(c, net.receivers[rid].state))
    && match move
       case Arrive(_, arrival) => Acceptable(c, arrival)
       case Acknowledge(rid, i) => rid in net.receivers && i < |net.receivers[rid].sent|
       case Pause => true
  }

  function NetStep<T(==,!new)>(c: Config<T>, net: Net<T>, move: Move<T>): (r: Net<T>)
    requires Possible(c, net, move)
    ensures forall rid :: rid in r.receivers ==> Sized(c, r.receivers[rid].state)
  {
    match move
    case Arrive(rid, arrival) =>
      var before := ReceiverOf(net, rid);
      var after := Step(c, before.state, arrival);
      StepSized(c, before.state, arrival);
      net.(receivers := net.receivers[rid := Receiver(after.state, before.sent + Emitted(after.events))])
    case Acknowledge(rid, i) =>
      net.(acks := net.acks[rid := Updated(EntryOf(net.acks, rid), net.receivers[rid].sent[i])])
    case Pause => net
  }

  // ---------------------------------------------------------------- what a decoder reports is settled

  // Everything the packet acknowledges is settled in the buffer.
  ghost predicate Honest<T>(p: F.FeedbackPacket, b: Buffer<T>) {
    forall id: nat :: PacketAcks(p, id) ==> Settles(b, id)
  }

  ghost predicate Grows<T>(b: Buffer<T>, later: Buffer<T>) {
    forall id :: Settles(b, id) ==> Settles(later, id)
  }

  lemma StepGrows<T(!new)>(c: Config<T>, st: State<T>, a: Arrival<T>)
    requires Acceptable(c, a) && Sized(c, st)
    ensures Grows(st.buffer, Step(c, st, a).state.buffer)
  {
    match a.packet
    case SourcePacket(id, data) =>
      if |data| == c.symbolSize {
        FinishGrows(AfterSource(c, st, id, data), a.report);
      }
    case CodedPacket(ev, payload) =>
      if |payload| == c.symbolSize {
        FinishGrows(AfterCoded(c, st, ev, payload), a.report);
      }
  }

  lemma FinishGrows<T>(st: State<T>, report: bool)
    ensures Grows(st.buffer, Finish(st, report).state.buffer)
  {
    assert Grows(st.buffer, Drain(st.buffer).buffer);
    assert Grows(Drain(st.buffer).buffer, PassGap(Drain(st.buffer).buffer, st.winMin));
  }

  lemma ReportHonest<T>(rowCount: nat, b: Buffer<T>)
    ensures Honest(OnWire(MakeReport(rowCount, b)), b)
  {
    var r := MakeReport(rowCount, b);
    SortedIn(IdsFrom(b));
    forall id: nat | PacketAcks(OnWire(r), id) ensures Settles(b, id) {
      if id >= r.firstSrcId {
        F.TruncatedAcks(ToPacket(r), id);
        F.SackOfAcks(r.firstSrcId, r.acked, id);
        assert id in Sorted(IdsFrom(b));
      }
    }
  }

  lemma FinishReports<T>(st: State<T>, report: bool)
    ensures forall p :: p in Emitted(Finish(st, report).events) ==> Honest(p, Finish(st, report).state.buffer)
  {
    var r, b := Finish(st, report), Drain(st.buffer).buffer;
    ReportHonest(|st.rows|, b);
    assert Grows(b, r.state.buffer);
    forall p | p in Emitted(r.events) ensures Honest(p, r.state.buffer) {
      var i :| 0 <= i < |r.events| && r.events[i].SendFeedback? && p == OnWire(r.events[i].report);
      OnlyReport(st, report, i);
    }
  }

  lemma OnlyReport<T>(st: State<T>, report: bool, i: nat)
    requires i < |Finish(st, report).events| && Finish(st, report).events[i].SendFeedback?
    ensures Finish(st, report).events[i].report == MakeReport(|st.rows|, Drain(st.buffer).buffer)
  {
    var d := Drain(st.buffer);
    var ready := Ready(d.out);
    assert i >= |ready|;
    assert forall j :: 0 <= j < |Gap<T>(d.buffer.next, st.winMin)| ==>
      Gap<T>(d.buffer.next, st.winMin)[j].UnrecoverableGap?;
  }

  lemma StepReports<T(!new)>(c: Config<T>, st: State<T>, a: Arrival<T>)
    requires Acceptable(c, a) && Sized(c, st)
    ensures forall p :: p in Emitted(Step(c, st, a).events) ==> Honest(p, Step(c, st, a).state.buffer)
  {
    match a.packet
    case SourcePacket(id, data) =>
      if |data| == c.symbolSize {
        FinishReports(AfterSource(c, st, id, data), a.report);
      }
    case CodedPacket(ev, payload) =>
      if |payload| == c.symbolSize {
        FinishReports(AfterCoded(c, st, ev, payload), a.report);
      }
  }

  // ---------------------------------------------------------------- the invariant

  // Reports under way, and what the encoder holds as acknowledged, are settled at the receiver.
  ghost predicate ReceiverSafe<T>(r: Receiver<T>) {
    forall p :: p in r.sent ==> Honest(p, r.state.buffer)
  }

  ghost predicate EntrySafe<T>(e: Entry, b: Buffer<T>) {
    forall id: nat :: EntryAcks(e, id) ==> Settles(b, id)
  }

  ghost predicate Safe<T>(c: Config<T>, net: Net<T>) {
    && (forall rid :: rid in net.receivers ==> Sized(c, net.receivers[rid].state) && ReceiverSafe(net.receivers[rid]))
    && (forall rid :: rid in net.acks ==>
          rid in net.receivers && EntrySafe(net.acks[rid], net.receivers[rid].state.buffer))
  }

  lemma NetStepSafe<T(!new)>(c: Config<T>, net: Net<T>, move: Move<T>)
    requires Safe(c, net) && Possible(c, net, move)
    ensures Safe(c, NetStep(c, net, move))
  {
    match move
    case Arrive(rid, arrival) => ArriveSafe(c, net, rid, arrival);
    case Acknowledge(rid, i) =>
      var e, p := EntryOf(net.acks, rid), net.receivers[rid].sent[i];
      forall id ensures EntryAcks(Updated(e, p), id) <==> EntryAcks(e, id) || PacketAcks(p, id) {
        UpdatedAcks(e, p, id);
      }
      assert Honest(p, net.receivers[rid].state.buffer);
    case Pause =>
  }

  lemma ArriveSafe<T(!new)>(c: Config<T>, net: Net<T>, rid: nat, arrival: Arrival<T>)
    requires Safe(c, net) && Possible(c, net, Arrive(rid, arrival))
    ensures Safe(c, NetStep(c, net, Arrive(rid, arrival)))
  {
    var r, net' := ReceiverOf(net, rid), NetStep(c, net, Arrive(rid, arrival));
    StepGrows(c, r.state, arrival);
    StepReports(c, r.state, arrival);
    assert ReceiverSafe(net'.receivers[rid]) by {
      forall p | p in net'.receivers[rid].sent ensures Honest(p, net'.receivers[rid].state.buffer) {
        assert p in r.sent ==> Honest(p, r.state.buffer);
      }
    }
  }

  ghost predicate Path<T(!new)>(c: Config<T>, nets: seq<Net<T>>, moves: seq<Move<T>>) {
    && |nets| == |moves| + 1 && nets[0] == Net(map[], map[])
    && forall k :: 0 <= k < |moves| ==> Possible(c, nets[k], moves[k]) && nets[k + 1] == NetStep(c, nets[k], moves[k])
  }

  lemma {:induction false} PathSafe<T(!new)>(c: Config<T>, nets: seq<Net<T>>, moves: seq<Move<T>>, k: nat)
    requires Path(c, nets, moves) && k < |nets|
    ensures Safe(c, nets[k])
  {
    if k > 0 {
      PathSafe(c, nets, moves, k - 1);
      NetStepSafe(c, nets[k - 1], moves[k - 1]);
    }
  }

  // ---------------------------------------------------------------- what the encoder may drop

  ghost function SettledAt<T>(net: Net<T>, id: nat): set<nat> {
    set rid | rid in net.receivers && Settles(net.receivers[rid].state.buffer, id)
  }

  // In any run: the all-policy drops a symbol only when it is settled at every receiver heard of,
  // the any-policy when it is settled at one of them, a quorum when it is settled at that many.
  lemma DropsAreSettled<T(!new)>(
    c: Config<T>, nets: seq<Net<T>>, moves: seq<Move<T>>, k: nat, policy: WindowPolicy, id: nat)
    requires Path(c, nets, moves) && k < |nets| && Drops(policy, nets[k].acks, id)
    ensures policy == AllAck ==> nets[k].acks.Keys <= SettledAt(nets[k], id)
    ensures policy == AnyAck ==> nets[k].acks.Keys * SettledAt(nets[k], id) != {}
    ensures policy.QuorumAck? ==> policy.quorum <= |SettledAt(nets[k], id)|
  {
    var net := nets[k];
    PathSafe(c, nets, moves, k);
    var acked := AckedBy(net.acks, id);
    forall rid | rid in acked ensures rid in SettledAt(net, id) {
      assert EntrySafe(net.acks[rid], net.receivers[rid].state.buffer);
    }
    assert acked <= SettledAt(net, id);
    Counting.SubsetCard(acked, SettledAt(net, id));
    if policy == AnyAck {
      var rid :| rid in net.acks && IsAcked(net.acks, rid, id);
      assert rid in acked;
      assert rid in net.acks.Keys * SettledAt(net, id);
    }
    if policy == AllAck {
      assert forall rid :: rid in net.acks ==> rid in acked;
    }
  }
}
