// What a window policy comes to over a session: enough of the receivers heard of have acknowledged.

module Policies {
  import Counting
  import opened Fields
  import opened Elimination
  import opened Windows
  import opened Decoding
  import opened Acks
  import opened Encoding
  import opened Sessions
  import F = Feedback

  // How many of the receivers must acknowledge a symbol before it goes.
  function Needed(policy: WindowPolicy, heard: nat): nat {
    match policy
    case AnyAck => 1
    case AllAck => if heard == 0 then 1 else heard
    case QuorumAck(quorum) => quorum
  }

  lemma DropsIffEnough(policy: WindowPolicy, receivers: Receivers, id: nat)
    ensures Drops(policy, receivers, id) <==> |AckedBy(receivers, id)| >= Needed(policy, |receivers|)
  {
    QuorumExtremes(receivers, id);
  }

  // ---------------------------------------------------------------- what a session has heard

  ghost function HeardOf<T>(ops: seq<Op<T>>): set<nat> {
    set i | 0 <= i < |ops| && ops[i].Hearing? :: ops[i].rid
  }

  ghost predicate Acker<T>(ops: seq<Op<T>>, rid: nat, id: nat) {
    exists i :: 0 <= i < |ops| && ops[i].Hearing? && ops[i].rid == rid && PacketAcks(ops[i].pkt, id)
  }

  // The receivers that acknowledged an id in some report.
  ghost function Ackers<T>(ops: seq<Op<T>>, id: nat): set<nat> {
    set rid | rid in HeardOf(ops) && Acker(ops, rid, id)
  }

  lemma HearingMore<T>(init: seq<Op<T>>, op: Op<T>, rid: nat, id: nat)
    ensures HeardOf(init + [op]) == HeardOf(init) + if op.Hearing? then {op.rid} else {}
    ensures Acker(init + [op], rid, id)
       <==> Acker(init, rid, id) || (op.Hearing? && op.rid == rid && PacketAcks(op.pkt, id))
  {
    var ops := init + [op];
    assert ops[|init|] == op && forall i :: 0 <= i < |init| ==> ops[i] == init[i];
  }

  // Only a report changes an entry, and only its sender's.
  ghost function EntriesWith<T>(before: Receivers, op: Op<T>): Receivers {
    if op.Hearing? then before[op.rid := Updated(EntryOf(before, op.rid), op.pkt)] else before
  }

  lemma EntriesAfter<T(!new)>(c: EncoderConfig<T>, s: Session<T>, op: Op<T>)
    requires Built(c) && Sane(c, s.state.window)
    ensures Apply(c, s, op).state.receivers == EntriesWith(s.state.receivers, op)
  {
  }

  lemma EntryMore<T>(before: Receivers, init: seq<Op<T>>, op: Op<T>, rid: nat, id: nat)
    requires before.Keys == HeardOf(init) && (IsAcked(before, rid, id) <==> Acker(init, rid, id))
    ensures var after := EntriesWith(before, op);
            after.Keys == HeardOf(init + [op]) && (IsAcked(after, rid, id) <==> Acker(init + [op], rid, id))
  {
    HearingMore(init, op, rid, id);
    if op.Hearing? {
      UpdatedAcks(EntryOf(before, op.rid), op.pkt, id);
    }
  }

  // The entries are what was heard, whatever else happened in between.
  lemma {:induction false} EntriesAreHeard<T(!new)>(c: EncoderConfig<T>, ops: seq<Op<T>>, rid: nat, id: nat)
    requires Built(c)
    ensures var receivers := After(c, ops).state.receivers;
            receivers.Keys == HeardOf(ops) && (IsAcked(receivers, rid, id) <==> Acker(ops, rid, id))
  {
    if ops != [] {
      var init, op := ops[..|ops| - 1], ops[|ops| - 1];
      assert ops == init + [op];
      EntriesAreHeard(c, init, rid, id);
      EntriesAfter(c, After(c, init), op);
      EntryMore(After(c, init).state.receivers, init, op, rid, id);
    }
  }

  // In any session, a report takes out of the window the ids that enough receivers have acknowledged by
  // then, in all they reported, and no others.
  lemma HeardIsDropped<T(!new)>(c: EncoderConfig<T>, ops: seq<Op<T>>, rid: nat, pkt: F.FeedbackPacket, id: nat)
    requires Built(c)
    ensures var more := ops + [Hearing(rid, pkt)];
            var enough := |Ackers(more, id)| >= Needed(c.policy, |HeardOf(more)|);
            Contains(After(c, more).state.window, id) <==> Contains(After(c, ops).state.window, id) && !enough
  {
    var s, more := After(c, ops), ops + [Hearing(rid, pkt)];
    assert more[..|ops|] == ops;
    HearingDrops(c, s, rid, pkt, id);
    var receivers := After(c, more).state.receivers;
    DropsIffEnough(c.policy, receivers, id);
    forall r: nat ensures receivers.Keys == HeardOf(more) && (IsAcked(receivers, r, id) <==> Acker(more, r, id)) {
      EntriesAreHeard(c, more, r, id);
    }
    assert AckedBy(receivers, id) == Ackers(more, id);
    assert |receivers| == |receivers.Keys|;
  }

  // One report against the entries after it.
  lemma HearingDrops<T(!new)>(c: EncoderConfig<T>, s: Session<T>, rid: nat, pkt: F.FeedbackPacket, id: nat)
    requires Built(c) && Sane(c, s.state.window)
    ensures var r := Apply(c, s, Hearing(rid, pkt));
            && (Contains(r.state.window, id)
                <==> Contains(s.state.window, id) && !Drops(c.policy, r.state.receivers, id))
            && (id in r.removed <==> id in s.removed || (Contains(s.state.window, id) && !Contains(r.state.window, id)))
  {
    var w, r := s.state.window, Apply(c, s, Hearing(rid, pkt));
    var gone := SymbolsToRemove(c.policy, r.state.receivers, IdsOf(w.symbols));
    Membership(w, [], gone, id);
    ContainsIds(w, id);
    ContainsIds(r.state.window, id);
  }
}
